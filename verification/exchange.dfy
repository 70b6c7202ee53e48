/** What the Taiwan Stock Exchange (TWSE) and the Taipei Exchange (TPEX)
    scrapers share: the daily trading rows dated in the ROC calendar and
    searched for the queried day, and the records both exchanges publish. */
module Exchange {
  import opened Js
  import opened Text
  import opened Calendar
  import opened Sheet

  /** One day of market trading figures. */
  datatype MarketTrades = MarketTrades(date: Date, tradeVolume: Num, tradeValue: Num,
                                       transaction: Num, price: Num, change: Num)

  function TradesList(m: MarketTrades): seq<Num>
  {
    [m.tradeVolume, m.tradeValue, m.transaction, m.price, m.change]
  }

  /** A row of the daily trading feed whose ROC date converts to the
      queried ISO date. */
  predicate IsRocRowOn(row: Row, query: string)
  {
    |row| > 0 && RocToDate(row[0]).Some? && IsoString(RocToDate(row[0]).value) == query
  }

  /** `const [date, ...values] = row` and the five figures read by position
      from `values`, `undefined` where the row is short. */
  function TradesOf(parse: string -> int, row: Row, d: Date): (m: MarketTrades)
    requires |row| > 0
    ensures m.date == d
    ensures forall k :: 0 <= k < 5 ==>
      TradesList(m)[k] == if k + 1 < |row| then Int(Numeral(parse, row[k + 1])) else Undef
  {
    var v := ParseCells(parse, row[1..]);
    MarketTrades(d, At(v, 0), At(v, 1), At(v, 2), At(v, 3), At(v, 4))
  }

  /** Index of the first row dated on the query: `Js.FirstIndex` with the
      ROC date reader. `Usdt.FirstRowOn` is the same search with the US
      date reader; each is stated with its own row predicate, so that the
      lemmas about each report speak of the dates that report writes. */
  function FirstRowOn(rows: Table, query: string): (r: Option<nat>)
    ensures r.Some? ==> r.value < |rows| && IsRocRowOn(rows[r.value], query)
    ensures r.Some? ==> forall j :: 0 <= j < r.value ==> !IsRocRowOn(rows[j], query)
    ensures r.None? <==> forall j :: 0 <= j < |rows| ==> !IsRocRowOn(rows[j], query)
  {
    FirstIndex(rows, row => IsRocRowOn(row, query))
  }

  /** The `rows.map(...).find(data => data.date === date) || null` of both
      exchanges' `fetchMarketTrades`: every row is converted first, so an
      empty row throws on `date.split`; then the first row dated on the
      query is returned, or `null`. */
  function DailyTrades(parse: string -> int, rows: Table, query: string): (r: Outcome<MarketTrades>)
    ensures r.Thrown? <==> HasEmptyRow(rows)
    ensures r.Null? <==> !HasEmptyRow(rows) && forall i :: 0 <= i < |rows| ==> !IsRocRowOn(rows[i], query)
    ensures r.Value? ==>
      var i := FirstRowOn(rows, query).value;
      r.value == TradesOf(parse, rows[i], RocToDate(rows[i][0]).value)
    ensures r.Value? ==> Writable(r.value.date) && IsoString(r.value.date) == query
    ensures !r.Undefined?
  {
    if HasEmptyRow(rows) then Thrown
    else match FirstRowOn(rows, query)
      case None => Null
      case Some(i) => Value(TradesOf(parse, rows[i], RocToDate(rows[i][0]).value))
  }

  /** A row dated with the ROC rendering of a calendar date `d` (Gregorian
      year of four digits) is on exactly one ISO date, `d`'s. */
  lemma RocRowOnIff(row: Row, d: Date, query: string)
    requires Writable(d) && 1000 <= d.year
    requires |row| > 0 && row[0] == RocDayQuery(d)
    ensures IsRocRowOn(row, query) <==> query == IsoString(d)
  {
    RocDayQueryRoundTrip(d);
  }

  /** On the feed's layout (a date and five figures per row), when row `i`
      is dated with the ROC rendering of the queried day and no earlier row
      converts to that day, the day's record is row `i`'s five figures. */
  lemma DailyTradesCells(parse: string -> int, rows: Table, query: string, i: nat, d: Date)
    requires forall r :: 0 <= r < |rows| ==> |rows[r]| == 6
    requires i < |rows| && Writable(d) && 1000 <= d.year && rows[i][0] == RocDayQuery(d) && IsoString(d) == query
    requires forall r :: 0 <= r < i ==> !IsRocRowOn(rows[r], query)
    ensures var r := DailyTrades(parse, rows, query);
      && r.Value? && r.value.date == d
      && forall k :: 0 <= k < 5 ==> TradesList(r.value)[k] == Int(Numeral(parse, rows[i][k + 1]))
  {
    RocDayQueryRoundTrip(d);
    assert IsRocRowOn(rows[i], query);
    var first := FirstRowOn(rows, query);
    assert first.Some? && first.value == i;
    assert !HasEmptyRow(rows);
  }

  /** Advancing and declining issues. `unchanged` is a Dafny keyword, so
      that field is named `unchangedIssues` here. */
  datatype Breadth = Breadth(up: Num, limitUp: Num, down: Num, limitDown: Num,
                             unchangedIssues: Num, unmatched: Num)

  /** Buy, sell and net-buy amounts of one investor category. */
  datatype Flow = Flow(buy: Num, sell: Num, net: Num)

  /** Destructuring three consecutive values starting at `3 * g`. */
  function FlowAt(raw: seq<Num>, g: nat): Flow
  {
    Flow(At(raw, 3 * g), At(raw, 3 * g + 1), At(raw, 3 * g + 2))
  }

  /** The category-wise sum of two flows, as JavaScript's `+` computes it. */
  function FlowSum(a: Flow, b: Flow): Flow
  {
    Flow(Add(a.buy, b.buy), Add(a.sell, b.sell), Add(a.net, b.net))
  }

  /** The flow a feed row states after its label cell. */
  function RowFlow(parse: string -> int, plus: string -> Num, row: Row): Flow
    requires |row| == 4
  {
    Flow(NumeralOrPlus(parse, plus, row[1]), NumeralOrPlus(parse, plus, row[2]), NumeralOrPlus(parse, plus, row[3]))
  }

  /** The flows of rows of exactly four cells, label dropped, flattened and
      parsed: flow `g` is the one row `g` states. */
  lemma FlowCells(parse: string -> int, plus: string -> Num, rows: Table, g: nat)
    requires forall r :: 0 <= r < |rows| ==> |rows[r]| == 4
    requires g < |rows|
    ensures FlowAt(ParseCellsOrPlus(parse, plus, FlattenFrom(rows, 1)), g) == RowFlow(parse, plus, rows[g])
  {
    FlattenFromAt(rows, 1, 3, g, 0, g * 3 + 0);
    FlattenFromAt(rows, 1, 3, g, 1, g * 3 + 1);
    FlattenFromAt(rows, 1, 3, g, 2, g * 3 + 2);
  }

  /** The seven investor categories both exchanges report. */
  datatype InstTrades = InstTrades(
    foreignDealersExcluded: Flow, foreignDealers: Flow, foreignInvestors: Flow,
    sitc: Flow, dealersProprietary: Flow, dealersHedge: Flow, dealers: Flow)

  /** Margin purchase and short sale balances, with their changes. */
  datatype Margin = Margin(marginBalance: Num, marginBalanceChange: Num,
                           marginBalanceValue: Num, marginBalanceValueChange: Num,
                           shortBalance: Num, shortBalanceChange: Num)

  /** The margin record from today's and the previous day's balances: each
      change is today's balance minus the previous one. */
  function MarginOf(balance: Num, balancePrev: Num, value: Num, valuePrev: Num,
                    short: Num, shortPrev: Num): Margin
  {
    Margin(balance, Sub(balance, balancePrev), value, Sub(value, valuePrev), short, Sub(short, shortPrev))
  }
}
