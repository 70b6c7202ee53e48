/** The TAIFEX (Taiwan Futures Exchange) reports, from the tokenised CSV
    download to the record the scraper returns: institutional investors'
    futures and options trades, the large traders' futures and options
    positions, and the retail position in mini TAIEX futures (MXF). */
module Taifex {
  import opened Js
  import opened Text
  import opened Sheet
  import opened Decompose

  /** Header token of a report with data for the queried day. */
  const DateHeader: string := "日期"
  /** Header token of the daily market report. */
  const TradeDateHeader: string := "交易日期"
  /** Trading-session label of the regular (day) session. */
  const DaySession: string := "一般"

  /* ---------------- Institutional investors' trades ---------------- */

  /** The twelve figures of one institutional investor in one contract, in
      report order. */
  datatype Figures = Figures(
    longTradeVolume: Num, longTradeValue: Num, shortTradeVolume: Num, shortTradeValue: Num,
    netTradeVolume: Num, netTradeValue: Num, longOiVolume: Num, longOiValue: Num,
    shortOiVolume: Num, shortOiValue: Num, netOiVolume: Num, netOiValue: Num)

  function FiguresList(f: Figures): seq<Num>
  {
    [f.longTradeVolume, f.longTradeValue, f.shortTradeVolume, f.shortTradeValue,
     f.netTradeVolume, f.netTradeValue, f.longOiVolume, f.longOiValue,
     f.shortOiVolume, f.shortOiValue, f.netOiVolume, f.netOiValue]
  }

  /** Destructuring twelve consecutive values of `raw`, starting at `12 * g`. */
  function FiguresAt(raw: seq<Num>, g: nat): (f: Figures)
    ensures forall k :: 0 <= k < 12 ==> FiguresList(f)[k] == At(raw, 12 * g + k)
  {
    Figures(At(raw, 12 * g), At(raw, 12 * g + 1), At(raw, 12 * g + 2), At(raw, 12 * g + 3),
            At(raw, 12 * g + 4), At(raw, 12 * g + 5), At(raw, 12 * g + 6), At(raw, 12 * g + 7),
            At(raw, 12 * g + 8), At(raw, 12 * g + 9), At(raw, 12 * g + 10), At(raw, 12 * g + 11))
  }

  /** With every row of exactly `cut + 12` cells, the figures destructured
      at group `g` of the concatenated, parsed rows are the parsed cells of
      row `g` after the cut. */
  lemma FiguresCells(parse: string -> int, rows: Table, cut: nat, g: nat, k: nat)
    requires forall r :: 0 <= r < |rows| ==> |rows[r]| == cut + 12
    requires g < |rows| && k < 12
    ensures FiguresList(FiguresAt(ParseCells(parse, FlattenFrom(rows, cut)), g))[k]
         == Int(Numeral(parse, rows[g][cut + k]))
  {
    var raw := ParseCells(parse, FlattenFrom(rows, cut));
    FlattenFromAt(rows, cut, 12, g, k, g * 12 + k);
    assert 12 * g + k == g * 12 + k;
    assert raw[12 * g + k] == Int(Numeral(parse, rows[g][cut + k]));
    assert FiguresList(FiguresAt(raw, g))[k] == At(raw, 12 * g + k);
  }

  datatype FuturesTrades = FuturesTrades(dealers: Figures, sitc: Figures, fini: Figures)

  /** Investor `g` in report row order: dealers, investment trusts (SITC),
      foreign institutional investors (FINI). */
  function Investor(tr: FuturesTrades, g: nat): Figures
    requires g < 3
  {
    if g == 0 then tr.dealers else if g == 1 then tr.sitc else tr.fini
  }

  /** Investor `g` of the figures destructured from `raw` is group `g`. */
  lemma InvestorAt(tr: FuturesTrades, raw: seq<Num>, g: nat)
    requires tr == FuturesTrades(FiguresAt(raw, 0), FiguresAt(raw, 1), FiguresAt(raw, 2))
    requires g < 3
    ensures Investor(tr, g) == FiguresAt(raw, g)
  {
    if g == 0 {} else if g == 1 {} else {}
  }

  /** `fetchInstInvestorsTxfTrades`, and the table reading shared with
      `fetchInstInvestorsMxfOi`: `[fields, dealers, sitc, fini]`, a `null`
      result unless the header is `日期`, each investor row cut after its
      three label cells, and the figures read by position. An empty
      download throws on `fields[0]`, a missing investor row on `.slice`. */
  function InstInvestorsFuturesTrades(parse: string -> int, t: Table): (r: Outcome<FuturesTrades>)
    ensures r.Null? <==> |t| > 0 && !HeaderIs(t[0], DateHeader)
    ensures r.Thrown? <==> |t| == 0 || (HeaderIs(t[0], DateHeader) && |t| < 4)
    ensures !r.Undefined?
  {
    if |t| == 0 then Thrown
    else if !HeaderIs(t[0], DateHeader) then Null
    else if |t| < 4 then Thrown
    else
      var raw := ParseCells(parse, FlattenFrom(t[1..4], 3));
      Value(FuturesTrades(FiguresAt(raw, 0), FiguresAt(raw, 1), FiguresAt(raw, 2)))
  }

  /** With three investor rows of exactly fifteen cells, figure `k` of
      investor `g` is the parsed cell `3 + k` of row `g`: each output is a
      copy of one cell, with no arithmetic. */
  lemma {:induction false} FuturesTradesCells(parse: string -> int, t: Table, g: nat, k: nat)
    requires |t| >= 4 && HeaderIs(t[0], DateHeader)
    requires forall r :: 1 <= r < 4 ==> |t[r]| == 15
    requires g < 3 && k < 12
    ensures InstInvestorsFuturesTrades(parse, t).Value?
    ensures FiguresList(Investor(InstInvestorsFuturesTrades(parse, t).value, g))[k]
         == Int(Numeral(parse, t[1 + g][3 + k]))
  {
    var raw := ParseCells(parse, FlattenFrom(t[1..4], 3));
    assert InstInvestorsFuturesTrades(parse, t) == Value(FuturesTrades(FiguresAt(raw, 0), FiguresAt(raw, 1), FiguresAt(raw, 2)));
    InvestorAt(InstInvestorsFuturesTrades(parse, t).value, raw, g);
    var rows := t[1..4];
    forall r | 0 <= r < 3
      ensures |rows[r]| == 15
    {
      assert rows[r] == t[r + 1];
    }
    FiguresCells(parse, rows, 3, g, k);
  }

  datatype OptionsTrades = OptionsTrades(
    dealersCalls: Figures, sitcCalls: Figures, finiCalls: Figures,
    dealersPuts: Figures, sitcPuts: Figures, finiPuts: Figures)

  /** Investor-and-side `g` in report row order: calls of dealers, SITC,
      FINI, then their puts. */
  function OptionsInvestor(tr: OptionsTrades, g: nat): Figures
    requires g < 6
  {
    match g
    case 0 => tr.dealersCalls
    case 1 => tr.sitcCalls
    case 2 => tr.finiCalls
    case 3 => tr.dealersPuts
    case 4 => tr.sitcPuts
    case _ => tr.finiPuts
  }

  /** Investor-and-side `g` of the figures destructured from `raw` is
      group `g`. */
  lemma OptionsInvestorAt(tr: OptionsTrades, raw: seq<Num>, g: nat)
    requires tr == OptionsTrades(FiguresAt(raw, 0), FiguresAt(raw, 1), FiguresAt(raw, 2),
                                 FiguresAt(raw, 3), FiguresAt(raw, 4), FiguresAt(raw, 5))
    requires g < 6
    ensures OptionsInvestor(tr, g) == FiguresAt(raw, g)
  {
    if g == 0 {} else if g == 1 {} else if g == 2 {} else if g == 3 {} else if g == 4 {} else {}
  }

  /** `fetchInstInvestorsTxoTrades`: six investor rows (calls, then puts),
      each cut after its four label cells. */
  function InstInvestorsTxoTrades(parse: string -> int, t: Table): (r: Outcome<OptionsTrades>)
    ensures r.Null? <==> |t| > 0 && !HeaderIs(t[0], DateHeader)
    ensures r.Thrown? <==> |t| == 0 || (HeaderIs(t[0], DateHeader) && |t| < 7)
    ensures !r.Undefined?
  {
    if |t| == 0 then Thrown
    else if !HeaderIs(t[0], DateHeader) then Null
    else if |t| < 7 then Thrown
    else
      var raw := ParseCells(parse, FlattenFrom(t[1..7], 4));
      Value(OptionsTrades(FiguresAt(raw, 0), FiguresAt(raw, 1), FiguresAt(raw, 2),
                          FiguresAt(raw, 3), FiguresAt(raw, 4), FiguresAt(raw, 5)))
  }

  /** With six investor rows of exactly sixteen cells, figure `k` of row
      `g` is its parsed cell `4 + k`. */
  lemma {:induction false} OptionsTradesCells(parse: string -> int, t: Table, g: nat, k: nat)
    requires |t| >= 7 && HeaderIs(t[0], DateHeader)
    requires forall r :: 1 <= r < 7 ==> |t[r]| == 16
    requires g < 6 && k < 12
    ensures InstInvestorsTxoTrades(parse, t).Value?
    ensures FiguresList(OptionsInvestor(InstInvestorsTxoTrades(parse, t).value, g))[k]
         == Int(Numeral(parse, t[1 + g][4 + k]))
  {
    var raw := ParseCells(parse, FlattenFrom(t[1..7], 4));
    assert InstInvestorsTxoTrades(parse, t) == Value(OptionsTrades(FiguresAt(raw, 0), FiguresAt(raw, 1), FiguresAt(raw, 2),
                                                                   FiguresAt(raw, 3), FiguresAt(raw, 4), FiguresAt(raw, 5)));
    OptionsInvestorAt(InstInvestorsTxoTrades(parse, t).value, raw, g);
    var rows := t[1..7];
    forall r | 0 <= r < 6
      ensures |rows[r]| == 16
    {
      assert rows[r] == t[r + 1];
    }
    FiguresCells(parse, rows, 4, g, k);
  }

  /* ---------------- Retail position in mini TAIEX futures ---------------- */

  /** Institutional long and short open interest in MXF, in contracts. */
  datatype MxfInstOi = MxfInstOi(longOi: Num, shortOi: Num)

  /** The three investors' long (and short) open interest volumes added
      up, as JavaScript's `+` adds them. */
  function OiOf(tr: FuturesTrades): MxfInstOi
  {
    MxfInstOi(Add(Add(tr.dealers.longOiVolume, tr.sitc.longOiVolume), tr.fini.longOiVolume),
              Add(Add(tr.dealers.shortOiVolume, tr.sitc.shortOiVolume), tr.fini.shortOiVolume))
  }

  /** `fetchInstInvestorsMxfOi`: the table read as the futures trades
      report is, of whose thirty-six figures only the long open interest
      volumes (figures 6, 18, 30) and the short ones (8, 20, 32) are added
      up. */
  function InstInvestorsMxfOi(parse: string -> int, t: Table): (r: Outcome<MxfInstOi>)
    ensures r.Null? <==> |t| > 0 && !HeaderIs(t[0], DateHeader)
    ensures r.Thrown? <==> |t| == 0 || (HeaderIs(t[0], DateHeader) && |t| < 4)
    ensures !r.Undefined?
  {
    if |t| == 0 then Thrown
    else if !HeaderIs(t[0], DateHeader) then Null
    else if |t| < 4 then Thrown
    else
      var raw := ParseCells(parse, FlattenFrom(t[1..4], 3));
      Value(MxfInstOi(Add(Add(At(raw, 6), At(raw, 18)), At(raw, 30)),
                      Add(Add(At(raw, 8), At(raw, 20)), At(raw, 32))))
  }

  /** Whatever the table, the MXF institutional report is the futures
      trades report's dealers, SITC and FINI open interest added up, and
      ends (`null`, throw) exactly as that report does. */
  lemma MxfInstOiOfTrades(parse: string -> int, t: Table)
    ensures InstInvestorsMxfOi(parse, t).Value? <==> InstInvestorsFuturesTrades(parse, t).Value?
    ensures InstInvestorsMxfOi(parse, t).Null? <==> InstInvestorsFuturesTrades(parse, t).Null?
    ensures InstInvestorsMxfOi(parse, t).Value? ==>
      InstInvestorsMxfOi(parse, t).value == OiOf(InstInvestorsFuturesTrades(parse, t).value)
  {
  }

  /** Three numbers add up as integers do. */
  lemma AddThree(x: Num, y: Num, z: Num, a: int, b: int, c: int, sum: int)
    requires x == Int(a) && y == Int(b) && z == Int(c) && sum == a + b + c
    ensures Add(Add(x, y), z) == Int(sum)
  {
  }

  /** The sum of column `c` of the three investor rows. */
  function ColumnSum(parse: string -> int, t: Table, c: nat): int
    requires |t| >= 4 && forall r :: 1 <= r < 4 ==> c < |t[r]|
  {
    Numeral(parse, t[1][c]) + Numeral(parse, t[2][c]) + Numeral(parse, t[3][c])
  }

  /** With investor rows of exactly fifteen cells, institutional long open
      interest is the sum of column 9 of the three rows and short open
      interest the sum of column 11. */
  lemma {:induction false} MxfInstOiCells(parse: string -> int, t: Table)
    requires |t| >= 4 && HeaderIs(t[0], DateHeader)
    requires forall r :: 1 <= r < 4 ==> |t[r]| == 15
    ensures InstInvestorsMxfOi(parse, t).Value?
    ensures InstInvestorsMxfOi(parse, t).value.longOi == Int(ColumnSum(parse, t, 9))
    ensures InstInvestorsMxfOi(parse, t).value.shortOi == Int(ColumnSum(parse, t, 11))
  {
    var rows := t[1..4];
    var raw := ParseCells(parse, FlattenFrom(rows, 3));
    FlattenFromAt(rows, 3, 12, 0, 6, 6);
    FlattenFromAt(rows, 3, 12, 1, 6, 18);
    FlattenFromAt(rows, 3, 12, 2, 6, 30);
    FlattenFromAt(rows, 3, 12, 0, 8, 8);
    FlattenFromAt(rows, 3, 12, 1, 8, 20);
    FlattenFromAt(rows, 3, 12, 2, 8, 32);
    assert At(raw, 6) == Int(Numeral(parse, t[1][9]));
    assert At(raw, 18) == Int(Numeral(parse, t[2][9]));
    assert At(raw, 30) == Int(Numeral(parse, t[3][9]));
    assert At(raw, 8) == Int(Numeral(parse, t[1][11]));
    assert At(raw, 20) == Int(Numeral(parse, t[2][11]));
    assert At(raw, 32) == Int(Numeral(parse, t[3][11]));
    AddThree(At(raw, 6), At(raw, 18), At(raw, 30), Numeral(parse, t[1][9]), Numeral(parse, t[2][9]), Numeral(parse, t[3][9]),
             ColumnSum(parse, t, 9));
    AddThree(At(raw, 8), At(raw, 20), At(raw, 32), Numeral(parse, t[1][11]), Numeral(parse, t[2][11]), Numeral(parse, t[3][11]),
             ColumnSum(parse, t, 11));
    assert InstInvestorsMxfOi(parse, t) == Value(MxfInstOi(Add(Add(At(raw, 6), At(raw, 18)), At(raw, 30)),
                                                           Add(Add(At(raw, 8), At(raw, 20)), At(raw, 32))));
  }

  /** A regular-session outright row of the daily market report:
      `row[17] === '一般' && !row[18]` (spread contracts carry a second
      month in column 18). */
  predicate IsDayOutright(row: Row)
  {
    |row| > 17 && row[17] == DaySession && (|row| == 18 || row[18] == "")
  }

  /** `rows.reduce((oi, row) => oi + numeral(row[11]).value(), acc)` */
  function SumOi(parse: string -> int, acc: int, rows: Table): int
    requires forall r :: 0 <= r < |rows| ==> |rows[r]| > 11
    decreases |rows|
  {
    if |rows| == 0 then acc else SumOi(parse, acc + Numeral(parse, rows[0][11]), rows[1..])
  }

  /** Independent statement of the market open interest: over every row,
      column 11 if the row is a regular-session outright, 0 otherwise. */
  function DayOi(parse: string -> int, rows: Table): int
    decreases |rows|
  {
    if |rows| == 0 then 0
    else (if IsDayOutright(rows[0]) then Numeral(parse, rows[0][11]) else 0) + DayOi(parse, rows[1..])
  }

  /** Filtering then folding from the left adds the same numbers as the
      masked total. */
  lemma {:induction false} SumOiOfFilter(parse: string -> int, acc: int, rows: Table)
    ensures SumOi(parse, acc, Filter(rows, IsDayOutright)) == acc + DayOi(parse, rows)
    decreases |rows|
  {
    if |rows| > 0 {
      var kept := Filter(rows[1..], IsDayOutright);
      if IsDayOutright(rows[0]) {
        SumOiOfFilter(parse, acc + Numeral(parse, rows[0][11]), rows[1..]);
        assert Filter(rows, IsDayOutright) == [rows[0]] + kept;
        assert ([rows[0]] + kept)[1..] == kept;
      } else {
        SumOiOfFilter(parse, acc, rows[1..]);
        assert Filter(rows, IsDayOutright) == kept;
      }
    }
  }

  /** `fetchMxfMarketOi`: `null` unless the header is `交易日期`, otherwise
      the open interest summed over the regular-session outright rows. */
  function MxfMarketOi(parse: string -> int, t: Table): (r: Outcome<int>)
    ensures r.Null? <==> |t| > 0 && !HeaderIs(t[0], TradeDateHeader)
    ensures r.Thrown? <==> |t| == 0
    ensures r.Value? ==> r.value == DayOi(parse, t[1..])
  {
    if |t| == 0 then Thrown
    else if !HeaderIs(t[0], TradeDateHeader) then Null
    else
      SumOiOfFilter(parse, 0, t[1..]);
      Value(SumOi(parse, 0, Filter(t[1..], IsDayOutright)))
  }

  /** Retail long, short and net open interest in MXF. */
  datatype Retail = Retail(longOi: Num, shortOi: Num, netOi: Num)

  /** `fetchRetailMxfPosition` on the outcomes of its two fetches (joined
      by `Promise.all`, so either one throwing throws): retail is market
      minus institutional, on each side. */
  function RetailMxfPosition(market: Outcome<int>, inst: Outcome<MxfInstOi>): (r: Outcome<Retail>)
    ensures r.Thrown? <==> market.Thrown? || inst.Thrown?
    ensures r.Value? <==> market.Value? && inst.Value?
    ensures r.Null? <==> !r.Thrown? && !(market.Value? && inst.Value?)
    ensures !r.Undefined?
    ensures r.Value? ==> r.value.longOi == Sub(Int(market.value), inst.value.longOi)
    ensures r.Value? ==> r.value.shortOi == Sub(Int(market.value), inst.value.shortOi)
    ensures r.Value? ==> r.value.netOi == Sub(inst.value.shortOi, inst.value.longOi)
  {
    if market.Thrown? || inst.Thrown? then Thrown
    else if !market.Value? || !inst.Value? then Null
    else
      var longOi := Sub(Int(market.value), inst.value.longOi);
      var shortOi := Sub(Int(market.value), inst.value.shortOi);
      Value(Retail(longOi, shortOi, Sub(longOi, shortOi)))
  }

  /* ---------------- Large traders' positions ---------------- */

  /** A contract's published categories, with the market open interest of
      the front month and of the back months. */
  datatype LargeTraders = LargeTraders(book: Book, frontMonthMarketOi: int, backMonthsMarketOi: int)

  /** The four rows front, front specific, all, all specific, cut at
      `start`, decomposed; the vectors begin at vector `base` of `raw`. */
  function LargeTradersOf(number: string -> int, raw: seq<Num>, base: nat, rows: seq<Row>): LargeTraders
    requires |rows| == 4
  {
    var front := MarketOi(number, rows[0]);
    LargeTraders(Publish(raw, base), front, MarketOi(number, rows[2]) - front)
  }

  /** The large-trader reading of four rows with exactly four counts each,
      inside a concatenation of four-element vectors: every published count
      is the integer its cells give, and the back months' market open
      interest is the all-months row's last cell minus the front month's. */
  lemma LargeTradersOfCells(parse: string -> int, number: string -> int, vs: seq<seq<Num>>, base: nat,
                            rows: seq<Row>, start: nat, tier: Tier, b: Bucket, i: nat)
    requires |rows| == 4 && forall r :: 0 <= r < 4 ==> |rows[r]| == start + 5
    requires base + 9 <= |vs| && forall h :: 0 <= h < 9 ==> vs[base + h] == Vectors(QuadOf(parse, rows, start))[h]
    requires forall h :: 0 <= h < |vs| ==> |vs[h]| == 4
    requires i < 4
    ensures var lt := LargeTradersOf(number, Flatten(vs), base, rows);
      && CountsOf(Group(lt.book, tier, b))[i] == Int(Reference(parse, rows, start, tier, b, i))
      && lt.frontMonthMarketOi == number(rows[0][start + 4])
      && lt.backMonthsMarketOi == number(rows[2][start + 4]) - number(rows[0][start + 4])
  {
    PublishMatchesReference(parse, vs, base, rows, start, tier, b, i);
  }

  /** `fetchLargeTradersTxfPosition`: `null` unless the header is `日期`;
      of the rows with contract `TX`, the week rows (positions 0 and 1) are
      skipped and positions 2 to 5 are front, front specific, all, all
      specific, cut at column 5. Fewer than six `TX` rows throw on `.slice`. */
  function LargeTradersTxfPosition(parse: string -> int, number: string -> int, t: Table): (r: Outcome<LargeTraders>)
    ensures r.Null? <==> |t| > 0 && !HeaderIs(t[0], DateHeader)
    ensures r.Thrown? <==> |t| == 0 || (HeaderIs(t[0], DateHeader) && |Filter(t[1..], IsFuturesRow)| < 6)
    ensures !r.Undefined?
  {
    if |t| == 0 then Thrown
    else if !HeaderIs(t[0], DateHeader) then Null
    else
      var tx := Filter(t[1..], IsFuturesRow);
      if |tx| < 6 then Thrown
      else Value(LargeTradersOf(number, Flatten(Vectors(QuadOf(parse, tx[2..6], 5))), 0, tx[2..6]))
  }

  /** With `TX` rows 2 to 5 of exactly ten cells, every published count is
      the integer its cells give (see `Decompose.Reference`), the front
      month's market open interest is the last cell of the front-month row,
      and the back months' is the last cell of the all-months row minus it. */
  lemma LargeTradersTxfCells(parse: string -> int, number: string -> int, t: Table, tier: Tier, b: Bucket, i: nat)
    requires |t| > 0 && HeaderIs(t[0], DateHeader)
    requires var tx := Filter(t[1..], IsFuturesRow);
      |tx| >= 6 && forall r :: 2 <= r < 6 ==> |tx[r]| == 10
    requires i < 4
    ensures var r := LargeTradersTxfPosition(parse, number, t);
      var tx := Filter(t[1..], IsFuturesRow);
      && r.Value?
      && CountsOf(Group(r.value.book, tier, b))[i] == Int(Reference(parse, tx[2..6], 5, tier, b, i))
      && r.value.frontMonthMarketOi == number(tx[2][9])
      && r.value.backMonthsMarketOi == number(tx[4][9]) - number(tx[2][9])
  {
    var tx := Filter(t[1..], IsFuturesRow);
    var q := QuadOf(parse, tx[2..6], 5);
    VectorsWidth(q, 4);
    LargeTradersOfCells(parse, number, Vectors(q), 0, tx[2..6], 5, tier, b, i);
  }

  /** Rows of other contracts never matter: inserting a row that is not a
      `TX` row anywhere after the header leaves the result unchanged. */
  lemma {:induction false} LargeTradersTxfIgnoresOtherRows(parse: string -> int, number: string -> int,
                                                          t: Table, k: nat, x: Row)
    requires 1 <= k <= |t| && !IsFuturesRow(x)
    ensures LargeTradersTxfPosition(parse, number, t[..k] + [x] + t[k..])
         == LargeTradersTxfPosition(parse, number, t)
  {
    var t' := t[..k] + [x] + t[k..];
    assert t'[0] == t[0];
    assert t'[1..] == t[1..k] + [x] + t[k..];
    assert t[1..] == t[1..k] + t[k..];
    FilterSkip(t[1..k], x, t[k..], IsFuturesRow);
  }

  /** The week rows, and any `TX` rows after the sixth, never reach the
      output: two downloads with the same header and the same `TX` rows 2
      to 5 give the same result. */
  lemma LargeTradersTxfWeekRowsIgnored(parse: string -> int, number: string -> int, t: Table, u: Table)
    requires |t| > 0 && |u| > 0 && t[0] == u[0]
    requires var tx, ux := Filter(t[1..], IsFuturesRow), Filter(u[1..], IsFuturesRow);
      |tx| >= 6 && |ux| >= 6 && tx[2..6] == ux[2..6]
    ensures LargeTradersTxfPosition(parse, number, t) == LargeTradersTxfPosition(parse, number, u)
  {
  }

  /** Calls and puts of TAIEX options. */
  datatype LargeTradersTxo = LargeTradersTxo(calls: LargeTraders, puts: LargeTraders)

  /** The options reading of the `TXO` rows: positions 2 to 5 are the calls
      and 8 to 11 the puts (front, front specific, all, all specific), cut
      at column 6; calls' and puts' vectors are concatenated into one
      sequence read by position. */
  function OptionsOf(parse: string -> int, number: string -> int, tx: Table): LargeTradersTxo
    requires |tx| >= 12
  {
    var raw := Flatten(Vectors(QuadOf(parse, tx[2..6], 6)) + Vectors(QuadOf(parse, tx[8..12], 6)));
    LargeTradersTxo(LargeTradersOf(number, raw, 0, tx[2..6]), LargeTradersOf(number, raw, 9, tx[8..12]))
  }

  /** `fetchLargeTradersTxoPosition`: `null` unless the header is `日期`;
      the rows with contract `TXO` are read by `OptionsOf`. Fewer than
      twelve `TXO` rows throw on `.slice`. */
  function LargeTradersTxoPosition(parse: string -> int, number: string -> int, t: Table): (r: Outcome<LargeTradersTxo>)
    ensures r.Null? <==> |t| > 0 && !HeaderIs(t[0], DateHeader)
    ensures r.Thrown? <==> |t| == 0 || (HeaderIs(t[0], DateHeader) && |Filter(t[1..], IsOptionsRow)| < 12)
    ensures !r.Undefined?
  {
    if |t| == 0 then Thrown
    else if !HeaderIs(t[0], DateHeader) then Null
    else
      var tx := Filter(t[1..], IsOptionsRow);
      if |tx| < 12 then Thrown
      else Value(OptionsOf(parse, number, tx))
  }

  /** With rows 2 to 5 and 8 to 11 of exactly eleven cells, every published
      call count is the integer the call rows' cells give, every put count
      the integer the put rows' cells give, each side's front-month market
      open interest is the last cell of its front-month row, and its
      back-months' is its all-months row's last cell minus that. */
  lemma OptionsOfCells(parse: string -> int, number: string -> int, tx: Table, tier: Tier, b: Bucket, i: nat)
    requires |tx| >= 12 && forall r :: 2 <= r < 12 ==> |tx[r]| == 11
    requires i < 4
    ensures var o := OptionsOf(parse, number, tx);
      && CountsOf(Group(o.calls.book, tier, b))[i] == Int(Reference(parse, tx[2..6], 6, tier, b, i))
      && CountsOf(Group(o.puts.book, tier, b))[i] == Int(Reference(parse, tx[8..12], 6, tier, b, i))
      && o.calls.frontMonthMarketOi == number(tx[2][10])
      && o.puts.frontMonthMarketOi == number(tx[8][10])
      && o.calls.backMonthsMarketOi == number(tx[4][10]) - number(tx[2][10])
      && o.puts.backMonthsMarketOi == number(tx[10][10]) - number(tx[8][10])
  {
    OptionsCallsCells(parse, number, tx, tier, b, i);
    OptionsPutsCells(parse, number, tx, tier, b, i);
  }

  /** The calls half of `OptionsOfCells`. */
  lemma OptionsCallsCells(parse: string -> int, number: string -> int, tx: Table, tier: Tier, b: Bucket, i: nat)
    requires |tx| >= 12 && forall r :: 2 <= r < 12 ==> |tx[r]| == 11
    requires i < 4
    ensures var o := OptionsOf(parse, number, tx);
      && CountsOf(Group(o.calls.book, tier, b))[i] == Int(Reference(parse, tx[2..6], 6, tier, b, i))
      && o.calls.frontMonthMarketOi == number(tx[2][10])
      && o.calls.backMonthsMarketOi == number(tx[4][10]) - number(tx[2][10])
  {
    var calls, puts := tx[2..6], tx[8..12];
    OptionsRowsWidths(tx);
    OptionsVectors(parse, calls, puts);
    var vs := Vectors(QuadOf(parse, calls, 6)) + Vectors(QuadOf(parse, puts, 6));
    LargeTradersOfCells(parse, number, vs, 0, calls, 6, tier, b, i);
  }

  /** The puts half of `OptionsOfCells`. */
  lemma OptionsPutsCells(parse: string -> int, number: string -> int, tx: Table, tier: Tier, b: Bucket, i: nat)
    requires |tx| >= 12 && forall r :: 2 <= r < 12 ==> |tx[r]| == 11
    requires i < 4
    ensures var o := OptionsOf(parse, number, tx);
      && CountsOf(Group(o.puts.book, tier, b))[i] == Int(Reference(parse, tx[8..12], 6, tier, b, i))
      && o.puts.frontMonthMarketOi == number(tx[8][10])
      && o.puts.backMonthsMarketOi == number(tx[10][10]) - number(tx[8][10])
  {
    var calls, puts := tx[2..6], tx[8..12];
    OptionsRowsWidths(tx);
    OptionsVectors(parse, calls, puts);
    var vs := Vectors(QuadOf(parse, calls, 6)) + Vectors(QuadOf(parse, puts, 6));
    LargeTradersOfCells(parse, number, vs, 9, puts, 6, tier, b, i);
  }

  /** The call rows and the put rows of `OptionsOfCells` have eleven cells. */
  lemma OptionsRowsWidths(tx: Table)
    requires |tx| >= 12 && forall r :: 2 <= r < 12 ==> |tx[r]| == 11
    ensures forall r :: 0 <= r < 4 ==> |tx[2..6][r]| == 11 && |tx[8..12][r]| == 11
    ensures tx[2..6][0] == tx[2] && tx[2..6][2] == tx[4]
    ensures tx[8..12][0] == tx[8] && tx[8..12][2] == tx[10]
  {
    forall r | 0 <= r < 4
      ensures |tx[2..6][r]| == 11 && |tx[8..12][r]| == 11
    {
      assert tx[2..6][r] == tx[r + 2];
      assert tx[8..12][r] == tx[r + 8];
    }
  }

  /** The calls' nine vectors followed by the puts', each of four counts. */
  lemma OptionsVectors(parse: string -> int, calls: seq<Row>, puts: seq<Row>)
    requires |calls| == 4 && forall r :: 0 <= r < 4 ==> |calls[r]| == 11
    requires |puts| == 4 && forall r :: 0 <= r < 4 ==> |puts[r]| == 11
    ensures var vs := Vectors(QuadOf(parse, calls, 6)) + Vectors(QuadOf(parse, puts, 6));
      && (forall h :: 0 <= h < 9 ==> vs[h] == Vectors(QuadOf(parse, calls, 6))[h])
      && (forall h :: 0 <= h < 9 ==> vs[9 + h] == Vectors(QuadOf(parse, puts, 6))[h])
      && forall h :: 0 <= h < |vs| ==> |vs[h]| == 4
  {
    var cq := QuadOf(parse, calls, 6);
    var pq := QuadOf(parse, puts, 6);
    VectorsWidth(cq, 4);
    VectorsWidth(pq, 4);
    NineAndNine(Vectors(cq), Vectors(pq));
  }

  /** Two runs of nine four-element vectors, one after the other. */
  lemma NineAndNine(xs: seq<seq<Num>>, ys: seq<seq<Num>>)
    requires |xs| == 9 && |ys| == 9
    requires forall h :: 0 <= h < 9 ==> |xs[h]| == 4 && |ys[h]| == 4
    ensures forall h :: 0 <= h < 9 ==> (xs + ys)[h] == xs[h] && (xs + ys)[9 + h] == ys[h]
    ensures forall h :: 0 <= h < |xs + ys| ==> |(xs + ys)[h]| == 4
  {
  }

  /** The options report read through `fetchLargeTradersTxoPosition`: with
      `TXO` rows 2 to 5 and 8 to 11 of exactly eleven cells, the result is
      the record of `OptionsOfCells`: counts from the cells and market open
      interest from the last cells of the front-month and all-months rows. */
  lemma LargeTradersTxoCells(parse: string -> int, number: string -> int, t: Table, tier: Tier, b: Bucket, i: nat)
    requires |t| > 0 && HeaderIs(t[0], DateHeader)
    requires var tx := Filter(t[1..], IsOptionsRow);
      |tx| >= 12 && forall r :: 2 <= r < 12 ==> |tx[r]| == 11
    requires i < 4
    ensures var r := LargeTradersTxoPosition(parse, number, t);
      var tx := Filter(t[1..], IsOptionsRow);
      && r.Value?
      && CountsOf(Group(r.value.calls.book, tier, b))[i] == Int(Reference(parse, tx[2..6], 6, tier, b, i))
      && CountsOf(Group(r.value.puts.book, tier, b))[i] == Int(Reference(parse, tx[8..12], 6, tier, b, i))
      && r.value.calls.frontMonthMarketOi == number(tx[2][10])
      && r.value.puts.frontMonthMarketOi == number(tx[8][10])
      && r.value.calls.backMonthsMarketOi == number(tx[4][10]) - number(tx[2][10])
      && r.value.puts.backMonthsMarketOi == number(tx[10][10]) - number(tx[8][10])
  {
    OptionsOfCells(parse, number, Filter(t[1..], IsOptionsRow), tier, b, i);
  }
}
