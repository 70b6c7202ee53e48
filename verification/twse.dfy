/** The Taiwan Stock Exchange (TWSE) reports: daily market trades, advancing
    and declining issues, institutional investors' trades, and margin
    balances. Every report is discarded (`null`) unless its `stat` is `OK`. */
module Twse {
  import opened Js
  import opened Text
  import opened Calendar
  import opened Sheet
  import opened Exchange

  const Ok: string := "OK"

  /** `fetchMarketTrades`: the queried day's row of the month's trading
      table. */
  function MarketTrades(parse: string -> int, stat: string, data: Table, query: string): (r: Outcome<Exchange.MarketTrades>)
    ensures stat != Ok ==> r.Null?
    ensures stat == Ok ==> r == DailyTrades(parse, data, query)
  {
    if stat != Ok then Null else DailyTrades(parse, data, query)
  }

  /** `raw.replace(')', '').split('(')` read as numbers: a cell such as
      `412(12)` yields the count and, in parentheses, its limit moves. */
  function SplitCount(parse: string -> int, cell: string): seq<Num>
  {
    ParseCells(parse, Split(RemoveFirst(cell, ')'), '('))
  }

  /** A cell `a(b)`, neither part holding a parenthesis, yields `a` and `b`. */
  lemma SplitCountOf(parse: string -> int, a: string, b: string)
    requires '(' !in a && ')' !in a && '(' !in b && ')' !in b
    ensures SplitCount(parse, a + "(" + b + ")") == [Int(Numeral(parse, a)), Int(Numeral(parse, b))]
  {
    assert a + "(" + b + ")" == (a + ['('] + b) + [')'] + [];
    RemoveFirstOnlyFirst(a + ['('] + b, ')', []);
    assert (a + ['('] + b) + [] == a + ['('] + b;
    SplitOfTwo(a, b, '(');
  }

  /** `raw.slice(2)` read as numbers, `raw` being column 2 of each row: a
      row too short to have that column gives `numeral(undefined)`, 0. */
  function ThirdCells(parse: string -> int, rows: Table): (r: seq<Num>)
    ensures |r| == |rows|
    ensures forall k :: 0 <= k < |rows| ==> r[k] == if |rows[k]| > 2 then Int(Numeral(parse, rows[k][2])) else Int(0)
  {
    seq(|rows|, k requires 0 <= k < |rows| => if |rows[k]| > 2 then Int(Numeral(parse, rows[k][2])) else Int(0))
  }

  /** `fetchMarketBreadth`, over the `data8` table of market statistics:
      the first two rows carry `count(limit)` cells for advancing and
      declining issues; the rows after them the unchanged, unmatched, and
      not-applicable counts, the last two summed. Rows 0 and 1 must have a
      column 2, or `replace` is called on `undefined`. */
  function MarketBreadth(parse: string -> int, stat: string, data8: Table): (r: Outcome<Breadth>)
    ensures r.Null? <==> stat != Ok
    ensures r.Thrown? <==> stat == Ok && (|data8| < 2 || |data8[0]| <= 2 || |data8[1]| <= 2)
    ensures !r.Undefined?
  {
    if stat != Ok then Null
    else if |data8| < 2 || |data8[0]| <= 2 || |data8[1]| <= 2 then Thrown
    else
      var l := SplitCount(parse, data8[0][2]) + SplitCount(parse, data8[1][2]) + ThirdCells(parse, data8[2..]);
      Value(Breadth(At(l, 0), At(l, 1), At(l, 2), At(l, 3), At(l, 4), Add(At(l, 5), At(l, 6))))
  }

  /** On the report's layout (five rows, the first two of the form `a(b)`)
      every figure is the integer its cell states, and unmatched issues
      include those not applicable. */
  lemma MarketBreadthCells(parse: string -> int, data8: Table, a: string, b: string, c: string, e: string)
    requires |data8| == 5 && forall k :: 0 <= k < 5 ==> |data8[k]| > 2
    requires '(' !in a && ')' !in a && '(' !in b && ')' !in b
    requires '(' !in c && ')' !in c && '(' !in e && ')' !in e
    requires data8[0][2] == a + "(" + b + ")" && data8[1][2] == c + "(" + e + ")"
    ensures MarketBreadth(parse, Ok, data8) == Value(Breadth(
      Int(Numeral(parse, a)), Int(Numeral(parse, b)), Int(Numeral(parse, c)), Int(Numeral(parse, e)),
      Int(Numeral(parse, data8[2][2])),
      Int(Numeral(parse, data8[3][2]) + Numeral(parse, data8[4][2]))))
  {
    SplitCountOf(parse, a, b);
    SplitCountOf(parse, c, e);
    var t := ThirdCells(parse, data8[2..]);
    assert t[0] == Int(Numeral(parse, data8[2][2]));
    assert t[1] == Int(Numeral(parse, data8[3][2]));
    assert t[2] == Int(Numeral(parse, data8[4][2]));
    AddOfInts(t[1], t[2], Numeral(parse, data8[3][2]), Numeral(parse, data8[4][2]),
              Numeral(parse, data8[3][2]) + Numeral(parse, data8[4][2]));
  }

  /** `fetchInstInvestorsTrades`: the five rows of the day report, label
      dropped, read as consecutive buy / sell / net triples (proprietary
      dealers, hedging dealers, investment trusts, foreign investors
      excluding foreign dealers, foreign dealers); the foreign and the
      dealer totals are computed as sums. */
  function InstInvestorsTrades(parse: string -> int, plus: string -> Num, stat: string, data: Table): (r: Outcome<InstTrades>)
    ensures r.Null? <==> stat != Ok
    ensures !r.Thrown? && !r.Undefined?
    ensures r.Value? ==> r.value.foreignInvestors == FlowSum(r.value.foreignDealersExcluded, r.value.foreignDealers)
    ensures r.Value? ==> r.value.dealers == FlowSum(r.value.dealersProprietary, r.value.dealersHedge)
  {
    if stat != Ok then Null
    else
      var raw := ParseCellsOrPlus(parse, plus, FlattenFrom(data, 1));
      var proprietary, hedge, sitc := FlowAt(raw, 0), FlowAt(raw, 1), FlowAt(raw, 2);
      var excluded, foreignDealers := FlowAt(raw, 3), FlowAt(raw, 4);
      Value(InstTrades(excluded, foreignDealers, FlowSum(excluded, foreignDealers),
                       sitc, proprietary, hedge, FlowSum(proprietary, hedge)))
  }

  /** With at least the report's five rows of a label and three amounts,
      each category is the row the exchange publishes it in; a later row,
      such as a total, is not read. */
  lemma InstInvestorsTradesCells(parse: string -> int, plus: string -> Num, data: Table)
    requires |data| >= 5 && forall k :: 0 <= k < |data| ==> |data[k]| == 4
    ensures var r := InstInvestorsTrades(parse, plus, Ok, data);
      && r.Value?
      && r.value.dealersProprietary == RowFlow(parse, plus, data[0])
      && r.value.dealersHedge == RowFlow(parse, plus, data[1])
      && r.value.sitc == RowFlow(parse, plus, data[2])
      && r.value.foreignDealersExcluded == RowFlow(parse, plus, data[3])
      && r.value.foreignDealers == RowFlow(parse, plus, data[4])
  {
    FlowCells(parse, plus, data, 0);
    FlowCells(parse, plus, data, 1);
    FlowCells(parse, plus, data, 2);
    FlowCells(parse, plus, data, 3);
    FlowCells(parse, plus, data, 4);
  }

  /** `fetchMarginTransactions`: the credit table's rows, label dropped,
      read as five figures each (purchase, sale, redemption, previous
      balance, balance) for margin units, short units, and margin value. An
      empty table is `null`. */
  function MarginTransactions(parse: string -> int, plus: string -> Num, stat: string, creditList: Table): (r: Outcome<Margin>)
    ensures r.Null? <==> stat != Ok || |creditList| == 0
    ensures !r.Thrown? && !r.Undefined?
  {
    if stat != Ok || |creditList| == 0 then Null
    else
      var raw := ParseCellsOrPlus(parse, plus, FlattenFrom(creditList, 1));
      Value(MarginOf(At(raw, 4), At(raw, 3), At(raw, 14), At(raw, 13), At(raw, 9), At(raw, 8)))
  }

  /** With three rows of a label and five figures, the balances are each
      row's last figure and every change is that row's balance minus its
      previous balance, the figure before it. */
  lemma MarginTransactionsCells(parse: string -> int, plus: string -> Num, creditList: Table)
    requires |creditList| == 3 && forall k :: 0 <= k < 3 ==> |creditList[k]| == 6
    ensures var r := MarginTransactions(parse, plus, Ok, creditList);
      && r.Value?
      && r.value.marginBalance == NumeralOrPlus(parse, plus, creditList[0][5])
      && r.value.marginBalanceChange
         == Sub(NumeralOrPlus(parse, plus, creditList[0][5]), NumeralOrPlus(parse, plus, creditList[0][4]))
      && r.value.shortBalance == NumeralOrPlus(parse, plus, creditList[1][5])
      && r.value.shortBalanceChange
         == Sub(NumeralOrPlus(parse, plus, creditList[1][5]), NumeralOrPlus(parse, plus, creditList[1][4]))
      && r.value.marginBalanceValue == NumeralOrPlus(parse, plus, creditList[2][5])
      && r.value.marginBalanceValueChange
         == Sub(NumeralOrPlus(parse, plus, creditList[2][5]), NumeralOrPlus(parse, plus, creditList[2][4]))
  {
    var raw := ParseCellsOrPlus(parse, plus, FlattenFrom(creditList, 1));
    FlattenFromAt(creditList, 1, 5, 0, 3, 3);
    FlattenFromAt(creditList, 1, 5, 0, 4, 4);
    FlattenFromAt(creditList, 1, 5, 1, 3, 8);
    FlattenFromAt(creditList, 1, 5, 1, 4, 9);
    FlattenFromAt(creditList, 1, 5, 2, 3, 13);
    FlattenFromAt(creditList, 1, 5, 2, 4, 14);
    assert At(raw, 3) == NumeralOrPlus(parse, plus, creditList[0][4]);
    assert At(raw, 4) == NumeralOrPlus(parse, plus, creditList[0][5]);
    assert At(raw, 8) == NumeralOrPlus(parse, plus, creditList[1][4]);
    assert At(raw, 9) == NumeralOrPlus(parse, plus, creditList[1][5]);
    assert At(raw, 13) == NumeralOrPlus(parse, plus, creditList[2][4]);
    assert At(raw, 14) == NumeralOrPlus(parse, plus, creditList[2][5]);
  }
}
