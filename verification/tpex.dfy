/** The Taipei Exchange (TPEX) reports: daily market trades, advancing and
    declining issues, institutional investors' trades, and margin balances.
    Every report is discarded (`null`) unless its `iTotalRecords` is
    positive. Queries name the day as `YYY/MM/dd` in the ROC calendar (the
    month's trading table as `YYY/MM`): `Calendar.RocDayQuery` and
    `Calendar.RocMonthQuery`. */
module Tpex {
  import opened Js
  import opened Text
  import opened Calendar
  import opened Sheet
  import opened Exchange

  /** `fetchMarketTrades`: the queried day's row of the month's trading
      table. */
  function MarketTrades(parse: string -> int, totalRecords: int, aaData: Table, query: string): (r: Outcome<Exchange.MarketTrades>)
    ensures totalRecords <= 0 ==> r.Null?
    ensures totalRecords > 0 ==> r == DailyTrades(parse, aaData, query)
  {
    if totalRecords <= 0 then Null else DailyTrades(parse, aaData, query)
  }

  /** The six counts of the market highlight report, as strings. */
  datatype Highlight = Highlight(upNum: string, upStopNum: string, downNum: string,
                                 downStopNum: string, noChangeNum: string, noTradeNum: string)

  /** `fetchMarketBreadth`: every count read with `numeral`; unlike TWSE's,
      unmatched issues are the report's no-trade count alone. */
  function MarketBreadth(parse: string -> int, totalRecords: int, h: Highlight): (r: Outcome<Breadth>)
    ensures r.Null? <==> totalRecords <= 0
    ensures r.Value? ==> r.value == Breadth(
      Int(Numeral(parse, h.upNum)), Int(Numeral(parse, h.upStopNum)),
      Int(Numeral(parse, h.downNum)), Int(Numeral(parse, h.downStopNum)),
      Int(Numeral(parse, h.noChangeNum)), Int(Numeral(parse, h.noTradeNum)))
    ensures !r.Thrown? && !r.Undefined?
  {
    if totalRecords <= 0 then Null
    else
      var v := ParseCells(parse, [h.upNum, h.upStopNum, h.downNum, h.downStopNum, h.noChangeNum, h.noTradeNum]);
      Value(Breadth(v[0], v[1], v[2], v[3], v[4], v[5]))
  }

  /** `fetchInstInvestorsTrades`: the seven rows of the day report, label
      dropped, read as consecutive buy / sell / net triples (foreign
      investors in total, foreign investors excluding foreign dealers,
      foreign dealers, investment trusts, dealers in total, proprietary
      dealers, hedging dealers). The totals are read from the report, not
      computed. */
  function InstInvestorsTrades(parse: string -> int, plus: string -> Num, totalRecords: int, aaData: Table): (r: Outcome<InstTrades>)
    ensures r.Null? <==> totalRecords <= 0
    ensures !r.Thrown? && !r.Undefined?
  {
    if totalRecords <= 0 then Null
    else
      var raw := ParseCellsOrPlus(parse, plus, FlattenFrom(aaData, 1));
      Value(InstTrades(FlowAt(raw, 1), FlowAt(raw, 2), FlowAt(raw, 0), FlowAt(raw, 3),
                       FlowAt(raw, 5), FlowAt(raw, 6), FlowAt(raw, 4)))
  }

  /** With at least the report's seven rows of a label and three amounts,
      each category is the row the exchange publishes it in; a later row,
      such as a total, is not read. */
  lemma InstInvestorsTradesCells(parse: string -> int, plus: string -> Num, totalRecords: int, aaData: Table)
    requires totalRecords > 0
    requires |aaData| >= 7 && forall k :: 0 <= k < |aaData| ==> |aaData[k]| == 4
    ensures var r := InstInvestorsTrades(parse, plus, totalRecords, aaData);
      && r.Value?
      && r.value.foreignInvestors == RowFlow(parse, plus, aaData[0])
      && r.value.foreignDealersExcluded == RowFlow(parse, plus, aaData[1])
      && r.value.foreignDealers == RowFlow(parse, plus, aaData[2])
      && r.value.sitc == RowFlow(parse, plus, aaData[3])
      && r.value.dealers == RowFlow(parse, plus, aaData[4])
      && r.value.dealersProprietary == RowFlow(parse, plus, aaData[5])
      && r.value.dealersHedge == RowFlow(parse, plus, aaData[6])
  {
    FlowCells(parse, plus, aaData, 0);
    FlowCells(parse, plus, aaData, 1);
    FlowCells(parse, plus, aaData, 2);
    FlowCells(parse, plus, aaData, 3);
    FlowCells(parse, plus, aaData, 4);
    FlowCells(parse, plus, aaData, 5);
    FlowCells(parse, plus, aaData, 6);
  }

  /** JavaScript truthiness of a parsed cell: `null` (carried as 0), 0 and
      `NaN` are falsy. */
  predicate IsTruthy(x: Num)
  {
    x.Int? && x.n != 0
  }

  /** The margin record from the footer's figures, in the order margin
      units (previous balance, purchase, sale, redemption, balance), short
      units (the same), margin value (the same). */
  function MarginFromFigures(raw: seq<Num>): Margin
  {
    MarginOf(At(raw, 4), At(raw, 0), At(raw, 14), At(raw, 10), At(raw, 9), At(raw, 5))
  }

  /** `fetchMarginTransactions` as written: the two footer rows are read
      with `numeral` and then every falsy value is dropped, which drops the
      label cells but also every figure that is zero, so the figures after a
      zero are read from the wrong positions. */
  function MarginTransactionsAsWritten(parse: string -> int, totalRecords: int, one: Row, two: Row): (r: Outcome<Margin>)
    ensures r.Null? <==> totalRecords <= 0
    ensures !r.Thrown? && !r.Undefined?
  {
    if totalRecords <= 0 then Null
    else Value(MarginFromFigures(Filter(ParseCells(parse, one + two), IsTruthy)))
  }

  /** `fetchMarginTransactions` as evidently intended: the cells without a
      digit (the labels) are dropped before reading, and every figure,
      zero included, keeps its place. */
  function MarginTransactions(parse: string -> int, totalRecords: int, one: Row, two: Row): (r: Outcome<Margin>)
    ensures r.Null? <==> totalRecords <= 0
    ensures !r.Thrown? && !r.Undefined?
  {
    if totalRecords <= 0 then Null
    else Value(MarginFromFigures(ParseCells(parse, Filter(one + two, HasDigit))))
  }

  /** When no figure is zero, dropping the falsy readings is dropping the
      label cells before reading. */
  lemma {:induction false} FalsyAreLabels(parse: string -> int, cells: Row)
    requires forall i :: 0 <= i < |cells| && HasDigit(cells[i]) ==> Numeral(parse, cells[i]) != 0
    ensures Filter(ParseCells(parse, cells), IsTruthy) == ParseCells(parse, Filter(cells, HasDigit))
    decreases |cells|
  {
    if |cells| > 0 {
      var c, rest := cells[..1], cells[1..];
      assert cells == c + rest;
      ParseCellsConcat(parse, c, rest);
      FilterConcat(ParseCells(parse, c), ParseCells(parse, rest), IsTruthy);
      FilterConcat(c, rest, HasDigit);
      ParseCellsConcat(parse, Filter(c, HasDigit), Filter(rest, HasDigit));
      FalsyAreLabels(parse, rest);
      assert Filter(ParseCells(parse, c), IsTruthy) == ParseCells(parse, Filter(c, HasDigit));
    }
  }

  /** The two readings agree on every footer with no zero figure: the
      defect as written shows only on a day some figure is zero. */
  lemma MarginTransactionsAgree(parse: string -> int, totalRecords: int, one: Row, two: Row)
    requires forall i :: 0 <= i < |one + two| && HasDigit((one + two)[i]) ==> Numeral(parse, (one + two)[i]) != 0
    ensures MarginTransactionsAsWritten(parse, totalRecords, one, two) == MarginTransactions(parse, totalRecords, one, two)
  {
    FalsyAreLabels(parse, one + two);
  }

  /** Whatever label cells surround them, fifteen figures in the footer
      give the balances the report states, each change being a balance
      minus its previous balance, zeros included. */
  lemma MarginTransactionsCells(parse: string -> int, totalRecords: int, one: Row, two: Row)
    requires totalRecords > 0
    requires |Filter(one + two, HasDigit)| == 15
    ensures var f := Filter(one + two, HasDigit);
      var r := MarginTransactions(parse, totalRecords, one, two);
      && r.Value?
      && r.value.marginBalance == Int(Numeral(parse, f[4]))
      && r.value.marginBalanceChange == Int(Numeral(parse, f[4]) - Numeral(parse, f[0]))
      && r.value.shortBalance == Int(Numeral(parse, f[9]))
      && r.value.shortBalanceChange == Int(Numeral(parse, f[9]) - Numeral(parse, f[5]))
      && r.value.marginBalanceValue == Int(Numeral(parse, f[14]))
      && r.value.marginBalanceValueChange == Int(Numeral(parse, f[14]) - Numeral(parse, f[10]))
  {
    MarginBalancesCells(parse, totalRecords, one, two);
    MarginChangesCells(parse, totalRecords, one, two);
  }

  /** The balances half of `MarginTransactionsCells`. */
  lemma MarginBalancesCells(parse: string -> int, totalRecords: int, one: Row, two: Row)
    requires totalRecords > 0
    requires |Filter(one + two, HasDigit)| == 15
    ensures var f := Filter(one + two, HasDigit);
      var r := MarginTransactions(parse, totalRecords, one, two);
      && r.Value?
      && r.value.marginBalance == Int(Numeral(parse, f[4]))
      && r.value.shortBalance == Int(Numeral(parse, f[9]))
      && r.value.marginBalanceValue == Int(Numeral(parse, f[14]))
  {
    FiguresOfCells(parse, Filter(one + two, HasDigit));
  }

  /** The changes half of `MarginTransactionsCells`. */
  lemma MarginChangesCells(parse: string -> int, totalRecords: int, one: Row, two: Row)
    requires totalRecords > 0
    requires |Filter(one + two, HasDigit)| == 15
    ensures var f := Filter(one + two, HasDigit);
      var r := MarginTransactions(parse, totalRecords, one, two);
      && r.Value?
      && r.value.marginBalanceChange == Int(Numeral(parse, f[4]) - Numeral(parse, f[0]))
      && r.value.shortBalanceChange == Int(Numeral(parse, f[9]) - Numeral(parse, f[5]))
      && r.value.marginBalanceValueChange == Int(Numeral(parse, f[14]) - Numeral(parse, f[10]))
  {
    FiguresOfCells(parse, Filter(one + two, HasDigit));
  }

  /** The margin record of fifteen figure cells: balances are cells 4, 9
      and 14, each change its balance minus the cell four before. */
  lemma FiguresOfCells(parse: string -> int, f: Row)
    requires |f| == 15
    ensures var m := MarginFromFigures(ParseCells(parse, f));
      && m.marginBalance == Int(Numeral(parse, f[4]))
      && m.marginBalanceChange == Int(Numeral(parse, f[4]) - Numeral(parse, f[0]))
      && m.shortBalance == Int(Numeral(parse, f[9]))
      && m.shortBalanceChange == Int(Numeral(parse, f[9]) - Numeral(parse, f[5]))
      && m.marginBalanceValue == Int(Numeral(parse, f[14]))
      && m.marginBalanceValueChange == Int(Numeral(parse, f[14]) - Numeral(parse, f[10]))
  {
    var v := ParseCells(parse, f);
    var a0, a4 := Numeral(parse, f[0]), Numeral(parse, f[4]);
    var b5, b9 := Numeral(parse, f[5]), Numeral(parse, f[9]);
    var c10, c14 := Numeral(parse, f[10]), Numeral(parse, f[14]);
    SubOfInts(v[4], v[0], a4, a0, a4 - a0);
    SubOfInts(v[9], v[5], b9, b5, b9 - b5);
    SubOfInts(v[14], v[10], c14, c10, c14 - c10);
  }

  /** A label cell (no digit) anywhere in the footer changes nothing. */
  lemma {:induction false} MarginTransactionsIgnoresLabels(parse: string -> int, totalRecords: int,
                                                           one: Row, two: Row, k: nat, cell: string)
    requires k <= |one| && !HasDigit(cell)
    ensures MarginTransactions(parse, totalRecords, one[..k] + [cell] + one[k..], two)
         == MarginTransactions(parse, totalRecords, one, two)
  {
    var a, b := one[..k], one[k..] + two;
    assert one[..k] + [cell] + one[k..] + two == a + [cell] + b;
    assert one + two == a + b;
    FilterSkip(a, cell, b, HasDigit);
  }

  /** A footer of fifteen figures and no label cells whose only zero is
      the margin row's cash redemption (figure 3), as on a day nobody
      redeemed margin in cash. As written, the zero is dropped and every
      later figure moves forward one place: the margin balance is read
      from the short row's previous balance (figure 5) and the margin
      value from past the end, so it is `undefined` and its change is
      `NaN`. As intended, the balances are the
      ones the footer states. */
  lemma {:induction false} MarginZeroShiftsFigures(parse: string -> int, totalRecords: int, one: Row, two: Row)
    requires totalRecords > 0
    requires |one + two| == 15 && forall i :: 0 <= i < 15 ==> HasDigit((one + two)[i])
    requires Numeral(parse, (one + two)[3]) == 0
    requires forall i :: 0 <= i < 15 && i != 3 ==> Numeral(parse, (one + two)[i]) != 0
    ensures var w := MarginTransactionsAsWritten(parse, totalRecords, one, two);
      && w.Value?
      && w.value.marginBalance == Int(Numeral(parse, (one + two)[5]))
      && w.value.marginBalanceValue == Undef
      && w.value.marginBalanceValueChange == Undef
    ensures var c := MarginTransactions(parse, totalRecords, one, two);
      && c.Value?
      && c.value.marginBalance == Int(Numeral(parse, (one + two)[4]))
      && c.value.marginBalanceValue == Int(Numeral(parse, (one + two)[14]))
  {
    var cells := one + two;
    var v := ParseCells(parse, cells);
    assert v == v[..3] + [v[3]] + v[4..];
    FilterSkip(v[..3], v[3], v[4..], IsTruthy);
    var kept := v[..3] + v[4..];
    assert forall i :: 0 <= i < 14 ==> kept[i] == if i < 3 then v[i] else v[i + 1];
    FilterKeepsAll(kept, IsTruthy);
    FilterKeepsAll(cells, HasDigit);
  }
}
