/** The US Treasury daily yield curve report: a month's CSV table whose
    header starts with `Date` and whose rows are dated `MM/dd/yyyy`,
    followed by the twelve tenors from one month to thirty years. */
module Usdt {
  import opened Js
  import opened Text
  import opened Calendar
  import opened Sheet

  const DateHeader: string := "Date"

  /** One day's yields, by tenor. */
  datatype Yields = Yields(date: Date, us1m: Num, us2m: Num, us3m: Num, us6m: Num, us1y: Num, us2y: Num,
                           us3y: Num, us5y: Num, us7y: Num, us10y: Num, us20y: Num, us30y: Num)

  /** The tenors from shortest to longest. */
  function Tenors(y: Yields): seq<Num>
  {
    [y.us1m, y.us2m, y.us3m, y.us6m, y.us1y, y.us2y, y.us3y, y.us5y, y.us7y, y.us10y, y.us20y, y.us30y]
  }

  /** A report row whose US date converts to the queried ISO date. */
  predicate IsUsRowOn(row: Row, query: string)
  {
    |row| > 0 && FromUsDate(row[0]).Some? && IsoString(FromUsDate(row[0]).value) == query
  }

  /** A row's date and its twelve tenors, read by position after the date
      cell, `undefined` where the row is short. */
  function YieldsOf(parse: string -> int, row: Row, d: Date): (y: Yields)
    requires |row| > 0
    ensures y.date == d
    ensures forall k :: 0 <= k < 12 ==>
      Tenors(y)[k] == if k + 1 < |row| then Int(Numeral(parse, row[k + 1])) else Undef
  {
    var v := ParseCells(parse, row[1..]);
    Yields(d, At(v, 0), At(v, 1), At(v, 2), At(v, 3), At(v, 4), At(v, 5),
           At(v, 6), At(v, 7), At(v, 8), At(v, 9), At(v, 10), At(v, 11))
  }

  /** Index of the first row dated on the query: `Js.FirstIndex` with the
      US date reader (see `Exchange.FirstRowOn` for the ROC one). */
  function FirstRowOn(rows: Table, query: string): (r: Option<nat>)
    ensures r.Some? ==> r.value < |rows| && IsUsRowOn(rows[r.value], query)
    ensures r.Some? ==> forall j :: 0 <= j < r.value ==> !IsUsRowOn(rows[j], query)
    ensures r.None? <==> forall j :: 0 <= j < |rows| ==> !IsUsRowOn(rows[j], query)
  {
    FirstIndex(rows, row => IsUsRowOn(row, query))
  }

  /** The first row dated on the query is row `i` when row `i` is and no
      earlier row is. */
  lemma FirstRowOnIs(rows: Table, query: string, i: nat)
    requires i < |rows| && IsUsRowOn(rows[i], query)
    requires forall j :: 0 <= j < i ==> !IsUsRowOn(rows[j], query)
    ensures FirstRowOn(rows, query) == Some(i)
  {
  }

  /** `fetchUsTreasuryYields` over the downloaded table `t`: an empty table
      throws on `fields[0]`; a table not headed `Date` is `null`; an empty
      data row throws in luxon's `fromFormat`; otherwise the first row
      dated on the query, and `undefined` when there is none (the `find`
      has no `|| null`). */
  function UsTreasuryYields(parse: string -> int, t: Table, query: string): (r: Outcome<Yields>)
    ensures r.Thrown? <==> |t| == 0 || (HeaderIs(t[0], DateHeader) && HasEmptyRow(t[1..]))
    ensures r.Null? <==> |t| > 0 && !HeaderIs(t[0], DateHeader)
    ensures r.Undefined? <==>
      && |t| > 0 && HeaderIs(t[0], DateHeader)
      && !HasEmptyRow(t[1..])
      && forall i :: 0 <= i < |t| - 1 ==> !IsUsRowOn(t[1..][i], query)
    ensures r.Value? ==>
      var rows := t[1..];
      var i := FirstRowOn(rows, query).value;
      r.value == YieldsOf(parse, rows[i], FromUsDate(rows[i][0]).value)
    ensures r.Value? ==> Writable(r.value.date) && IsoString(r.value.date) == query
  {
    if |t| == 0 then Thrown
    else if !HeaderIs(t[0], DateHeader) then Null
    else if HasEmptyRow(t[1..]) then Thrown
    else
      var rows := t[1..];
      match FirstRowOn(rows, query)
      case None => Undefined
      case Some(i) =>
        assert IsUsRowOn(rows[i], query);
        Value(YieldsOf(parse, rows[i], FromUsDate(rows[i][0]).value))
  }

  /** A row is on the queried day exactly when its date cell is the US
      rendering of a calendar date whose ISO rendering is the query. */
  lemma IsUsRowOnIff(row: Row, query: string)
    requires |row| > 0
    ensures IsUsRowOn(row, query) <==>
      exists d :: Writable(d) && row[0] == UsDateString(d) && IsoString(d) == query
  {
    if IsUsRowOn(row, query) {
      FromUsDateIff(row[0], FromUsDate(row[0]).value);
    }
    if exists d :: Writable(d) && row[0] == UsDateString(d) && IsoString(d) == query {
      var d :| Writable(d) && row[0] == UsDateString(d) && IsoString(d) == query;
      FromUsDateIff(row[0], d);
    }
  }

  /** On the report's layout (a date and twelve yields per row) a row
      dated on the query gives the twelve yields it states, and no other
      day's row is returned: the first row dated on the query is the day's
      row, as ISO dates name days uniquely. */
  lemma UsTreasuryYieldsCells(parse: string -> int, t: Table, query: string, i: nat, d: Date)
    requires |t| > 0 && HeaderIs(t[0], DateHeader)
    requires forall r :: 1 <= r < |t| ==> |t[r]| == 13
    requires 1 <= i < |t| && Writable(d) && t[i][0] == UsDateString(d) && IsoString(d) == query
    requires forall r :: 1 <= r < i ==> t[r][0] != UsDateString(d)
    ensures var r := UsTreasuryYields(parse, t, query);
      && r.Value? && r.value.date == d
      && forall k :: 0 <= k < 12 ==> Tenors(r.value)[k] == Int(Numeral(parse, t[i][k + 1]))
  {
    ResultIsDayRow(parse, t, query, i, d);
    TenorsOfRow(parse, t[i], d);
  }

  /** Under the layout of `UsTreasuryYieldsCells`, the result is the
      yields of row `i`. */
  lemma ResultIsDayRow(parse: string -> int, t: Table, query: string, i: nat, d: Date)
    requires |t| > 0 && HeaderIs(t[0], DateHeader)
    requires forall r :: 1 <= r < |t| ==> |t[r]| == 13
    requires 1 <= i < |t| && Writable(d) && t[i][0] == UsDateString(d) && IsoString(d) == query
    requires forall r :: 1 <= r < i ==> t[r][0] != UsDateString(d)
    ensures UsTreasuryYields(parse, t, query) == Value(YieldsOf(parse, t[i], d))
  {
    DayRowIsFirst(t, query, i, d);
    YieldsOfFirstRow(parse, t, query, i - 1);
    var row := t[1..][i - 1];
    assert row == t[i];
    assert FromUsDate(row[0]).value == d;
  }

  /** A row of a date and twelve cells gives the twelve yields it states. */
  lemma TenorsOfRow(parse: string -> int, row: Row, d: Date)
    requires |row| == 13
    ensures YieldsOf(parse, row, d).date == d
    ensures forall k :: 0 <= k < 12 ==> Tenors(YieldsOf(parse, row, d))[k] == Int(Numeral(parse, row[k + 1]))
  {
  }

  /** With a well-formed table, the result is the yields of the first row
      dated on the query. */
  lemma YieldsOfFirstRow(parse: string -> int, t: Table, query: string, j: nat)
    requires |t| > 0 && HeaderIs(t[0], DateHeader) && !HasEmptyRow(t[1..])
    requires FirstRowOn(t[1..], query) == Some(j)
    ensures j < |t[1..]| && FromUsDate(t[1..][j][0]).Some?
    ensures UsTreasuryYields(parse, t, query) == Value(YieldsOf(parse, t[1..][j], FromUsDate(t[1..][j][0]).value))
  {
  }

  /** The table part of `UsTreasuryYieldsCells`: no data row is empty, and
      row `i` of the table is the first data row dated on the query. */
  lemma DayRowIsFirst(t: Table, query: string, i: nat, d: Date)
    requires |t| > 0
    requires forall r :: 1 <= r < |t| ==> |t[r]| == 13
    requires 1 <= i < |t| && Writable(d) && t[i][0] == UsDateString(d) && IsoString(d) == query
    requires forall r :: 1 <= r < i ==> t[r][0] != UsDateString(d)
    ensures !HasEmptyRow(t[1..])
    ensures t[1..][i - 1] == t[i]
    ensures FirstRowOn(t[1..], query) == Some(i - 1)
    ensures FromUsDate(t[i][0]) == Some(d)
  {
    var rows := t[1..];
    assert rows[i - 1] == t[i];
    FromUsDateIff(t[i][0], d);
    assert IsUsRowOn(rows[i - 1], query);
    NoEarlierRowOn(t, query, i, d);
    FirstRowOnIs(rows, query, i - 1);
    NoEmptyDataRow(t);
  }

  /** Data rows of thirteen cells are not empty. */
  lemma NoEmptyDataRow(t: Table)
    requires |t| > 0 && forall r :: 1 <= r < |t| ==> |t[r]| == 13
    ensures !HasEmptyRow(t[1..])
  {
    var rows := t[1..];
    forall j | 0 <= j < |rows|
      ensures |rows[j]| == 13
    {
      assert rows[j] == t[j + 1];
    }
  }

  /** No data row before row `i` is dated on the query when none carries
      the query's US date. */
  lemma NoEarlierRowOn(t: Table, query: string, i: nat, d: Date)
    requires 1 <= i < |t| && Writable(d) && IsoString(d) == query
    requires forall r :: 1 <= r < i ==> |t[r]| > 0 && t[r][0] != UsDateString(d)
    ensures forall j :: 0 <= j < i - 1 ==> !IsUsRowOn(t[1..][j], query)
  {
    var rows := t[1..];
    forall j | 0 <= j < i - 1
      ensures !IsUsRowOn(rows[j], query)
    {
      assert rows[j] == t[j + 1];
      if IsUsRowOn(rows[j], query) {
        var e := FromUsDate(rows[j][0]).value;
        FromUsDateIff(rows[j][0], e);
        IsoStringInjective(e, d);
      }
    }
  }
}
