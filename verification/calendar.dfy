/** Calendar dates as the scrapers read and write them: luxon's ISO
    `yyyy-MM-dd`, the compact `yyyyMMdd` and US `MM/dd/yyyy` layouts, and
    the Republic of China (Minguo) year, which is the Gregorian year minus
    1911, used by the Taiwan Stock Exchange and the Taipei Exchange. */
module Calendar {
  import opened Js
  import opened Text

  /** Gregorian year of ROC year 0 */
  const RocOffset: int := 1911

  datatype Date = Date(year: int, month: int, day: int)

  predicate IsLeapYear(y: int)
  {
    (y % 4 == 0 && y % 100 != 0) || y % 400 == 0
  }

  function DaysInMonth(y: int, m: int): int
    requires 1 <= m <= 12
  {
    if m == 2 then (if IsLeapYear(y) then 29 else 28)
    else if m == 4 || m == 6 || m == 9 || m == 11 then 30
    else 31
  }

  /** A calendar date luxon accepts and writes with a four-digit year. */
  predicate Writable(d: Date)
  {
    && 0 <= d.year <= 9999
    && 1 <= d.month <= 12
    && 1 <= d.day <= DaysInMonth(d.year, d.month)
  }

  /** luxon `toISODate()`: `yyyy-MM-dd` */
  function IsoString(d: Date): string
    requires Writable(d)
  {
    Pad(d.year, 4) + "-" + Pad(d.month, 2) + "-" + Pad(d.day, 2)
  }

  lemma NumDigitsBelow(n: nat, k: nat)
    requires 1 <= k <= 4 && n < Pow10(k)
    ensures NumDigits(n) <= k
  {
    if n >= 10 {
      NumDigitsBelow(n / 10, k - 1);
    }
  }

  lemma NumDigitsOfYear(y: nat)
    requires 1000 <= y <= 9999
    ensures NumDigits(y) == 4
  {
    assert NumDigits(y) == 1 + NumDigits(y / 10);
    assert NumDigits(y / 10) == 1 + NumDigits(y / 100);
    assert NumDigits(y / 100) == 1 + NumDigits(y / 1000);
  }

  /** The rendering widths of a writable date's fields. */
  lemma FieldWidths(d: Date)
    requires Writable(d)
    ensures |Pad(d.year, 4)| == 4 && |Pad(d.month, 2)| == 2 && |Pad(d.day, 2)| == 2
  {
    NumDigitsBelow(d.year, 4);
    NumDigitsBelow(d.month, 2);
    NumDigitsBelow(d.day, 2);
  }

  /** Different dates have different ISO strings, so comparing ISO strings
      (as every `find(data => data.date === date)` does) compares dates. */
  lemma IsoStringInjective(a: Date, b: Date)
    requires Writable(a) && Writable(b)
    requires IsoString(a) == IsoString(b)
    ensures a == b
  {
    FieldWidths(a);
    FieldWidths(b);
    var s := IsoString(a);
    assert s[..4] == Pad(a.year, 4) && s[..4] == Pad(b.year, 4);
    assert s[5..7] == Pad(a.month, 2) && s[5..7] == Pad(b.month, 2);
    assert s[8..] == Pad(a.day, 2) && s[8..] == Pad(b.day, 2);
  }

  /** `yyyyMMdd` */
  function CompactString(d: Date): string
    requires Writable(d)
  {
    Pad(d.year, 4) + Pad(d.month, 2) + Pad(d.day, 2)
  }

  /** luxon `DateTime.fromFormat(s, 'yyyyMMdd')`: exactly eight ASCII digits
      naming a calendar date; anything else is an invalid DateTime. */
  function FromCompact(s: string): Option<Date>
  {
    if |s| == 8 && AllDigits(s) then
      assert AllDigits(s[..4]) && AllDigits(s[4..6]) && AllDigits(s[6..]) by {
        assert forall i :: 0 <= i < 4 ==> s[..4][i] == s[i];
        assert forall i :: 0 <= i < 2 ==> s[4..6][i] == s[4 + i] && s[6..][i] == s[6 + i];
      }
      var d := Date(DigitsValue(s[..4]), DigitsValue(s[4..6]), DigitsValue(s[6..]));
      if Writable(d) then Some(d) else None
    else None
  }

  /** The compact reading accepts exactly the compact renderings of
      calendar dates, and returns the date rendered. */
  lemma FromCompactIff(s: string, d: Date)
    ensures FromCompact(s) == Some(d) <==> Writable(d) && s == CompactString(d)
  {
    if FromCompact(s) == Some(d) {
      FieldWidths(d);
      assert AllDigits(s[..4]) && AllDigits(s[4..6]) && AllDigits(s[6..]) by {
        assert forall i :: 0 <= i < 4 ==> s[..4][i] == s[i];
        assert forall i :: 0 <= i < 2 ==> s[4..6][i] == s[4 + i] && s[6..][i] == s[6 + i];
      }
      DigitsValueInjective(s[..4], Pad(d.year, 4));
      DigitsValueInjective(s[4..6], Pad(d.month, 2));
      DigitsValueInjective(s[6..], Pad(d.day, 2));
      assert s == s[..4] + s[4..6] + s[6..];
    }
    if Writable(d) && s == CompactString(d) {
      FieldWidths(d);
      assert s[..4] == Pad(d.year, 4);
      assert s[4..6] == Pad(d.month, 2);
      assert s[6..] == Pad(d.day, 2);
    }
  }

  /** The row dates of the exchanges' JSON feeds, `YYY/MM/dd`:
      `[year, month, day] = s.split('/')`, then `${+year + 1911}${month}${day}`
      read with `'yyyyMMdd'`. A missing part reads as `undefined` and a
      non-numeric year as `NaN`; neither leaves eight digits. */
  function RocToDate(s: string): (r: Option<Date>)
    ensures r.Some? ==> Writable(r.value)
    ensures r.Some? ==>
      var p := Split(s, '/');
      && |p| >= 3
      && UnaryPlus(p[0]).Some?
      && IntToString(UnaryPlus(p[0]).value + RocOffset) + p[1] + p[2] == CompactString(r.value)
  {
    var p := Split(s, '/');
    if |p| < 3 then None
    else match UnaryPlus(p[0])
      case None => None
      case Some(y) =>
        var r := FromCompact(IntToString(y + RocOffset) + p[1] + p[2]);
        if r.Some? then FromCompactIff(IntToString(y + RocOffset) + p[1] + p[2], r.value); r
        else r
  }

  /** A ROC date whose month and day are written with two characters, and
      whose Gregorian year has four digits, converts to the date with year
      `+Y + 1911` and the same month and day; nothing else is produced. */
  lemma RocToDateOfParts(s: string, d: Date)
    requires var p := Split(s, '/'); |p| >= 3 && |p[1]| == 2 && |p[2]| == 2
    requires var p := Split(s, '/'); UnaryPlus(p[0]).Some? && 1000 <= UnaryPlus(p[0]).value + RocOffset <= 9999
    ensures var p := Split(s, '/');
      RocToDate(s) == Some(d) <==>
        && AllDigits(p[1]) && AllDigits(p[2])
        && d == Date(UnaryPlus(p[0]).value + RocOffset, DigitsValue(p[1]), DigitsValue(p[2]))
        && Writable(d)
  {
    var p := Split(s, '/');
    if RocToDate(s) == Some(d) {
      RocToDateSound(s, d);
    }
    if AllDigits(p[1]) && AllDigits(p[2]) && d == Date(UnaryPlus(p[0]).value + RocOffset, DigitsValue(p[1]), DigitsValue(p[2])) && Writable(d) {
      RocToDateComplete(s, d);
    }
  }

  /** One direction of `RocToDateOfParts`: a converted date has the fields
      the string writes. */
  lemma RocToDateSound(s: string, d: Date)
    requires var p := Split(s, '/'); |p| >= 3 && |p[1]| == 2 && |p[2]| == 2
    requires var p := Split(s, '/'); UnaryPlus(p[0]).Some? && 1000 <= UnaryPlus(p[0]).value + RocOffset <= 9999
    requires RocToDate(s) == Some(d)
    ensures var p := Split(s, '/');
      && AllDigits(p[1]) && AllDigits(p[2])
      && d == Date(UnaryPlus(p[0]).value + RocOffset, DigitsValue(p[1]), DigitsValue(p[2]))
      && Writable(d)
  {
    var p := Split(s, '/');
    var y := UnaryPlus(p[0]).value + RocOffset;
    var c := IntToString(y) + p[1] + p[2];
    NumDigitsOfYear(y);
    DigitsValueInjective(IntToString(y), Pad(y, 4));
    FromCompactIff(c, d);
    FieldWidths(d);
    assert c == CompactString(d);
    assert c[4..6] == p[1] && c[4..6] == Pad(d.month, 2);
    assert c[6..] == p[2] && c[6..] == Pad(d.day, 2);
    assert c[..4] == Pad(y, 4) && c[..4] == Pad(d.year, 4);
  }

  /** The other direction of `RocToDateOfParts`: a string writing the
      fields of a valid date converts to it. */
  lemma RocToDateComplete(s: string, d: Date)
    requires var p := Split(s, '/'); |p| >= 3 && |p[1]| == 2 && |p[2]| == 2
    requires var p := Split(s, '/'); UnaryPlus(p[0]).Some? && 1000 <= UnaryPlus(p[0]).value + RocOffset <= 9999
    requires var p := Split(s, '/');
      && AllDigits(p[1]) && AllDigits(p[2])
      && d == Date(UnaryPlus(p[0]).value + RocOffset, DigitsValue(p[1]), DigitsValue(p[2]))
      && Writable(d)
    ensures RocToDate(s) == Some(d)
  {
    var p := Split(s, '/');
    var y := UnaryPlus(p[0]).value + RocOffset;
    var c := IntToString(y) + p[1] + p[2];
    NumDigitsOfYear(y);
    DigitsValueInjective(IntToString(y), Pad(y, 4));
    FromCompactIff(c, d);
    PadOfDigits(p[1]);
    PadOfDigits(p[2]);
    assert c == CompactString(d);
  }

  /** The fields of `${y}/${MM}/${dd}`, split at the slashes. */
  lemma DayQueryFields(d: Date)
    requires Writable(d)
    ensures var p := Split(IntToString(d.year - RocOffset) + "/" + Pad(d.month, 2) + "/" + Pad(d.day, 2), '/');
      && |p| == 3
      && UnaryPlus(p[0]) == Some(d.year - RocOffset)
      && p[1] == Pad(d.month, 2) && |p[1]| == 2
      && p[2] == Pad(d.day, 2) && |p[2]| == 2
  {
    var y := IntToString(d.year - RocOffset);
    IntToStringHasNoSlash(d.year - RocOffset);
    UnaryPlusOfIntToString(d.year - RocOffset);
    FieldWidths(d);
    DigitsHaveNoSeparator(Pad(d.month, 2), '/');
    DigitsHaveNoSeparator(Pad(d.day, 2), '/');
    SplitOfThree(y, Pad(d.month, 2), Pad(d.day, 2), '/');
  }

  /** TPEX daily query date: `${year - 1911}/${dt.toFormat('MM/dd')}` */
  function RocDayQuery(d: Date): (s: string)
    requires Writable(d)
    ensures var p := Split(s, '/');
      && |p| == 3
      && UnaryPlus(p[0]) == Some(d.year - RocOffset)
      && p[1] == Pad(d.month, 2) && |p[1]| == 2
      && p[2] == Pad(d.day, 2) && |p[2]| == 2
  {
    DayQueryFields(d);
    IntToString(d.year - RocOffset) + "/" + Pad(d.month, 2) + "/" + Pad(d.day, 2)
  }

  /** The fields of `${y}/${MM}`, split at the slash. */
  lemma MonthQueryFields(d: Date)
    requires Writable(d)
    ensures var p := Split(IntToString(d.year - RocOffset) + "/" + Pad(d.month, 2), '/');
      && |p| == 2
      && UnaryPlus(p[0]) == Some(d.year - RocOffset)
      && p[1] == Pad(d.month, 2) && |p[1]| == 2
  {
    var y := IntToString(d.year - RocOffset);
    IntToStringHasNoSlash(d.year - RocOffset);
    UnaryPlusOfIntToString(d.year - RocOffset);
    FieldWidths(d);
    DigitsHaveNoSeparator(Pad(d.month, 2), '/');
    SplitOfTwo(y, Pad(d.month, 2), '/');
  }

  /** TPEX monthly query date: `${year - 1911}/${dt.toFormat('MM')}` */
  function RocMonthQuery(d: Date): (s: string)
    requires Writable(d)
    ensures var p := Split(s, '/');
      && |p| == 2
      && UnaryPlus(p[0]) == Some(d.year - RocOffset)
      && p[1] == Pad(d.month, 2) && |p[1]| == 2
  {
    MonthQueryFields(d);
    IntToString(d.year - RocOffset) + "/" + Pad(d.month, 2)
  }

  /** Reading back a TPEX query date (`+year + 1911`) gives the date it was
      written from, for every date whose Gregorian year has four digits. */
  lemma RocDayQueryRoundTrip(d: Date)
    requires Writable(d) && 1000 <= d.year
    ensures RocToDate(RocDayQuery(d)) == Some(d)
  {
    var s := RocDayQuery(d);
    var p := Split(s, '/');
    RocToDateOfParts(s, d);
    PadOfDigits(p[1]);
    PadOfDigits(p[2]);
  }

  /** US Treasury layout, `MM/dd/yyyy` */
  function UsDateString(d: Date): string
    requires Writable(d)
  {
    Pad(d.month, 2) + "/" + Pad(d.day, 2) + "/" + Pad(d.year, 4)
  }

  /** luxon `DateTime.fromFormat(s, 'MM/dd/yyyy')` */
  function FromUsDate(s: string): (r: Option<Date>)
    ensures r.Some? ==> Writable(r.value)
  {
    if |s| == 10 && s[2] == '/' && s[5] == '/'
      && AllDigits(s[..2]) && AllDigits(s[3..5]) && AllDigits(s[6..])
    then
      var d := Date(DigitsValue(s[6..]), DigitsValue(s[..2]), DigitsValue(s[3..5]));
      if Writable(d) then Some(d) else None
    else None
  }

  /** The US reading accepts exactly the `MM/dd/yyyy` renderings of
      calendar dates and keeps year, month and day. */
  lemma FromUsDateIff(s: string, d: Date)
    ensures FromUsDate(s) == Some(d) <==> Writable(d) && s == UsDateString(d)
  {
    if FromUsDate(s) == Some(d) {
      FieldWidths(d);
      DigitsValueInjective(s[..2], Pad(d.month, 2));
      DigitsValueInjective(s[3..5], Pad(d.day, 2));
      DigitsValueInjective(s[6..], Pad(d.year, 4));
      assert s == s[..2] + "/" + s[3..5] + "/" + s[6..];
    }
    if Writable(d) && s == UsDateString(d) {
      FieldWidths(d);
      assert s[..2] == Pad(d.month, 2);
      assert s[3..5] == Pad(d.day, 2);
      assert s[6..] == Pad(d.year, 4);
    }
  }
}
