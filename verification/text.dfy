/** The string handling the scrapers lean on: `numeral`'s notion of a
    number-bearing cell, decimal digits as luxon writes and reads them,
    JavaScript's `${n}` and unary `+`, and `split` / `replace` with a
    one-character pattern. */
module Text {
  import opened Js

  predicate IsDigit(c: char) { '0' <= c <= '9' }

  predicate AllDigits(s: string)
  {
    forall i :: 0 <= i < |s| ==> IsDigit(s[i])
  }

  /** `numeral` reads a string without any digit as `null`. */
  predicate HasDigit(s: string)
  {
    |s| > 0 && (IsDigit(s[0]) || HasDigit(s[1..]))
  }

  /** `numeral(s).value()`. `parse` stands for numeral's reading of a
      number-bearing string (separators, signs, decimals); a string with no
      digit is `null`, carried as 0, which is what JavaScript arithmetic and
      `reduce` make of it. */
  function Numeral(parse: string -> int, s: string): int
  {
    if HasDigit(s) then parse(s) else 0
  }

  /** `numeral(s).value() || +s`: a null or zero reading falls back to the
      unary plus of the raw string, itself abstract (`plus`). */
  function NumeralOrPlus(parse: string -> int, plus: string -> Num, s: string): Num
  {
    if Numeral(parse, s) != 0 then Int(Numeral(parse, s)) else plus(s)
  }

  function DigitValue(c: char): nat
    requires IsDigit(c)
  {
    c as int - '0' as int
  }

  function DigitChar(d: nat): (c: char)
    requires d < 10
    ensures IsDigit(c) && DigitValue(c) == d
  {
    ('0' as int + d) as char
  }

  function Pow10(k: nat): nat
  {
    if k == 0 then 1 else 10 * Pow10(k - 1)
  }

  /** The number a run of decimal digits denotes, most significant first. */
  function DigitsValue(s: string): (v: nat)
    requires AllDigits(s)
    ensures v < Pow10(|s|)
    decreases |s|
  {
    if |s| == 0 then 0 else DigitsValue(s[..|s| - 1]) * 10 + DigitValue(s[|s| - 1])
  }

  /** How many digits `n` has in decimal. */
  function NumDigits(n: nat): nat
  {
    if n < 10 then 1 else 1 + NumDigits(n / 10)
  }

  /** `n` in decimal, left-padded with zeros to at least `width` digits
      (luxon's `MM`, `dd` and `yyyy`; with width 1, JavaScript's `${n}`). */
  function Pad(n: nat, width: nat): (s: string)
    ensures AllDigits(s) && DigitsValue(s) == n
    ensures |s| == if width < NumDigits(n) then NumDigits(n) else width
    decreases n + width
  {
    if n < 10 && width <= 1 then [DigitChar(n)]
    else
      var init := Pad(n / 10, if width > 0 then width - 1 else 0);
      var s := init + [DigitChar(n % 10)];
      assert s[..|s| - 1] == init;
      s
  }

  /** A run of digits is its own zero-padded rendering: reading then
      writing back at the same width changes nothing. */
  lemma {:induction false} PadOfDigits(s: string)
    requires AllDigits(s) && |s| >= 1
    ensures Pad(DigitsValue(s), |s|) == s
    decreases |s|
  {
    var v := DigitsValue(s);
    if |s| > 1 {
      var init := s[..|s| - 1];
      PadOfDigits(init);
      assert v / 10 == DigitsValue(init) && v % 10 == DigitValue(s[|s| - 1]);
      assert s == init + [s[|s| - 1]];
    }
  }

  /** Two digit runs of the same length denote the same number only if
      they are the same string. */
  lemma DigitsValueInjective(a: string, b: string)
    requires AllDigits(a) && AllDigits(b) && |a| == |b| >= 1
    requires DigitsValue(a) == DigitsValue(b)
    ensures a == b
  {
    PadOfDigits(a);
    PadOfDigits(b);
  }

  /** JavaScript's `${i}` for an integer. */
  function IntToString(i: int): string
  {
    if i < 0 then "-" + Pad(-i, 1) else Pad(i, 1)
  }

  /** JavaScript's unary `+s`, for the strings the scrapers feed it: the
      empty string is 0, and an optional minus followed by decimal digits is
      that integer. Other strings are not modelled: they give `None` here,
      although JavaScript reads some of them (`+7`, ` 7`, `7.5`, `0x1F`) as
      numbers. */
  function UnaryPlus(s: string): Option<int>
  {
    if s == "" then Some(0)
    else if s[0] == '-' && |s| > 1 && AllDigits(s[1..]) then Some(0 - DigitsValue(s[1..]) as int)
    else if AllDigits(s) then Some(DigitsValue(s))
    else None
  }

  /** `+` reads back exactly the integer `${i}` wrote. */
  lemma UnaryPlusOfIntToString(i: int)
    ensures UnaryPlus(IntToString(i)) == Some(i)
  {
    var s := IntToString(i);
    if i < 0 {
      assert s[1..] == Pad(-i, 1);
    }
  }

  /** `${i}` never contains a slash. */
  lemma IntToStringHasNoSlash(i: int)
    ensures '/' !in IntToString(i)
  {
    var s := IntToString(i);
    if i < 0 {
      assert forall k :: 1 <= k < |s| ==> s[k] == Pad(-i, 1)[k - 1];
    }
  }

  /** The first position of `c` in `s`. */
  function IndexOf(s: string, c: char): (i: nat)
    requires c in s
    ensures i < |s| && s[i] == c && c !in s[..i]
    decreases |s|
  {
    if s[0] == c then 0
    else
      var j := IndexOf(s[1..], c);
      assert s[..j + 1] == [s[0]] + s[1..][..j];
      j + 1
  }

  /** `s.split(sep)` for a one-character separator. */
  function Split(s: string, sep: char): (parts: seq<string>)
    ensures |parts| >= 1
    ensures forall k :: 0 <= k < |parts| ==> sep !in parts[k]
    ensures Join(parts, sep) == s
    decreases |s|
  {
    if sep in s then
      var i := IndexOf(s, sep);
      var rest := Split(s[i + 1..], sep);
      assert s == s[..i] + [sep] + s[i + 1..];
      [s[..i]] + rest
    else [s]
  }

  /** `parts.join(sep)`, the inverse of `Split`. */
  function Join(parts: seq<string>, sep: char): string
    requires |parts| >= 1
    decreases |parts|
  {
    if |parts| == 1 then parts[0] else parts[0] + [sep] + Join(parts[1..], sep)
  }

  /** Splitting a string whose separators sit exactly between the given
      separator-free pieces yields those pieces. */
  lemma {:induction false} SplitOfJoin(parts: seq<string>, sep: char)
    requires |parts| >= 1
    requires forall k :: 0 <= k < |parts| ==> sep !in parts[k]
    ensures Split(Join(parts, sep), sep) == parts
    decreases |parts|
  {
    if |parts| > 1 {
      var s := Join(parts, sep);
      var tail := Join(parts[1..], sep);
      assert s == parts[0] + [sep] + tail;
      assert s[|parts[0]|] == sep;
      assert s[..|parts[0]|] == parts[0];
      assert IndexOf(s, sep) == |parts[0]|;
      assert s[|parts[0]| + 1..] == tail;
      SplitOfJoin(parts[1..], sep);
      assert parts == [parts[0]] + parts[1..];
    }
  }

  lemma DigitsHaveNoSeparator(s: string, sep: char)
    requires AllDigits(s) && !IsDigit(sep)
    ensures sep !in s
  {
  }

  /** `a + sep + b` splits back into `a` and `b`. */
  lemma SplitOfTwo(a: string, b: string, sep: char)
    requires sep !in a && sep !in b
    ensures Split(a + [sep] + b, sep) == [a, b]
  {
    var parts := [a, b];
    assert Join(parts[1..], sep) == b;
    assert Join(parts, sep) == a + [sep] + b;
    SplitOfJoin(parts, sep);
  }

  /** `a + sep + b + sep + c` splits back into `a`, `b` and `c`. */
  lemma SplitOfThree(a: string, b: string, c: string, sep: char)
    requires sep !in a && sep !in b && sep !in c
    ensures Split(a + [sep] + b + [sep] + c, sep) == [a, b, c]
  {
    var parts := [a, b, c];
    assert parts[1..][1..] == [c];
    assert Join(parts[1..][1..], sep) == c;
    assert Join(parts[1..], sep) == b + [sep] + c;
    assert Join(parts, sep) == a + [sep] + b + [sep] + c;
    SplitOfJoin(parts, sep);
  }

  /** `s.replace(c, '')` with a one-character string pattern: only the
      first occurrence is removed. */
  function RemoveFirst(s: string, c: char): string
    decreases |s|
  {
    if |s| == 0 then s
    else if s[0] == c then s[1..]
    else [s[0]] + RemoveFirst(s[1..], c)
  }

  /** Removing the first `c` from `x + c + y`, where `x` holds no `c`,
      leaves `x + y`: every later `c`, in `y`, survives. */
  lemma {:induction false} RemoveFirstOnlyFirst(x: string, c: char, y: string)
    requires c !in x
    ensures RemoveFirst(x + [c] + y, c) == x + y
    decreases |x|
  {
    if |x| > 0 {
      assert (x + [c] + y)[1..] == x[1..] + [c] + y;
      RemoveFirstOnlyFirst(x[1..], c, y);
      assert x + y == [x[0]] + (x[1..] + y);
    } else {
      assert x + [c] + y == [c] + y;
    }
  }

  /** A string without `c` is left alone. */
  lemma {:induction false} RemoveFirstAbsent(s: string, c: char)
    requires c !in s
    ensures RemoveFirst(s, c) == s
    decreases |s|
  {
    if |s| > 0 {
      RemoveFirstAbsent(s[1..], c);
      assert s == [s[0]] + s[1..];
    }
  }
}
