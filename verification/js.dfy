/** Values and array operations of the JavaScript the scrapers are written
    in, reduced to what the scrapers rely on: numbers that may be missing,
    the ways a scraper method can end, and the `slice`, `filter`, `flat` and
    `find` calls applied to tokenised tables. */
module Js {

  datatype Option<+T> = None | Some(value: T)

  /** A number as the scrapers compute it: an integer, or `Undef` for the
      `undefined` read past the end of an array and for the `NaN` that any
      arithmetic involving it produces. */
  datatype Num = Undef | Int(n: int)

  /** How a scraper method ends: `return null`, `undefined` from a `find`
      that matched nothing, an exception (a TypeError on a missing row, or a
      date library's argument error), or a record. */
  datatype Outcome<+T> = Null | Undefined | Thrown | Value(value: T)

  /** `a - b` */
  function Sub(a: Num, b: Num): Num
  {
    if a.Int? && b.Int? then Int(a.n - b.n) else Undef
  }

  /** `a + b` */
  function Add(a: Num, b: Num): Num
  {
    if a.Int? && b.Int? then Int(a.n + b.n) else Undef
  }

  /** Adding two numbers is adding the integers they hold. */
  lemma AddOfInts(x: Num, y: Num, a: int, b: int, sum: int)
    requires x == Int(a) && y == Int(b) && sum == a + b
    ensures Add(x, y) == Int(sum)
  {
  }

  /** Subtracting two numbers is subtracting the integers they hold. */
  lemma SubOfInts(x: Num, y: Num, a: int, b: int, diff: int)
    requires x == Int(a) && y == Int(b) && diff == a - b
    ensures Sub(x, y) == Int(diff)
  {
  }

  /** `xs[i]`, which is `undefined` past the end */
  function At(xs: seq<Num>, i: nat): Num
  {
    if i < |xs| then xs[i] else Undef
  }

  function Ints(xs: seq<int>): (r: seq<Num>)
    ensures |r| == |xs|
    ensures forall i :: 0 <= i < |xs| ==> r[i] == Int(xs[i])
  {
    seq(|xs|, i requires 0 <= i < |xs| => Int(xs[i]))
  }

  /** `s.slice(k)` for a non-negative `k` */
  function SliceFrom<T>(s: seq<T>, k: nat): (r: seq<T>)
    ensures |r| == if k <= |s| then |s| - k else 0
    ensures forall i :: 0 <= i < |r| ==> r[i] == s[k + i]
  {
    if k <= |s| then s[k..] else []
  }

  /** `s.slice(k, -1)`: from `k` up to, but not including, the last element */
  function SliceDropLast<T>(s: seq<T>, k: nat): (r: seq<T>)
    ensures |r| == if k < |s| then |s| - 1 - k else 0
    ensures forall i :: 0 <= i < |r| ==> k + i < |s| - 1 && r[i] == s[k + i]
    ensures k < |s| ==> s[k..] == r + [s[|s| - 1]]
  {
    if k < |s| then s[k..|s| - 1] else []
  }

  /** `xs.filter(p)` */
  function Filter<T>(xs: seq<T>, p: T -> bool): (r: seq<T>)
    ensures |r| <= |xs|
    ensures forall i :: 0 <= i < |r| ==> p(r[i])
  {
    if |xs| == 0 then []
    else (if p(xs[0]) then [xs[0]] else []) + Filter(xs[1..], p)
  }

  /** Filtering keeps the order of what it keeps: filtering a concatenation
      is concatenating the filtered parts. */
  lemma {:induction false} FilterConcat<T>(a: seq<T>, b: seq<T>, p: T -> bool)
    ensures Filter(a + b, p) == Filter(a, p) + Filter(b, p)
    decreases |a|
  {
    if |a| == 0 {
      assert a + b == b;
    } else {
      assert (a + b)[1..] == a[1..] + b;
      FilterConcat(a[1..], b, p);
    }
  }

  /** An element the filter rejects can be dropped before filtering. */
  lemma FilterSkip<T>(a: seq<T>, x: T, b: seq<T>, p: T -> bool)
    requires !p(x)
    ensures Filter(a + [x] + b, p) == Filter(a + b, p)
  {
    FilterConcat(a + [x], b, p);
    FilterConcat(a, [x], p);
    FilterConcat(a, b, p);
    assert Filter([x], p) == [];
  }

  /** A filter every element passes returns its input. */
  lemma {:induction false} FilterKeepsAll<T>(xs: seq<T>, p: T -> bool)
    requires forall i :: 0 <= i < |xs| ==> p(xs[i])
    ensures Filter(xs, p) == xs
    decreases |xs|
  {
    if |xs| > 0 {
      FilterKeepsAll(xs[1..], p);
    }
  }

  /** `xss.flat()` */
  function Flatten<T>(xss: seq<seq<T>>): seq<T>
  {
    if |xss| == 0 then [] else xss[0] + Flatten(xss[1..])
  }

  /** When every part has width `w`, the flattened sequence has
      `|xss| * w` elements. */
  lemma {:induction false} FlattenUniformLength<T>(xss: seq<seq<T>>, w: nat)
    requires forall g :: 0 <= g < |xss| ==> |xss[g]| == w
    ensures |Flatten(xss)| == |xss| * w
    decreases |xss|
  {
    if |xss| > 0 {
      FlattenUniformLength(xss[1..], w);
      assert |xss| * w == w + |xss[1..]| * w;
    }
  }

  /** When every part has width `w`, element `k` of part `g` sits at
      position `g * w + k` of the flattened sequence. */
  lemma {:induction false} FlattenUniformAt<T>(xss: seq<seq<T>>, w: nat, g: nat, k: nat)
    requires forall h :: 0 <= h < |xss| ==> |xss[h]| == w
    requires g < |xss| && k < w
    ensures g * w + k < |Flatten(xss)|
    ensures Flatten(xss)[g * w + k] == xss[g][k]
    decreases g
  {
    FlattenUniformLength(xss, w);
    var rest := xss[1..];
    assert Flatten(xss) == xss[0] + Flatten(rest);
    if g > 0 {
      FlattenUniformAt(rest, w, g - 1, k);
      assert g * w + k == w + ((g - 1) * w + k);
      assert rest[g - 1] == xss[g];
    }
  }

  /** The position `xs.find(p)` stops at: the first element satisfying `p`. */
  function FirstIndex<T>(xs: seq<T>, p: T -> bool): (r: Option<nat>)
    ensures r.Some? ==> r.value < |xs| && p(xs[r.value])
    ensures r.Some? ==> forall j :: 0 <= j < r.value ==> !p(xs[j])
    ensures r.None? <==> forall j :: 0 <= j < |xs| ==> !p(xs[j])
    decreases |xs|
  {
    if |xs| == 0 then None
    else if p(xs[0]) then Some(0)
    else match FirstIndex(xs[1..], p)
      case None => None
      case Some(i) => Some(i + 1)
  }
}
