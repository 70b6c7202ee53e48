/** The category arithmetic of the TAIFEX large-trader reports. Each report
    row gives, for the top five and the top ten traders, their long and
    short open interest; rows come in pairs (all large traders, and the
    specific institutions among them) for the front month and for all
    months. From these the scraper derives the non-specific traders
    (all − specific) and the back months (all months − front month),
    concatenates the nine resulting vectors and reads the published counts
    back by position. */
module Decompose {
  import opened Js
  import opened Text
  import opened Sheet

  /** `row.slice(start, -1).map(data => numeral(data).value())`: the trader
      counts of a row, leaving out its trailing market open interest cell. */
  function Counts(parse: string -> int, row: Row, start: nat): (r: seq<Num>)
    ensures |r| == if start < |row| then |row| - 1 - start else 0
    ensures forall i :: 0 <= i < |r| ==> start + i < |row| - 1 && r[i] == Int(Numeral(parse, row[start + i]))
  {
    ParseCells(parse, SliceDropLast(row, start))
  }

  /** `numeral(row.slice(-1)).value()`. `numeral` of a one-element array
      goes through JavaScript's `Number`, stood for by `number`; the empty
      array gives `null`, carried as 0. */
  function MarketOi(number: string -> int, row: Row): (oi: int)
    ensures |row| > 0 ==> oi == number(row[|row| - 1])
  {
    if |row| == 0 then 0 else number(row[|row| - 1])
  }

  /** `a.map((data, i) => data - b[i])`: as long as `a`; an element is a
      number exactly when both operands have a number at its index, and
      then it is their difference; everywhere else (`b` shorter, or a `NaN`
      operand) it is `NaN`. */
  function Diff(a: seq<Num>, b: seq<Num>): (r: seq<Num>)
    ensures |r| == |a|
    ensures forall i :: 0 <= i < |a| ==> (r[i].Int? <==> a[i].Int? && i < |b| && b[i].Int?)
    ensures forall i :: 0 <= i < |a| && r[i].Int? ==> r[i].n == a[i].n - b[i].n
    ensures forall i :: 0 <= i < |a| ==> r[i] == Sub(a[i], At(b, i))
  {
    seq(|a|, i requires 0 <= i < |a| => Sub(a[i], At(b, i)))
  }

  /** The four count vectors read from the report: front month, its
      specific institutions, all months, and its specific institutions. */
  datatype Quad = Quad(front: seq<Num>, frontSpecific: seq<Num>, all: seq<Num>, allSpecific: seq<Num>)

  /** The counts of four report rows, each cut at `start`. */
  function QuadOf(parse: string -> int, rows: seq<Row>, start: nat): Quad
    requires |rows| == 4
  {
    Quad(Counts(parse, rows[0], start), Counts(parse, rows[1], start),
         Counts(parse, rows[2], start), Counts(parse, rows[3], start))
  }

  /** The nine vectors in the order the scraper concatenates them: front,
      front specific, front non-specific, all, all specific, all
      non-specific, back, back specific, back non-specific. */
  function Vectors(q: Quad): (vs: seq<seq<Num>>)
    ensures |vs| == 9
  {
    var frontNonSpecific := Diff(q.front, q.frontSpecific);
    var allNonSpecific := Diff(q.all, q.allSpecific);
    var back := Diff(q.all, q.front);
    var backSpecific := Diff(q.allSpecific, q.frontSpecific);
    var backNonSpecific := Diff(back, backSpecific);
    [q.front, q.frontSpecific, frontNonSpecific, q.all, q.allSpecific, allNonSpecific,
     back, backSpecific, backNonSpecific]
  }

  /** When every vector has `w` elements so do the nine derived ones. */
  lemma VectorsWidth(q: Quad, w: nat)
    requires |q.front| == w && |q.frontSpecific| == w && |q.all| == w && |q.allSpecific| == w
    ensures forall h :: 0 <= h < 9 ==> |Vectors(q)[h]| == w
  {
  }

  /** Back-months non-specific is computed as back months minus back-months
      specific; it is also all-months non-specific minus front-month
      non-specific, at every index and for vectors of any lengths, so the
      order of derivation does not matter. */
  lemma BackNonSpecificAgrees(q: Quad)
    ensures Vectors(q)[8] == Diff(Vectors(q)[5], Vectors(q)[2])
  {
    var vs := Vectors(q);
    var rhs := Diff(vs[5], vs[2]);
    forall i | 0 <= i < |q.all|
      ensures vs[8][i] == rhs[i]
    {
      var a, al := q.all[i], At(q.allSpecific, i);
      var f, fs := At(q.front, i), At(q.frontSpecific, i);
      assert vs[6][i] == Sub(a, f);
      assert At(vs[7], i) == (if i < |q.allSpecific| then Sub(al, fs) else Undef);
      assert vs[5][i] == Sub(a, al);
      assert At(vs[2], i) == (if i < |q.front| then Sub(f, fs) else Undef);
    }
  }

  /** Long, short, and net open interest of one group of traders. */
  datatype Position = Position(longOi: Num, shortOi: Num, netOi: Num)

  /** The top-five and top-ten positions of one category. */
  datatype Ranked = Ranked(top5: Position, top10: Position)

  /** The four categories the report publishes. */
  datatype Book = Book(specificFront: Ranked, specificBack: Ranked,
                       nonSpecificFront: Ranked, nonSpecificBack: Ranked)

  datatype Tier = Specific | NonSpecific
  datatype Bucket = Front | Back

  /** `long - short`, computed without clamping: a net short stays negative. */
  function Net(long: Num, short: Num): Position
  {
    Position(long, short, Sub(long, short))
  }

  predicate NetsHold(r: Ranked)
  {
    && r.top5.netOi == Sub(r.top5.longOi, r.top5.shortOi)
    && r.top10.netOi == Sub(r.top10.longOi, r.top10.shortOi)
  }

  /** The published counts of a category: top-5 long, top-5 short, top-10
      long, top-10 short. */
  function CountsOf(r: Ranked): seq<Num>
  {
    [r.top5.longOi, r.top5.shortOi, r.top10.longOi, r.top10.shortOi]
  }

  /** Destructuring group `g` of the concatenation: its four counts are the
      elements `4g` to `4g + 3`, `undefined` past the end. */
  function RankedAt(raw: seq<Num>, g: nat): Ranked
  {
    Ranked(Net(At(raw, 4 * g), At(raw, 4 * g + 1)), Net(At(raw, 4 * g + 2), At(raw, 4 * g + 3)))
  }

  /** Position, among the nine vectors, of each published category. */
  function GroupIndex(t: Tier, b: Bucket): nat
  {
    match (t, b)
    case (Specific, Front) => 1
    case (Specific, Back) => 7
    case (NonSpecific, Front) => 2
    case (NonSpecific, Back) => 8
  }

  function Group(book: Book, t: Tier, b: Bucket): Ranked
  {
    match (t, b)
    case (Specific, Front) => book.specificFront
    case (Specific, Back) => book.specificBack
    case (NonSpecific, Front) => book.nonSpecificFront
    case (NonSpecific, Back) => book.nonSpecificBack
  }

  /** The published categories of the nine vectors that start at vector
      `base` of the concatenation `raw`; every net is long minus short. */
  function Publish(raw: seq<Num>, base: nat): (book: Book)
    ensures forall t, b :: Group(book, t, b) == RankedAt(raw, base + GroupIndex(t, b))
    ensures forall t, b :: NetsHold(Group(book, t, b))
  {
    Book(RankedAt(raw, base + 1), RankedAt(raw, base + 7), RankedAt(raw, base + 2), RankedAt(raw, base + 8))
  }

  /** Row `k`, empty where there is no such row (the lemmas below only
      ask for four rows). */
  function RowAt(rows: seq<Row>, k: nat): Row
  {
    if k < |rows| then rows[k] else []
  }

  /** Parsed cell `j` of a row, 0 where the row has no such cell (the
      lemmas below only ask rows wide enough). */
  function CellAt(parse: string -> int, row: Row, j: nat): int
  {
    if j < |row| then Numeral(parse, row[j]) else 0
  }

  /** What the report's cells say count `i` of a category is, cell by cell:
      rows are front month, its specific institutions, all months, its
      specific institutions. Non-specific back months is taken here as
      all-months non-specific minus front-month non-specific, the order the
      scraper does not use. */
  function Reference(parse: string -> int, rows: seq<Row>, start: nat, t: Tier, b: Bucket, i: nat): int
  {
    var f := CellAt(parse, RowAt(rows, 0), start + i);
    var fs := CellAt(parse, RowAt(rows, 1), start + i);
    var al := CellAt(parse, RowAt(rows, 2), start + i);
    var als := CellAt(parse, RowAt(rows, 3), start + i);
    match (t, b)
    case (Specific, Front) => fs
    case (Specific, Back) => als - fs
    case (NonSpecific, Front) => f - fs
    case (NonSpecific, Back) => (al - als) - (f - fs)
  }

  /** With exactly four counts per row, element `i` of the vector holding
      a published category is the integer the cells say it is. */
  lemma VectorMatchesReference(parse: string -> int, rows: seq<Row>, start: nat, t: Tier, b: Bucket, i: nat)
    requires |rows| == 4 && forall r :: 0 <= r < 4 ==> |rows[r]| == start + 5
    requires i < 4
    ensures |Vectors(QuadOf(parse, rows, start))[GroupIndex(t, b)]| == 4
    ensures Vectors(QuadOf(parse, rows, start))[GroupIndex(t, b)][i] == Int(Reference(parse, rows, start, t, b, i))
  {
    var q := QuadOf(parse, rows, start);
    var vs := Vectors(q);
    var f := Numeral(parse, rows[0][start + i]);
    var fs := Numeral(parse, rows[1][start + i]);
    var al := Numeral(parse, rows[2][start + i]);
    var als := Numeral(parse, rows[3][start + i]);
    assert q.front[i] == Int(f) && q.frontSpecific[i] == Int(fs);
    assert q.all[i] == Int(al) && q.allSpecific[i] == Int(als);
    assert |q.front| == 4 && |q.frontSpecific| == 4 && |q.all| == 4 && |q.allSpecific| == 4;
    VectorsWidth(q, 4);
    assert Reference(parse, rows, start, t, b, i) == match (t, b)
      case (Specific, Front) => fs
      case (Specific, Back) => als - fs
      case (NonSpecific, Front) => f - fs
      case (NonSpecific, Back) => (al - als) - (f - fs);
    match (t, b)
    case (Specific, Front) =>
    case (Specific, Back) =>
      SubOfInts(q.allSpecific[i], q.frontSpecific[i], als, fs, als - fs);
    case (NonSpecific, Front) =>
      SubOfInts(q.front[i], q.frontSpecific[i], f, fs, f - fs);
    case (NonSpecific, Back) =>
      SubOfInts(q.all[i], q.front[i], al, f, al - f);
      SubOfInts(q.allSpecific[i], q.frontSpecific[i], als, fs, als - fs);
      SubOfInts(vs[6][i], vs[7][i], al - f, als - fs, (al - als) - (f - fs));
  }

  /** Count `i` of a published category is element `4g + i` of the
      concatenation, `g` being the category's vector. */
  lemma PublishedCountAt(raw: seq<Num>, base: nat, t: Tier, b: Bucket, i: nat)
    requires i < 4
    ensures CountsOf(Group(Publish(raw, base), t, b))[i] == At(raw, 4 * (base + GroupIndex(t, b)) + i)
  {
  }

  /** When the four rows have exactly four counts between the cut and the
      market open interest cell, and every vector of the concatenation has
      four elements, each published count is the integer the cells say it
      is: nothing is `NaN` and nothing is read from the wrong category. */
  lemma PublishMatchesReference(parse: string -> int, vs: seq<seq<Num>>, base: nat,
                                rows: seq<Row>, start: nat, t: Tier, b: Bucket, i: nat)
    requires |rows| == 4 && forall r :: 0 <= r < 4 ==> |rows[r]| == start + 5
    requires base + 9 <= |vs| && forall h :: 0 <= h < 9 ==> vs[base + h] == Vectors(QuadOf(parse, rows, start))[h]
    requires forall h :: 0 <= h < |vs| ==> |vs[h]| == 4
    requires i < 4
    ensures CountsOf(Group(Publish(Flatten(vs), base), t, b))[i] == Int(Reference(parse, rows, start, t, b, i))
  {
    VectorMatchesReference(parse, rows, start, t, b, i);
    assert vs[base + GroupIndex(t, b)] == Vectors(QuadOf(parse, rows, start))[GroupIndex(t, b)];
    PublishedCountOfVectors(vs, base, t, b, i);
  }

  /** Over a concatenation of four-element vectors, count `i` of a
      published category is element `i` of the category's vector. */
  lemma PublishedCountOfVectors(vs: seq<seq<Num>>, base: nat, t: Tier, b: Bucket, i: nat)
    requires base + 9 <= |vs| && forall h :: 0 <= h < |vs| ==> |vs[h]| == 4
    requires i < 4
    ensures CountsOf(Group(Publish(Flatten(vs), base), t, b))[i] == vs[base + GroupIndex(t, b)][i]
  {
    var g := base + GroupIndex(t, b);
    FlattenUniformAt(vs, 4, g, i);
    assert 4 * g + i == g * 4 + i;
    PublishedCountAt(Flatten(vs), base, t, b, i);
  }
}
