/** Tokenised report tables: what `csvtojson` makes of a TAIFEX or Treasury
    CSV download, and the row arrays of the TWSE and TPEX JSON feeds. A table
    is a sequence of rows, a row a sequence of cells. */
module Sheet {
  import opened Js
  import opened Text

  type Row = seq<string>
  type Table = seq<Row>

  /** `fields[0] === token` for the header row `fields`; an empty header row
      reads `undefined` and fails the comparison. */
  predicate HeaderIs(fields: Row, token: string)
  {
    |fields| > 0 && fields[0] == token
  }

  /** Some row has no cells: reading its first cell gives `undefined`. */
  predicate HasEmptyRow(rows: Table)
  {
    exists i :: 0 <= i < |rows| && |rows[i]| == 0
  }

  /** `cells.map(data => numeral(data).value())` */
  function ParseCells(parse: string -> int, cells: Row): (r: seq<Num>)
    ensures |r| == |cells|
    ensures forall i :: 0 <= i < |cells| ==> r[i] == Int(Numeral(parse, cells[i]))
  {
    seq(|cells|, i requires 0 <= i < |cells| => Int(Numeral(parse, cells[i])))
  }

  /** Reading cells commutes with concatenation. */
  lemma ParseCellsConcat(parse: string -> int, a: Row, b: Row)
    ensures ParseCells(parse, a + b) == ParseCells(parse, a) + ParseCells(parse, b)
  {
  }

  /** `cells.map(data => numeral(data).value() || +data)` */
  function ParseCellsOrPlus(parse: string -> int, plus: string -> Num, cells: Row): (r: seq<Num>)
    ensures |r| == |cells|
    ensures forall i :: 0 <= i < |cells| ==> r[i] == NumeralOrPlus(parse, plus, cells[i])
  {
    seq(|cells|, i requires 0 <= i < |cells| => NumeralOrPlus(parse, plus, cells[i]))
  }

  /** `rows.map(row => row.slice(k))` */
  function SlicesFrom(rows: Table, k: nat): (r: seq<Row>)
    ensures |r| == |rows|
    ensures forall g :: 0 <= g < |rows| ==> r[g] == SliceFrom(rows[g], k)
  {
    seq(|rows|, g requires 0 <= g < |rows| => SliceFrom(rows[g], k))
  }

  /** `[...rows[0].slice(k), ...rows[1].slice(k), ...]`, also written
      `rows.map(row => row.slice(k)).flat()` */
  function FlattenFrom(rows: Table, k: nat): Row
  {
    Flatten(SlicesFrom(rows, k))
  }

  /** When every row has `k + w` cells, the concatenation has `w` cells per
      row, and cell `j` after the cut of row `g` sits at position
      `pos = g * w + j`: the positional reading the scrapers'
      destructuring relies on. Callers name `pos` themselves, so that a
      literal position costs no multiplication. */
  lemma FlattenFromAt(rows: Table, k: nat, w: nat, g: nat, j: nat, pos: nat)
    requires forall h :: 0 <= h < |rows| ==> |rows[h]| == k + w
    requires g < |rows| && j < w && pos == g * w + j
    ensures |FlattenFrom(rows, k)| == |rows| * w
    ensures pos < |FlattenFrom(rows, k)|
    ensures FlattenFrom(rows, k)[pos] == rows[g][k + j]
  {
    var parts := SlicesFrom(rows, k);
    FlattenUniformLength(parts, w);
    FlattenUniformAt(parts, w, g, j);
  }

  /** A futures row of the large-trader report: contract code `TX` in column 1. */
  predicate IsFuturesRow(row: Row)
  {
    |row| > 1 && row[1] == "TX"
  }

  /** An options row of the large-trader report: contract code `TXO` in column 1. */
  predicate IsOptionsRow(row: Row)
  {
    |row| > 1 && row[1] == "TXO"
  }
}
