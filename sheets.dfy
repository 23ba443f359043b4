/**
 * A worksheet as the spreadsheet reader hands it to the program: a grid of
 * cells, row by row.  A row shorter than the widest one is padded with
 * missing cells, which is how a data frame presents a ragged sheet.
 */
module Sheets {

  /** One cell: empty (NaN), text, a number, or anything else (a date, a float, a boolean). */
  datatype Cell = Missing | Str(text: string) | Num(n: int) | Other

  type Row = seq<Cell>

  type Grid = seq<Row>

  /** The cell in column `j` of `row`; past the end of the row it is missing. */
  function At(row: Row, j: nat): Cell {
    if j < |row| then row[j] else Missing
  }

  /** The number of columns of the data frame: the length of the longest row. */
  function Width(g: Grid): (w: nat)
    ensures forall i :: 0 <= i < |g| ==> |g[i]| <= w
    ensures g == [] ==> w == 0
    ensures g != [] ==> exists i :: 0 <= i < |g| && |g[i]| == w
  {
    if g == [] then 0
    else
      var rest := Width(g[1..]);
      if |g[0]| >= rest then |g[0]|
      else
        assert forall i :: 1 <= i < |g| ==> g[i] == g[1..][i - 1];
        rest
  }
}
