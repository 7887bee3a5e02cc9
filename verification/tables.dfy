/** The arrays the text reader hands back for a whitespace-delimited file, and
    the numpy indexing the first-level scripts apply to them. */
module Tables {
  import opened Results

  /** What reading a text file yields:
      - `Empty`: an empty file (an array of size 0);
      - `OneRow(cells)`: a one-dimensional array, which is what a file with a
        single row, or a file with a single column, comes back as;
      - `Rows(rows)`: a two-dimensional array, one inner sequence per line. */
  datatype Table<T> = Empty | OneRow(cells: seq<T>) | Rows(rows: seq<seq<T>>)

  /** The shapes the reader produces: a two-dimensional array has at least two
      rows and two columns, and every row has the same width. */
  predicate WellShaped<T>(t: Table<T>) {
    t.Rows? ==>
      && |t.rows| >= 2
      && |t.rows[0]| >= 2
      && forall i :: 0 <= i < |t.rows| ==> |t.rows[i]| == |t.rows[0]|
  }

  /** `t.size`, the number of cells. */
  function Size<T>(t: Table<T>): nat
    requires WellShaped(t)
  {
    match t
    case Empty => 0
    case OneRow(cells) => |cells|
    case Rows(rows) => |rows| * |rows[0]|
  }

  /** The size test `t.size == 3` singles out exactly the one-dimensional arrays of
      three cells: a one-row file of three cells or a three-line file of one
      column. Both are then read as the onset, duration and amplitude of one trial. */
  lemma SizeThree<T>(t: Table<T>)
    requires WellShaped(t)
    ensures Size(t) == 3 <==> t.OneRow? && |t.cells| == 3
  {
    if t.Rows? {
      var r, w := |t.rows|, |t.rows[0]|;
      assert r * w >= 2 * w >= 4;
    }
  }

  /** Column `k` of a list of rows, each at least `k + 1` wide. */
  function Col<T>(rows: seq<seq<T>>, k: nat): (c: seq<T>)
    requires forall i :: 0 <= i < |rows| ==> k < |rows[i]|
    ensures |c| == |rows|
    ensures forall i :: 0 <= i < |rows| ==> c[i] == rows[i][k]
  {
    seq(|rows|, i requires 0 <= i < |rows| => rows[i][k])
  }

  /** `t[:, k]`: only a two-dimensional array with more than `k` columns has a column `k`. */
  function Column<T>(t: Table<T>, k: nat): (r: Result<seq<T>>)
    requires WellShaped(t)
    ensures r.Success? <==> t.Rows? && k < |t.rows[0]|
    ensures r.Success? ==> r.value == Col(t.rows, k)
  {
    match t
    case Rows(rows) =>
      if k < |rows[0]| then Success(Col(rows, k))
      else Failure(IndexError("column index out of range"))
    case _ => Failure(IndexError("too many indices for a one-dimensional array"))
  }

  /** The uniform reading of a table as a list of rows: a one-row file is a
      table of height one, an empty file has no rows. */
  function EventRows<T>(t: Table<T>): seq<seq<T>> {
    match t
    case Empty => []
    case OneRow(cells) => [cells]
    case Rows(rows) => rows
  }

  /** A two-dimensional array with at least three columns: onset, duration and
      amplitude, and possibly more. */
  predicate MultiRow<T>(t: Table<T>) {
    t.Rows? && |t.rows| > 0 && |t.rows[0]| >= 3
  }

  /** Either a one-dimensional array of three cells or a two-dimensional array
      with at least three columns. */
  predicate OneOrMoreRows<T>(t: Table<T>) {
    (t.OneRow? && |t.cells| == 3) || MultiRow(t)
  }

  /** Every row of the uniform reading has the three timing columns. */
  predicate HasTimingColumns<T>(t: Table<T>) {
    forall i :: 0 <= i < |EventRows(t)| ==> |EventRows(t)[i]| >= 3
  }
}
