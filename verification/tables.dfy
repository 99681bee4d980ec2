/** Filling a freshly inserted table. Cell text cannot be written while the
    table is created, so the planner computes where each cell's paragraph
    will be from the table's start and the lengths already written: the
    first cell of a row sits 3 positions after the end of the previous row's
    text, the second cell 2 positions after the end of the first. Cell text
    goes through AddText without moving the cursor.
 */
module Tables {
  import opened Wrappers
  import opened Requests
  import opened Cursor
  import opened SeqFacts

  /** Positions from the table start to the first cell's text, and from
      the end of a row's last text to the next row's first text: the cell's
      closing newline, the row start and the cell start. */
  const RowGap := 3

  /** Positions from the end of a cell's text to the next cell's text in
      the same row: the closing newline and the next cell's start. */
  const CellGap := 2

  /** The two cells of one data row and their styles. */
  datatype CellRow = CellRow(first: string, firstStyle: TextStyle, second: string, secondStyle: TextStyle)

  /** The positions one row occupies: its text plus 5 structural positions. */
  function RowWidth(row: CellRow): nat {
    |row.first| + |row.second| + 5
  }

  function RowsWidth(rows: seq<CellRow>): nat {
    if rows == [] then 0 else RowWidth(rows[0]) + RowsWidth(rows[1..])
  }

  lemma {:induction false} RowsWidthAppend(a: seq<CellRow>, b: seq<CellRow>)
    ensures RowsWidth(a + b) == RowsWidth(a) + RowsWidth(b)
  {
    if a == [] {
      assert a + b == b;
    } else {
      assert (a + b)[1..] == a[1..] + b;
      RowsWidthAppend(a[1..], b);
    }
  }

  /** Where the first cell of data row `k` is written, in closed form. */
  function RowStart(rows: seq<CellRow>, cur: int, k: nat): int
    requires k <= |rows|
  {
    cur + 3 + RowsWidth(rows[..k])
  }

  /** Consecutive rows: row k+1 starts exactly the width of row k after it. */
  lemma RowStep(rows: seq<CellRow>, cur: int, k: nat)
    requires k + 1 <= |rows|
    ensures RowStart(rows, cur, k + 1) == RowStart(rows, cur, k) + |rows[k].first| + CellGap + |rows[k].second| + RowGap
  {
    assert rows[..k + 1] == rows[..k] + [rows[k]];
    RowsWidthAppend(rows[..k], [rows[k]]);
    assert [rows[k]][1..] == [];
  }

  /** One data row whose first cell is written at `s`: first text, its
      style, then the second text 2 positions after the first ends, and its
      style. Neither moves the cursor. */
  function RowRequests(row: CellRow, s: int): (reqs: seq<Request>) {
    var s2 := s + |row.first| + 2;
    [ InsertText(s, row.first), UpdateTextStyle(s, s + |row.first|, row.firstStyle),
      InsertText(s2, row.second), UpdateTextStyle(s2, s2 + |row.second|, row.secondStyle) ]
  }

  /** The row is what two cursor-neutral AddText calls emit: the first cell
      at `s`, the second 2 positions after the first cell's text ends. */
  lemma RowRequestsAreAddText(row: CellRow, s: int)
    ensures RowRequests(row, s)
         == AddText(row.first, s, Some(row.firstStyle), false, false).reqs
          + AddText(row.second, s + |row.first| + 2, Some(row.secondStyle), false, false).reqs
  {
  }

  /** The data rows, written in order from `cur` (the end of the header's
      last text): the running offset moves 3 to the row's first cell, past
      its text and 2 more to the second cell, and past that text. */
  function FillRows(rows: seq<CellRow>, cur: int): (e: Emit)
    ensures |e.reqs| == 4 * |rows|
    ensures e.next == cur + RowsWidth(rows)
    decreases |rows|
  {
    if rows == [] then Emit([], cur)
    else
      var row := rows[0];
      var c0 := cur + 3;
      var c1 := c0 + |row.first| + 2;
      var rest := FillRows(rows[1..], c1 + |row.second|);
      Emit(RowRequests(row, c0) + rest.reqs, rest.next)
  }

  /** The first row's requests, then the remaining rows from past its width. */
  lemma FillRowsUnfold(rows: seq<CellRow>, cur: int)
    requires rows != []
    ensures FillRows(rows, cur).reqs
         == RowRequests(rows[0], cur + 3) + FillRows(rows[1..], cur + RowWidth(rows[0])).reqs
  {
  }

  /** Row k of the data lands where the closed form says: its four requests
      are those of a row written at RowStart(rows, cur, k). */
  lemma {:induction false} FillRowsPlacesRow(rows: seq<CellRow>, cur: int, k: nat)
    requires k < |rows|
    ensures FillRows(rows, cur).reqs[4 * k .. 4 * k + 4] == RowRequests(rows[k], RowStart(rows, cur, k))
    decreases k
  {
    if k == 0 {
      FillRowsFirst(rows, cur);
    } else {
      FillRowsPlacesRow(rows[1..], cur + RowWidth(rows[0]), k - 1);
      FillRowsShift(rows, cur, k);
    }
  }

  lemma FillRowsFirst(rows: seq<CellRow>, cur: int)
    requires rows != []
    ensures FillRows(rows, cur).reqs[0 .. 4] == RowRequests(rows[0], RowStart(rows, cur, 0))
  {
    FillRowsUnfold(rows, cur);
    assert rows[..0] == [];
    SliceLeft(RowRequests(rows[0], cur + 3), FillRows(rows[1..], cur + RowWidth(rows[0])).reqs);
  }

  /** Row k of the rows is row k - 1 of the rows after the first. */
  lemma FillRowsShift(rows: seq<CellRow>, cur: int, k: nat)
    requires 0 < k < |rows|
    requires var cur' := cur + RowWidth(rows[0]);
             FillRows(rows[1..], cur').reqs[4 * (k - 1) .. 4 * (k - 1) + 4]
             == RowRequests(rows[1..][k - 1], RowStart(rows[1..], cur', k - 1))
    ensures FillRows(rows, cur).reqs[4 * k .. 4 * k + 4] == RowRequests(rows[k], RowStart(rows, cur, k))
  {
    var cur' := cur + RowWidth(rows[0]);
    FillRowsUnfold(rows, cur);
    RowStartTail(rows, cur, k);
    WindowRight(RowRequests(rows[0], cur + 3), FillRows(rows[1..], cur').reqs, 4 * (k - 1), 4 * (k - 1) + 4);
  }

  /** Dropping the first row moves the offset past it. */
  lemma RowStartTail(rows: seq<CellRow>, cur: int, k: nat)
    requires 0 < k <= |rows|
    ensures RowStart(rows, cur, k) == RowStart(rows[1..], cur + RowWidth(rows[0]), k - 1)
  {
    assert rows[..k] == [rows[0]] + rows[1..][..k - 1];
    assert ([rows[0]] + rows[1..][..k - 1])[1..] == rows[1..][..k - 1];
  }

  /** The header row: both header cells shaded, then the two header texts,
      each in the header style over exactly its text, the first RowGap after
      the table start and the second CellGap after the first ends; the
      result's cursor is the end of the second header text, where FillRows
      takes over. */
  function HeaderRow(tableStart: int, header0: string, header1: string, color: Rgb, style: TextStyle): (e: Emit)
    ensures |e.reqs| == 6
    ensures e.reqs[0] == UpdateTableCellBackground(tableStart, 0, 0, color)
    ensures e.reqs[1] == UpdateTableCellBackground(tableStart, 1, 0, color)
    ensures e.reqs[2] == InsertText(tableStart + RowGap, header0)
    ensures e.reqs[3] == UpdateTextStyle(tableStart + RowGap, tableStart + RowGap + |header0|, style)
    ensures e.reqs[4] == InsertText(tableStart + RowGap + |header0| + CellGap, header1)
    ensures e.reqs[5] == UpdateTextStyle(tableStart + RowGap + |header0| + CellGap, e.next, style)
    ensures e.next == tableStart + RowGap + |header0| + CellGap + |header1|
  {
    var shading := [UpdateTableCellBackground(tableStart, 0, 0, color), UpdateTableCellBackground(tableStart, 1, 0, color)];
    Emit(shading + RowRequests(CellRow(header0, style, header1, style), tableStart + 3),
         tableStart + 5 + |header0| + |header1|)
  }

  /** A two-column table with a header row and one row per record, inserted
      at the cursor; the table starts one position after the cursor. */
  function TwoColumnTable(index: int, header0: string, header1: string, color: Rgb, rows: seq<CellRow>): (reqs: seq<Request>)
    ensures |reqs| == 1 + 6 + 4 * |rows|
    ensures reqs[0] == InsertTable(index, |rows| + 1, 2)
    ensures reqs[1] == UpdateTableCellBackground(index + 1, 0, 0, color)
    ensures reqs[2] == UpdateTableCellBackground(index + 1, 1, 0, color)
    ensures reqs[3] == InsertText(index + 4, header0)
    ensures reqs[4] == UpdateTextStyle(index + 4, index + 4 + |header0|, Font10Bold)
    ensures reqs[5] == InsertText(index + 6 + |header0|, header1)
    ensures reqs[6] == UpdateTextStyle(index + 6 + |header0|, index + 6 + |header0| + |header1|, Font10Bold)
    ensures reqs[7..] == FillRows(rows, index + 6 + |header0| + |header1|).reqs
  {
    var tableStart := index + 1;
    var head := HeaderRow(tableStart, header0, header1, color, Font10Bold);
    var body := FillRows(rows, head.next);
    SliceMiddle([InsertTable(index, |rows| + 1, 2)], head.reqs, body.reqs);
    [InsertTable(index, |rows| + 1, 2)] + head.reqs + body.reqs
  }

  /** Data row k of the table: its two texts at the closed-form offset and
      each styled over exactly its own text. */
  lemma TableRowPlaced(index: int, header0: string, header1: string, color: Rgb, rows: seq<CellRow>, k: nat)
    requires k < |rows|
    ensures var reqs := TwoColumnTable(index, header0, header1, color, rows);
            var s := RowStart(rows, index + 6 + |header0| + |header1|, k);
            var row := rows[k];
            && |reqs| == 7 + 4 * |rows|
            && reqs[7 + 4 * k] == InsertText(s, row.first)
            && reqs[7 + 4 * k + 1] == UpdateTextStyle(s, s + |row.first|, row.firstStyle)
            && reqs[7 + 4 * k + 2] == InsertText(s + |row.first| + 2, row.second)
            && reqs[7 + 4 * k + 3] == UpdateTextStyle(s + |row.first| + 2, s + |row.first| + 2 + |row.second|, row.secondStyle)
  {
    var reqs := TwoColumnTable(index, header0, header1, color, rows);
    var cells := TableRowSlice(index, header0, header1, color, rows, k);
    assert reqs[7 + 4 * k .. 7 + 4 * k + 4] == cells;
    assert reqs[7 + 4 * k] == cells[0];
    assert reqs[7 + 4 * k + 1] == cells[1];
    assert reqs[7 + 4 * k + 2] == cells[2];
    assert reqs[7 + 4 * k + 3] == cells[3];
  }

  /** The four requests of data row k, as one slice of the table's requests. */
  lemma TableRowSlice(index: int, header0: string, header1: string, color: Rgb, rows: seq<CellRow>, k: nat)
    returns (cells: seq<Request>)
    requires k < |rows|
    ensures cells == RowRequests(rows[k], RowStart(rows, index + 6 + |header0| + |header1|, k))
    ensures TwoColumnTable(index, header0, header1, color, rows)[7 + 4 * k .. 7 + 4 * k + 4] == cells
  {
    var reqs := TwoColumnTable(index, header0, header1, color, rows);
    var cur := index + 6 + |header0| + |header1|;
    FillRowsPlacesRow(rows, cur, k);
    cells := RowRequests(rows[k], RowStart(rows, cur, k));
    SuffixWindow(reqs, 7, 4 * k, 4 * k + 4);
  }
}
