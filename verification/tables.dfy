/**
  Tables: which rows become header lines, which become body lines, and
  which is dropped as a separator.
 */
module Tables {
  import opened Strings
  import opened Mdast
  import opened Converter
  import opened Rendering

  /** The trimmed rendered cells of a row, from the table's field values. */
  function RowCells(row: Node, st: State): seq<string>
    requires WellFormed(row) && IsParent(row)
  {
    TrimAll(ExecCells(row.children, st).cells)
  }

  predicate RowsOk(rows: seq<Node>) {
    AllWellFormed(rows) && forall i :: 0 <= i < |rows| ==> IsParent(rows[i])
  }

  lemma RowsOkTail(rows: seq<Node>)
    requires RowsOk(rows) && |rows| > 0
    ensures RowsOk(rows[1..])
  {
    assert forall i :: 0 <= i < |rows| - 1 ==> rows[1..][i] == rows[i + 1];
  }

  /** Reference: every row as a body line. */
  function BodyLines(rows: seq<Node>, st: State): string
    requires RowsOk(rows)
    decreases |rows|
  {
    if |rows| == 0 then "" else RowMarkup(RowCells(rows[0], st), false) + BodyLines(rows[1..], st)
  }

  /** From the fourth row on (and from the third when the second was kept)
      every row is a body line. */
  lemma {:induction false} LaterRowsAreBody(rows: seq<Node>, index: nat, headerProcessed: bool, st: State)
    requires RowsOk(rows)
    requires index >= 3 || (index == 2 && !headerProcessed)
    ensures ExecRows(rows, index, headerProcessed, st).out == BodyLines(rows, st)
    decreases |rows|
  {
    if |rows| > 0 {
      RowsOkTail(rows);
      BodyStep(rows, index, headerProcessed, st);
      LaterRowsAreBody(rows[1..], index + 1, headerProcessed, st);
    }
  }

  /** One step of the row loop past the header positions: a body line. */
  lemma BodyStep(rows: seq<Node>, index: nat, headerProcessed: bool, st: State)
    requires RowsOk(rows) && |rows| > 0
    requires index >= 3 || (index == 2 && !headerProcessed)
    ensures RowsOk(rows[1..])
    ensures ExecRows(rows, index, headerProcessed, st).out ==
      RowMarkup(RowCells(rows[0], st), false) + ExecRows(rows[1..], index + 1, headerProcessed, st).out
  {
    RowsOkTail(rows);
    RowStep(rows, index, headerProcessed, st);
  }

  /** One step of the row loop, from the table's field values. */
  lemma RowStep(rows: seq<Node>, index: nat, headerProcessed: bool, st: State)
    requires RowsOk(rows) && |rows| > 0
    ensures ExecRows(rows, index, headerProcessed, st).out ==
      if index == 1 && IsSeparatorRow(RowCells(rows[0], st)) then
        ExecRows(rows[1..], index + 1, true, st).out
      else
        RowMarkup(RowCells(rows[0], st), index == 0 || (index == 2 && headerProcessed))
          + ExecRows(rows[1..], index + 1, headerProcessed, st).out
  {
  }

  /** Reference layout of a table's rows: row 0 a header line; row 1
      dropped when it is a separator row, and then row 2 a header line;
      every other row a body line. */
  function TableLines(rows: seq<Node>, st: State): string
    requires RowsOk(rows)
  {
    if |rows| == 0 then ""
    else if |rows| >= 2 && IsSeparatorRow(RowCells(rows[1], st)) then
      RowMarkup(RowCells(rows[0], st), true)
        + (if |rows| >= 3 then RowMarkup(RowCells(rows[2], st), true) + BodyLines(rows[3..], st) else "")
    else
      RowMarkup(RowCells(rows[0], st), true) + BodyLines(rows[1..], st)
  }

  /** `processTable`: the row loop from position 0, then a blank line. */
  lemma TableIsRowLoop(rows: seq<Node>, st: State)
    requires RowsOk(rows)
    ensures WellFormed(Table(rows))
    ensures Render(Table(rows), st) == ExecRows(rows, 0, false, st).out + "\n"
  {
    assert WellFormed(Table(rows));
    assert Render(Table(rows), st) == ProcessTable(Table(rows), st).out;
  }

  /** The row loop from position 0 produces the reference layout. */
  lemma {:induction false} RowLoopLayout(rows: seq<Node>, st: State)
    requires RowsOk(rows)
    ensures ExecRows(rows, 0, false, st).out == TableLines(rows, st)
  {
    if |rows| >= 1 {
      RowStep(rows, 0, false, st);
      RowsOkTail(rows);
      var t1 := rows[1..];
      FromSecondRow(t1, st);
      if |rows| >= 2 {
        assert t1[0] == rows[1];
        if |rows| >= 3 {
          assert t1[1] == rows[2];
          assert t1[2..] == rows[3..];
        }
      }
    }
  }

  /** The row loop from position 1: the row there is dropped when it is a
      separator row, and then the next one is a header line. */
  lemma FromSecondRow(t1: seq<Node>, st: State)
    requires RowsOk(t1)
    ensures ExecRows(t1, 1, false, st).out ==
      if |t1| >= 1 && IsSeparatorRow(RowCells(t1[0], st)) then
        (if |t1| >= 2 then RowMarkup(RowCells(t1[1], st), true) + BodyLines(t1[2..], st) else "")
      else BodyLines(t1, st)
  {
    if |t1| >= 1 {
      RowStep(t1, 1, false, st);
      RowsOkTail(t1);
      var t2 := t1[1..];
      if IsSeparatorRow(RowCells(t1[0], st)) {
        if |t1| >= 2 {
          RowStep(t2, 2, true, st);
          RowsOkTail(t2);
          assert t2[0] == t1[1];
          assert t2[1..] == t1[2..];
          LaterRowsAreBody(t1[2..], 3, true, st);
        }
      } else {
        LaterRowsAreBody(t2, 2, false, st);
      }
    }
  }

  /** The table layout: row 0 is a header line; row 1 is dropped exactly
      when all its trimmed cells are runs of dashes (vacuously so for a row
      without cells), in which case row 2 is a header line too; every other
      row is a body line; one blank line closes the table. */
  lemma TableLayout(rows: seq<Node>, st: State)
    requires RowsOk(rows)
    ensures WellFormed(Table(rows))
    ensures Render(Table(rows), st) == TableLines(rows, st) + "\n"
  {
    TableIsRowLoop(rows, st);
    RowLoopLayout(rows, st);
  }
}
