/**
 The two column writers: one row of framed cells, either every value padded to
 one shared width or each key padded to its own width, closed by a single bar.
 */
module Columns {
  import opened Text
  import opened Terminal
  import opened Alignment

  /** The cells of a row whose values all share the width `maxChar`. */
  function Cells(values: seq<string>, maxChar: int, align: Align): seq<string> {
    seq(|values|, i requires 0 <= i < |values| => Cell(values[i], maxChar, align))
  }

  /** The cells of a row whose entries each carry their own width, in enumeration order. */
  function WidthCells(entries: seq<(string, int)>, align: Align): seq<string> {
    seq(|entries|, i requires 0 <= i < |entries| => Cell(entries[i].0, entries[i].1, align))
  }

  /** A row: its cells in order, then the one closing bar. */
  function Row(cells: seq<string>): string {
    Concat(cells) + "|"
  }

  /** The text width of a row of values sharing `maxChar`: a bar per cell, each cell's content width, and the closing bar. */
  function RowWidth(values: seq<string>, maxChar: int): nat {
    if |values| == 0 then 1 else 1 + Max(maxChar, |values[0]|) + RowWidth(values[1..], maxChar)
  }

  /** The row written for an array of values with one shared width. */
  method WriteColumn(values: seq<string>, align: Align, maxChar: int, foreground: Color, background: Color)
    returns (line: Line)
    ensures line == Line(Row(Cells(values, maxChar, align)), foreground, background)
  {
    ghost var cells := Cells(values, maxChar, align);
    var row := "";
    for i := 0 to |values|
      invariant row == Concat(cells[..i])
    {
      PrefixGrows(cells, i);
      row := row + Cell(values[i], maxChar, align);
    }
    assert cells[..|values|] == cells;
    line := Line(row + "|", foreground, background);
  }

  /** The row written for a dictionary from each key to its own width, enumerated in order. */
  method WriteColumnWidths(entries: seq<(string, int)>, align: Align, foreground: Color, background: Color)
    returns (line: Line)
    ensures line == Line(Row(WidthCells(entries, align)), foreground, background)
  {
    ghost var cells := WidthCells(entries, align);
    var row := "";
    for i := 0 to |entries|
      invariant row == Concat(cells[..i])
    {
      var maxChar := entries[i].1;
      PrefixGrows(cells, i);
      row := row + Cell(entries[i].0, maxChar, align);
    }
    assert cells[..|entries|] == cells;
    line := Line(row + "|", foreground, background);
  }

  /** Writing the cells up to `i + 1` is writing those up to `i`, then cell `i`. */
  lemma PrefixGrows(cells: seq<string>, i: nat)
    requires i < |cells|
    ensures Concat(cells[..i + 1]) == Concat(cells[..i]) + cells[i]
  {
    assert cells[..i + 1] == cells[..i] + [cells[i]];
    ConcatSnoc(cells[..i], cells[i]);
  }

  /** With every key mapped to the same width, the dictionary writer writes what the array writer writes. */
  lemma OverloadsAgree(values: seq<string>, maxChar: int, align: Align)
    ensures WidthCells(seq(|values|, i requires 0 <= i < |values| => (values[i], maxChar)), align)
         == Cells(values, maxChar, align)
  {
  }

  /** Rows compose in order: the cells of `a` come first, then the row of `b`. */
  lemma RowAppend(a: seq<string>, b: seq<string>, maxChar: int, align: Align)
    ensures Row(Cells(a + b, maxChar, align)) == Concat(Cells(a, maxChar, align)) + Row(Cells(b, maxChar, align))
  {
    var ca, cb := Cells(a, maxChar, align), Cells(b, maxChar, align);
    CellsAppend(a, b, maxChar, align);
    ConcatAppend(ca, cb);
    assert Concat(ca + cb) + "|" == Concat(ca) + (Concat(cb) + "|");
  }

  /** The cells of `a + b` are the cells of `a` followed by the cells of `b`. */
  lemma CellsAppend(a: seq<string>, b: seq<string>, maxChar: int, align: Align)
    ensures Cells(a + b, maxChar, align) == Cells(a, maxChar, align) + Cells(b, maxChar, align)
  {
    var ca, cb := Cells(a, maxChar, align), Cells(b, maxChar, align);
    forall i | 0 <= i < |a| + |b|
      ensures Cells(a + b, maxChar, align)[i] == (ca + cb)[i]
    {
      if i < |a| {
        assert (a + b)[i] == a[i];
      } else {
        assert (a + b)[i] == b[i - |a|];
      }
    }
  }

  /** A row is exactly as wide as its cells plus the closing bar; no value is ever cut. */
  lemma {:induction false} RowLength(values: seq<string>, maxChar: int, align: Align)
    ensures |Row(Cells(values, maxChar, align))| == RowWidth(values, maxChar)
    decreases |values|
  {
    if |values| > 0 {
      RowLength(values[1..], maxChar, align);
      var rest := Cells(values[1..], maxChar, align);
      assert forall i :: 1 <= i < |values| ==> values[i] == values[1..][i - 1];
      assert Cells(values, maxChar, align) == [Cell(values[0], maxChar, align)] + rest;
    }
  }

  /** An empty row is the closing bar alone. */
  lemma EmptyRow(maxChar: int, align: Align)
    ensures Row(Cells([], maxChar, align)) == "|"
  {
  }
}
