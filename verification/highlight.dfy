/** `GetHighlightedRows` (Program.cs): the rows a spreadsheet author marked
    by filling their first cell with a colour. The workbook is already
    decoded: `colours[r - 1]` is the fill colour name of the first cell of
    row `r`, for the rows `1..RowCount` of the sheet's used range. */
module Highlight {

  /** A fill counts as a highlight unless it is "Transparent", "White" or
      the black "000000". */
  predicate IsHighlight(colourName: string)
    ensures IsHighlight(colourName) <==> colourName !in {"Transparent", "White", "000000"}
  {
    colourName != "Transparent" && colourName != "White" && colourName != "000000"
  }

  /** The rows `2..RowCount` (the header row excluded) whose first cell is
      highlighted, in ascending order. A header-only sheet gives no rows. */
  method HighlightedRows(colours: seq<string>) returns (rows: seq<int>)
    ensures forall i :: 0 <= i < |rows| ==> 2 <= rows[i] <= |colours|
    ensures forall i, j :: 0 <= i < j < |rows| ==> rows[i] < rows[j]
    ensures forall r :: 2 <= r <= |colours| ==> (r in rows <==> IsHighlight(colours[r - 1]))
  {
    rows := [];
    var row := 2;
    while row <= |colours|
      invariant 2 <= row && (row <= |colours| + 1 || row == 2)
      invariant forall i :: 0 <= i < |rows| ==> 2 <= rows[i] < row && rows[i] <= |colours|
      invariant forall i, j :: 0 <= i < j < |rows| ==> rows[i] < rows[j]
      invariant forall r :: 2 <= r < row && r <= |colours| ==> (r in rows <==> IsHighlight(colours[r - 1]))
      decreases |colours| + 1 - row
    {
      if IsHighlight(colours[row - 1]) {
        rows := rows + [row];
      }
      row := row + 1;
    }
  }
}
