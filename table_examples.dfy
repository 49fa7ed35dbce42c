/**
 * Concrete lines for a two-column sheet whose header is `Name | Age` and
 * whose widest cells give column widths 5 and 3; the second data row holds
 * the double-width character `佑`.
 */
module TableExamples {
  import opened Width
  import opened MarkdownTable

  /** `佑` is two columns wide, so three spaces bring it to width 5. */
  lemma WideCellPadding()
    ensures Pad("佑", 5) == "佑   "
  {
    assert DisplayWidth("佑") == 2;
    assert Spaces(3) == "   ";
  }

  /** The data line holding `佑`: its column still closes at the header's bar. */
  lemma WideCellLine()
    ensures FormattedLine(["佑", "5"], [5, 3]) == "| 佑    | 5   |"
  {
    WideCellPadding();
    assert Spaces(2) == "  ";
    assert Pad("5", 3) == "5  ";
    assert PaddedCells(["佑", "5"], [5, 3]) == ["佑   ", "5  "];
    assert Join(["佑   ", "5  "], Separator) == "佑    | 5  ";
  }

  /** `Name` is one column short of width 5; `Age` already has width 3. */
  lemma HeaderPadding()
    ensures Pad("Name", 5) == "Name "
    ensures Pad("Age", 3) == "Age"
  {
    assert DisplayWidth("Name") == 4;
    assert DisplayWidth("Age") == 3;
    assert Spaces(1) == " ";
  }

  /** The header line of that sheet. */
  lemma HeaderLine()
    ensures FormattedLine(["Name", "Age"], [5, 3]) == "| Name  | Age |"
  {
    HeaderPadding();
    assert PaddedCells(["Name", "Age"], [5, 3]) == ["Name ", "Age"];
    assert Join(["Name ", "Age"], Separator) == "Name  | Age";
  }

  /** The example sheet: header `Name`, `Age`; data rows `Alice`, `30` and `佑`, `5`. */
  const Sheet: Grid := [["Name", "Age"], ["Alice", "30"], ["佑", "5"]]

  /** `Alice` makes the first column 5 wide; `Age` makes the second 3 wide. */
  lemma SheetWidths()
    ensures ColumnWidths(Sheet) == [5, 3]
  {
    NameColumnWidth();
    AgeColumnWidth();
    assert Column(Sheet, 0) == ["Name", "Alice", "佑"];
    assert Column(Sheet, 1) == ["Age", "30", "5"];
  }

  /** The widest cell of the first column is `Alice`. */
  lemma NameColumnWidth()
    ensures MaxWidth(["Name", "Alice", "佑"]) == 5
  {
    assert DisplayWidth("Name") == 4 && DisplayWidth("Alice") == 5 && DisplayWidth("佑") == 2;
    assert ["Name", "Alice", "佑"][1..] == ["Alice", "佑"];
    assert ["Alice", "佑"][1..] == ["佑"];
  }

  /** The widest cell of the second column is its header `Age`. */
  lemma AgeColumnWidth()
    ensures MaxWidth(["Age", "30", "5"]) == 3
  {
    assert DisplayWidth("Age") == 3 && DisplayWidth("30") == 2 && DisplayWidth("5") == 1;
    assert ["Age", "30", "5"][1..] == ["30", "5"];
    assert ["30", "5"][1..] == ["5"];
  }

  /** The data line of `Alice`, `30`: `Alice` fills its column, `30` gets one space. */
  lemma AliceLine()
    ensures FormattedLine(["Alice", "30"], [5, 3]) == "| Alice | 30  |"
  {
    assert DisplayWidth("Alice") == 5;
    assert DisplayWidth("30") == 2;
    assert Spaces(1) == " ";
    assert Pad("Alice", 5) == "Alice";
    assert Pad("30", 3) == "30 ";
    assert PaddedCells(["Alice", "30"], [5, 3]) == ["Alice", "30 "];
    assert Join(["Alice", "30 "], Separator) == "Alice | 30 ";
  }

  /** The whole file for the example sheet, computed from the grid alone. */
  lemma SheetMarkdown()
    ensures Markdown(Sheet) == ["| Name  | Age |", "", "| Alice | 30  |", "| 佑    | 5   |"]
  {
    SheetWidths();
    HeaderLine();
    AliceLine();
    WideCellLine();
    var widths := ColumnWidths(Sheet);
    assert DataLines(Sheet, widths, 1) == [];
    assert DataLines(Sheet, widths, 2) == [FormattedLine(Sheet[1], widths)];
    assert DataLines(Sheet, widths, 3) == [FormattedLine(Sheet[1], widths), FormattedLine(Sheet[2], widths)];
  }

  /** A one-column sheet without data rows: its header line and the empty line. */
  lemma SingleCellMarkdown()
    ensures Markdown([["X"]]) == ["| X |", ""]
  {
    var grid: Grid := [["X"]];
    assert DisplayWidth("X") == 1;
    var widths := ColumnWidths(grid);
    assert widths == [1];
    assert Pad("X", 1) == "X";
    assert PaddedCells(["X"], [1]) == ["X"];
    assert Join(["X"], Separator) == "X";
    assert FormattedLine(grid[0], widths) == "| X |";
    assert DataLines(grid, widths, 1) == [];
  }
}
