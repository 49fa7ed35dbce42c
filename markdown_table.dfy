/**
 * The table formatter of `excel_to_markdown`: per-column widths taken as the
 * widest cell of each column, cells right-padded with spaces to their
 * column's width, rows written as `| a | b |`, and the lines of the file in
 * the order header, blank line, data rows.
 *
 * A grid is the spreadsheet after its cells have been turned into text:
 * row 0 holds the column names, rows 1.. the data rows.
 */
module MarkdownTable {
  import opened Width

  type Row = seq<string>
  type Grid = seq<Row>

  /** A header row and data rows that all have as many cells as the header. */
  predicate Rectangular(grid: Grid)
  {
    |grid| >= 1 && forall r :: 0 <= r < |grid| ==> |grid[r]| == |grid[0]|
  }

  /** Every cell of `row` is no wider than its column. */
  predicate Fits(row: Row, widths: seq<nat>)
  {
    |row| == |widths| && forall i :: 0 <= i < |row| ==> DisplayWidth(row[i]) <= widths[i]
  }

  function Sum(xs: seq<nat>): nat
  {
    if xs == [] then 0 else xs[0] + Sum(xs[1..])
  }

  // ---------------------------------------------------------------------
  // Column widths
  // ---------------------------------------------------------------------

  /** The cells of column `j`, header included. */
  function Column(grid: Grid, j: nat): (cells: seq<string>)
    requires Rectangular(grid) && j < |grid[0]|
    ensures |cells| == |grid|
    ensures forall r :: 0 <= r < |grid| ==> cells[r] == grid[r][j]
  {
    seq(|grid|, r requires 0 <= r < |grid| => grid[r][j])
  }

  /** Python's `max` over the display widths of a non-empty list of cells. */
  function MaxWidth(cells: seq<string>): (m: nat)
    requires |cells| > 0
    ensures forall i :: 0 <= i < |cells| ==> DisplayWidth(cells[i]) <= m
    ensures exists i :: 0 <= i < |cells| && DisplayWidth(cells[i]) == m
  {
    if |cells| == 1 then DisplayWidth(cells[0])
    else
      var rest := MaxWidth(cells[1..]);
      assert forall i :: 1 <= i < |cells| ==> cells[i] == cells[1..][i - 1];
      if DisplayWidth(cells[0]) >= rest then DisplayWidth(cells[0]) else rest
  }

  /**
   * `col_widths`: for every column the widest of its header cell and data
   * cells. The header is always among the cells, so the maximum is defined
   * even for a sheet without data rows.
   */
  function ColumnWidths(grid: Grid): (widths: seq<nat>)
    requires Rectangular(grid)
    ensures |widths| == |grid[0]|
    ensures forall r, j :: 0 <= r < |grid| && 0 <= j < |widths| ==> DisplayWidth(grid[r][j]) <= widths[j]
    ensures forall j :: 0 <= j < |widths| ==> exists r :: 0 <= r < |grid| && DisplayWidth(grid[r][j]) == widths[j]
  {
    seq(|grid[0]|, j requires 0 <= j < |grid[0]| => MaxWidth(Column(grid, j)))
  }

  // ---------------------------------------------------------------------
  // Formatting one row
  // ---------------------------------------------------------------------

  /**
   * One cell as `format_row` leaves it: the cell text followed by
   * `width - DisplayWidth(cell)` spaces, none when that count is negative.
   */
  function Pad(cell: string, width: nat): (padded: string)
    ensures cell <= padded
    ensures |padded| == |cell| + (if DisplayWidth(cell) <= width then width - DisplayWidth(cell) else 0)
    ensures forall i :: |cell| <= i < |padded| ==> padded[i] == ' '
    ensures DisplayWidth(cell) <= width ==> DisplayWidth(padded) == width
  {
    var spaces := Spaces(width - DisplayWidth(cell));
    DisplayWidthAppend(cell, spaces);
    DisplayWidthSpaces(width - DisplayWidth(cell));
    cell + spaces
  }

  /** The separator `format_row` puts between neighbouring cells. */
  const Separator: string := " | "

  /** Python's `sep.join(parts)`. */
  function Join(parts: seq<string>, sep: string): string
  {
    if |parts| == 0 then ""
    else if |parts| == 1 then parts[0]
    else parts[0] + sep + Join(parts[1..], sep)
  }

  /** The padded cells of `row`, in order. */
  function PaddedCells(row: Row, widths: seq<nat>): (cells: seq<string>)
    requires |row| <= |widths|
    ensures |cells| == |row|
    ensures forall i :: 0 <= i < |row| ==> cells[i] == Pad(row[i], widths[i])
  {
    seq(|row|, i requires 0 <= i < |row| => Pad(row[i], widths[i]))
  }

  /** The line `format_row` returns for `row`. */
  function FormattedLine(row: Row, widths: seq<nat>): string
    requires |row| <= |widths|
  {
    "| " + Join(PaddedCells(row, widths), Separator) + " |"
  }

  /** Display width every line of a table with these column widths has. */
  function TableWidth(widths: seq<nat>): nat
  {
    if |widths| == 0 then 4 else 4 + Sum(widths) + 3 * (|widths| - 1)
  }

  /**
   * `format_row`: builds the list of padded cells one cell at a time, then
   * joins them with `" | "` between `"| "` and `" |"`.
   */
  method FormatRow(row: Row, widths: seq<nat>) returns (line: string)
    requires |row| <= |widths|
    ensures line == FormattedLine(row, widths)
    ensures "| " <= line && |line| >= 4 && line[|line| - 2..] == " |"
    ensures Fits(row, widths) ==> DisplayWidth(line) == TableWidth(widths)
  {
    var formatted: seq<string> := [];
    for i := 0 to |row|
      invariant |formatted| == i
      invariant forall k :: 0 <= k < i ==> formatted[k] == Pad(row[k], widths[k])
    {
      var padding := widths[i] - DisplayWidth(row[i]);
      formatted := formatted + [row[i] + Spaces(padding)];
    }
    assert formatted == PaddedCells(row, widths);
    line := "| " + Join(formatted, Separator) + " |";
    if Fits(row, widths) {
      LineWidth(row, widths);
    }
  }

  // ---------------------------------------------------------------------
  // Alignment
  // ---------------------------------------------------------------------

  lemma SeparatorWidth()
    ensures DisplayWidth(Separator) == 3
  {
    assert Separator[1..][1..][1..] == "";
  }

  /** The display width of a join is the parts' widths plus three columns per separator. */
  lemma {:induction false} JoinWidth(parts: seq<string>, ws: seq<nat>)
    requires |parts| == |ws| >= 1
    requires forall i :: 0 <= i < |parts| ==> DisplayWidth(parts[i]) == ws[i]
    ensures DisplayWidth(Join(parts, Separator)) == Sum(ws) + 3 * (|ws| - 1)
  {
    if |parts| > 1 {
      JoinWidth(parts[1..], ws[1..]);
      SeparatorWidth();
      DisplayWidthAppend(parts[0], Separator);
      DisplayWidthAppend(parts[0] + Separator, Join(parts[1..], Separator));
    }
  }

  /** Joining splits at any inner part boundary. */
  lemma {:induction false} JoinSplit(parts: seq<string>, sep: string, j: nat)
    requires 0 < j < |parts|
    ensures Join(parts, sep) == Join(parts[..j], sep) + sep + Join(parts[j..], sep)
  {
    if j > 1 {
      JoinSplit(parts[1..], sep, j - 1);
      assert parts[1..][..j - 1] == parts[..j][1..];
      assert parts[1..][j - 1..] == parts[j..];
    }
  }

  /** The first part of a join is a prefix of it. */
  lemma JoinStartsWithFirst(parts: seq<string>, sep: string)
    requires |parts| >= 1
    ensures parts[0] <= Join(parts, sep)
  {
  }

  /** Every line starts with `"| "` and ends with `" |"`, even one without cells. */
  lemma LineFrame(row: Row, widths: seq<nat>)
    requires |row| <= |widths|
    ensures "| " <= FormattedLine(row, widths)
    ensures |FormattedLine(row, widths)| >= 4
    ensures FormattedLine(row, widths)[|FormattedLine(row, widths)| - 2..] == " |"
  {
  }

  /**
   * A row whose cells all fit their columns becomes a line of display width
   * `TableWidth(widths)`: two columns of `"| "`, the column widths, three
   * columns of `" | "` between neighbouring cells and two of `" |"`.
   */
  lemma LineWidth(row: Row, widths: seq<nat>)
    requires Fits(row, widths)
    ensures DisplayWidth(FormattedLine(row, widths)) == TableWidth(widths)
  {
    var cells := PaddedCells(row, widths);
    var joined := Join(cells, Separator);
    DisplayWidthAppend("| ", joined);
    DisplayWidthAppend("| " + joined, " |");
    if |row| > 0 {
      JoinWidth(cells, widths);
    }
  }

  /** What a line holds before its cell `j`: the opening `"| "`, then cells `..j` each followed by `" | "`. */
  function Before(cells: seq<string>, j: nat): string
    requires j <= |cells|
  {
    if j == 0 then "| " else "| " + Join(cells[..j], Separator) + Separator
  }

  lemma BeforeIsPrefix(cells: seq<string>, j: nat)
    requires j < |cells|
    ensures Before(cells, j) + cells[j] <= "| " + Join(cells, Separator) + " |"
  {
    var before := Before(cells, j);
    if j == 0 {
      JoinStartsWithFirst(cells, Separator);
      PrefixExtend(before, cells[j], Join(cells, Separator), " |");
    } else {
      var rest := Join(cells[j..], Separator);
      JoinSplit(cells, Separator, j);
      JoinStartsWithFirst(cells[j..], Separator);
      PrefixThrough("| ", Join(cells[..j], Separator), Separator, rest, cells[j], " |");
    }
  }

  /** If `c` is a prefix of `r`, then `p + a + s + c` is a prefix of `p + (a + s + r) + q`. */
  lemma PrefixThrough(p: string, a: string, s: string, r: string, c: string, q: string)
    requires c <= r
    ensures p + a + s + c <= p + (a + s + r) + q
  {
    var whole := p + (a + s + r) + q;
    var part := p + a + s + c;
    assert |part| <= |whole|;
    forall i | 0 <= i < |part|
      ensures part[i] == whole[i]
    {
      if i >= |p| + |a| + |s| {
        assert part[i] == c[i - |p| - |a| - |s|];
      }
    }
  }

  /** If `b` is a prefix of `c`, then `a + b` is a prefix of `a + c + d`. */
  lemma PrefixExtend(a: string, b: string, c: string, d: string)
    requires b <= c
    ensures a + b <= a + c + d
  {
    assert (a + c + d)[..|a + b|] == a + b;
  }

  lemma BeforeWidth(cells: seq<string>, ws: seq<nat>, j: nat)
    requires |cells| == |ws| && j < |cells|
    requires forall i :: 0 <= i < |cells| ==> DisplayWidth(cells[i]) == ws[i]
    ensures DisplayWidth(Before(cells, j)) == 2 + Sum(ws[..j]) + 3 * j
  {
    if j > 0 {
      var joined := Join(cells[..j], Separator);
      JoinWidth(cells[..j], ws[..j]);
      SeparatorWidth();
      DisplayWidthAppend("| ", joined);
      DisplayWidthAppend("| " + joined, Separator);
    }
  }

  /**
   * In the line of a row that fits its columns, the padded cell of column
   * `j` starts at display column `2 + Sum(widths[..j]) + 3 * j`, whatever
   * the row: column `j` begins at the same place in every line.
   */
  lemma ColumnOffset(row: Row, widths: seq<nat>, j: nat)
    requires Fits(row, widths) && j < |row|
    ensures exists before :: before + Pad(row[j], widths[j]) <= FormattedLine(row, widths)
                             && DisplayWidth(before) == 2 + Sum(widths[..j]) + 3 * j
  {
    var cells := PaddedCells(row, widths);
    BeforeIsPrefix(cells, j);
    BeforeWidth(cells, widths, j);
    assert Before(cells, j) + cells[j] <= FormattedLine(row, widths);
  }

  // ---------------------------------------------------------------------
  // The lines written to the Markdown file
  // ---------------------------------------------------------------------

  /** The lines of data rows `1 .. n - 1` of `grid`, in sheet order. */
  function DataLines(grid: Grid, widths: seq<nat>, n: nat): (lines: seq<string>)
    requires Rectangular(grid) && |widths| == |grid[0]| && 1 <= n <= |grid|
    ensures |lines| == n - 1
  {
    if n == 1 then [] else DataLines(grid, widths, n - 1) + [FormattedLine(grid[n - 1], widths)]
  }

  /** Data row `r` is line `r - 1` of the data lines. */
  lemma {:induction false} DataLineAt(grid: Grid, widths: seq<nat>, n: nat, r: nat)
    requires Rectangular(grid) && |widths| == |grid[0]| && 1 <= r < n <= |grid|
    ensures DataLines(grid, widths, n)[r - 1] == FormattedLine(grid[r], widths)
  {
    if r < n - 1 {
      DataLineAt(grid, widths, n - 1, r);
    }
  }

  /**
   * The lines `excel_to_markdown` writes, without their newlines: the
   * header line, one empty line where a separator of dashes would stand,
   * then one line per data row in sheet order.
   */
  function Markdown(grid: Grid): (lines: seq<string>)
    requires Rectangular(grid)
    ensures |lines| == |grid| + 1
    ensures lines[0] == FormattedLine(grid[0], ColumnWidths(grid))
    ensures lines[1] == ""
  {
    var widths := ColumnWidths(grid);
    [FormattedLine(grid[0], widths), ""] + DataLines(grid, widths, |grid|)
  }

  /** Index in `Markdown(grid)` of the line of grid row `r`. */
  function LineOf(r: nat): nat
  {
    if r == 0 then 0 else r + 1
  }

  /** Grid row `r` is written as line `LineOf(r)`: data rows keep their order, one line below the header's blank line. */
  lemma MarkdownLine(grid: Grid, r: nat)
    requires Rectangular(grid) && r < |grid|
    ensures Markdown(grid)[LineOf(r)] == FormattedLine(grid[r], ColumnWidths(grid))
  {
    if r > 0 {
      DataLineAt(grid, ColumnWidths(grid), |grid|, r);
    }
  }

  /**
   * `excel_to_markdown`'s writing loop: the header line, the empty line,
   * then each data row's line, appended in that order.
   */
  method ExcelToMarkdown(grid: Grid) returns (lines: seq<string>)
    requires Rectangular(grid)
    ensures lines == Markdown(grid)
  {
    var widths := ColumnWidths(grid);
    var header := FormatRow(grid[0], widths);
    lines := [header];
    lines := lines + [""];
    for r := 1 to |grid|
      invariant lines == [header, ""] + DataLines(grid, widths, r)
    {
      var line := FormatRow(grid[r], widths);
      lines := lines + [line];
    }
  }

  /**
   * The table is aligned: the only empty line is the one after the header,
   * every other line opens with `"| "` (so none is a separator of dashes)
   * and has the same display width, and in each of them every padded cell
   * has exactly its column's width.
   */
  lemma TableAligned(grid: Grid)
    requires Rectangular(grid)
    ensures forall k :: 0 <= k < |Markdown(grid)| ==> (Markdown(grid)[k] == "" <==> k == 1)
    ensures forall k :: 0 <= k < |Markdown(grid)| && k != 1 ==> Markdown(grid)[k][0] == '|'
    ensures forall k :: 0 <= k < |Markdown(grid)| && k != 1 ==> "| " <= Markdown(grid)[k]
    ensures forall k :: 0 <= k < |Markdown(grid)| && k != 1 ==>
              DisplayWidth(Markdown(grid)[k]) == TableWidth(ColumnWidths(grid))
    ensures forall r, j :: 0 <= r < |grid| && 0 <= j < |grid[0]| ==>
              DisplayWidth(Pad(grid[r][j], ColumnWidths(grid)[j])) == ColumnWidths(grid)[j]
    ensures forall r, j :: 0 <= r < |grid| && 0 <= j < |grid[0]| ==>
              |Pad(grid[r][j], ColumnWidths(grid)[j])| == |grid[r][j]| + (ColumnWidths(grid)[j] - DisplayWidth(grid[r][j]))
  {
    var widths := ColumnWidths(grid);
    var lines := Markdown(grid);
    forall r | 0 <= r < |grid|
      ensures DisplayWidth(lines[LineOf(r)]) == TableWidth(widths)
      ensures |lines[LineOf(r)]| >= 4 && "| " <= lines[LineOf(r)]
    {
      MarkdownLine(grid, r);
      assert Fits(grid[r], widths);
      LineWidth(grid[r], widths);
      LineFrame(grid[r], widths);
    }
    forall k | 0 <= k < |lines| && k != 1
      ensures DisplayWidth(lines[k]) == TableWidth(widths)
      ensures lines[k] != "" && "| " <= lines[k] && lines[k][0] == '|'
    {
      assert LineOf(if k == 0 then 0 else k - 1) == k;
    }
  }

  /** Number of `'|'` characters in `s`. */
  function Bars(s: string): nat
  {
    if s == [] then 0 else (if s[0] == '|' then 1 else 0) + Bars(s[1..])
  }

  lemma {:induction false} BarsAppend(a: string, b: string)
    ensures Bars(a + b) == Bars(a) + Bars(b)
  {
    if a == [] {
      assert a + b == b;
    } else {
      assert (a + b)[1..] == a[1..] + b;
      BarsAppend(a[1..], b);
    }
  }

  lemma {:induction false} PadAddsNoBars(cell: string, width: nat)
    ensures Bars(Pad(cell, width)) == Bars(cell)
  {
    var spaces := Spaces(width - DisplayWidth(cell));
    assert Pad(cell, width) == cell + spaces;
    BarsAppend(cell, spaces);
    SpacesHaveNoBars(width - DisplayWidth(cell));
  }

  lemma {:induction false} SpacesHaveNoBars(count: int)
    ensures Bars(Spaces(count)) == 0
  {
    if count > 0 {
      assert Spaces(count)[1..] == Spaces(count - 1);
      SpacesHaveNoBars(count - 1);
    }
  }

  lemma {:induction false} JoinBars(parts: seq<string>)
    requires |parts| >= 1 && forall i :: 0 <= i < |parts| ==> Bars(parts[i]) == 0
    ensures Bars(Join(parts, Separator)) == |parts| - 1
  {
    if |parts| > 1 {
      JoinBars(parts[1..]);
      assert Bars(Separator) == 1 by {
        assert Separator[1..][1..][1..] == "";
      }
      BarsAppend(parts[0], Separator);
      BarsAppend(parts[0] + Separator, Join(parts[1..], Separator));
    }
  }

  /**
   * When no cell contains `'|'`, a line of `n` cells holds exactly `n + 1`
   * bars, so splitting it at its bars yields `n` fields.
   * A line without cells still holds its two framing bars.
   */
  lemma LineBars(row: Row, widths: seq<nat>)
    requires |row| <= |widths|
    requires forall i :: 0 <= i < |row| ==> Bars(row[i]) == 0
    ensures Bars(FormattedLine(row, widths)) == if |row| == 0 then 2 else |row| + 1
  {
    var cells := PaddedCells(row, widths);
    forall i | 0 <= i < |cells|
      ensures Bars(cells[i]) == 0
    {
      PadAddsNoBars(row[i], widths[i]);
    }
    var joined := Join(cells, Separator);
    BarsAppend("| ", joined);
    BarsAppend("| " + joined, " |");
    if |row| > 0 {
      JoinBars(cells);
    }
  }

  /**
   * Column `j` starts at the same display column in the header line and in
   * every data line.
   */
  lemma ColumnsLineUp(grid: Grid, r: nat, j: nat)
    requires Rectangular(grid) && r < |grid| && j < |grid[0]|
    ensures exists before :: before + Pad(grid[r][j], ColumnWidths(grid)[j]) <= Markdown(grid)[LineOf(r)]
                             && DisplayWidth(before) == 2 + Sum(ColumnWidths(grid)[..j]) + 3 * j
  {
    var widths := ColumnWidths(grid);
    var cell := Pad(grid[r][j], widths[j]);
    var offset := 2 + Sum(widths[..j]) + 3 * j;
    MarkdownLine(grid, r);
    ColumnOffset(grid[r], widths, j);
    var before :| before + cell <= FormattedLine(grid[r], widths) && DisplayWidth(before) == offset;
    assert before + cell <= Markdown(grid)[LineOf(r)];
  }
}
