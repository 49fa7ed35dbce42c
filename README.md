# Width-aware Markdown table formatter

This project models the table formatter inside `excel_to_markdown`, the
Excel-to-Markdown converter. The converter reads a sheet and measures every
cell's display width: a character above code point 255 counts as two
columns and every other character as one. Each column gets the width of its
widest cell, header included. Every cell is right-padded with spaces to that
width, and each row is written between bars, its cells separated by a space, a bar and a space. The file holds the
header line, then one empty line where a dashed separator line would
usually stand (that line is commented out in the source), then one line per
data row in sheet order.

The formatter appears twice with the same code: in `convert_to_md.py`
(lines 58-83) and in `base_conversion/convert_to_md.py` (lines 15-40, the
same lines 43 lines earlier, without the docstring). One set of definitions
models both. The table below cites one copy or the other. Each row applies
equally to the matching lines of the other copy.

The model works on the grid of cells after they have been turned into text.
Row 0 is the header and rows 1.. are the data rows (`MarkdownTable.Grid`).

- `width.dfy`, module `Width`: `calc_display_width` (`DisplayWidth`) and
  Python's `' ' * n` (`Spaces`), with their lemmas.
- `markdown_table.dfy`, module `MarkdownTable`: the `col_widths`
  comprehension (`ColumnWidths`, `MaxWidth`), `format_row` (the method
  `FormatRow`, specified by the function `FormattedLine`), and the writing
  loop (the method `ExcelToMarkdown`, specified by the function `Markdown`).
  It also holds the alignment lemmas.
- `table_examples.dfy`, module `TableExamples`: the column widths and the
  whole output for a sheet with header `Name`, `Age` and data rows `Alice`,
  `30` and `佑`, `5` (`佑` is double-width), and the output for a
  one-cell sheet without data rows.

`format_row` and the writing loop build their results step by step, so they
are methods with loops. Each is proved equal to a specification function,
and the properties are proved about those functions.

A grid must be rectangular and must have a header row
(`MarkdownTable.Rectangular`). A pandas DataFrame always has both: every
row returned by `iterrows` has one value per column. So this precondition
excludes nothing the source can meet.

## Model

| member | source | states |
|---|---|---|
| `Width.DisplayWidth` | convert_to_md.py:58-59 | the display width of a string lies between its length and twice its length |
| `Width.DisplayWidthExtremes` | base_conversion/convert_to_md.py:15-16 | a string is exactly as wide as it is long iff no character is above code point 255, and twice as wide iff every character is |
| `Width.DisplayWidthAppend` | base_conversion/convert_to_md.py:15-16 | display width adds up across concatenation (the generator `sum` over the characters) |
| `Width.DisplayWidthPrefix` | convert_to_md.py:58-59 | extending a string adds at least one column per added character, so width is monotone under prefixes |
| `Width.Spaces` | convert_to_md.py:70 | `' ' * count` is `count` spaces, and the empty string when `count` is zero or negative |
| `Width.DisplayWidthSpaces` | base_conversion/convert_to_md.py:27 | the padding spaces are exactly as wide as their number, none when the count is not positive |
| `MarkdownTable.MaxWidth` | base_conversion/convert_to_md.py:19 | the `max` is at least the width of every cell and equals the width of one of them |
| `MarkdownTable.ColumnWidths` | convert_to_md.py:62 | one width per column; each is at least the width of the header cell and of every data cell of its column, and equals the width of one of them, so it is defined even with no data rows |
| `MarkdownTable.Pad` | convert_to_md.py:68-70 | a padded cell starts with the cell text, is followed only by spaces, has `width - DisplayWidth(cell)` of them (none if negative), and has display width exactly `width` when the cell fits |
| `MarkdownTable.FormatRow` | convert_to_md.py:65-71 | the loop's result is `FormattedLine(row, widths)`: an opening bar and space, the padded cells separated by space-bar-space, a closing space and bar; it is at least 4 characters long, and a row that fits its columns gives display width `TableWidth(widths)` |
| `MarkdownTable.JoinWidth` | base_conversion/convert_to_md.py:28 | joining with the three-character separator is as wide as the parts plus three columns per separator |
| `MarkdownTable.JoinSplit` | base_conversion/convert_to_md.py:28 | a join splits at any inner part boundary into the join of the parts before, a separator, and the join of the parts after |
| `MarkdownTable.LineWidth` | base_conversion/convert_to_md.py:22-28 | a line whose cells fit has display width `4 + sum(widths) + 3*(n-1)` for `n >= 1` columns, and 4 for no columns |
| `MarkdownTable.ColumnOffset` | convert_to_md.py:65-71 | in a line whose cells fit, padded cell `j` starts at display column `2 + sum(widths[..j]) + 3*j`, whatever the row |
| `MarkdownTable.LineBars` | base_conversion/convert_to_md.py:28 | when no cell contains a bar character, a line of `n >= 1` cells holds exactly `n + 1` bars (2 for no cells), so it splits back into `n` fields |
| `MarkdownTable.Markdown` | convert_to_md.py:74-83 | one written line (one `write` call) per data row plus two: the header line first, then the empty line where no dashed separator is written, then the data lines |
| `MarkdownTable.DataLineAt` | base_conversion/convert_to_md.py:39-40 | data row `r` gives data line `r - 1`: the data rows are written in sheet order |
| `MarkdownTable.MarkdownLine` | base_conversion/convert_to_md.py:33-40 | grid row `r` is file line `LineOf(r)`: the header is line 0 and data row `r` is line `r + 1` |
| `MarkdownTable.ExcelToMarkdown` | convert_to_md.py:74-83 | the writing loop appends exactly the lines of `Markdown(grid)`, in order |
| `MarkdownTable.TableAligned` | base_conversion/convert_to_md.py:19-40 | the only empty line is the one after the header; every other line starts with a bar and a space (so none is a dashed separator) and has the same display width; every padded cell of column `j` has display width `col_widths[j]` and got `col_widths[j] - width(cell) >= 0` spaces |
| `MarkdownTable.ColumnsLineUp` | convert_to_md.py:62-83 | in the header line and in every data line, the cell of column `j` starts at the same display column |
| `TableExamples.WideCellPadding` | convert_to_md.py:68-70 | `佑` has width 2, so it is padded to width 5 with three spaces |
| `TableExamples.WideCellLine` | convert_to_md.py:65-71 | the data row of `佑` and `5` under widths 5 and 3 is written as bar, space, `佑`, four spaces, bar, space, `5`, three spaces, bar |
| `TableExamples.HeaderPadding` | convert_to_md.py:68-70 | `Name` gets one space to reach width 5; `Age` already has width 3 and gets none |
| `TableExamples.HeaderLine` | convert_to_md.py:65-71 | the header of `Name` and `Age` under widths 5 and 3 is written as bar, space, `Name`, two spaces, bar, space, `Age`, space, bar |
| `TableExamples.NameColumnWidth` | convert_to_md.py:62 | the widest of `Name`, `Alice` and `佑` is `Alice`, 5 columns |
| `TableExamples.AgeColumnWidth` | convert_to_md.py:62 | the widest of `Age`, `30` and `5` is the header, 3 columns |
| `TableExamples.SheetWidths` | convert_to_md.py:62 | the example sheet gets column widths 5 and 3 |
| `TableExamples.AliceLine` | convert_to_md.py:65-71 | the data row `Alice`, `30` is written with `Alice` unpadded and one space after `30` |
| `TableExamples.SheetMarkdown` | convert_to_md.py:62-83 | the example sheet is written as its header line, the empty line, the `Alice` line and the `佑` line, with widths computed from the grid |
| `TableExamples.SingleCellMarkdown` | convert_to_md.py:62-83 | a sheet whose only cell is the header `X` is written as bar, space, `X`, space, bar, then the empty line |

## Left out

- Reading the workbook with `pd.read_excel` and the whole DataFrame layer (convert_to_md.py:55, base_conversion/convert_to_md.py:12). This is a foreign library that decodes the spreadsheet; the model starts from the grid of cell texts.
- `str(item)` on cell values (convert_to_md.py:59, 68). It turns NaN into `nan` and formats numbers through float printing, both library- and float-dependent; cells enter the model already converted to text.
- MarkdownTable.TableAligned and MarkdownTable.ColumnsLineUp: the model gives each cell one text, used both to measure it and to write it. The source measures the values of `df[col].tolist()` (convert_to_md.py:62) but writes the values of `row.tolist()` from `df.iterrows()` (convert_to_md.py:82-83), and `iterrows` does not keep dtypes across a row. In a sheet whose columns are all numeric and mix ints and floats, an int such as `30` is measured as `30` but written as `30.0`, so its padding count goes negative and that data line comes out wider than the header line. The alignment lemmas do not cover that case.
- MarkdownTable.Markdown: a cell holding a line break is one cell of the model, and `DisplayWidth` counts the break as one column. In the file such a cell splits its written line into several physical lines, so the count of lines in the file can exceed the number of `write` calls that `Markdown` counts.
- File handling (convert_to_md.py:48-52, 74-83; base_conversion/convert_to_md.py:5-9, 31-40): the existence check, creating the file, opening it for writing in UTF-8, and the newline after each `write`. The model gives the sequence of lines written, without their newlines.
- The hard-coded paths, the top-level call and the unconditional success message (convert_to_md.py:103-107; base_conversion/convert_to_md.py:60-64). These are script plumbing.
- Grids that are not rectangular. A DataFrame cannot produce one, so `Rectangular` is a precondition. A grid with rows of different lengths would raise `IndexError` in `format_row` or misalign columns. The model has no structural error for it; such an error is a proposed redesign, not what the code does.
- Python strings can hold lone surrogate code points, which a Dafny `char` cannot represent. Every other character is modelled with its code point.
- Running the conversion twice gives the same output. This follows from every operation being a function of the grid, so no separate lemma states it.
