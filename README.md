# Rider Salary Portal — a Dafny model

The portal is a single Streamlit page (`app.py`). An administrator uploads
the month's salary table. A rider types an identifier and a password. The
first row whose identifier and password match is turned into a one-page
PDF salary slip. This project models the parts of that page that decide
what a rider sees:

- **Field readers** (`Fields`). `get_txt` returns `str(value)` with every
  occurrence of "nan" deleted. `get_num` is a fail-soft conversion to
  float: a missing column gives 0, an empty (NaN) cell gives 0.0, and a
  value that `float()` rejects gives 0.0.
- **Python string replacement** (`PyString`). `str.replace` with a
  non-empty pattern is a left-to-right, non-overlapping scan. Two lemmas
  characterise it by occurrences: a text without the pattern is returned
  unchanged, and otherwise the text before the leftmost occurrence is
  kept, that occurrence is replaced, and the scan resumes after it. It is
  also related to `str.split` and `str.join`, which are defined by the
  same kind of scan.
- **Drawing** (`Drawing`). A reportlab canvas is a `Canvas` class whose
  `log` records every drawing call in order.
- **`generate_pdf`** (`Slip`). The method `GeneratePdf` draws on a fresh
  canvas in the same steps as the source: the banner, the column titles,
  one loop per table (earnings, then deductions, each with its own
  cursor), then the totals block half an inch below the lower column. It
  is proved equal to the specification function `Document`. The layout
  properties are proved about `Document`:
  - zero items are skipped;
  - the columns are independent of each other;
  - the totals are read only from the three aggregate fields, never
    recomputed from the items;
  - the totals lie below every item row;
  - every drawing command is anchored on the A4 page.
- **Login** (`Portal`). Both credential columns are rewritten with
  `.astype(str).str.replace('.0', '')`. The rider found is the first row
  whose two rewritten fields equal what was typed.

Coordinates are integers in hundredths of an inch: `1 * inch` is 100 and
`8.8 * inch` is 880. All of the source's positions are whole hundredths.

The external pieces of Python are parameters of type `Fields.Builtins`:
- `float()` of a text, which either raises or returns a finite float, a
  NaN or an infinity;
- `str()` of a number;
- the `f"{x:,.2f}"` amount formatting.

Every property holds for all choices of these functions.

The model follows the code:
- The "nan" deletion and the ".0" deletion are substring deletions, not
  whole-value tests. A name such as "Ananya" is printed as "Aya". A
  password "a.0b" is only accepted when typed as "ab". "10.05" becomes
  "105".
- `get_num` only treats a real NaN cell as empty. A text cell goes to
  `float()`, and when that yields a NaN or an infinity the amount is not
  equal to 0, so the item is drawn. `pd.read_csv` already turns the text
  "nan" itself into NaN, so this concerns texts such as "NAN", " nan"
  or "inf".
- The login step (app.py:151-187) is modelled as well.

## Model

| member | source | states |
|---|---|---|
| Fields.GetTxt | app.py:23-24 | A missing column or an empty (NaN) cell gives "". The result is never longer than `str(value)`. |
| Fields.GetTxtUnchangedIffNoNan | app.py:23-24 | `get_txt` returns `str(value)` unchanged exactly when that text contains no "nan". |
| Fields.GetTxtJoinsPieces | app.py:23-24 | `get_txt` is the "nan"-separated pieces of `str(value)` glued together. Joining the pieces with "nan" restores the value. No piece contains "nan". |
| Fields.NameLosesNan | app.py:24 | A rider name "Ananya" is printed as "Aya": the deletion is not limited to whole values. |
| Fields.DeletionIsSinglePass | app.py:24 | Deletion is one pass: "nnanan" becomes "nan", not "". |
| Fields.GetNum | app.py:27-32 | A numeric cell gives its own value. A text cell gives `float()` of it when that succeeds and 0.0 when it raises. A non-zero amount comes only from a present, non-empty cell. A non-finite amount comes only from `float()` of a text cell. |
| Fields.CellText | app.py:24 | `str()` of a cell: the text itself, "nan" for an empty cell, and `str()` of a number otherwise. |
| Fields.NonZero | app.py:89 | Python's `amount != 0`: false only for a finite zero, so true for NaN and the infinities. |
| Fields.GetNumUnparsableIsZero | app.py:28-32 | Text that `float()` rejects reads as 0.0, which counts as zero, so `get_num` never fails. |
| Fields.NonFiniteTextIsNonZero | app.py:30 | A text cell is not caught by the NaN test. When `float()` makes it a NaN or an infinity, that is the amount and it counts as non-zero. |
| PyString.Replace | app.py:24 | `s.replace(pat, rep)`: each leftmost, non-overlapping occurrence of `pat` is replaced by `rep`. |
| PyString.ReplaceAtFirstOccurrence | app.py:24 | If `i` is the leftmost occurrence, the result is the text before `i`, then `rep`, then the replacement of the text after the occurrence. |
| PyString.ReplaceKeepsFreePrefix | app.py:24 | A prefix in which no occurrence starts is copied unchanged. |
| PyString.ReplaceIsJoinOfSplit | app.py:24 | `s.replace(p, r)` equals `r.join(s.split(p))`: both scans find the same occurrences. |
| PyString.ReplaceBySelf | app.py:24 | Replacing a pattern by itself gives the text back. |
| PyString.SplitJoinRoundTrip | app.py:24 | Joining the pieces of a split with the separator restores the text. |
| PyString.SplitHeadIsPrefix | app.py:24 | The first piece of a split is a prefix of the text. |
| PyString.SplitPiecesFree | app.py:24 | No piece of a split contains the separator. |
| PyString.ReplaceAbsent | app.py:24 | A text without the pattern is returned unchanged. Together with ReplaceAtFirstOccurrence this determines `Replace` on every text. |
| PyString.DeleteNoLonger | app.py:24 | Deleting a pattern never lengthens the text. |
| PyString.DeleteShortensFound | app.py:24 | Deleting a pattern that occurs strictly shortens the text. |
| PyString.DeleteChangesIffFound | app.py:24 | Deleting a pattern leaves the text unchanged exactly when the pattern does not occur. |
| Drawing.Canvas.constructor | app.py:20 | A new canvas has drawn nothing. |
| Drawing.Canvas.SetFont | app.py:35 | Appends exactly one font change to the log; nothing else changes. |
| Drawing.Canvas.DrawString | app.py:36 | Appends exactly one left-anchored text at the given point. |
| Drawing.Canvas.DrawRightString | app.py:91 | Appends exactly one right-aligned text ending at the given point. |
| Drawing.Canvas.Line | app.py:48 | Appends exactly one line between the two points. |
| Slip.DrawBanner | app.py:34-48 | Appends the title, the four record fields (each read with `get_txt`), the two fixed labels and the rule at 9.2in. |
| Slip.DrawColumnTitles | app.py:50-56 | Appends both column titles at 8.8in and returns the cursor 0.3in lower (8.5in). |
| Slip.DrawColumn | app.py:85-101 | One column loop appends exactly that column's rows. Its final cursor is the start minus one row height per non-zero item. |
| Slip.DrawTotals | app.py:103-122 | Appends the rule 0.15in above the baseline, the two totals, and the net line 0.4in lower. |
| Slip.Visible | app.py:87-89 | The items of a table whose amount is non-zero, in table order. |
| Slip.Cursor | app.py:92 | A column's cursor after its loop: the start minus one row height per visible item. |
| Slip.Column | app.py:87-92 | What one column loop draws: for each visible item, its label and its right-aligned amount at the cursor. |
| Slip.Document | app.py:17-126 | The whole slip: header, earnings column, deductions column, then the totals at `FinalY`. |
| Slip.FinalY | app.py:105 | The totals baseline is half an inch below the lower of the two column cursors: at least that far below both, and exactly that far below one. |
| Slip.GeneratePdf | app.py:17-126 | Everything drawn on the fresh canvas is exactly `Document(row)`: header, earnings column, deductions column, and the totals at `FinalY`. |
| Slip.ColumnStep | app.py:87-92 | One loop pass appends the item's two commands only when its amount is non-zero, and then moves the cursor down 0.2in. |
| Slip.VisibleItems | app.py:87-98 | An item is drawn exactly when it is in the table and its amount is non-zero. At most as many rows are drawn as there are items. |
| Slip.ColumnRows | app.py:87-101 | The k-th drawn row is the k-th non-zero item: its label at the label x and its formatted amount right-aligned at the amount x, both 0.2in·k below the start. The column draws nothing else. |
| Slip.ColumnBand | app.py:87-101 | Every command of a column is at its label x or amount x, between the start and one row above the final cursor. |
| Slip.ColumnReadsOnlyItsItems | app.py:87-101 | A column and its cursor depend only on the amounts of its own items. |
| Slip.ColumnIgnoresOtherCells | app.py:87-101 | Changing a cell that no item of the column reads leaves the column and its cursor unchanged. |
| Slip.TablesShareNoColumn | app.py:60-83 | No field is read by both the earnings table and the deductions table. |
| Slip.ItemsReadNoAggregate | app.py:60-83 | No line item reads the gross, total-deduction or net field. |
| Slip.EarningsNeverMoveDeductions | app.py:86-101 | Editing an earnings cell never changes or moves the deductions column, because each column keeps its own cursor. |
| Slip.DeductionsNeverMoveEarnings | app.py:86-101 | Editing a deductions cell never changes or moves the earnings column. |
| Slip.TotalsReadOnlyAggregates | app.py:107-122 | The totals block depends only on the three aggregate fields and its baseline. |
| Slip.ItemEditKeepsTotals | app.py:107-122 | At a given baseline, editing any line item's cell leaves the totals figures unchanged: the totals are never recomputed from the items. |
| Slip.TotalsBelowItems | app.py:104-122 | Every command of the totals block lies strictly below every item row of both columns. |
| Slip.FinalYRange | app.py:104 | The totals baseline lies between 5.2in (all 14 deductions drawn) and 8.0in (no items drawn). |
| Slip.AllOnPageAppend | app.py:17-126 | A sequence of commands is on the page when both of its parts are. |
| Slip.ColumnOnPage | app.py:87-101 | A column that starts high enough for all of its items stays on the page. |
| Slip.HeaderOnPage | app.py:34-56 | The banner and the column titles lie on the A4 page. |
| Slip.TotalsOnPage | app.py:103-122 | The totals block lies on the page for any baseline in range. |
| Slip.DocumentFitsPage | app.py:17-126 | Every drawing command of the slip is anchored on the A4 page, even with every item visible. |
| Slip.NothingVisible | app.py:87-89 | Items that are all zero leave nothing visible. |
| Slip.AllZeroItemsDrawEmptyColumns | app.py:85-122 | With every line item zero or absent, both columns are empty. The slip is the header plus the totals at 8.0in. |
| Slip.ZeroTailInvisible | app.py:87-92 | Zero items after position n add nothing to the column and do not move its cursor. |
| Slip.OnlyFirstVisible | app.py:87-92 | When only the first item is non-zero, the column is that one row at the start position. |
| Slip.OnlyPickupsPaid | app.py:85-104 | A rider paid only for pickups gets one earnings row at 8.5in, no deduction rows, and totals at 7.8in. |
| Portal.Normalise | app.py:151 | One credential cell as `.astype(str).str.replace('.0', '')` leaves it: never longer than its `str()` text. |
| Portal.NormaliseRow | app.py:151-157 | Both credential fields become their `str()` text with ".0" deleted. Every other field is unchanged. |
| Portal.Accepts | app.py:168 | The filter condition for one row: both rewritten credentials equal the typed ones. |
| Portal.Matching | app.py:168 | The filter keeps at most every row. Each row it keeps carries exactly the typed identifier and password. |
| Portal.Login | app.py:151-187 | A found rider carries the typed identifier and password. The file error is shown exactly when "Rider ID" is missing, or a rider is found without a "Rider Name" column. The missing-password error is shown exactly when only "Password" is missing. No message is shown only for two empty inputs. |
| Portal.MatchingEmptyIffNoneAccepts | app.py:168-170 | The filter is empty exactly when no row's rewritten credentials equal the typed ones. |
| Portal.MatchingHeadIsFirst | app.py:168-172 | The first row of the filter is the first accepting row of the table, rewritten. |
| Portal.LoginFindsFirstMatch | app.py:151-176 | With the needed columns present, the rider is the first accepting row. Its rewritten identifier and password equal what was typed. |
| Portal.LoginFoundIffSomeRowAccepts | app.py:142-176 | A slip is produced exactly when the identifier, password and name columns exist and some row accepts. |
| Portal.FoundWithoutNameIsFileError | app.py:172-190 | A match in a table without "Rider Name" ends in the generic file error, not a slip. |
| Portal.LoginRejectsOnlyWithoutMatch | app.py:185-187 | "Invalid ID or Password" is shown exactly when no row accepts and at least one input is non-empty. |
| Portal.CleanCredentialsAccepted | app.py:151-168 | Stored credentials without ".0" are accepted when typed exactly as stored. |
| Portal.DotZeroRepairsFloatId | app.py:150-151 | An identifier that pandas read as the float text "1234.0" becomes "1234". |
| Portal.DotZeroDeletedAnywhere | app.py:151 | ".0" is deleted anywhere in the text: "10.05" becomes "105". |
| Portal.DotZeroPasswordExample | app.py:157-168 | A stored password "a.0b" is accepted when typed as "ab" and refused when typed as stored. |
| Portal.SlipShowsTypedId | app.py:151-176 | A found rider's slip prints the identifier that was typed, unless it contains "nan". |

## Left out

- The Streamlit interface is left out: page set-up, sidebar, file
  uploader, form widgets, messages and the download button. Login's
  outcome says which message or slip would be shown.
- Reading the CSV is left out: `pd.read_csv` with the header on the fifth
  line, and stripping the header names. A table is given as its stripped
  column set and its rows.
- `float()`, `str()` of a number and `f"{x:,.2f}"` are not defined here.
  They are the functions of a `Builtins` value, and every property holds
  for all of them. `pd.notna` is the `NaN` case of a cell.
- The NaN markers that `pd.read_csv` recognises are not modelled: a table
  is given as pandas holds it after reading, so an empty cell or the text
  "nan" in the file is already a `NaN` cell.
- Fonts, glyph widths and the PDF byte stream are left out, and so are
  `c.save()` and `buffer.seek(0)`. The slip is the sequence of drawing
  calls. Slip.DocumentFitsPage checks each command's anchor point, not
  the extent of its text, because glyph widths are not modelled.
- Floating-point coordinates are left out. `0.2 * inch` and the other
  positions are exact hundredths of an inch, so any rounding in reportlab
  is not modelled.
- Python ints versus floats in numeric cells are not distinguished. A
  numeric cell holds a real number.
- The generic exception handler is modelled for two failures: a missing
  "Rider ID" column and a missing "Rider Name" column for a found rider.
  Other failures (an unreadable file, a missing row key inside pandas)
  are not modelled.
- PyString.Replace requires a non-empty pattern. Python also accepts an
  empty one, but the portal only deletes "nan" and ".0".
- The regular-expression reading of `.str.replace` in pandas versions
  before 2.0 is not modelled: ".0" is treated literally, as in pandas 2.
- Slip.GeneratePdf returns the drawn commands rather than the in-memory
  file.
