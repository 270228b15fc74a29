# OMR answer-sheet layout and pagination

A Dafny model of the layout core of `OMR_printer.py`, which prints an OMR
(optical mark recognition) answer sheet for N multiple-choice questions.
Every page carries a fixed template: a title ribbon, a roll-number bubble
grid, and an information and instructions block. Below the template, the
questions fill five answer columns. They go column by column, top to bottom
in each column, and spill onto further pages.

The model covers four parts:

- **Column geometry** (`columns.dfy`): where an answer group sits in its
  column band, and the x of every option bubble.
- **Template heights** (`template.dfy`): the vertical extent of every
  rectangle, circle and cell of the header (ribbon, roll grid, information
  block), and the y where the question grid begins.
- **Pagination** (`pagination.dfy`): rows per column, questions per page,
  and columns used per page.
- **Slot placement** (`placement.dfy`) and **the page loop**
  (`driver.dfy`): where each question lands. The loop is proved to agree
  with two independent references:
  - a recursive page plan with a closed form;
  - a closed-form mixed-radix slot for every question.

Lengths are millimetres, modelled as exact reals. `Geometry.A4` holds the
printer's constants. Under those constants, the question area starts at
y = 117, a column holds 18 rows and a page holds 90 questions.

## Model

| member | source | states |
|---|---|---|
| Arith.CeilDiv | OMR_printer.py:341 | `math.ceil(a / b)` is the least `r` with `a <= r * b` |
| Arith.Trunc | OMR_printer.py:336 | `int(x)` truncates toward zero: within 1 of `x`, and not above `x` when `x` is non-negative |
| Columns.ColumnLeftStep | OMR_printer.py:94-110 | the band of column `col` starts at `margin + col * column_width`, and consecutive bands are one column width apart |
| Columns.ColumnStart | OMR_printer.py:107-111 | the group width is number area + 2 + bubbles + gaps; the group starts at or after the band's left edge; when it fits, it is centred with equal space on both sides; otherwise it starts flush with the left edge |
| Columns.BubbleXPositions | OMR_printer.py:113-117 | one x per option; the first x is 2 mm after the number area; consecutive x differ by size + gap; the last bubble ends exactly at the group's right end; the x strictly increase and the bubbles do not overlap when the gap is non-negative |
| Columns.GroupInsideColumn | OMR_printer.py:107-117 | when the group is no wider than its band, the group and every bubble lie inside the band |
| Columns.ColumnsDisjoint | OMR_printer.py:107-111 | answer groups of two different columns never overlap when each fits its band |
| Columns.A4Columns | OMR_printer.py:89-117 | with the printer's constants, a 36 mm group sits 1 mm inside a 38 mm band, and column 0's bubbles are at x = 19, 25, 31, 37, 43 |
| Template.RollGrid | OMR_printer.py:151-214 | the roll-number block is 81 mm high; every box and circle lies inside its outline, which starts 3 mm above the block's y |
| Template.InfoBoxes | OMR_printer.py:216-248 | the information block is 72 mm high; its boxes lie within `y .. y + 72`, are stacked without overlap, and the last one ends exactly at the reported height |
| Template.RibbonShapes | OMR_printer.py:258-268 | every ribbon shape (the band and both title cells) lies within `margin - 4 .. margin + 12` |
| Template.HeaderBlocksDrawn | OMR_printer.py:216-268 | the ribbon band is drawn from 4 mm above the margin, 16 mm high, together with two title cells; the information block draws five boxes, the first starting at the block's `y` |
| Template.BlocksBelowRibbon | OMR_printer.py:258-274 | both template blocks start below every ribbon shape |
| Template.RightColumnWidth | OMR_printer.py:276-281 | the information block is at least 40 mm wide; it takes all the width the roll grid leaves, ending exactly on the right margin, unless that is under 40 mm, when it is exactly 40 mm |
| Template.QuestionStartY | OMR_printer.py:250-312 | the question area starts 107 mm below the margin, at least 4 mm below every header rectangle, circle and cell; the height used is the taller of the two blocks |
| Template.HeaderClearance | OMR_printer.py:200-210 | every header shape ends at least 7 mm above the question area, and the roll-number outline ends exactly 7 mm above it |
| Template.A4StartY | OMR_printer.py:305-312 | with a 10 mm margin the question area starts at y = 117 |
| Pagination.MaxRows | OMR_printer.py:336-338 | rows per column is at least one exactly when one row fits above the bottom margin; then that many rows fit and one more would not |
| Pagination.Capacity | OMR_printer.py:340 | a full page holds at least one column's rows and at least one row per column |
| Pagination.ColsUsed | OMR_printer.py:341 | columns used is at most the column count, and is the fewest columns that hold the page's questions |
| Pagination.PlanPage | OMR_printer.py:339-341 | a page holds between 1 question and a full page: all the remaining questions or a full page; it uses between 1 column and all columns, the fewest that hold its questions |
| Pagination.PlanPages | OMR_printer.py:333-349 | no pages when rows per column is below one or no questions remain; every page lies within `q..n` |
| Pagination.PlanPagesClosedForm | OMR_printer.py:333-349 | page `i` starts `i` capacities after the first question and holds a full page or the remainder; there are `ceil((n - q + 1) / capacity)` pages |
| Pagination.PagesFullExceptLast | OMR_printer.py:339-349 | every page but the last is full; the last holds 1 to capacity questions and ends with question `n` |
| Pagination.PagesContiguous | OMR_printer.py:343-347 | the first page starts at `q` and each page starts right after the previous one ends |
| Pagination.PageCount | OMR_printer.py:333-349 | the document has `ceil(n / capacity)` pages of questions |
| Placement.LocalSlot | OMR_printer.py:343-345 | the page-local index is recovered as `col * max_rows + row`, with row below max_rows |
| Placement.SlotOf | OMR_printer.py:343-346 | question `q` goes to an in-range column and row whose mixed-radix value (page, column, row) is `q - 1`, at the y of its row |
| Placement.SlotOfInverse | OMR_printer.py:343-346 | every in-range page, column and row is the slot of exactly the question its digits spell |
| Placement.SlotOnPage | OMR_printer.py:343-346 | the `i`-th question of a page is at column `i // max_rows`, row `i % max_rows` |
| Placement.ColumnMajorNext | OMR_printer.py:343-349 | the next question is one row down; or, after the last row, at the top of the next column; or, after the last column, at the top of the first column of the next page |
| Placement.SlotWithinPlan | OMR_printer.py:339-346 | each question's slot is on a planned page whose range holds it, at the page-local slot, in a column that page uses |
| Placement.RowYStep | OMR_printer.py:319 | row 0 is at `start_y`; each next row is one row height lower; no row is above `start_y`, and only row 0 is on it |
| Placement.RowFitsOnPage | OMR_printer.py:315-320 | every row below max_rows lies between the question start and the bottom margin; so does its bubble band when the bubble offset and size fit in a row |
| Placement.A4Rows | OMR_printer.py:336 | with the printer's constants, a column holds 18 rows and a page holds 90 questions |
| Driver.SheetRows | OMR_printer.py:335-336 | rows per column on every page are computed from the question start 107 mm below the margin: at least one exactly when one row fits there, and then those rows fit and one more would not |
| Driver.OptionHeaderY | OMR_printer.py:342 | the baseline of the option letters is above the first row's bubble tops, and below every header shape exactly when the bubble offset is above -4 mm |
| Driver.DrawQuestions | OMR_printer.py:343-346 | a page's inner loop keeps the earlier log and appends one entry per question of the page, in order: question `q + i` at column `i // max_rows`, row `i % max_rows` |
| Driver.PageExtendsSlots | OMR_printer.py:343-347 | a page drawn after `page` full pages appends exactly the closed-form slots of its own questions, so the whole log stays the closed-form slots of questions `1..q-1+count` |
| Driver.PlanStep | OMR_printer.py:339-347 | the page the loop plans at `q`, followed by the plan from `q + count`, continues the document's recursive page plan |
| Driver.LogMatchesPlan | OMR_printer.py:315-346 | each drawn question is on a planned page that holds it, in a column the page uses, and its row lies inside the printable area |
| Driver.LogSlotsDistinct | OMR_printer.py:343-346 | no two drawn questions share a page, column and row |
| Driver.BuildSheet | OMR_printer.py:333-349 | for `n >= 1` with at least one row: every question is drawn once, in order, at its closed-form slot; the plans are the recursive page plan; there are `ceil(n / capacity)` templated pages. With no row: one templated page and nothing drawn. With `n < 1`: one blank page |
| Driver.A4OneQuestion | OMR_printer.py:333-349 | one question takes one page and one column, and is drawn at the top of column 0 at y = 117 |
| Driver.A4FullPage | OMR_printer.py:339-341 | 90 questions fill exactly one page with all five columns |
| Driver.A4OneOver | OMR_printer.py:339-349 | 91 questions give a full page and a second page that uses one column |

## Left out

- Reading N and the institute name, logo and QR paths from the command line or a prompt (lines 13-68). These are I/O: `BuildSheet` takes `n` as a parameter, and the other inputs only affect images and text.
- QR_creater.py is not part of this model. It is a separate script that writes a QR image.
- fpdf drawing calls, colours, line widths and fonts, and the PDF file output. The model records only geometry: spans of y for the template, and a placement log for the questions.
- Font-metric widths from `get_string_width`. These are the roll grid's label width, and so its width `grid_w`; the right alignment of the question number; and the centring of option letters. `RightColumnWidth` takes the grid width as a parameter.
- The page border `rect` (line 308, y 5 to 292). It frames the whole page and is not a header shape, so the question area does not start below it.
- Text labels (`pdf.text` at lines 175, 195, 226 and 230) and the instructions `multi_cell` (lines 236-245). Their extents depend on font metrics. The header shapes are the rectangles, circles and cells only.
- Horizontal extents of the template: the ribbon, the boxes and the roll-grid columns. Only vertical extents feed the question start.
- `draw_crop_marks`, the logo image and `draw_qr_bottom`. They draw fixed shapes or images and do not affect the layout values. The QR inset sits in the bottom-right corner, at y 263-289 on A4. Its overlap with the last rows of column 4 is not modelled.
- Floating point. Lengths are exact reals, so `int(...)` at line 336 and `math.ceil` at line 341 are applied to exact quotients.
- Geometry.Config: the column count is at least 1, because the source divides the inner width by it (line 94). The bubble size is positive: a non-positive bubble is excluded as meaningless, although the source divides only by the row height `bubble_size + 5` (lines 100, 336).
- Pagination.PlanPages: does not state termination as a separate fact. The `decreases` clause proves it, because each page holds at least one question.
- BuildSheet: when not even one row fits, the printer does not abort. It breaks out of the loop after one template is drawn (lines 337-338), and the file is still written (line 354).
- BuildSheet: with N ≤ 0 the loop never runs, and the document is the one blank page added at line 10.
