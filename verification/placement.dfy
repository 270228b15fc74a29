/**
 Slot placement: which page, column and row each question lands in, and the
 y-coordinate of its row. Questions fill a page column by column, each
 column top to bottom.
 */
module Placement {
  import opened Arith
  import opened Geometry
  import opened Pagination

  /** One drawn question: its number, its page (counted from 0), its column
      and row on that page, and the y of the top of its row. */
  datatype Drawn = Drawn(question: int, page: nat, col: nat, row: nat, y: real)

  /** Column and row of the page-local index `i` when columns hold `maxRows`
      rows: the index is recovered as `col * maxRows + row`. */
  function LocalSlot(i: nat, maxRows: Pos): (s: (nat, nat))
    ensures s.1 < maxRows
    ensures s.0 * maxRows + s.1 == i
  {
    (i / maxRows, i % maxRows)
  }

  /** Top of question row `row` below `startY`. */
  function RowY(cfg: Config, startY: real, row: nat): real {
    startY + row as real * RowHeight(cfg)
  }

  /** Rows start at `startY` and follow one another one row height apart;
      no row lies above `startY`, and only the first row is on it. */
  lemma RowYStep(cfg: Config, startY: real, row: nat)
    ensures RowY(cfg, startY, 0) == startY
    ensures RowY(cfg, startY, row + 1) == RowY(cfg, startY, row) + RowHeight(cfg)
    ensures startY <= RowY(cfg, startY, row)
    ensures RowY(cfg, startY, row) == startY <==> row == 0
  {
    assert (row + 1) as real * RowHeight(cfg) == row as real * RowHeight(cfg) + RowHeight(cfg);
    if 0 < row {
      MulLessReal(0.0, row as real, RowHeight(cfg));
    }
  }

  /** Where question `q` (numbered from 1) is drawn, computed directly from
      `q`: the page, column and row are the digits of `q - 1` in the mixed
      radix (pages, columns of `maxRows`, rows). */
  function SlotOf(cfg: Config, startY: real, maxRows: Pos, q: int): (p: Drawn)
    requires 1 <= q
    ensures p.question == q
    ensures p.col < cfg.columns && p.row < maxRows
    ensures (p.page * cfg.columns + p.col) * maxRows + p.row == q - 1
    ensures p.y == RowY(cfg, startY, p.row)
  {
    var k := q - 1;
    var cap := Capacity(maxRows, cfg.columns);
    var local := k % cap;
    var slot := LocalSlot(local, maxRows);
    assert slot.0 * maxRows < cfg.columns * maxRows;
    MulCancelLess(slot.0, cfg.columns, maxRows);
    assert (k / cap * cfg.columns + slot.0) * maxRows == k / cap * cap + slot.0 * maxRows;
    Drawn(q, k / cap, slot.0, slot.1, RowY(cfg, startY, slot.1))
  }

  /** `SlotOf` is onto: every (page, column, row) in range is the slot of
      exactly the question its mixed-radix digits spell. */
  lemma SlotOfInverse(cfg: Config, startY: real, maxRows: Pos, page: nat, col: nat, row: nat)
    requires col < cfg.columns && row < maxRows
    ensures SlotOf(cfg, startY, maxRows, (page * cfg.columns + col) * maxRows + row + 1)
            == Drawn((page * cfg.columns + col) * maxRows + row + 1, page, col, row, RowY(cfg, startY, row))
  {
    var k := (page * cfg.columns + col) * maxRows + row;
    MixedRadix(k, maxRows, cfg.columns, page, col, row);
  }

  /** The `i`-th question of page `page` (a full page before it) sits at
      the column-major slot of `i`. */
  lemma SlotOnPage(cfg: Config, startY: real, maxRows: Pos, page: nat, i: nat)
    requires i < Capacity(maxRows, cfg.columns)
    ensures var q := page * Capacity(maxRows, cfg.columns) + 1 + i;
            SlotOf(cfg, startY, maxRows, q)
            == Drawn(q, page, i / maxRows, i % maxRows, RowY(cfg, startY, i % maxRows))
  {
    var cap := Capacity(maxRows, cfg.columns);
    var s := LocalSlot(i, maxRows);
    assert s.0 * maxRows < cfg.columns * maxRows;
    MulCancelLess(s.0, cfg.columns, maxRows);
    SlotOfInverse(cfg, startY, maxRows, page, s.0, s.1);
    assert (page * cfg.columns + s.0) * maxRows + s.1 == page * cap + i;
  }

  /** Column-major order: the next question goes one row down in the same
      column, or to the top of the next column after the last row, or to the
      top of the first column of the next page after the last column. */
  lemma ColumnMajorNext(cfg: Config, startY: real, maxRows: Pos, q: int)
    requires 1 <= q
    ensures var a, b := SlotOf(cfg, startY, maxRows, q), SlotOf(cfg, startY, maxRows, q + 1);
            && (a.row < maxRows - 1 ==> b.page == a.page && b.col == a.col && b.row == a.row + 1)
            && (a.row == maxRows - 1 && a.col < cfg.columns - 1 ==>
                  b.page == a.page && b.col == a.col + 1 && b.row == 0)
            && (a.row == maxRows - 1 && a.col == cfg.columns - 1 ==>
                  b.page == a.page + 1 && b.col == 0 && b.row == 0)
  {
    var a := SlotOf(cfg, startY, maxRows, q);
    if a.row < maxRows - 1 {
      NextRow(cfg, startY, maxRows, q, a.page, a.col, a.row);
    } else if a.col < cfg.columns - 1 {
      NextColumn(cfg, startY, maxRows, q, a.page, a.col);
    } else {
      NextPage(cfg, startY, maxRows, q, a.page);
    }
  }

  /** Below the last row, the next question is one row down. */
  lemma NextRow(cfg: Config, startY: real, maxRows: Pos, q: int, page: nat, col: nat, row: nat)
    requires col < cfg.columns && row + 1 < maxRows
    requires (page * cfg.columns + col) * maxRows + row + 1 == q
    ensures SlotOf(cfg, startY, maxRows, q + 1) == Drawn(q + 1, page, col, row + 1, RowY(cfg, startY, row + 1))
  {
    SlotOfInverse(cfg, startY, maxRows, page, col, row + 1);
  }

  /** After the last row of a column that is not the last, the next question
      is at the top of the next column. */
  lemma NextColumn(cfg: Config, startY: real, maxRows: Pos, q: int, page: nat, col: nat)
    requires col + 1 < cfg.columns
    requires (page * cfg.columns + col) * maxRows + maxRows == q
    ensures SlotOf(cfg, startY, maxRows, q + 1) == Drawn(q + 1, page, col + 1, 0, RowY(cfg, startY, 0))
  {
    var base := page * cfg.columns + col;
    MulSucc(base, maxRows);
    assert page * cfg.columns + (col + 1) == base + 1;
    SlotOfInverse(cfg, startY, maxRows, page, col + 1, 0);
  }

  /** After the last row of the last column, the next question is at the top
      of the first column of the next page. */
  lemma NextPage(cfg: Config, startY: real, maxRows: Pos, q: int, page: nat)
    requires (page * cfg.columns + (cfg.columns - 1)) * maxRows + maxRows == q
    ensures SlotOf(cfg, startY, maxRows, q + 1) == Drawn(q + 1, page + 1, 0, 0, RowY(cfg, startY, 0))
  {
    var cols: int := cfg.columns;
    var base := page * cols + (cols - 1);
    MulSucc(base, maxRows);
    MulSucc(page, cols);
    assert (page + 1) * cols + 0 == base + 1;
    SlotOfInverse(cfg, startY, maxRows, page + 1, 0, 0);
  }


  /** The slot of every question `1..n` agrees with the page plan: it lies on
      a planned page whose range contains the question, at the column-major
      slot of its page-local index, in one of the columns the page draws. */
  lemma SlotWithinPlan(cfg: Config, startY: real, maxRows: Pos, n: int, q: int)
    requires 1 <= q <= n
    ensures var pages := PlanPages(maxRows, cfg.columns, 1, n);
            var p := SlotOf(cfg, startY, maxRows, q);
            && p.page < |pages|
            && pages[p.page].first <= q < pages[p.page].first + pages[p.page].count
            && LocalSlot(q - pages[p.page].first, maxRows) == (p.col, p.row)
            && p.col < pages[p.page].colsUsed
  {
    var pages := PlanPages(maxRows, cfg.columns, 1, n);
    var cap := Capacity(maxRows, cfg.columns);
    var p := SlotOf(cfg, startY, maxRows, q);
    var local := p.col * maxRows + p.row;
    MixedRadixSplit(maxRows, cfg.columns, p.page, p.col, p.row);
    PlanPagesClosedForm(maxRows, cfg.columns, 1, n);
    var k := |pages|;
    assert n <= k * cap;
    assert p.page * cap < k * cap;
    MulCancelLess(p.page, k, cap);
    var page := pages[p.page];
    assert PageAt(page, maxRows, cfg.columns, 1, n, p.page);
    assert q - page.first == local;
    DivModUnique(local, maxRows, p.col, p.row);
    assert p.col * maxRows < page.colsUsed * maxRows;
    MulCancelLess(p.col, page.colsUsed, maxRows);
  }

  /** Arithmetic behind `RowFitsOnPage`: a row above the last of `maxRows`
      rows of height `h` ends no lower than the rows end. */
  lemma RowWithinRows(startY: real, row: nat, maxRows: nat, h: real, limit: real)
    requires row < maxRows && 0.0 < h
    requires startY + maxRows as real * h <= limit
    ensures startY <= startY + row as real * h
    ensures startY + row as real * h + h <= limit
  {
    assert 0.0 <= row as real * h;
    MulLeReal((row + 1) as real, maxRows as real, h);
    assert (row + 1) as real * h == row as real * h + h;
  }

  /** With the row count `MaxRows` computes, every question row lies between
      the start of the question area and the bottom margin; so does its bubble
      band when the offset and bubble fit within a row. */
  lemma RowFitsOnPage(cfg: Config, startY: real, row: nat)
    requires row < MaxRows(cfg, startY)
    ensures startY <= RowY(cfg, startY, row)
    ensures RowY(cfg, startY, row) + RowHeight(cfg) <= BottomLimit(cfg)
    ensures 0.0 <= cfg.bubbleYOffset && cfg.bubbleYOffset + cfg.bubbleSize <= RowHeight(cfg) ==>
              startY <= RowY(cfg, startY, row) + cfg.bubbleYOffset
              && RowY(cfg, startY, row) + cfg.bubbleYOffset + cfg.bubbleSize <= BottomLimit(cfg)
  {
    assert RowY(cfg, startY, row) == startY + row as real * RowHeight(cfg);
    RowWithinRows(startY, row, MaxRows(cfg, startY), RowHeight(cfg), BottomLimit(cfg));
  }

  /** The printer's numbers: the question area starting at y = 117 on an A4
      page holds 18 rows, so a page holds 90 questions. */
  lemma A4Rows()
    ensures MaxRows(A4, 117.0) == 18
    ensures Capacity(MaxRows(A4, 117.0), A4.columns) == 90
  {
    var r := MaxRows(A4, 117.0);
    assert 1 <= r;
  }
}
