/**
 The document driver: draw the template on a page, work out the page's row
 count, question count and column count, draw its questions column by
 column, and start a new page while questions remain.
 */
module Driver {
  import opened Arith
  import opened Geometry
  import opened Template
  import opened Pagination
  import opened Placement

  /** What the printer leaves in the document: the number of pages, how many
      of them carry the page template, the plan of every page that holds
      questions, and every drawn question in drawing order. */
  datatype Sheet = Sheet(pageCount: nat, templated: nat, plans: seq<PagePlan>, log: seq<Drawn>)

  /** Rows per column on every page (the template, and so the start of the
      question area, is the same on every page). */
  function SheetMaxRows(cfg: Config): int {
    MaxRows(cfg, QuestionStartY(cfg))
  }

  /** The rows of every page start 107 mm below the margin: there is at least
      one exactly when one row fits there, and then those rows fit above the
      bottom margin and one more would not. */
  lemma SheetRows(cfg: Config)
    ensures 1 <= SheetMaxRows(cfg) <==> cfg.margin + 107.0 + RowHeight(cfg) <= BottomLimit(cfg)
    ensures var r := SheetMaxRows(cfg);
            1 <= r ==>
              cfg.margin + 107.0 + r as real * RowHeight(cfg) <= BottomLimit(cfg)
              < cfg.margin + 107.0 + (r + 1) as real * RowHeight(cfg)
  {
  }

  /** How far above the bubble tops the option letters are drawn. */
  const HeaderLift: real := 3.0

  /** Baseline of the option letters over the answer columns of a page: above
      the tops of the first row's bubbles, and below every header shape
      exactly when the bubbles are drawn less than 4 mm above their row (the
      roll-number outline ends 7 mm above the question area). */
  function OptionHeaderY(cfg: Config, startY: real): (y: real)
    ensures y < startY + cfg.bubbleYOffset
    ensures startY == QuestionStartY(cfg) ==>
              ((forall s :: s in HeaderShapes(cfg) ==> s.bottom < y) <==> -4.0 < cfg.bubbleYOffset)
  {
    HeaderClearance(cfg);
    startY + cfg.bubbleYOffset - HeaderLift
  }

  /** `log` holds exactly the closed-form slots of questions `1..|log|`. */
  ghost predicate SlotsSoFar(cfg: Config, startY: real, maxRows: Pos, log: seq<Drawn>) {
    forall k :: 0 <= k < |log| ==> log[k] == SlotOf(cfg, startY, maxRows, k + 1)
  }

  /** The questions of one page, drawn in order: the `i`-th question of the
      page, numbered `q + i`, goes to column `i / maxRows`, row
      `i % maxRows`, and nothing drawn before is changed. */
  method DrawQuestions(cfg: Config, startY: real, maxRows: Pos, page: nat, q: int, count: nat,
                       log: seq<Drawn>) returns (log': seq<Drawn>)
    ensures |log'| == |log| + count
    ensures log'[..|log|] == log
    ensures forall i :: 0 <= i < count ==>
              log'[|log| + i] == Drawn(q + i, page, i / maxRows, i % maxRows, RowY(cfg, startY, i % maxRows))
  {
    log' := log;
    var i := 0;
    while i < count
      invariant 0 <= i <= count
      invariant |log'| == |log| + i
      invariant log'[..|log|] == log
      invariant forall j :: 0 <= j < i ==>
                  log'[|log| + j] == Drawn(q + j, page, j / maxRows, j % maxRows, RowY(cfg, startY, j % maxRows))
    {
      var col := i / maxRows;
      var row := i % maxRows;
      log' := log' + [Drawn(q + i, page, col, row, startY + row as real * RowHeight(cfg))];
      i := i + 1;
    }
  }

  /** A page drawn by `DrawQuestions` right after the questions of `page`
      full pages extends a log of closed-form slots by the closed-form slots
      of its own questions. */
  lemma PageExtendsSlots(cfg: Config, startY: real, maxRows: Pos, page: nat, q: int, count: nat,
                         log: seq<Drawn>, log': seq<Drawn>)
    requires q == page * Capacity(maxRows, cfg.columns) + 1
    requires count <= Capacity(maxRows, cfg.columns)
    requires |log| == q - 1
    requires SlotsSoFar(cfg, startY, maxRows, log)
    requires |log'| == |log| + count
    requires log'[..|log|] == log
    requires forall i :: 0 <= i < count ==>
               log'[|log| + i] == Drawn(q + i, page, i / maxRows, i % maxRows, RowY(cfg, startY, i % maxRows))
    ensures SlotsSoFar(cfg, startY, maxRows, log')
  {
    forall k | 0 <= k < |log'|
      ensures log'[k] == SlotOf(cfg, startY, maxRows, k + 1)
    {
      if k < |log| {
        assert log'[k] == log'[..|log|][k];
      } else {
        var i := k - |log|;
        assert log'[|log| + i] == Drawn(q + i, page, i / maxRows, i % maxRows, RowY(cfg, startY, i % maxRows));
        SlotOnPage(cfg, startY, maxRows, page, i);
      }
    }
  }

  /** A log of the closed-form slots of questions `1..n` agrees with the page
      plan and stays inside the printable area. */
  lemma LogMatchesPlan(cfg: Config, n: int, log: seq<Drawn>)
    requires 1 <= SheetMaxRows(cfg)
    requires |log| == n
    requires forall k :: 0 <= k < n ==> log[k] == SlotOf(cfg, QuestionStartY(cfg), SheetMaxRows(cfg), k + 1)
    ensures var plans := PlanPages(SheetMaxRows(cfg), cfg.columns, 1, n);
            forall k :: 0 <= k < |log| ==>
              && log[k].question == k + 1
              && log[k].page < |plans|
              && plans[log[k].page].first <= log[k].question
              && log[k].question < plans[log[k].page].first + plans[log[k].page].count
              && log[k].col < plans[log[k].page].colsUsed
              && log[k].row < SheetMaxRows(cfg)
              && QuestionStartY(cfg) <= log[k].y
              && log[k].y + RowHeight(cfg) <= BottomLimit(cfg)
  {
    var startY := QuestionStartY(cfg);
    var maxRows := SheetMaxRows(cfg);
    forall k | 0 <= k < |log|
      ensures var plans := PlanPages(maxRows, cfg.columns, 1, n);
              && log[k].page < |plans|
              && plans[log[k].page].first <= log[k].question
              && log[k].question < plans[log[k].page].first + plans[log[k].page].count
              && log[k].col < plans[log[k].page].colsUsed
              && QuestionStartY(cfg) <= log[k].y
              && log[k].y + RowHeight(cfg) <= BottomLimit(cfg)
    {
      SlotWithinPlan(cfg, startY, maxRows, n, k + 1);
      RowFitsOnPage(cfg, startY, log[k].row);
    }
  }

  /** No two questions of a log of closed-form slots share a page, column
      and row. */
  lemma LogSlotsDistinct(cfg: Config, startY: real, maxRows: Pos, log: seq<Drawn>)
    requires SlotsSoFar(cfg, startY, maxRows, log)
    ensures forall j, k :: 0 <= j < k < |log| ==>
              (log[j].page, log[j].col, log[j].row) != (log[k].page, log[k].col, log[k].row)
  {
  }

  /** `done` are the plans of the pages before question `q`: followed by the
      plans from `q` on, they make the plan of the whole document. */
  ghost predicate PlannedBefore(maxRows: Pos, columns: Pos, q: int, n: int, done: seq<PagePlan>) {
    done + PlanPages(maxRows, columns, q, n) == PlanPages(maxRows, columns, 1, n)
  }

  /** Appending the plan of the page at `q`, as the printer computes it,
      keeps `done + PlanPages(q..)` equal to the plan of the whole document. */
  lemma PlanStep(maxRows: Pos, columns: Pos, q: int, n: int, done: seq<PagePlan>,
                 count: int, colsUsed: int)
    requires q <= n
    requires count == Min(n - q + 1, maxRows * columns)
    requires colsUsed == Min(columns, CeilDiv(count, maxRows))
    requires PlannedBefore(maxRows, columns, q, n, done)
    ensures PlannedBefore(maxRows, columns, q + count, n, done + [PagePlan(q, count, colsUsed)])
  {
    var page := PlanPage(maxRows, columns, q, n);
    assert page == PagePlan(q, count, colsUsed);
    var rest := PlanPages(maxRows, columns, q + page.count, n);
    assert PlanPages(maxRows, columns, q, n) == [page] + rest;
    assert (done + [page]) + rest == done + ([page] + rest);
  }

  /** A page that leaves questions over was full, so the next page starts
      one capacity later. */
  lemma NextPageStart(page: nat, cap: Pos, q: int, n: int, count: int)
    requires q - 1 == page * cap && q <= n
    requires count == Min(n - q + 1, cap)
    requires q + count <= n
    ensures q + count - 1 == (page + 1) * cap
  {
    MulSucc(page, cap);
  }

  /** Lay out `n` questions. A document always has its first page. With no
      questions it stays blank; when not even one row fits below the template
      the printer stops after drawing the template once; otherwise every
      question `1..n` is drawn exactly once, in order, at its column-major
      slot, on `ceil(n / capacity)` templated pages. */
  method BuildSheet(cfg: Config, n: int) returns (sheet: Sheet)
    ensures n < 1 ==> sheet == Sheet(1, 0, [], [])
    ensures 1 <= n && SheetMaxRows(cfg) < 1 ==> sheet == Sheet(1, 1, [], [])
    ensures 1 <= n && 1 <= SheetMaxRows(cfg) ==>
              && sheet.pageCount == sheet.templated == |sheet.plans|
              && |sheet.plans| == CeilDiv(n, Capacity(SheetMaxRows(cfg), cfg.columns))
              && sheet.plans == PlanPages(SheetMaxRows(cfg), cfg.columns, 1, n)
              && |sheet.log| == n
              && forall k :: 0 <= k < n ==>
                   sheet.log[k] == SlotOf(cfg, QuestionStartY(cfg), SheetMaxRows(cfg), k + 1)
  {
    var q := 1;
    var pageCount := 1;
    var templated := 0;
    var plans: seq<PagePlan> := [];
    var log: seq<Drawn> := [];
    ghost var startY0 := QuestionStartY(cfg);
    ghost var mr0 := MaxRows(cfg, startY0);
    while q <= n
      invariant 1 <= q && (q == 1 || q <= n + 1)
      invariant mr0 < 1 ==> q == 1 && plans == [] && templated == 0
      invariant templated == |plans|
      invariant pageCount == (if q <= n || q == 1 then templated + 1 else templated)
      invariant 1 <= mr0 ==> PlannedBefore(mr0, cfg.columns, q, n, plans)
      invariant 1 <= mr0 && q <= n ==> q - 1 == |plans| * Capacity(mr0, cfg.columns)
      invariant |log| == q - 1
      invariant 1 <= mr0 ==> SlotsSoFar(cfg, startY0, mr0, log)
      decreases n - q + 1
    {
      var startY := QuestionStartY(cfg);
      templated := templated + 1;
      var maxRows := MaxRows(cfg, startY);
      if maxRows < 1 {
        break;
      }
      var remaining := n - q + 1;
      var questionsThisPage := Min(remaining, maxRows * cfg.columns);
      var colsUsed := Min(cfg.columns, CeilDiv(questionsThisPage, maxRows));
      var page := |plans|;
      PlanStep(maxRows, cfg.columns, q, n, plans, questionsThisPage, colsUsed);
      plans := plans + [PagePlan(q, questionsThisPage, colsUsed)];
      var drawn := DrawQuestions(cfg, startY, maxRows, page, q, questionsThisPage, log);
      PageExtendsSlots(cfg, startY, maxRows, page, q, questionsThisPage, log, drawn);
      log := drawn;
      q := q + questionsThisPage;
      if q <= n {
        NextPageStart(page, Capacity(maxRows, cfg.columns), q - questionsThisPage, n, questionsThisPage);
        pageCount := pageCount + 1;
      }
    }
    if 1 <= mr0 && 1 <= n {
      PageCount(mr0, cfg.columns, n);
    }
    sheet := Sheet(pageCount, templated, plans, log);
  }

  /** The printer's own geometry: 18 rows of 5 columns per page. One question
      takes one page and one column, at the top of the first column. */
  lemma A4OneQuestion()
    ensures SheetMaxRows(A4) == 18
    ensures PlanPages(18, A4.columns, 1, 1) == [PagePlan(1, 1, 1)]
    ensures SlotOf(A4, QuestionStartY(A4), 18, 1) == Drawn(1, 0, 0, 0, 117.0)
  {
    A4Rows();
    SlotOfInverse(A4, QuestionStartY(A4), 18, 0, 0, 0);
  }

  /** Exactly one full page of questions fills all five columns of one page. */
  lemma A4FullPage()
    ensures PlanPages(18, A4.columns, 1, 90) == [PagePlan(1, 90, 5)]
  {
    assert PlanPage(18, A4.columns, 1, 90) == PagePlan(1, 90, 5);
  }

  /** One question more than a page spills to a second page that uses a
      single column. */
  lemma A4OneOver()
    ensures PlanPages(18, A4.columns, 1, 91) == [PagePlan(1, 90, 5), PagePlan(91, 1, 1)]
  {
    assert PlanPage(18, A4.columns, 1, 91) == PagePlan(1, 90, 5);
    assert PlanPage(18, A4.columns, 91, 91) == PagePlan(91, 1, 1);
    assert PlanPages(18, A4.columns, 91, 91) == [PagePlan(91, 1, 1)];
  }
}
