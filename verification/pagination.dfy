/**
 The pagination engine: how many question rows fit below the template, how
 many questions each page takes, and how many columns each page uses.
 */
module Pagination {
  import opened Arith
  import opened Geometry

  /** The one step of `MaxRows` that needs real multiplication: the
      truncated quotient of `avail` by a positive `h`. */
  lemma TruncQuotient(avail: real, h: real, r: int)
    requires 0.0 < h && r == Trunc(avail / h)
    ensures 1 <= r <==> h <= avail
    ensures 1 <= r ==> r as real * h <= avail < (r + 1) as real * h
  {
    var x := avail / h;
    assert avail == x * h;
    if h <= avail {
      if x < 1.0 {
        MulLessReal(x, 1.0, h);
      }
      assert 0.0 <= x && r as real <= x < r as real + 1.0;
      MulLeReal(r as real, x, h);
      MulLessReal(x, r as real + 1.0, h);
      assert avail < (r as real + 1.0) * h;
      CastSucc(r, h, avail);
    } else {
      if 1.0 <= x {
        MulLeReal(1.0, x, h);
      }
      assert x < 1.0;
    }
  }

  /** Question rows that fit between `startY` and the bottom margin: the
      truncated quotient of the free height by the row height. It is at least
      one exactly when one row fits, and then those rows fit but one more
      would not. */
  function MaxRows(cfg: Config, startY: real): (r: int)
    ensures 1 <= r <==> startY + RowHeight(cfg) <= BottomLimit(cfg)
    ensures 1 <= r ==>
              startY + r as real * RowHeight(cfg) <= BottomLimit(cfg)
              < startY + (r + 1) as real * RowHeight(cfg)
  {
    var avail := cfg.pageHeight - startY - cfg.margin;
    TruncQuotient(avail, RowHeight(cfg), Trunc(avail / RowHeight(cfg)));
    Trunc(avail / RowHeight(cfg))
  }

  /** One page of questions: the first question's number, how many questions
      the page holds, and how many columns it draws. */
  datatype PagePlan = PagePlan(first: int, count: nat, colsUsed: nat)

  /** Questions a full page holds. */
  function Capacity(maxRows: Pos, columns: Pos): (r: Pos)
    ensures maxRows <= r && columns <= r
  {
    assert maxRows * columns >= maxRows * 1;
    assert maxRows * columns >= 1 * columns;
    maxRows * columns
  }

  /** Columns a page of `count` questions needs: the fewest columns of
      `maxRows` rows that hold them, capped at the column count. */
  function ColsUsed(count: nat, maxRows: Pos, columns: Pos): (c: nat)
    requires count <= Capacity(maxRows, columns)
    ensures c <= columns
    ensures count <= c * maxRows
    ensures (c - 1) * maxRows < count
  {
    CeilDivAtMost(count, maxRows, columns);
    Min(columns, CeilDiv(count, maxRows))
  }

  /** Plan the page that starts at question `q` of `n`: it holds the rest of
      the questions or a full page, whichever is fewer. */
  function PlanPage(maxRows: Pos, columns: Pos, q: int, n: int): (p: PagePlan)
    requires q <= n
    ensures p.first == q
    ensures 1 <= p.count <= Capacity(maxRows, columns)
    ensures p.count <= n - q + 1
    ensures p.count == n - q + 1 || p.count == Capacity(maxRows, columns)
    ensures 1 <= p.colsUsed <= columns
    ensures p.count <= p.colsUsed * maxRows && (p.colsUsed - 1) * maxRows < p.count
  {
    var remaining := n - q + 1;
    var questionsThisPage := Min(remaining, Capacity(maxRows, columns));
    PagePlan(q, questionsThisPage, ColsUsed(questionsThisPage, maxRows, columns))
  }

  /** Plans of the pages that hold questions `q..n`, page after page. A
      row count below one plans nothing: the printer stops there. */
  function PlanPages(maxRows: int, columns: Pos, q: int, n: int): (pages: seq<PagePlan>)
    ensures maxRows < 1 || n < q ==> pages == []
    ensures forall i :: 0 <= i < |pages| ==>
              q <= pages[i].first && pages[i].first + pages[i].count <= n + 1
    decreases n - q + 1
  {
    if maxRows < 1 || n < q then []
    else
      var page := PlanPage(maxRows, columns, q, n);
      [page] + PlanPages(maxRows, columns, q + page.count, n)
  }

  /** Page `i` of the plan from question `q`: it starts `i` full pages after
      `q` and holds a full page or the remainder, whichever is fewer. */
  ghost predicate PageAt(p: PagePlan, maxRows: Pos, columns: Pos, q: int, n: int, i: nat) {
    var cap := Capacity(maxRows, columns);
    && p.first == q + i * cap
    && p.count == Min(cap, n - q + 1 - i * cap)
    && p.count <= cap
    && p.colsUsed == ColsUsed(p.count, maxRows, columns)
  }

  /** Page `i - 1` counted from one page later is page `i`. */
  lemma PageAtShift(p: PagePlan, maxRows: Pos, columns: Pos, q: int, n: int, i: nat)
    requires 1 <= i
    requires PageAt(p, maxRows, columns, q + Capacity(maxRows, columns), n, i - 1)
    ensures PageAt(p, maxRows, columns, q, n, i)
  {
    var cap := Capacity(maxRows, columns);
    assert (i - 1) * cap + cap == i * cap;
  }

  /** The whole plan from question `q` in closed form: `ceil((n - q + 1) /
      capacity)` pages, page `i` as `PageAt` describes it. */
  ghost predicate ClosedForm(pages: seq<PagePlan>, maxRows: Pos, columns: Pos, q: int, n: int)
    requires q <= n + 1
  {
    && |pages| == CeilDiv(n - q + 1, Capacity(maxRows, columns))
    && forall i :: 0 <= i < |pages| ==> PageAt(pages[i], maxRows, columns, q, n, i)
  }

  /** A full first page followed by the closed-form plan of the rest is the
      closed-form plan of the whole. */
  lemma ClosedFormCons(page: PagePlan, rest: seq<PagePlan>, maxRows: Pos, columns: Pos, q: int, n: int)
    requires q + Capacity(maxRows, columns) <= n
    requires PageAt(page, maxRows, columns, q, n, 0)
    requires ClosedForm(rest, maxRows, columns, q + Capacity(maxRows, columns), n)
    ensures ClosedForm([page] + rest, maxRows, columns, q, n)
  {
    var pages := [page] + rest;
    var cap := Capacity(maxRows, columns);
    CeilDivStep(n - q + 1, cap);
    forall i | 1 <= i < |pages|
      ensures PageAt(pages[i], maxRows, columns, q, n, i)
    {
      assert pages[i] == rest[i - 1];
      PageAtShift(pages[i], maxRows, columns, q, n, i);
    }
  }

  /** A last page holding all remaining questions is the closed-form plan. */
  lemma ClosedFormLast(page: PagePlan, maxRows: Pos, columns: Pos, q: int, n: int)
    requires q <= n < q + Capacity(maxRows, columns)
    requires PageAt(page, maxRows, columns, q, n, 0)
    ensures ClosedForm([page], maxRows, columns, q, n)
  {
    CeilDivAtMost(n - q + 1, Capacity(maxRows, columns), 1);
  }

  /** One unfolding of `PlanPages`: if the plan after the first page is in
      closed form, so is the whole plan. */
  lemma ClosedFormStep(maxRows: Pos, columns: Pos, q: int, n: int)
    requires q <= n
    requires ClosedForm(PlanPages(maxRows, columns, q + PlanPage(maxRows, columns, q, n).count, n),
                        maxRows, columns, q + PlanPage(maxRows, columns, q, n).count, n)
    ensures ClosedForm(PlanPages(maxRows, columns, q, n), maxRows, columns, q, n)
  {
    var page := PlanPage(maxRows, columns, q, n);
    var rest := PlanPages(maxRows, columns, q + page.count, n);
    assert PlanPages(maxRows, columns, q, n) == [page] + rest;
    assert PageAt(page, maxRows, columns, q, n, 0);
    if page.count == n - q + 1 {
      assert rest == [];
      ClosedFormLast(page, maxRows, columns, q, n);
    } else {
      ClosedFormCons(page, rest, maxRows, columns, q, n);
    }
  }

  /** Closed form of the plan: page `i` starts at `q + i * capacity` and holds
      a full page or the remainder, and there are
      `ceil((n - q + 1) / capacity)` pages. */
  lemma {:induction false} PlanPagesClosedForm(maxRows: Pos, columns: Pos, q: int, n: int)
    requires q <= n + 1
    ensures ClosedForm(PlanPages(maxRows, columns, q, n), maxRows, columns, q, n)
    decreases n - q + 1
  {
    if n < q {
      assert CeilDiv(0, Capacity(maxRows, columns)) == 0;
    } else {
      var next := q + PlanPage(maxRows, columns, q, n).count;
      assert q < next <= n + 1;
      PlanPagesClosedForm(maxRows, columns, next, n);
      ClosedFormStep(maxRows, columns, q, n);
    }
  }

  /** Arithmetic behind full pages: with `k` pages of `cap` for `rem`
      questions, every page before the last still has more than a page left. */
  lemma BeforeLastHasMore(cap: Pos, rem: int, k: nat, i: nat)
    requires (k - 1) * cap < rem && i < k - 1
    ensures i * cap + cap < rem
  {
    assert (i + 1) * cap <= (k - 1) * cap;
    assert (i + 1) * cap == i * cap + cap;
  }

  /** Arithmetic behind the last page: it holds between one question and a
      full page. */
  lemma LastPageSize(cap: Pos, rem: int, k: nat)
    requires 1 <= k && (k - 1) * cap < rem <= k * cap
    ensures 1 <= rem - (k - 1) * cap <= cap
  {
    assert k * cap == (k - 1) * cap + cap;
  }

  /** Every page but the last is full; the last holds the remainder, between
      one question and a full page, and ends with question `n`. */
  lemma PagesFullExceptLast(maxRows: Pos, columns: Pos, n: int)
    requires 1 <= n
    ensures var pages := PlanPages(maxRows, columns, 1, n);
            && 0 < |pages|
            && (forall i :: 0 <= i < |pages| - 1 ==> pages[i].count == Capacity(maxRows, columns))
            && 1 <= pages[|pages| - 1].count <= Capacity(maxRows, columns)
            && pages[|pages| - 1].first + pages[|pages| - 1].count == n + 1
  {
    var pages := PlanPages(maxRows, columns, 1, n);
    var cap := Capacity(maxRows, columns);
    PlanPagesClosedForm(maxRows, columns, 1, n);
    var k := |pages|;
    assert (k - 1) * cap < n <= k * cap;
    forall i | 0 <= i < k - 1
      ensures pages[i].count == cap
    {
      assert PageAt(pages[i], maxRows, columns, 1, n, i);
      BeforeLastHasMore(cap, n, k, i);
    }
    assert PageAt(pages[k - 1], maxRows, columns, 1, n, k - 1);
    LastPageSize(cap, n, k);
  }

  /** Consecutive pages meet: the first page starts at `q` and each page
      starts right after the previous one ends, so no question is skipped or
      repeated across a page break. */
  lemma PagesContiguous(maxRows: Pos, columns: Pos, q: int, n: int)
    requires q <= n + 1
    ensures var pages := PlanPages(maxRows, columns, q, n);
            && (0 < |pages| ==> pages[0].first == q)
            && forall i :: 0 <= i < |pages| - 1 ==> pages[i + 1].first == pages[i].first + pages[i].count
  {
    var pages := PlanPages(maxRows, columns, q, n);
    var cap := Capacity(maxRows, columns);
    PlanPagesClosedForm(maxRows, columns, q, n);
    var k := |pages|;
    assert (k - 1) * cap < n - q + 1;
    forall i | 0 <= i < k - 1
      ensures pages[i + 1].first == pages[i].first + pages[i].count
    {
      assert PageAt(pages[i], maxRows, columns, q, n, i);
      assert PageAt(pages[i + 1], maxRows, columns, q, n, i + 1);
      BeforeLastHasMore(cap, n - q + 1, k, i);
      assert (i + 1) * cap == i * cap + cap;
    }
  }

  /** The number of pages is `ceil(n / capacity)`. */
  lemma PageCount(maxRows: Pos, columns: Pos, n: nat)
    ensures |PlanPages(maxRows, columns, 1, n)| == CeilDiv(n, Capacity(maxRows, columns))
  {
    PlanPagesClosedForm(maxRows, columns, 1, n);
  }
}
