/**
 Column geometry: where an answer group (question number plus its row of
 option bubbles) sits inside its column band, and the x-coordinate of each
 option bubble.
 */
module Columns {
  import opened Arith
  import opened Geometry

  /** Space between the number label and the first bubble. */
  const LabelGap: real := 2.0

  /** Distance from one bubble's left edge to the next one's. */
  function Pitch(cfg: Config): real {
    cfg.bubbleSize + cfg.bubbleGap
  }

  /** Width of an answer group: number area, gap, then the bubbles with the
      gaps between them. */
  function GroupWidth(cfg: Config): real {
    cfg.numberWidth + LabelGap
      + cfg.optionCount as real * cfg.bubbleSize
      + (cfg.optionCount as real - 1.0) * cfg.bubbleGap
  }

  /** Consecutive column bands are one column width apart. */
  lemma ColumnLeftStep(cfg: Config, col: nat)
    ensures ColumnLeft(cfg, 0) == cfg.margin
    ensures ColumnLeft(cfg, col + 1) == ColumnLeft(cfg, col) + ColumnWidth(cfg)
  {
    assert (col + 1) as real * ColumnWidth(cfg) == col as real * ColumnWidth(cfg) + ColumnWidth(cfg);
  }

  /** Start x and width of the answer group of column `col`: centred in the
      band when it is narrower than the band, flush with the band's left
      edge otherwise. */
  function ColumnStart(cfg: Config, col: nat): (r: (real, real))
    ensures r.1 == GroupWidth(cfg)
    ensures ColumnLeft(cfg, col) <= r.0
    ensures GroupWidth(cfg) <= ColumnWidth(cfg) ==>
              r.0 - ColumnLeft(cfg, col) == ColumnLeft(cfg, col + 1) - (r.0 + r.1)
    ensures ColumnWidth(cfg) < GroupWidth(cfg) ==> r.0 == ColumnLeft(cfg, col)
  {
    var groupWidth := GroupWidth(cfg);
    var base := ColumnLeft(cfg, col);
    ColumnLeftStep(cfg, col);
    (base + MaxR(0.0, (ColumnWidth(cfg) - groupWidth) / 2.0), groupWidth)
  }

  /** Bubbles laid out with a fixed pitch keep that pitch between any two of them. */
  lemma ProgressionSpacing(xs: seq<real>, first: real, pitch: real)
    requires forall i :: 0 <= i < |xs| ==> xs[i] == first + i as real * pitch
    ensures forall i, j :: 0 <= i <= j < |xs| ==> xs[j] - xs[i] == (j - i) as real * pitch
  {
    forall i, j | 0 <= i <= j < |xs|
      ensures xs[j] - xs[i] == (j - i) as real * pitch
    {
      assert (j - i) as real * pitch == j as real * pitch - i as real * pitch;
    }
  }

  /** With a non-negative gap, a later bubble starts no earlier than the
      previous bubble ends. */
  lemma ProgressionDisjoint(xs: seq<real>, first: real, size: real, gap: real)
    requires 0.0 < size && 0.0 <= gap
    requires forall i :: 0 <= i < |xs| ==> xs[i] == first + i as real * (size + gap)
    ensures forall i, j :: 0 <= i < j < |xs| ==> xs[i] + size <= xs[j]
  {
    ProgressionSpacing(xs, first, size + gap);
    forall i, j | 0 <= i < j < |xs|
      ensures xs[i] + size <= xs[j]
    {
      var d := (j - i - 1) as real;
      assert 0.0 <= d * (size + gap);
      assert (j - i) as real * (size + gap) == d * (size + gap) + (size + gap);
    }
  }

  /** A row of `count` bubbles of width `size` at a fixed pitch `size + gap`
      from `first` ends where the group arithmetic says it does. */
  lemma ProgressionEnd(xs: seq<real>, first: real, size: real, gap: real)
    requires 0 < |xs|
    requires forall i :: 0 <= i < |xs| ==> xs[i] == first + i as real * (size + gap)
    ensures xs[|xs| - 1] + size == first + |xs| as real * size + (|xs| as real - 1.0) * gap
  {
    var k := |xs| as real;
    assert (k - 1.0) * (size + gap) + size == k * size + (k - 1.0) * gap;
  }

  /** Start x of column `col`'s answer group, and the left x of each option
      bubble, in option order. */
  function BubbleXPositions(cfg: Config, col: nat): (r: (real, seq<real>))
    ensures r.0 == ColumnStart(cfg, col).0
    ensures |r.1| == cfg.optionCount
    ensures 0 < |r.1| ==> r.1[0] == r.0 + cfg.numberWidth + LabelGap
    ensures forall i :: 0 <= i < |r.1| - 1 ==> r.1[i + 1] - r.1[i] == Pitch(cfg)
    ensures 0 < |r.1| ==> r.1[|r.1| - 1] + cfg.bubbleSize == r.0 + GroupWidth(cfg)
    ensures 0.0 < Pitch(cfg) ==> forall i, j :: 0 <= i < j < |r.1| ==> r.1[i] < r.1[j]
    ensures 0.0 <= cfg.bubbleGap ==>
              forall i, j :: 0 <= i < j < |r.1| ==> r.1[i] + cfg.bubbleSize <= r.1[j]
  {
    var xColStart := ColumnStart(cfg, col).0;
    var optStartX := xColStart + cfg.numberWidth + LabelGap;
    var positions := seq(cfg.optionCount, i => optStartX + i as real * Pitch(cfg));
    BubbleRowFacts(cfg, positions, optStartX);
    (xColStart, positions)
  }

  /** The facts `BubbleXPositions` promises, about any fixed-pitch row. */
  lemma BubbleRowFacts(cfg: Config, xs: seq<real>, first: real)
    requires |xs| == cfg.optionCount
    requires forall i :: 0 <= i < |xs| ==> xs[i] == first + i as real * Pitch(cfg)
    ensures forall i :: 0 <= i < |xs| - 1 ==> xs[i + 1] - xs[i] == Pitch(cfg)
    ensures 0 < |xs| ==> xs[|xs| - 1] + cfg.bubbleSize == first - cfg.numberWidth - LabelGap + GroupWidth(cfg)
    ensures 0.0 < Pitch(cfg) ==> forall i, j :: 0 <= i < j < |xs| ==> xs[i] < xs[j]
    ensures 0.0 <= cfg.bubbleGap ==>
              forall i, j :: 0 <= i < j < |xs| ==> xs[i] + cfg.bubbleSize <= xs[j]
  {
    assert forall i :: 0 <= i < |xs| - 1 ==> xs[i + 1] - xs[i] == Pitch(cfg) by {
      ProgressionStep(xs, first, Pitch(cfg));
    }
    assert 0 < |xs| ==> xs[|xs| - 1] + cfg.bubbleSize == first - cfg.numberWidth - LabelGap + GroupWidth(cfg) by {
      if 0 < |xs| {
        ProgressionEnd(xs, first, cfg.bubbleSize, cfg.bubbleGap);
      }
    }
    assert 0.0 < Pitch(cfg) ==> forall i, j :: 0 <= i < j < |xs| ==> xs[i] < xs[j] by {
      if 0.0 < Pitch(cfg) {
        ProgressionIncreasing(xs, first, Pitch(cfg));
      }
    }
    assert 0.0 <= cfg.bubbleGap ==> forall i, j :: 0 <= i < j < |xs| ==> xs[i] + cfg.bubbleSize <= xs[j] by {
      if 0.0 <= cfg.bubbleGap {
        ProgressionDisjoint(xs, first, cfg.bubbleSize, cfg.bubbleGap);
      }
    }
  }

  lemma ProgressionStep(xs: seq<real>, first: real, pitch: real)
    requires forall i :: 0 <= i < |xs| ==> xs[i] == first + i as real * pitch
    ensures forall i :: 0 <= i < |xs| - 1 ==> xs[i + 1] - xs[i] == pitch
  {
    forall i | 0 <= i < |xs| - 1
      ensures xs[i + 1] - xs[i] == pitch
    {
      assert (i + 1) as real * pitch == i as real * pitch + pitch;
    }
  }

  lemma ProgressionIncreasing(xs: seq<real>, first: real, pitch: real)
    requires 0.0 < pitch
    requires forall i :: 0 <= i < |xs| ==> xs[i] == first + i as real * pitch
    ensures forall i, j :: 0 <= i < j < |xs| ==> xs[i] < xs[j]
  {
    ProgressionSpacing(xs, first, pitch);
    forall i, j | 0 <= i < j < |xs|
      ensures xs[i] < xs[j]
    {
      assert 0.0 < (j - i) as real * pitch;
    }
  }

  /** When the group is no wider than its band, the number area and every
      bubble lie inside the band. */
  lemma GroupInsideColumn(cfg: Config, col: nat)
    requires 0.0 <= cfg.numberWidth && 0.0 <= cfg.bubbleGap
    requires GroupWidth(cfg) <= ColumnWidth(cfg)
    ensures ColumnLeft(cfg, col) <= ColumnStart(cfg, col).0
    ensures ColumnStart(cfg, col).0 + GroupWidth(cfg) <= ColumnLeft(cfg, col + 1)
    ensures forall x :: x in BubbleXPositions(cfg, col).1 ==>
              ColumnLeft(cfg, col) <= x && x + cfg.bubbleSize <= ColumnLeft(cfg, col + 1)
  {
    var start := ColumnStart(cfg, col).0;
    var xs := BubbleXPositions(cfg, col).1;
    forall x | x in xs
      ensures ColumnLeft(cfg, col) <= x && x + cfg.bubbleSize <= ColumnLeft(cfg, col + 1)
    {
      var i :| 0 <= i < |xs| && xs[i] == x;
      if i > 0 {
        assert xs[0] < xs[i];
      }
      if i < |xs| - 1 {
        assert xs[i] + cfg.bubbleSize <= xs[|xs| - 1];
      }
    }
  }

  /** Answer groups of different columns never overlap when each fits its band. */
  lemma ColumnsDisjoint(cfg: Config, c1: nat, c2: nat)
    requires 0.0 <= cfg.numberWidth && 0.0 <= cfg.bubbleGap
    requires 0.0 <= GroupWidth(cfg) <= ColumnWidth(cfg)
    requires c1 < c2
    ensures ColumnStart(cfg, c1).0 + GroupWidth(cfg) <= ColumnStart(cfg, c2).0
  {
    GroupInsideColumn(cfg, c1);
    GroupInsideColumn(cfg, c2);
    assert (c2 - c1 - 1) as real * ColumnWidth(cfg) >= 0.0;
    assert c2 as real * ColumnWidth(cfg)
      == (c1 + 1) as real * ColumnWidth(cfg) + (c2 - c1 - 1) as real * ColumnWidth(cfg);
  }

  /** The printer's own geometry: a 36 mm group centred in a 38 mm band,
      1 mm in from the band's left edge, bubbles 6 mm apart. */
  lemma A4Columns(col: nat)
    ensures GroupWidth(A4) == 36.0 && ColumnWidth(A4) == 38.0
    ensures ColumnStart(A4, col).0 == ColumnLeft(A4, col) + 1.0
    ensures BubbleXPositions(A4, 0).1 == [19.0, 25.0, 31.0, 37.0, 43.0]
  {
    var xs := BubbleXPositions(A4, 0).1;
    assert xs[0] == 19.0;
  }
}
