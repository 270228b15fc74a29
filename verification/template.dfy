/**
 Sizing of the static page template: the title ribbon, the roll-number grid
 and the information/instructions block, and the y-coordinate where the
 question grid may begin. Only vertical extents are modelled: every
 rectangle, circle and cell of the ribbon, roll grid and information block is
 recorded as the span of y it covers; text labels and the page border are
 not.
 */
module Template {
  import opened Arith
  import opened Geometry

  /** The vertical extent of one drawn rectangle, ellipse or text cell. */
  datatype Span = Span(top: real, bottom: real)

  /** What a template block reports back: its height, and the spans of the
      shapes it drew. */
  datatype Block = Block(height: real, shapes: seq<Span>)

  // Title ribbon and spacing around the header.
  const RibbonH: real := 16.0
  const RibbonLift: real := 4.0        // the ribbon starts this far above the margin
  const TitleLift: real := 2.0         // the title cell starts this far above the margin
  const TitleCellH: real := 7.0
  const SubtitleCellH: real := 6.0
  const BlockTopGap: real := 6.0       // ribbon to roll grid / info block
  const HeaderBottomGap: real := 6.0   // added to the taller block's height
  const QuestionGap: real := 4.0       // header to the question area

  // Roll-number grid.
  const RollDigits: nat := 7
  const DigitRows: nat := 10           // digits 1..9 then 0
  const RollLabelH: real := 5.0
  const BoxH: real := 8.0
  const TopGap: real := 2.0
  const CircleD: real := 4.2
  const RowStep: real := 6.0
  const Padding: real := 3.0

  // Information block.
  const InfoLabels: nat := 3           // name, date, centre code
  const InfoH: real := 8.0
  const InfoRowGap: real := 2.0
  const SignatureExtra: real := 8.0    // the signature box is InfoH + 8 high
  const SignatureGap: real := 10.0     // next box starts InfoH + 10 below the signature box
  const InstrH: real := 24.0

  // Right-hand column width.
  const InfoGap: real := 8.0
  const MinRightW: real := 40.0

  /** Roll-number grid drawn with its "ROLL NO." label at `y`: one box per
      digit, a 10-row column of circles per digit, and an outline that starts
      `Padding` above `y`. The outline is the block: every shape lies inside
      it and the reported height is exactly the outline's height. */
  function RollGrid(y: real): (b: Block)
    ensures b.height == 81.0
    ensures forall s :: s in b.shapes ==> y - Padding <= s.top <= s.bottom <= y - Padding + b.height
    ensures Span(y - Padding, y - Padding + b.height) in b.shapes
  {
    var boxesY := y + RollLabelH;
    var gridTop := boxesY + BoxH + TopGap;
    var gridHeight := DigitRows as real * RowStep;
    var boxes := seq(RollDigits, _ => Span(boxesY, boxesY + BoxH));
    var circles := seq(DigitRows * RollDigits,
                       k => Span(gridTop + (k / RollDigits) as real * RowStep,
                                 gridTop + (k / RollDigits) as real * RowStep + CircleD));
    var blockH := RollLabelH + BoxH + TopGap + gridHeight + 2.0 * Padding;
    var outline := Span(y - Padding, y - Padding + blockH);
    assert forall s :: s in circles ==> y - Padding <= s.top <= s.bottom <= y - Padding + blockH by {
      forall s | s in circles
        ensures y - Padding <= s.top <= s.bottom <= y - Padding + blockH
      {
        var k :| 0 <= k < |circles| && circles[k] == s;
        assert k / RollDigits <= 9;
      }
    }
    Block(blockH, boxes + circles + [outline])
  }

  /** Information block drawn at `y`: three labelled boxes, the signature
      box and the instructions box, stacked without overlap. The reported
      height ends exactly at the bottom of the instructions box. */
  function InfoBoxes(y: real): (b: Block)
    ensures b.height == 72.0
    ensures forall s :: s in b.shapes ==> y <= s.top <= s.bottom <= y + b.height
    ensures 0 < |b.shapes| && b.shapes[|b.shapes| - 1].bottom == y + b.height
    ensures forall i, j :: 0 <= i < j < |b.shapes| ==> b.shapes[i].bottom <= b.shapes[j].top
  {
    var labels := seq(InfoLabels, i => Span(y + i as real * (InfoH + InfoRowGap),
                                           y + i as real * (InfoH + InfoRowGap) + InfoH));
    var yy := y + InfoLabels as real * (InfoH + InfoRowGap);
    var signature := Span(yy, yy + InfoH + SignatureExtra);
    var yy2 := yy + InfoH + SignatureGap;
    var instructions := Span(yy2, yy2 + InstrH);
    var totalH := InfoLabels as real * (InfoH + InfoRowGap) + (InfoH + SignatureGap) + InstrH;
    var shapes := labels + [signature, instructions];
    assert shapes[0] == Span(y, y + 8.0);
    assert shapes[1] == Span(y + 10.0, y + 18.0);
    assert shapes[2] == Span(y + 20.0, y + 28.0);
    assert shapes[3] == Span(y + 30.0, y + 46.0);
    assert shapes[4] == Span(y + 48.0, y + 72.0);
    Block(totalH, shapes)
  }

  /** Title ribbon and its two text cells (institute name, sheet title). */
  function RibbonShapes(cfg: Config): (r: seq<Span>)
    ensures forall s :: s in r ==> cfg.margin - RibbonLift <= s.top <= s.bottom <= cfg.margin - RibbonLift + RibbonH
  {
    var titleY := cfg.margin - TitleLift;
    [Span(cfg.margin - RibbonLift, cfg.margin - RibbonLift + RibbonH),
     Span(titleY, titleY + TitleCellH),
     Span(titleY + TitleCellH, titleY + TitleCellH + SubtitleCellH)]
  }

  /** What the ribbon and the information block actually draw: the ribbon
      band `RibbonH` high from `RibbonLift` above the margin with its two
      title cells, and five boxes (three labels, signature, instructions)
      of which the first starts at the block's `y`. */
  lemma HeaderBlocksDrawn(cfg: Config, y: real)
    ensures |RibbonShapes(cfg)| == 3
    ensures Span(cfg.margin - RibbonLift, cfg.margin - RibbonLift + RibbonH) in RibbonShapes(cfg)
    ensures |InfoBoxes(y).shapes| == 5 && InfoBoxes(y).shapes[0].top == y
  {
    assert RibbonShapes(cfg)[0] == Span(cfg.margin - RibbonLift, cfg.margin - RibbonLift + RibbonH);
  }

  /** Top of the roll grid and of the information block. */
  function BlocksTop(cfg: Config): real {
    cfg.margin + RibbonH + BlockTopGap
  }

  /** Every shape the header draws: ribbon, roll grid, information block. */
  function HeaderShapes(cfg: Config): seq<Span> {
    RibbonShapes(cfg) + RollGrid(BlocksTop(cfg)).shapes + InfoBoxes(BlocksTop(cfg)).shapes
  }

  /** Width of the information block to the right of a roll grid of width
      `gridW`: whatever is left of the inner width after the grid and an
      8 mm gap, but never less than 40 mm. When the floor applies the block
      overruns the right margin; otherwise it ends exactly on it. */
  function RightColumnWidth(cfg: Config, gridW: real): (r: real)
    ensures MinRightW <= r
    ensures InnerWidth(cfg) - (gridW + InfoGap) <= r
    ensures r == MinRightW || cfg.margin + gridW + InfoGap + r == cfg.margin + InnerWidth(cfg)
    ensures MinRightW <= InnerWidth(cfg) - (gridW + InfoGap) ==>
              cfg.margin + gridW + InfoGap + r == cfg.margin + InnerWidth(cfg)
  {
    var rightW := InnerWidth(cfg) - (gridW + InfoGap);
    if rightW < MinRightW then MaxR(MinRightW, InnerWidth(cfg) - gridW - InfoGap) else rightW
  }

  /** Where the question grid starts: below the taller of the roll grid and
      the information block, plus fixed spacing. It depends on the margin
      only, so it is the same on every page, and every header shape ends at
      least `QuestionGap` above it. */
  function QuestionStartY(cfg: Config): (r: real)
    ensures r == cfg.margin + 107.0
    ensures forall s :: s in HeaderShapes(cfg) ==> s.bottom + QuestionGap <= r
    ensures var rest := r - (cfg.margin + RibbonH + HeaderBottomGap + QuestionGap);
            && RollGrid(BlocksTop(cfg)).height <= rest
            && InfoBoxes(BlocksTop(cfg)).height <= rest
            && (rest == RollGrid(BlocksTop(cfg)).height || rest == InfoBoxes(BlocksTop(cfg)).height)
  {
    var topY := BlocksTop(cfg);
    var gridH := RollGrid(topY).height;
    var infoH := InfoBoxes(topY).height;
    var headerH := MaxR(gridH, infoH) + HeaderBottomGap;
    var yQuestionsStart := cfg.margin + RibbonH + headerH;
    yQuestionsStart + QuestionGap
  }

  /** The real clearance below the header: every header shape ends at least
      7 mm above the question area, and the roll-number outline exactly 7 mm
      above it. */
  lemma HeaderClearance(cfg: Config)
    ensures forall s :: s in HeaderShapes(cfg) ==> s.bottom + 7.0 <= QuestionStartY(cfg)
    ensures var t := BlocksTop(cfg);
            && Span(t - Padding, t - Padding + RollGrid(t).height) in HeaderShapes(cfg)
            && t - Padding + RollGrid(t).height + 7.0 == QuestionStartY(cfg)
  {
    var top := BlocksTop(cfg);
    assert Span(top - Padding, top - Padding + RollGrid(top).height) in HeaderShapes(cfg);
  }

  /** The roll grid and the information block both start below the ribbon. */
  lemma BlocksBelowRibbon(cfg: Config)
    ensures forall s, t :: s in RibbonShapes(cfg) && t in RollGrid(BlocksTop(cfg)).shapes ==> s.bottom <= t.top
    ensures forall s, t :: s in RibbonShapes(cfg) && t in InfoBoxes(BlocksTop(cfg)).shapes ==> s.bottom <= t.top
  {
  }

  /** With the printer's 10 mm margin the question area starts at y = 117. */
  lemma A4StartY()
    ensures QuestionStartY(A4) == 117.0
  {
  }
}
