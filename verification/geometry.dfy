/**
 The fixed page geometry of an OMR answer sheet: page size, margin, number of
 answer columns, bubble size and spacing, and the derived widths and row height.
 Lengths are in millimetres and are exact reals.
 */
module Geometry {

  /** A positive count (the number of answer columns, a row capacity). */
  type Pos = n: int | n >= 1 witness 1

  /** A strictly positive length. */
  type PosReal = x: real | x > 0.0 witness 1.0

  /** Page geometry shared by every page of a document. */
  datatype Config = Config(
    pageWidth: real,
    pageHeight: real,
    margin: real,
    columns: Pos,
    bubbleSize: PosReal,
    bubbleGap: real,
    numberWidth: real,
    bubbleYOffset: real,
    optionCount: nat)

  /** The layout the printer uses: ISO 216 A4 (210 x 297 mm), 10 mm margin,
      five answer columns, 4 mm bubbles 2 mm apart, options A to E. */
  const A4: Config := Config(210.0, 297.0, 10.0, 5, 4.0, 2.0, 6.0, 2.0, 5)

  /** Vertical space added below a bubble to form one question row. */
  const RowPadding: real := 5.0

  function InnerWidth(cfg: Config): real {
    cfg.pageWidth - 2.0 * cfg.margin
  }

  /** Each answer column is an equal share of the inner width. */
  function ColumnWidth(cfg: Config): real {
    InnerWidth(cfg) / cfg.columns as real
  }

  /** Left edge of the band of column `col`. */
  function ColumnLeft(cfg: Config, col: nat): real {
    cfg.margin + col as real * ColumnWidth(cfg)
  }

  /** Height of one question row. */
  function RowHeight(cfg: Config): PosReal {
    cfg.bubbleSize + RowPadding
  }

  /** Bottom limit of the printable area. */
  function BottomLimit(cfg: Config): real {
    cfg.pageHeight - cfg.margin
  }
}
