/**
 Integer and real helpers shared by the layout modules: the Python built-ins
 `min`, `max`, `math.ceil(a / b)` and `int(x)` as the layout code uses them.
 */
module Arith {

  /** Python `min` on integers. */
  function Min(a: int, b: int): int {
    if a <= b then a else b
  }

  /** Python `max` on lengths. */
  function MaxR(a: real, b: real): real {
    if a >= b then a else b
  }

  /** `math.ceil(a / b)` for a nonnegative count and a positive divisor:
      the least multiplier `r` with `r * b >= a`. */
  function CeilDiv(a: nat, b: int): (r: nat)
    requires b >= 1
    ensures a <= r * b
    ensures (r - 1) * b < a
  {
    var t := a + b - 1;
    assert t == (t / b) * b + t % b;
    assert (t / b - 1) * b == (t / b) * b - b;
    t / b
  }

  /** Python `int(x)` on a real: truncation toward zero. */
  function Trunc(x: real): (r: int)
    ensures 0.0 <= x ==> r as real <= x < r as real + 1.0
    ensures x < 0.0 ==> r as real - 1.0 < x <= r as real
  {
    if x >= 0.0 then x.Floor else -((-x).Floor)
  }

  /** Multiplying by a positive integer preserves strict order, and so can be cancelled. */
  lemma MulCancelLess(x: int, y: int, b: int)
    requires b >= 1 && x * b < y * b
    ensures x < y
  {
    assert (y - x) * b == y * b - x * b;
  }

  /** Euclidean division has exactly one quotient/remainder pair. */
  lemma DivModUnique(a: int, b: int, q: int, r: int)
    requires b >= 1 && 0 <= r < b
    requires a == q * b + r
    ensures a / b == q && a % b == r
  {
    var q', r' := a / b, a % b;
    assert a == q' * b + r';
    assert q * b < (q' + 1) * b && q' * b < (q + 1) * b;
    MulCancelLess(q, q' + 1, b);
    MulCancelLess(q', q + 1, b);
  }

  /** The ceiling of a count that fits in `k` blocks of `b` is at most `k`. */
  lemma CeilDivAtMost(a: nat, b: int, k: int)
    requires b >= 1 && a <= k * b
    ensures CeilDiv(a, b) <= k
  {
    var r := CeilDiv(a, b);
    assert (r - 1) * b < k * b;
    MulCancelLess(r - 1, k, b);
  }

  /** Removing one full block of `b` lowers the ceiling by exactly one. */
  lemma CeilDivStep(a: nat, b: int)
    requires b >= 1 && a >= b
    ensures CeilDiv(a, b) == CeilDiv(a - b, b) + 1
  {
    var r, s := CeilDiv(a, b), CeilDiv(a - b, b);
    assert (s + 1) * b == s * b + b;
    assert (r - 1) * b == r * b - b;
    assert (r - 1) * b < (s + 1) * b;
    MulCancelLess(r - 1, s + 1, b);
    assert (s - 1) * b == s * b - b;
    assert s * b < (r + 1) * b;
    MulCancelLess(s, r, b);
  }

  /** Multiplying by a positive real preserves order. */
  lemma MulLessReal(a: real, b: real, h: real)
    requires a < b && 0.0 < h
    ensures a * h < b * h
  {
    assert 0.0 < (b - a) * h;
  }

  lemma MulLeReal(a: real, b: real, h: real)
    requires a <= b && 0.0 < h
    ensures a * h <= b * h
  {
    assert 0.0 <= (b - a) * h;
  }

  /** `(r + 1) as real` is `r as real + 1.0`, also under a product. */
  lemma CastSucc(r: int, h: real, avail: real)
    requires avail < (r as real + 1.0) * h
    ensures avail < (r + 1) as real * h
  {
  }

  /** A mixed-radix number (`page`, then `col` below `cols`, then `row`
      below `rows`) is `page` whole blocks of `rows * cols` plus a local
      index inside the block. */
  lemma MixedRadixSplit(rows: int, cols: int, page: int, col: int, row: int)
    requires 1 <= rows && 1 <= cols
    requires 0 <= col < cols && 0 <= row < rows
    ensures 0 <= col * rows + row < rows * cols
    ensures (page * cols + col) * rows + row == page * (rows * cols) + (col * rows + row)
  {
    assert col * rows <= (cols - 1) * rows;
    assert (cols - 1) * rows + rows == rows * cols;
    assert (page * cols + col) * rows == page * cols * rows + col * rows;
    assert page * cols * rows == page * (rows * cols);
  }

  /** The digits of a mixed-radix number are recovered by division and
      remainder. */
  lemma MixedRadix(k: int, rows: int, cols: int, page: int, col: int, row: int)
    requires 1 <= rows && 1 <= cols
    requires 0 <= col < cols && 0 <= row < rows
    requires k == (page * cols + col) * rows + row
    ensures k / (rows * cols) == page
    ensures (k % (rows * cols)) / rows == col && (k % (rows * cols)) % rows == row
  {
    MixedRadixSplit(rows, cols, page, col, row);
    DivModUnique(k, rows * cols, page, col * rows + row);
    DivModUnique(col * rows + row, rows, col, row);
  }

  /** One more block of `m`. */
  lemma MulSucc(a: int, m: int)
    ensures (a + 1) * m == a * m + m
  {
  }
}
