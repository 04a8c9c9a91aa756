/** Arithmetic facts that the solver needs spelled out (multiplication is non-linear). */
module Arith {

  lemma MulMonotone(a: int, b: int, d: int)
    requires a <= b && d >= 0
    ensures a * d <= b * d
  {
    var k := b - a;
    assert b * d == a * d + k * d;
  }

  lemma MulPositive(k: int, d: int)
    requires k >= 1 && d >= 1
    ensures k * d >= d
  {
    MulMonotone(1, k, d);
  }

  /** Decomposition of an integer by a positive divisor is unique. */
  lemma DivModUnique(q: int, r: int, d: int)
    requires d > 0 && 0 <= r < d
    ensures (q * d + r) / d == q && (q * d + r) % d == r
  {
    var n := q * d + r;
    var q', r' := n / d, n % d;
    assert n == q' * d + r';
    assert (q - q') * d == r' - r;
    if q' < q {
      MulPositive(q - q', d);
      assert false;
    } else if q' > q {
      MulPositive(q' - q, d);
      assert false;
    }
  }

  lemma RealMulMonotone(a: real, b: real, w: real)
    requires a <= b && w >= 0.0
    ensures a * w <= b * w
  {
    assert b * w - a * w == (b - a) * w;
  }

  lemma RealMulStrict(a: real, b: real, w: real)
    requires a < b && w > 0.0
    ensures a * w < b * w
  {
    assert b * w - a * w == (b - a) * w;
  }

  /** Floor division of reals by a positive divisor: the quotient brackets the dividend. */
  lemma FloorDivBounds(x: real, w: real)
    requires w > 0.0
    ensures (x / w).Floor as real * w <= x < ((x / w).Floor + 1) as real * w
  {
    var q := x / w;
    var f := q.Floor;
    assert q * w == x;
    assert f as real <= q < (f + 1) as real;
    RealMulMonotone(f as real, q, w);
    RealMulStrict(q, (f + 1) as real, w);
    assert f as real * w <= x;
    assert x < (f + 1) as real * w;
  }

  /** The floor of a real lying in [n, n + 1) is n. */
  lemma FloorBetween(r: real, n: int)
    requires n as real <= r < n as real + 1.0
    ensures r.Floor == n
  {
  }

  lemma RealMulDiv(a: real, w: real)
    requires w != 0.0
    ensures (a * w) / w == a
  {
  }

  /** Moving `rr - top` rows and `dc` columns from the cell at (row, col) of a grid of width gs. */
  lemma ShiftRowsCols(base: int, row: int, col: int, top: int, rr: int, dc: int, gs: int)
    ensures base + row * gs + col - top * gs + rr * gs + dc == base + (row - top + rr) * gs + (col + dc)
  {
    assert (row - top + rr) * gs == row * gs - top * gs + rr * gs;
  }

  /** Index of row si, column ti in a grid numT wide, counted row by row. */
  function Cell(si: nat, ti: int, numT: int): int
  {
    if si == 0 then ti else numT + Cell(si - 1, ti, numT)
  }

  /** The row-major index is the product form si * numT + ti. */
  lemma {:induction false} CellIsProduct(si: nat, ti: int, numT: int)
    ensures Cell(si, ti, numT) == si * numT + ti
  {
    if si > 0 {
      CellIsProduct(si - 1, ti, numT);
    }
  }

  /** The cell of row si, column ti lies inside a numS by numT grid. */
  lemma CellInRange(si: nat, ti: int, numS: nat, numT: int)
    requires si < numS && 0 <= ti < numT
    ensures 0 <= Cell(si, ti, numT) < Cell(numS, 0, numT)
  {
    CellIsProduct(si, ti, numT);
    CellIsProduct(numS, 0, numT);
    MulMonotone(0, si, numT);
    MulMonotone(si + 1, numS, numT);
  }

  /** Distinct cells have distinct indices. */
  lemma CellInjective(a: nat, b: int, c: nat, d: int, numT: int)
    requires 0 <= b < numT && 0 <= d < numT && Cell(a, b, numT) == Cell(c, d, numT)
    ensures a == c && b == d
  {
    CellIsProduct(a, b, numT);
    CellIsProduct(c, d, numT);
    if a < c {
      MulMonotone(a + 1, c, numT);
    } else if c < a {
      MulMonotone(c + 1, a, numT);
    }
  }
}
