/** The slippy-map tile mapper `slippyToMandelbrot`. main.go and mandelbrot.go
    carry the same definition, so it is modelled once here. Tile (z, x, y)
    covers the square [xmin, xmax] x [ymin, ymax] of the plane
    [-2, 2] x [-2, 2], split into 2^z columns and 2^z rows; y grows in the
    same direction as x (no screen-orientation flip). */
module Tiles {

  /** The four values returned by slippyToMandelbrot, in Go's return order. */
  datatype Rect = Rect(xmin: real, ymin: real, xmax: real, ymax: real)

  /** The largest zoom level the HTTP handlers accept. */
  const MaxZoom: nat := 24

  /** `1 << z`, for a shift that does not overflow. */
  function Pow2(k: nat): (r: nat)
    ensures r >= 1
  {
    if k == 0 then 1 else 2 * Pow2(k - 1)
  }

  /** The plane coordinate of tile boundary k at zoom z: `float64(k)/float64(n)*4 - 2`. */
  function Edge(z: nat, k: int): real {
    k as real / Pow2(z) as real * 4.0 - 2.0
  }

  /** slippyToMandelbrot: every tile is a square of side 4/2^z, and a tile whose
      column and row are in range lies inside [-2, 2] x [-2, 2]. */
  function SlippyToMandelbrot(z: nat, x: int, y: int): (r: Rect)
    ensures r.xmax - r.xmin == 4.0 / Pow2(z) as real
    ensures r.ymax - r.ymin == 4.0 / Pow2(z) as real
    ensures 0 <= x < Pow2(z) ==> -2.0 <= r.xmin < r.xmax <= 2.0
    ensures 0 <= y < Pow2(z) ==> -2.0 <= r.ymin < r.ymax <= 2.0
  {
    Span(z, x);
    Span(z, y);
    Rect(Edge(z, x), Edge(z, y), Edge(z, x + 1), Edge(z, y + 1))
  }

  /** Consecutive boundaries are exactly 4/2^z apart. */
  lemma EdgeStep(z: nat, k: int)
    ensures Edge(z, k + 1) - Edge(z, k) == 4.0 / Pow2(z) as real
    ensures 4.0 / Pow2(z) as real > 0.0
  {
    var n := Pow2(z) as real;
    assert (k + 1) as real / n == k as real / n + 1.0 / n;
    assert ((k + 1) as real / n) * 4.0 == (k as real / n) * 4.0 + 4.0 / n;
  }

  /** The span [Edge(z, k), Edge(z, k + 1)] of one tile column (or row). */
  lemma Span(z: nat, k: int)
    ensures Edge(z, k + 1) - Edge(z, k) == 4.0 / Pow2(z) as real
    ensures 0 <= k < Pow2(z) ==> -2.0 <= Edge(z, k) < Edge(z, k + 1) <= 2.0
  {
    EdgeStep(z, k);
    if 0 <= k < Pow2(z) {
      EdgeBounds(z, k);
      EdgeBounds(z, k + 1);
    }
  }

  /** Boundaries increase with their index. */
  lemma EdgeMonotone(z: nat, j: int, k: int)
    requires j < k
    ensures Edge(z, j) < Edge(z, k)
  {
    var n := Pow2(z) as real;
    assert (k as real) / n - (j as real) / n == (k - j) as real / n;
  }

  /** Boundary 0 is -2, boundary 2^z is 2, and those in between lie between. */
  lemma EdgeBounds(z: nat, k: int)
    requires 0 <= k <= Pow2(z)
    ensures -2.0 <= Edge(z, k) <= 2.0
    ensures k == 0 ==> Edge(z, k) == -2.0
    ensures k == Pow2(z) ==> Edge(z, k) == 2.0
  {
    UnitFraction(k as real, Pow2(z) as real);
  }

  /** 0 <= a <= n places a / n in [0, 1], at 0 for a = 0 and at 1 for a = n. */
  lemma UnitFraction(a: real, n: real)
    requires 0.0 <= a <= n && n >= 1.0
    ensures 0.0 <= a / n <= 1.0
    ensures a == 0.0 ==> a / n == 0.0
    ensures a == n ==> a / n == 1.0
  {
    DivideMonotone(a, n, n);
  }

  /** Horizontally adjacent tiles share their common edge exactly, and so do
      vertically adjacent ones: no gap and no overlap between neighbours. */
  lemma AdjacentTilesShareEdges(z: nat, x: int, y: int)
    ensures SlippyToMandelbrot(z, x, y).xmax == SlippyToMandelbrot(z, x + 1, y).xmin
    ensures SlippyToMandelbrot(z, x, y).ymax == SlippyToMandelbrot(z, x, y + 1).ymin
  {
  }

  /** Pinned values of the mapping (y grows like x; no vertical flip). */
  lemma LiteralTiles()
    ensures SlippyToMandelbrot(0, 0, 0) == Rect(-2.0, -2.0, 2.0, 2.0)
    ensures SlippyToMandelbrot(1, 0, 0) == Rect(-2.0, -2.0, 0.0, 0.0)
    ensures SlippyToMandelbrot(1, 1, 1) == Rect(0.0, 0.0, 2.0, 2.0)
    ensures SlippyToMandelbrot(2, 1, 1) == Rect(-1.0, -1.0, 0.0, 0.0)
  {
    assert Pow2(1) == 2;
    assert Pow2(2) == 4;
  }

  /** The column (or row) of zoom z whose span holds p: every point of
      [-2, 2) lies in some in-range tile. */
  function ColumnOf(z: nat, p: real): (k: int)
    requires -2.0 <= p < 2.0
    ensures 0 <= k < Pow2(z)
    ensures Edge(z, k) <= p < Edge(z, k + 1)
  {
    var u := (p + 2.0) / 4.0;
    var t := u * Pow2(z) as real;
    ColumnOfBounds(z, p, u, t, t.Floor);
    t.Floor
  }

  lemma ColumnOfBounds(z: nat, p: real, u: real, t: real, k: int)
    requires -2.0 <= p < 2.0
    requires u == (p + 2.0) / 4.0
    requires t == u * Pow2(z) as real
    requires k as real <= t < k as real + 1.0
    ensures 0 <= k < Pow2(z)
    ensures Edge(z, k) <= p < Edge(z, k + 1)
  {
    ScaledFloor(Pow2(z) as real, u, k);
  }

  /** k = floor(u * n) places u in [k/n, (k+1)/n). */
  lemma ScaledFloor(n: real, u: real, k: int)
    requires n >= 1.0 && 0.0 <= u < 1.0
    requires k as real <= u * n < k as real + 1.0
    ensures 0 <= k && k as real < n
    ensures k as real / n <= u < (k + 1) as real / n
  {
    var t := u * n;
    ScaleBelow(u, n);
    assert t / n == u;
    DivideMonotone(k as real, t, n);
    DivideStrict(t, (k + 1) as real, n);
  }

  lemma ScaleBelow(u: real, n: real)
    requires 0.0 <= u < 1.0 && n > 0.0
    ensures 0.0 <= u * n < n
  {
  }

  lemma DivideMonotone(a: real, b: real, n: real)
    requires a <= b && n > 0.0
    ensures a / n <= b / n
  {
  }

  lemma DivideStrict(a: real, b: real, n: real)
    requires a < b && n > 0.0
    ensures a / n < b / n
  {
  }

  /** Distinct columns do not overlap: the column holding p is unique. */
  lemma ColumnsDisjoint(z: nat, j: int, k: int, p: real)
    requires Edge(z, j) <= p < Edge(z, j + 1)
    requires Edge(z, k) <= p < Edge(z, k + 1)
    ensures j == k
  {
    if j < k {
      if j + 1 < k {
        EdgeMonotone(z, j + 1, k);
      }
    } else if k < j {
      if k + 1 < j {
        EdgeMonotone(z, k + 1, j);
      }
    }
  }

  /** Every point of [-2, 2) x [-2, 2) lies in exactly one in-range tile of
      each zoom level: the tiles of one zoom cover the plane without overlap. */
  lemma TilesPartitionPlane(z: nat, p: real, q: real, x: int, y: int)
    requires -2.0 <= p < 2.0 && -2.0 <= q < 2.0
    ensures var r := SlippyToMandelbrot(z, ColumnOf(z, p), ColumnOf(z, q));
      r.xmin <= p < r.xmax && r.ymin <= q < r.ymax
    ensures var r := SlippyToMandelbrot(z, x, y);
      r.xmin <= p < r.xmax && r.ymin <= q < r.ymax ==> x == ColumnOf(z, p) && y == ColumnOf(z, q)
  {
    var r := SlippyToMandelbrot(z, x, y);
    if r.xmin <= p < r.xmax && r.ymin <= q < r.ymax {
      ColumnsDisjoint(z, x, ColumnOf(z, p), p);
      ColumnsDisjoint(z, y, ColumnOf(z, q), q);
    }
  }

  /** Boundary 2k at zoom z + 1 is boundary k at zoom z. */
  lemma EdgeAtNextZoom(z: nat, k: int)
    ensures Edge(z + 1, 2 * k) == Edge(z, k)
  {
    var n := Pow2(z) as real;
    assert Pow2(z + 1) as real == 2.0 * n;
    assert (2 * k) as real / (2.0 * n) == k as real / n;
  }

  /** The four tiles (2x + i, 2y + j), i, j in {0, 1}, of zoom z + 1 split tile
      (z, x, y) into quarters at its midpoint. */
  lemma ChildTiles(z: nat, x: int, y: int)
    ensures var r := SlippyToMandelbrot(z, x, y);
      var mx, my := (r.xmin + r.xmax) / 2.0, (r.ymin + r.ymax) / 2.0;
      && SlippyToMandelbrot(z + 1, 2 * x, 2 * y) == Rect(r.xmin, r.ymin, mx, my)
      && SlippyToMandelbrot(z + 1, 2 * x + 1, 2 * y) == Rect(mx, r.ymin, r.xmax, my)
      && SlippyToMandelbrot(z + 1, 2 * x, 2 * y + 1) == Rect(r.xmin, my, mx, r.ymax)
      && SlippyToMandelbrot(z + 1, 2 * x + 1, 2 * y + 1) == Rect(mx, my, r.xmax, r.ymax)
  {
    EdgeAtNextZoom(z, x);
    EdgeAtNextZoom(z, x + 1);
    EdgeAtNextZoom(z, y);
    EdgeAtNextZoom(z, y + 1);
    EdgeStep(z + 1, 2 * x);
    EdgeStep(z + 1, 2 * x + 1);
    EdgeStep(z + 1, 2 * y);
    EdgeStep(z + 1, 2 * y + 1);
  }
}
