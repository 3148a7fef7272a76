/** The renderer of main.go: sample the rectangle on a 256 x 256 grid
    (linspace, complexMatrix), keep the samples whose 20-step orbit stays in
    the disc of radius 2 (isStable, getMembers), and plot each kept sample as
    one pixel of colour (255, 0, 128, 255) on a zeroed image (processInput).
    Values are exact reals; see README for what float64 would change. */
module ScatterRenderer {
  import opened Orbits
  import opened Tiles
  import opened Raster

  /** The grid density and iteration budget processInput passes on. */
  const PixelDensity: nat := 256
  const NumIterations: nat := 20

  /** color.RGBA{R: 255, B: 128, A: 255}, the colour of every plotted sample. */
  const MemberColour := Rgba(255, 0, 128, 255)

  // ---------------------------------------------------------------------
  // linspace

  /** Element i of linspace(start, end, num): start + i * step with
      step = (end - start) / num. */
  function LinspaceAt(start: real, end: real, num: nat, i: int): real
    requires num > 0
  {
    start + i as real * ((end - start) / num as real)
  }

  /** The element formula written with a single division. */
  lemma LinspaceClosedForm(start: real, end: real, num: nat, i: int)
    requires num > 0
    ensures LinspaceAt(start, end, num, i) == start + i as real * (end - start) / num as real
  {
  }

  /** For start < end the points strictly increase, start at start and stay
      below end: the end point is excluded. */
  lemma LinspaceOrdered(start: real, end: real, num: nat, i: int, j: int)
    requires num > 0 && start < end
    requires 0 <= i < j
    ensures LinspaceAt(start, end, num, 0) == start
    ensures start <= LinspaceAt(start, end, num, i) < LinspaceAt(start, end, num, j)
    ensures j < num ==> LinspaceAt(start, end, num, j) < end
  {
    var step := (end - start) / num as real;
    assert step > 0.0;
    MulNonNegative(i as real, step);
    MulMonotone(i as real, j as real, step);
    if j < num {
      MulMonotone(j as real, num as real, step);
      assert num as real * step == end - start;
    }
  }

  lemma MulNonNegative(a: real, b: real)
    requires a >= 0.0 && b > 0.0
    ensures a * b >= 0.0
  {
  }

  lemma MulMonotone(a: real, b: real, s: real)
    requires a < b && s > 0.0
    ensures a * s < b * s
  {
    assert b * s - a * s == (b - a) * s;
  }

  /** linspace: num points, point i at LinspaceAt(start, end, num, i); for
      start < end strictly increasing, from start and below end. */
  method Linspace(start: real, end: real, num: nat) returns (result: seq<real>)
    ensures |result| == num
    ensures forall i :: 0 <= i < num ==> result[i] == LinspaceAt(start, end, num, i)
    ensures start < end ==> forall i, j :: 0 <= i < j < num ==> result[i] < result[j]
    ensures start < end ==> forall i :: 0 <= i < num ==> start <= result[i] < end
  {
    // For num == 0 Go divides by zero here; the step is then never read.
    var step := if num > 0 then (end - start) / num as real else 0.0;
    var a := new real[num];
    for i := 0 to num
      invariant forall k :: 0 <= k < i ==> a[k] == LinspaceAt(start, end, num, k)
    {
      a[i] := start + i as real * step;
    }
    result := a[..];
    if start < end {
      forall i, j | 0 <= i < j < num
        ensures result[i] < result[j]
      {
        LinspaceOrdered(start, end, num, i, j);
      }
      forall i | 0 <= i < num
        ensures start <= result[i] < end
      {
        LinspaceOrdered(start, end, num, i, i + 1);
      }
    }
  }

  // ---------------------------------------------------------------------
  // complexMatrix

  /** The sample grid of complexMatrix: n rows of n entries, entry [i][j]
      taking its real part from column j and its imaginary part from row i. */
  function Grid(xmin: real, xmax: real, ymin: real, ymax: real, n: nat): (g: seq<seq<Complex>>)
    ensures |g| == n
    ensures forall i :: 0 <= i < n ==> |g[i]| == n
    ensures forall i, j :: 0 <= i < n && 0 <= j < n ==>
      g[i][j] == Complex(LinspaceAt(xmin, xmax, n, j), LinspaceAt(ymin, ymax, n, i))
  {
    seq(n, i requires 0 <= i < n =>
      seq(n, j requires 0 <= j < n =>
        Complex(LinspaceAt(xmin, xmax, n, j), LinspaceAt(ymin, ymax, n, i))))
  }

  /** complexMatrix: builds the pixelDensity x pixelDensity grid row by row. */
  method ComplexMatrix(xmin: real, xmax: real, ymin: real, ymax: real, pixelDensity: nat)
    returns (matrix: seq<seq<Complex>>)
    ensures matrix == Grid(xmin, xmax, ymin, ymax, pixelDensity)
  {
    var n := pixelDensity;
    var re := Linspace(xmin, xmax, n);
    var im := Linspace(ymin, ymax, n);
    var rows := new seq<Complex>[n];
    for i := 0 to n
      invariant forall k :: 0 <= k < i ==> rows[k] == Grid(xmin, xmax, ymin, ymax, n)[k]
    {
      var row := new Complex[n];
      for j := 0 to n
        modifies row
        invariant forall l :: 0 <= l < j ==> row[l] == Complex(re[l], im[i])
      {
        row[j] := Complex(re[j], im[i]);
      }
      assert row[..] == Grid(xmin, xmax, ymin, ymax, n)[i];
      rows[i] := row[..];
    }
    matrix := rows[..];
  }

  // ---------------------------------------------------------------------
  // isStable (the bool-returning variant)

  /** `cmplx.Abs(z) <= 2` after numIterations steps, i.e. |z_n|^2 <= 4. */
  predicate Stable(c: Complex, numIterations: nat) {
    NormSq(Orbit(c, numIterations)) <= 4.0
  }

  /** isStable: runs the orbit loop and reports whether z_n lies in the
      closed disc of radius 2. */
  method IsStable(c: Complex, numIterations: nat) returns (stable: bool)
    ensures stable == Stable(c, numIterations)
  {
    var z := Zero;
    for i := 0 to numIterations
      invariant z == Orbit(c, i)
    {
      z := Add(Mul(z, z), c);
    }
    stable := NormSq(z) <= 4.0;
  }

  /** The origin is stable for every iteration budget. */
  lemma OriginIsStable(numIterations: nat)
    ensures Stable(Zero, numIterations)
  {
    OrbitOfZero(numIterations);
    NormSqOfZero();
  }

  /** Stability is symmetric about the real axis. */
  lemma StableUnderConj(c: Complex, numIterations: nat)
    ensures Stable(Conj(c), numIterations) == Stable(c, numIterations)
  {
    OrbitOfConj(c, numIterations);
    NormSqOfConj(Orbit(c, numIterations));
  }

  // ---------------------------------------------------------------------
  // getMembers

  /** The entries of a matrix in row-major order. */
  function Flatten(c: seq<seq<Complex>>): seq<Complex> {
    if c == [] then [] else Flatten(c[..|c| - 1]) + c[|c| - 1]
  }

  /** The stable entries of s, in the order they occur in s. */
  function StableMembers(s: seq<Complex>, numIterations: nat): seq<Complex> {
    if s == [] then []
    else
      var v := s[|s| - 1];
      StableMembers(s[..|s| - 1], numIterations) + if Stable(v, numIterations) then [v] else []
  }

  /** Filtering a concatenation filters each part: the members of an earlier
      row all come before those of a later row. */
  lemma {:induction false} StableMembersAppend(a: seq<Complex>, b: seq<Complex>, numIterations: nat)
    ensures StableMembers(a + b, numIterations) == StableMembers(a, numIterations) + StableMembers(b, numIterations)
    decreases |b|
  {
    if b == [] {
      assert a + b == a;
    } else {
      var b' := b[..|b| - 1];
      assert (a + b)[..|a + b| - 1] == a + b';
      StableMembersAppend(a, b', numIterations);
    }
  }

  /** A value is a member exactly when it occurs in s and is stable. */
  lemma {:induction false} StableMembersExact(s: seq<Complex>, numIterations: nat, v: Complex)
    ensures v in StableMembers(s, numIterations) <==> v in s && Stable(v, numIterations)
    decreases |s|
  {
    if s != [] {
      var s' := s[..|s| - 1];
      StableMembersExact(s', numIterations, v);
      assert s == s' + [s[|s| - 1]];
    }
  }

  /** There are never more members than entries. */
  lemma {:induction false} StableMembersLength(s: seq<Complex>, numIterations: nat)
    ensures |StableMembers(s, numIterations)| <= |s|
    decreases |s|
  {
    if s != [] {
      StableMembersLength(s[..|s| - 1], numIterations);
    }
  }

  /** The members form a subsequence of s: member k is entry idx[k] of s,
      with idx strictly increasing. */
  lemma {:induction false} StableMembersInOrder(s: seq<Complex>, numIterations: nat) returns (idx: seq<int>)
    ensures |idx| == |StableMembers(s, numIterations)|
    ensures forall k :: 0 <= k < |idx| ==> 0 <= idx[k] < |s| && StableMembers(s, numIterations)[k] == s[idx[k]]
    ensures forall k, l :: 0 <= k < l < |idx| ==> idx[k] < idx[l]
    decreases |s|
  {
    if s == [] {
      idx := [];
    } else {
      var s' := s[..|s| - 1];
      var v := s[|s| - 1];
      var ms, ms' := StableMembers(s, numIterations), StableMembers(s', numIterations);
      var prev := StableMembersInOrder(s', numIterations);
      assert forall k :: 0 <= k < |prev| ==> ms[k] == ms'[k] && s[prev[k]] == s'[prev[k]];
      if Stable(v, numIterations) {
        assert ms == ms' + [v];
        idx := prev + [|s| - 1];
      } else {
        assert ms == ms';
        idx := prev;
      }
    }
  }

  /** getMembers: the stable entries of c, in row-major order. */
  method GetMembers(c: seq<seq<Complex>>, numIterations: nat) returns (members: seq<Complex>)
    ensures members == StableMembers(Flatten(c), numIterations)
  {
    members := [];
    for i := 0 to |c|
      invariant members == StableMembers(Flatten(c[..i]), numIterations)
    {
      var row := c[i];
      assert Flatten(c[..i]) + row[..0] == Flatten(c[..i]);
      for j := 0 to |row|
        invariant members == StableMembers(Flatten(c[..i]) + row[..j], numIterations)
      {
        var val := row[j];
        var stable := IsStable(val, numIterations);
        assert Flatten(c[..i]) + row[..j + 1] == (Flatten(c[..i]) + row[..j]) + [val];
        StableMembersAppend(Flatten(c[..i]) + row[..j], [val], numIterations);
        if stable {
          members := members + [val];
        }
      }
      assert c[..i + 1][..i] == c[..i];
      assert row[..|row|] == row;
    }
    assert c[..|c|] == c;
  }

  /** A square n x n matrix flattens to n * n entries, so getMembers on the
      grid returns at most n * n values. */
  lemma {:induction false} FlattenSquare(c: seq<seq<Complex>>, n: nat)
    requires forall i :: 0 <= i < |c| ==> |c[i]| == n
    ensures |Flatten(c)| == |c| * n
    decreases |c|
  {
    if c != [] {
      var prefix := c[..|c| - 1];
      FlattenSquare(prefix, n);
      assert |Flatten(c)| == |Flatten(prefix)| + n;
      assert (|c| - 1) * n + n == |c| * n;
    }
  }

  /** getMembers on the n x n sample grid keeps at most n * n members; for
      processInput that is at most 256 * 256. */
  lemma MemberCountBound(xmin: real, xmax: real, ymin: real, ymax: real, n: nat, numIterations: nat)
    ensures |StableMembers(Flatten(Grid(xmin, xmax, ymin, ymax, n)), numIterations)| <= n * n
  {
    var g := Grid(xmin, xmax, ymin, ymax, n);
    FlattenSquare(g, n);
    StableMembersLength(Flatten(g), numIterations);
  }

  // ---------------------------------------------------------------------
  // processInput

  /** Go's `int(f)` for a float f: drops the fraction, rounding toward zero. */
  function Trunc(f: real): (k: int)
    ensures f >= 0.0 ==> k as real <= f < k as real + 1.0
    ensures f < 0.0 ==> k as real - 1.0 < f <= k as real
  {
    if f >= 0.0 then f.Floor else -((-f).Floor)
  }

  /** The pixel coordinate processInput gives coordinate v when the span
      lo..hi is spread over size pixels. */
  function PixelOf(v: real, lo: real, hi: real, size: nat): int
    requires hi != lo
  {
    Trunc((v - lo) / (hi - lo) * size as real)
  }

  /** v is plotted at pixel (x, y) of a width x height image of rectangle r. */
  predicate Lands(v: Complex, r: Rect, width: nat, height: nat, x: int, y: int)
    requires r.xmax != r.xmin && r.ymax != r.ymin
  {
    PixelOf(v.re, r.xmin, r.xmax, width) == x && PixelOf(v.im, r.ymin, r.ymax, height) == y
  }

  /** Some value of ms is plotted at pixel (x, y). */
  predicate Painted(ms: seq<Complex>, r: Rect, width: nat, height: nat, x: int, y: int)
    requires r.xmax != r.xmin && r.ymax != r.ymin
  {
    ms != [] && (Lands(ms[|ms| - 1], r, width, height, x, y) || Painted(ms[..|ms| - 1], r, width, height, x, y))
  }

  /** The members processInput plots for rectangle r. */
  function Members(r: Rect): seq<Complex> {
    StableMembers(Flatten(Grid(r.xmin, r.xmax, r.ymin, r.ymax, PixelDensity)), NumIterations)
  }

  /** processInput (up to the PNG encoding): a width x height image in which
      exactly the pixels hit by some member have colour (255, 0, 128, 255)
      and every other pixel keeps the zero colour. */
  method ProcessInput(xmin: real, ymin: real, xmax: real, ymax: real, width: nat, height: nat)
    returns (img: array2<Rgba>)
    requires xmax != xmin && ymax != ymin
    ensures fresh(img)
    ensures img.Length0 == height && img.Length1 == width
    ensures forall y, x :: 0 <= y < height && 0 <= x < width ==>
      img[y, x] == if Painted(Members(Rect(xmin, ymin, xmax, ymax)), Rect(xmin, ymin, xmax, ymax), width, height, x, y)
                   then MemberColour else Transparent
  {
    var r := Rect(xmin, ymin, xmax, ymax);
    var c := ComplexMatrix(xmin, xmax, ymin, ymax, PixelDensity);
    var members := GetMembers(c, NumIterations);
    img := NewRgba(width, height);
    for k := 0 to |members|
      invariant forall y, x :: 0 <= y < height && 0 <= x < width ==>
        img[y, x] == if Painted(members[..k], r, width, height, x, y) then MemberColour else Transparent
    {
      var member := members[k];
      // px := int((real(member) - xmin) / (xmax - xmin) * float64(width)), likewise py
      var px := PixelOf(member.re, xmin, xmax, width);
      var py := PixelOf(member.im, ymin, ymax, height);
      if px >= 0 && px < width && py >= 0 && py < height {
        img[py, px] := MemberColour;
      }
      forall y, x | 0 <= y < height && 0 <= x < width
        ensures Painted(members[..k + 1], r, width, height, x, y)
            == ((px == x && py == y) || Painted(members[..k], r, width, height, x, y))
      {
        assert members[..k + 1][..k] == members[..k];
      }
    }
    assert members[..|members|] == members;
  }

  /** floor(a / n) over the reals is Go's integer division a / n. */
  lemma FloorOfQuotient(a: nat, n: nat)
    requires n > 0
    ensures (a as real / n as real).Floor == a / n
  {
    var q, m := a / n, a % n;
    assert a == q * n + m;
    assert a as real == q as real * n as real + m as real;
    assert a as real / n as real == q as real + m as real / n as real;
    DivideStrict(m as real, n as real, n as real);
  }

  /** Over exact reals, linspace point j of lo..hi (n points) is plotted at
      pixel j * size / n, which lies inside [0, size) for j < n. */
  lemma LinspacePixel(lo: real, hi: real, n: nat, size: nat, j: nat)
    requires hi != lo && n > 0
    ensures PixelOf(LinspaceAt(lo, hi, n, j), lo, hi, size) == j * size / n
    ensures j < n ==> 0 <= j * size / n && (size > 0 ==> j * size / n < size)
  {
    LinspaceFraction(lo, hi, n, j);
    ScaledFraction(j, n, size);
    FloorOfQuotient(j * size, n);
    if j < n && size > 0 {
      QuotientBelow(j, n, size);
    }
  }

  /** Point j of linspace(lo, hi, n) lies j / n of the way from lo to hi. */
  lemma LinspaceFraction(lo: real, hi: real, n: nat, j: int)
    requires hi != lo && n > 0
    ensures (LinspaceAt(lo, hi, n, j) - lo) / (hi - lo) == j as real / n as real
  {
    StepFraction(hi - lo, n as real, j as real);
  }

  /** The fraction j / n of size pixels, as a real, is the non-negative
      quotient (j * size) / n. */
  lemma ScaledFraction(j: nat, n: nat, size: nat)
    requires n > 0
    ensures j as real / n as real * size as real == (j * size) as real / n as real >= 0.0
  {
    QuotientTimes(j as real, n as real, size as real);
    assert (j * size) as real == j as real * size as real;
  }

  /** j steps of d / n, as a fraction of d, are j / n. */
  lemma StepFraction(d: real, n: real, j: real)
    requires d != 0.0 && n > 0.0
    ensures (j * (d / n)) / d == j / n
  {
    assert j * (d / n) == (j / n) * d;
  }

  lemma QuotientTimes(a: real, n: real, s: real)
    requires n > 0.0
    ensures a / n * s == (a * s) / n
  {
  }

  /** j < n gives j * size / n < size in integer division. */
  lemma QuotientBelow(j: nat, n: nat, size: nat)
    requires j < n && 0 < size
    ensures j * size / n < size
  {
    assert j * size < n * size by {
      assert n * size - j * size == (n - j) * size;
    }
  }

  /** Over exact reals, grid entry [i][j] is plotted at pixel
      (j * width / n, i * height / n): inside the image whenever it is not
      empty, so the bounds test of processInput never rejects a member. With
      width == height == n this is pixel (j, i). */
  lemma GridEntryLands(r: Rect, n: nat, width: nat, height: nat, i: nat, j: nat)
    requires r.xmax != r.xmin && r.ymax != r.ymin
    requires n > 0 && i < n && j < n
    ensures Lands(Grid(r.xmin, r.xmax, r.ymin, r.ymax, n)[i][j], r, width, height, j * width / n, i * height / n)
    ensures width > 0 && height > 0 ==> 0 <= j * width / n < width && 0 <= i * height / n < height
  {
    LinspacePixel(r.xmin, r.xmax, n, width, j);
    LinspacePixel(r.ymin, r.ymax, n, height, i);
  }

  /** A pixel is painted exactly when some value of the list is plotted there. */
  lemma {:induction false} PaintedMeansLanded(ms: seq<Complex>, r: Rect, width: nat, height: nat, x: int, y: int)
    requires r.xmax != r.xmin && r.ymax != r.ymin
    ensures Painted(ms, r, width, height, x, y) <==>
      exists k :: 0 <= k < |ms| && Lands(ms[k], r, width, height, x, y)
  {
    if ms != [] {
      var prefix := ms[..|ms| - 1];
      PaintedMeansLanded(prefix, r, width, height, x, y);
      if Painted(prefix, r, width, height, x, y) {
        var k :| 0 <= k < |prefix| && Lands(prefix[k], r, width, height, x, y);
        assert ms[k] == prefix[k];
      }
      if exists k :: 0 <= k < |ms| && Lands(ms[k], r, width, height, x, y) {
        var k :| 0 <= k < |ms| && Lands(ms[k], r, width, height, x, y);
        if k < |prefix| {
          assert prefix[k] == ms[k];
        }
      }
    }
  }

  /** The entries of Flatten(c) are exactly the entries of c. */
  lemma {:induction false} FlattenContains(c: seq<seq<Complex>>, v: Complex)
    ensures v in Flatten(c) <==> exists i, j :: 0 <= i < |c| && 0 <= j < |c[i]| && c[i][j] == v
  {
    if c != [] {
      var prefix := c[..|c| - 1];
      FlattenContains(prefix, v);
      if v in Flatten(prefix) {
        var i, j :| 0 <= i < |prefix| && 0 <= j < |prefix[i]| && prefix[i][j] == v;
        assert c[i] == prefix[i];
      } else if v in c[|c| - 1] {
        var j :| 0 <= j < |c[|c| - 1]| && c[|c| - 1][j] == v;
      }
      if exists i, j :: 0 <= i < |c| && 0 <= j < |c[i]| && c[i][j] == v {
        var i, j :| 0 <= i < |c| && 0 <= j < |c[i]| && c[i][j] == v;
        if i < |prefix| {
          assert prefix[i] == c[i];
        } else {
          assert v in c[|c| - 1];
        }
      }
    }
  }

  /** Grid sample [i][j] of rectangle r is stable and is plotted at (x, y). */
  predicate StableSampleAt(r: Rect, width: nat, height: nat, x: int, y: int, i: int, j: int) {
    && 0 <= i < PixelDensity && 0 <= j < PixelDensity
    && Stable(Grid(r.xmin, r.xmax, r.ymin, r.ymax, PixelDensity)[i][j], NumIterations)
    && x == j * width / PixelDensity && y == i * height / PixelDensity
  }

  /** Over exact reals, every stable grid sample [i][j] paints pixel
      (j * width / 256, i * height / 256). */
  lemma StableSamplePainted(r: Rect, width: nat, height: nat, i: int, j: int)
    requires r.xmax != r.xmin && r.ymax != r.ymin
    requires StableSampleAt(r, width, height, j * width / PixelDensity, i * height / PixelDensity, i, j)
    ensures Painted(Members(r), r, width, height, j * width / PixelDensity, i * height / PixelDensity)
  {
    var g := Grid(r.xmin, r.xmax, r.ymin, r.ymax, PixelDensity);
    var ms := Members(r);
    var x, y := j * width / PixelDensity, i * height / PixelDensity;
    var v := g[i][j];
    FlattenContains(g, v);
    StableMembersExact(Flatten(g), NumIterations, v);
    var k :| 0 <= k < |ms| && ms[k] == v;
    GridEntryLands(r, PixelDensity, width, height, i, j);
    PaintedMeansLanded(ms, r, width, height, x, y);
  }

  /** Over exact reals, a painted pixel is the pixel of some stable grid sample. */
  lemma PaintedPixelHasStableSample(r: Rect, width: nat, height: nat, x: int, y: int)
    requires r.xmax != r.xmin && r.ymax != r.ymin
    requires Painted(Members(r), r, width, height, x, y)
    ensures exists i, j :: StableSampleAt(r, width, height, x, y, i, j)
  {
    var g := Grid(r.xmin, r.xmax, r.ymin, r.ymax, PixelDensity);
    var ms := Members(r);
    PaintedMeansLanded(ms, r, width, height, x, y);
    var k :| 0 <= k < |ms| && Lands(ms[k], r, width, height, x, y);
    var v := ms[k];
    StableMembersExact(Flatten(g), NumIterations, v);
    FlattenContains(g, v);
    var i, j :| 0 <= i < |g| && 0 <= j < |g[i]| && g[i][j] == v;
    GridEntryLands(r, PixelDensity, width, height, i, j);
    assert StableSampleAt(r, width, height, x, y, i, j);
  }

  /** Over exact reals, the pixels processInput paints for rectangle r are
      exactly those (j * width / 256, i * height / 256) whose grid sample
      [i][j] stays bounded for 20 iterations. */
  lemma PaintedExactly(r: Rect, width: nat, height: nat, x: int, y: int)
    requires r.xmax != r.xmin && r.ymax != r.ymin
    ensures Painted(Members(r), r, width, height, x, y) <==>
      exists i, j :: StableSampleAt(r, width, height, x, y, i, j)
  {
    if Painted(Members(r), r, width, height, x, y) {
      PaintedPixelHasStableSample(r, width, height, x, y);
    }
    if exists i, j :: StableSampleAt(r, width, height, x, y, i, j) {
      var i, j :| StableSampleAt(r, width, height, x, y, i, j);
      StableSamplePainted(r, width, height, i, j);
    }
  }
}
