/** The renderer of mandelbrot.go: every pixel (x, y) of a width x height
    image samples c = (xmin + x*dx, ymin + y*dy), runs 35 orbit steps, and is
    left white when |z_35| > 2 or coloured hsl(hue * 360, 0.5, 0.5) with
    hue = 1 - min(|z_35| / 2, 1) otherwise. The image is first painted white;
    then one task per row fills that row. Here the row tasks run one after
    another, and each is proved to touch its own row only. */
module PixelRenderer {
  import opened Orbits
  import opened Tiles
  import opened Raster

  /** The iteration budget processInput passes to isStable. */
  const NumIterations: nat := 35

  /** isStable (the orbit-returning variant): z_n for n = numIterations. */
  method IsStable(c: Complex, numIterations: nat) returns (z: Complex)
    ensures z == Orbit(c, numIterations)
  {
    z := Zero;
    for i := 0 to numIterations
      invariant z == Orbit(c, i)
    {
      z := Add(Mul(z, z), c);
    }
  }

  // ---------------------------------------------------------------------
  // Classification and colour

  /** cmplx.Abs is a parameter of the model; it must be the modulus, the
      non-negative square root of |z|^2. */
  ghost predicate IsModulus(abs: Complex -> real) {
    forall z :: 0.0 <= abs(z) && abs(z) * abs(z) == NormSq(z)
  }

  function Min(a: real, b: real): real {
    if a <= b then a else b
  }

  /** hue = 1 - min(magnitude / 2, 1): in [0, 1] for a magnitude, and 0
      exactly when the magnitude reaches 2. */
  function Hue(magnitude: real): (h: real)
    ensures 0.0 <= h
    ensures magnitude >= 0.0 ==> h <= 1.0
    ensures h == 0.0 <==> magnitude >= 2.0
  {
    1.0 - Min(magnitude / 2.0, 1.0)
  }

  /** A smaller magnitude never gets a smaller hue. */
  lemma HueAntitone(m1: real, m2: real)
    requires m1 <= m2
    ensures Hue(m2) <= Hue(m1)
  {
  }

  /** The test `cmplx.Abs(z) > 2`. (`cmplx.IsNaN(z)` is never true of a real.) */
  predicate Escaped(z: Complex, abs: Complex -> real) {
    abs(z) > 2.0
  }

  /** The colour written for a pixel whose orbit ends at a non-escaped z. */
  function Shade(z: Complex, abs: Complex -> real, hsl: (real, real, real) -> Rgba): Rgba {
    hsl(Hue(abs(z)) * 360.0, 0.5, 0.5)
  }

  /** The escape test is exactly "z lies outside the closed disc of radius 2". */
  lemma EscapedExactly(z: Complex, abs: Complex -> real)
    requires IsModulus(abs)
    ensures Escaped(z, abs) <==> NormSq(z) > 4.0
  {
    var a := abs(z);
    assert 0.0 <= a && a * a == NormSq(z);
    if a > 2.0 {
      assert a * a > 2.0 * a;
    } else {
      assert a * a <= 2.0 * a;
    }
  }

  // ---------------------------------------------------------------------
  // Pixel sampling

  /** dx (dy): the width (height) of one pixel in the plane. */
  function PixelStep(lo: real, hi: real, count: nat): real
    requires count > 0
  {
    (hi - lo) / count as real
  }

  /** `complex(xmin + float64(x)*dx, ymin + float64(y)*dy)`. */
  function SampleAt(xmin: real, ymin: real, dx: real, dy: real, x: int, y: int): Complex {
    Complex(xmin + x as real * dx, ymin + y as real * dy)
  }

  /** The sample c of pixel (x, y) of a width x height image of r. */
  function Sample(r: Rect, width: nat, height: nat, x: nat, y: nat): Complex
    requires width > 0 && height > 0
  {
    SampleAt(r.xmin, r.ymin, PixelStep(r.xmin, r.xmax, width), PixelStep(r.ymin, r.ymax, height), x, y)
  }

  /** The final colour of pixel (x, y): white when its orbit escapes,
      otherwise the shade of its orbit. */
  function PixelColour(r: Rect, width: nat, height: nat, x: nat, y: nat,
                       abs: Complex -> real, hsl: (real, real, real) -> Rgba): Rgba
    requires x < width && y < height
  {
    var z := Orbit(Sample(r, width, height, x, y), NumIterations);
    if Escaped(z, abs) then White else Shade(z, abs, hsl)
  }

  // ---------------------------------------------------------------------
  // processInput

  /** What the task of row y leaves at pixel (x, y) when it held `before`. */
  function RowResult(before: Rgba, z: Complex, abs: Complex -> real, hsl: (real, real, real) -> Rgba): Rgba {
    if Escaped(z, abs) then before else Shade(z, abs, hsl)
  }

  /** The task of row y (the goroutine body): every non-escaped pixel of
      row y gets its shade, every escaped pixel keeps what it held, and no
      other row changes. */
  method RenderRow(img: array2<Rgba>, y: nat, xmin: real, ymin: real, dx: real, dy: real,
                   abs: Complex -> real, hsl: (real, real, real) -> Rgba)
    requires y < img.Length0
    modifies img
    ensures forall x :: 0 <= x < img.Length1 ==>
      img[y, x] == RowResult(old(img[y, x]), Orbit(SampleAt(xmin, ymin, dx, dy, x, y), NumIterations), abs, hsl)
    ensures forall row, x :: 0 <= row < img.Length0 && row != y && 0 <= x < img.Length1 ==>
      img[row, x] == old(img[row, x])
  {
    for x := 0 to img.Length1
      invariant forall x' :: 0 <= x' < x ==>
        img[y, x'] == RowResult(old(img[y, x']), Orbit(SampleAt(xmin, ymin, dx, dy, x', y), NumIterations), abs, hsl)
      invariant forall x' :: x <= x' < img.Length1 ==> img[y, x'] == old(img[y, x'])
      invariant forall row, x' :: 0 <= row < img.Length0 && row != y && 0 <= x' < img.Length1 ==>
        img[row, x'] == old(img[row, x'])
    {
      var c := SampleAt(xmin, ymin, dx, dy, x, y);
      var stability := IsStable(c, NumIterations);
      if abs(stability) > 2.0 {
        continue; // remains white from the background
      }
      var magnitude := abs(stability);
      var hue := 1.0 - Min(magnitude / 2.0, 1.0);
      img[y, x] := hsl(hue * 360.0, 0.5, 0.5);
    }
  }

  /** The background loop: afterwards every pixel of the buffer is white. */
  method FillWhite(img: array2<Rgba>)
    modifies img
    ensures forall y, x :: 0 <= y < img.Length0 && 0 <= x < img.Length1 ==> img[y, x] == White
  {
    for y := 0 to img.Length0
      invariant forall y', x :: 0 <= y' < y && 0 <= x < img.Length1 ==> img[y', x] == White
    {
      for x := 0 to img.Length1
        invariant forall y', x' :: 0 <= y' < y && 0 <= x' < img.Length1 ==> img[y', x'] == White
        invariant forall x' :: 0 <= x' < x ==> img[y, x'] == White
      {
        img[y, x] := White;
      }
    }
  }

  /** processInput (up to the PNG encoding): a width x height image whose
      every pixel holds PixelColour. */
  method ProcessInput(xmin: real, ymin: real, xmax: real, ymax: real, width: nat, height: nat,
                      abs: Complex -> real, hsl: (real, real, real) -> Rgba)
    returns (img: array2<Rgba>)
    ensures fresh(img)
    ensures img.Length0 == height && img.Length1 == width
    ensures forall y, x :: 0 <= y < height && 0 <= x < width ==>
      img[y, x] == PixelColour(Rect(xmin, ymin, xmax, ymax), width, height, x, y, abs, hsl)
  {
    img := NewRgba(width, height);
    // With width (height) 0 Go divides by zero here; the step is then never read.
    var dx := if width > 0 then (xmax - xmin) / width as real else 0.0;
    var dy := if height > 0 then (ymax - ymin) / height as real else 0.0;

    FillWhite(img);

    // One task per row; all of them finish before the image is encoded.
    ghost var r := Rect(xmin, ymin, xmax, ymax);
    for y := 0 to height
      invariant forall y', x :: 0 <= y' < y && 0 <= x < width ==>
        img[y', x] == PixelColour(r, width, height, x, y', abs, hsl)
      invariant forall y', x :: y <= y' < height && 0 <= x < width ==> img[y', x] == White
    {
      RenderRow(img, y, xmin, ymin, dx, dy, abs, hsl);
      forall x | 0 <= x < width
        ensures img[y, x] == PixelColour(r, width, height, x, y, abs, hsl)
      {
        RowTaskGivesPixelColour(r, width, height, x, y, dx, dy, abs, hsl);
      }
    }
  }

  /** On the white background, the task of row y leaves pixel (x, y) with its
      final colour, given the steps dx and dy processInput computes. */
  lemma RowTaskGivesPixelColour(r: Rect, width: nat, height: nat, x: nat, y: nat, dx: real, dy: real,
                                abs: Complex -> real, hsl: (real, real, real) -> Rgba)
    requires x < width && y < height
    requires dx == PixelStep(r.xmin, r.xmax, width) && dy == PixelStep(r.ymin, r.ymax, height)
    ensures RowResult(White, Orbit(SampleAt(r.xmin, r.ymin, dx, dy, x, y), NumIterations), abs, hsl)
         == PixelColour(r, width, height, x, y, abs, hsl)
  {
  }

  // ---------------------------------------------------------------------
  // Properties of the rendered tile

  /** Two non-negative reals with the same square are equal. */
  lemma SquareRootUnique(a: real, b: real)
    requires 0.0 <= a && 0.0 <= b && a * a == b * b
    ensures a == b
  {
    assert (a - b) * (a + b) == a * a - b * b;
    if a + b != 0.0 {
      assert a - b == 0.0;
    }
  }

  /** A pixel is white exactly when its orbit leaves the disc of radius 2;
      otherwise it carries the shade of its orbit's modulus. */
  lemma PixelColourByEscape(r: Rect, width: nat, height: nat, x: nat, y: nat,
                            abs: Complex -> real, hsl: (real, real, real) -> Rgba)
    requires IsModulus(abs)
    requires x < width && y < height
    ensures var z := Orbit(Sample(r, width, height, x, y), NumIterations);
      PixelColour(r, width, height, x, y, abs, hsl) ==
        if NormSq(z) > 4.0 then White else hsl(Hue(abs(z)) * 360.0, 0.5, 0.5)
  {
    EscapedExactly(Orbit(Sample(r, width, height, x, y), NumIterations), abs);
  }

  /** The modulus of 0 is 0. */
  lemma ModulusOfZero(abs: Complex -> real)
    requires IsModulus(abs)
    ensures abs(Zero) == 0.0
  {
    var a := abs(Zero);
    var zero := 0.0;
    assert a * a == NormSq(Complex(zero, zero));
    assert NormSq(Complex(zero, zero)) == zero * zero + zero * zero;
    SquareRootUnique(a, zero);
  }

  /** With |0| = 0, an orbit that ends at the origin is not escaped and gets hue 1. */
  lemma ShadeOfZero(abs: Complex -> real, hsl: (real, real, real) -> Rgba)
    requires abs(Zero) == 0.0
    ensures !Escaped(Zero, abs)
    ensures Shade(Zero, abs, hsl) == hsl(360.0, 0.5, 0.5)
  {
    assert Hue(0.0) == 1.0;
  }

  /** The pixel whose sample is the origin gets the full hue: hsl(360, 0.5, 0.5). */
  lemma OriginPixel(r: Rect, width: nat, height: nat, x: nat, y: nat,
                    abs: Complex -> real, hsl: (real, real, real) -> Rgba)
    requires IsModulus(abs)
    requires x < width && y < height
    requires Sample(r, width, height, x, y) == Zero
    ensures PixelColour(r, width, height, x, y, abs, hsl) == hsl(360.0, 0.5, 0.5)
  {
    OrbitOfZero(NumIterations);
    ModulusOfZero(abs);
    ShadeOfZero(abs, hsl);
  }

  /** In a rectangle symmetric about the real axis, row height - y samples
      the mirror images of row y. */
  lemma MirroredSample(r: Rect, width: nat, height: nat, x: nat, y: nat)
    requires r.ymin == -r.ymax
    requires x < width && 0 < y < height
    ensures Sample(r, width, height, x, height - y) == Conj(Sample(r, width, height, x, y))
  {
    var dy := PixelStep(r.ymin, r.ymax, height);
    assert height as real * dy == r.ymax - r.ymin;
    assert (height - y) as real * dy == height as real * dy - y as real * dy;
  }

  /** In a rectangle symmetric about the real axis, rows y and height - y are
      painted alike: the rendering is mirror-symmetric. */
  lemma MirroredRowsAgree(r: Rect, width: nat, height: nat, x: nat, y: nat,
                          abs: Complex -> real, hsl: (real, real, real) -> Rgba)
    requires IsModulus(abs)
    requires r.ymin == -r.ymax
    requires x < width && 0 < y < height
    ensures PixelColour(r, width, height, x, height - y, abs, hsl) == PixelColour(r, width, height, x, y, abs, hsl)
  {
    var c := Sample(r, width, height, x, y);
    MirroredSample(r, width, height, x, y);
    OrbitOfConj(c, NumIterations);
    var z := Orbit(c, NumIterations);
    NormSqOfConj(z);
    SquareRootUnique(abs(Conj(z)), abs(z));
  }
}
