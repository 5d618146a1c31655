/** Resize geometry and output-encoding choice of image_utils.go. An image is abstracted as its pixel
    bounds (Go's image.Rectangle) and whether its type can hand out sub-images; decoding, resampling and
    encoding themselves are outside the model. */
module ImageUtils {
  import opened Strings
  import Paths

  function Min(a: int, b: int): int { if a <= b then a else b }
  function Max(a: int, b: int): int { if a >= b then a else b }

  /** image.Rectangle: the pixels (x, y) with minX <= x < maxX and minY <= y < maxY. */
  datatype Rect = Rect(minX: int, minY: int, maxX: int, maxY: int)

  function Dx(r: Rect): int { r.maxX - r.minX }
  function Dy(r: Rect): int { r.maxY - r.minY }

  predicate Empty(r: Rect) { r.minX >= r.maxX || r.minY >= r.maxY }

  predicate InRect(x: int, y: int, r: Rect) { r.minX <= x < r.maxX && r.minY <= y < r.maxY }

  /** image.ZR, the zero rectangle. */
  const ZR: Rect := Rect(0, 0, 0, 0)

  /** image.Rect: the rectangle spanned by two corners given in any order. */
  function CanonRect(x0: int, y0: int, x1: int, y1: int): (r: Rect)
    ensures r.minX <= r.maxX && r.minY <= r.maxY
    ensures (r.minX, r.maxX) == (x0, x1) || (r.minX, r.maxX) == (x1, x0)
    ensures (r.minY, r.maxY) == (y0, y1) || (r.minY, r.maxY) == (y1, y0)
  {
    Rect(Min(x0, x1), Min(y0, y1), Max(x0, x1), Max(y0, y1))
  }

  /** Rectangle.Intersect: the overlap of r and s, or the zero rectangle when they do not overlap. */
  function Intersect(r: Rect, s: Rect): (t: Rect)
    ensures forall x, y :: InRect(x, y, t) <==> InRect(x, y, r) && InRect(x, y, s)
    ensures Empty(t) ==> t == ZR
  {
    var t := Rect(Max(r.minX, s.minX), Max(r.minY, s.minY), Min(r.maxX, s.maxX), Min(r.maxY, s.maxY));
    if Empty(t) then ZR else t
  }

  /** A decoded image: its bounds, and whether its type offers SubImage. */
  datatype Image = Image(bounds: Rect, canCrop: bool)

  /** The sub-image of img over r, which lies inside img's bounds. */
  function SubImage(img: Image, r: Rect): Image
  {
    Image(Intersect(r, img.bounds), img.canCrop)
  }

  /** math.Round: the nearest integer, halves rounded away from zero. */
  function Round(x: real): (n: int)
    ensures x - 0.5 <= n as real <= x + 0.5
    ensures n as real == x + 0.5 ==> x > 0.0
    ensures n as real == x - 0.5 ==> x < 0.0
  {
    if x >= 0.0 then (x + 0.5).Floor else -((-x + 0.5).Floor)
  }

  /** a / b rounded like math.Round, in integer arithmetic. */
  function RoundDiv(a: int, b: int): int
    requires b > 0
  {
    if a >= 0 then (2 * a + b) / (2 * b) else -((-2 * a + b) / (2 * b))
  }

  /** RoundDiv agrees with rounding the exact quotient, which is what the floating-point expression
      side * (longer / shorter) approximates. */
  lemma RoundDivIsRound(a: int, b: int)
    requires b > 0
    ensures RoundDiv(a, b) == Round(a as real / b as real)
  {
    var x := a as real / b as real;
    Quotient(x, a as real, b as real);
    if a >= 0 {
      assert x >= 0.0;
      RoundDivNonneg(a, b, x);
    } else {
      assert x < 0.0;
      RoundDivNonneg(-a, b, -x);
    }
  }

  /** For a >= 0, the rounded-half-up quotient of 2a + b by 2b is the floor of a / b + 1/2. */
  lemma RoundDivNonneg(a: int, b: int, x: real)
    requires a >= 0 && b > 0 && x * b as real == a as real
    ensures (2 * a + b) / (2 * b) == (x + 0.5).Floor
  {
    var n := (2 * a + b) / (2 * b);
    assert n * (2 * b) <= 2 * a + b < (n + 1) * (2 * b);
    assert (x + 0.5) * (2 * b) as real == (2 * a + b) as real;
    FloorBetween(n, x + 0.5, b);
  }

  /** n <= y < n + 1, scaled by 2b, pins down the floor of y. */
  lemma FloorBetween(n: int, y: real, b: int)
    requires b > 0
    requires (n * (2 * b)) as real <= y * (2 * b) as real < ((n + 1) * (2 * b)) as real
    ensures y.Floor == n
  {
    var c := (2 * b) as real;
    CastMul(n, 2 * b);
    CastMul(n + 1, 2 * b);
    assert n as real <= y by {
      if y < n as real { MulMonotone(y, n as real, c); }
    }
    assert y < (n + 1) as real by {
      if y >= (n + 1) as real { MulMonotone((n + 1) as real, y, c); }
    }
  }

  lemma CastMul(n: int, m: int)
    ensures (n * m) as real == n as real * m as real
  {
  }

  lemma MulMonotone(u: real, v: real, c: real)
    requires c > 0.0 && u <= v
    ensures u * c <= v * c
    ensures u < v ==> u * c < v * c
  {
  }

  /** The resampling filters that can be configured by name. */
  datatype Filter = NearestNeighbor | Box | Linear | Gaussian | Lanczos

  /** The result of resizeImage: the resized image and the factors from old to new pixel coordinates. */
  datatype Resized = Resized(image: Image, scaleWidth: real, scaleHeight: real, filter: Filter)

  /** The target longer and shorter sides: a side <= 0 is derived from the other one and the source's
      aspect ratio (the longer side is checked first). */
  function TargetSides(imgLonger: int, imgShorter: int, longerSide: int, shorterSide: int): (int, int)
    requires imgLonger > 0 && imgShorter > 0
  {
    if longerSide <= 0 then (RoundDiv(shorterSide * imgLonger, imgShorter), shorterSide)
    else if shorterSide <= 0 then (longerSide, RoundDiv(longerSide * imgShorter, imgLonger))
    else (longerSide, shorterSide)
  }

  predicate IsPortrait(img: Image) { Dy(img.bounds) > Dx(img.bounds) }

  /** The target (longer, shorter) sides for img. */
  function Targets(img: Image, longerSide: int, shorterSide: int): (int, int)
    requires Dx(img.bounds) > 0 && Dy(img.bounds) > 0
  {
    TargetSides(Max(Dx(img.bounds), Dy(img.bounds)), Min(Dx(img.bounds), Dy(img.bounds)), longerSide, shorterSide)
  }

  /** The size resizeImage asks imaging.Resize for: the target longer side runs along the source's
      longer side, and a square image is handled as landscape. */
  function ResizedBounds(img: Image, longerSide: int, shorterSide: int): (b: Rect)
    requires Dx(img.bounds) > 0 && Dy(img.bounds) > 0
    ensures b.minX == 0 && b.minY == 0
    ensures var (l, s) := Targets(img, longerSide, shorterSide);
            if IsPortrait(img) then Dx(b) == s && Dy(b) == l else Dx(b) == l && Dy(b) == s
  {
    var (l, s) := Targets(img, longerSide, shorterSide);
    if IsPortrait(img) then Rect(0, 0, s, l) else Rect(0, 0, l, s)
  }

  /** The bounds of the image imaging.Resize returns for a source of srcW x srcH pixels and a requested
      width w and height h: the empty image for a negative side or when both are 0; a side of 0 follows
      the source's aspect ratio, rounded, but is at least one pixel. */
  function ResampledBounds(srcW: int, srcH: int, w: int, h: int): (b: Rect)
    requires srcW > 0 && srcH > 0
    ensures b.minX == 0 && b.minY == 0
    ensures w < 0 || h < 0 || (w == 0 && h == 0) ==> b == ZR
    ensures w > 0 && h > 0 ==> Dx(b) == w && Dy(b) == h
    ensures w >= 0 && h >= 0 && (w > 0 || h > 0) ==> Dx(b) >= 1 && Dy(b) >= 1
    ensures w == 0 && h > 0 ==> Dy(b) == h
    ensures w > 0 && h == 0 ==> Dx(b) == w
  {
    if w < 0 || h < 0 || (w == 0 && h == 0) then ZR
    else if w == 0 then Rect(0, 0, Max(1, RoundDiv(h * srcW, srcH)), h)
    else if h == 0 then Rect(0, 0, w, Max(1, RoundDiv(w * srcH, srcW)))
    else Rect(0, 0, w, h)
  }

  /** A side of 0 follows the source's aspect ratio: the other side times the ratio, rounded like
      math.Round, or one pixel when that rounds to 0. */
  lemma ResampledFollowsAspect(srcW: int, srcH: int, w: int, h: int)
    requires srcW > 0 && srcH > 0
    ensures w == 0 && h > 0 ==>
              Dx(ResampledBounds(srcW, srcH, w, h)) == Max(1, Round((h * srcW) as real / srcH as real))
    ensures w > 0 && h == 0 ==>
              Dy(ResampledBounds(srcW, srcH, w, h)) == Max(1, Round((w * srcH) as real / srcW as real))
  {
    if w == 0 && h > 0 {
      RoundDivIsRound(h * srcW, srcH);
    } else if w > 0 && h == 0 {
      RoundDivIsRound(w * srcH, srcW);
    }
  }

  /** The resized image for the requested size b, the factors from old to new pixel coordinates, which
      Go computes from b and not from the pixels imaging.Resize produces, and the filter: the
      downsampling one exactly when b has fewer pixels than the source. */
  function Rescale(img: Image, b: Rect, down: Filter, up: Filter): (r: Resized)
    requires Dx(img.bounds) > 0 && Dy(img.bounds) > 0
    ensures r.image == Image(ResampledBounds(Dx(img.bounds), Dy(img.bounds), Dx(b), Dy(b)), true)
    ensures r.scaleWidth * Dx(img.bounds) as real == Dx(b) as real
    ensures r.scaleHeight * Dy(img.bounds) as real == Dy(b) as real
    ensures Dx(b) * Dy(b) < Dx(img.bounds) * Dy(img.bounds) ==> r.filter == down
    ensures Dx(b) * Dy(b) >= Dx(img.bounds) * Dy(img.bounds) ==> r.filter == up
  {
    var filter := if Dx(b) * Dy(b) < Dx(img.bounds) * Dy(img.bounds) then down else up;
    var sw, sh := Dx(b) as real / Dx(img.bounds) as real, Dy(b) as real / Dy(img.bounds) as real;
    Quotient(sw, Dx(b) as real, Dx(img.bounds) as real);
    Quotient(sh, Dy(b) as real, Dy(img.bounds) as real);
    Resized(Image(ResampledBounds(Dx(img.bounds), Dy(img.bounds), Dx(b), Dy(b)), true), sw, sh, filter)
  }

  /** resizeImage: the image resized to the target sides (see ResizedBounds and Rescale). */
  function ResizeImage(img: Image, longerSide: int, shorterSide: int, down: Filter, up: Filter): Resized
    requires Dx(img.bounds) > 0 && Dy(img.bounds) > 0
  {
    Rescale(img, ResizedBounds(img, longerSide, shorterSide), down, up)
  }

  lemma Quotient(q: real, a: real, b: real)
    requires b != 0.0 && q == a / b
    ensures q * b == a
  {
  }

  /** A side derived from a positive other side is never negative, and the derived longer side is at
      least the given shorter side. */
  lemma DerivedSides(imgLonger: int, imgShorter: int, longerSide: int, shorterSide: int)
    requires imgLonger >= imgShorter > 0
    requires longerSide > 0 || shorterSide > 0
    ensures var (l, s) := TargetSides(imgLonger, imgShorter, longerSide, shorterSide);
            l >= 1 && s >= 0
  {
    if longerSide <= 0 {
      var a := shorterSide * imgLonger;
      assert a >= shorterSide * imgShorter;
      assert 2 * a + imgShorter >= shorterSide * (2 * imgShorter);
      DivAtLeast(2 * a + imgShorter, 2 * imgShorter, shorterSide);
    } else if shorterSide <= 0 {
      assert longerSide * imgShorter >= 0;
    }
  }

  /** A number at least q times d has a quotient by d of at least q. */
  lemma DivAtLeast(n: int, d: int, q: int)
    requires d > 0 && n >= q * d
    ensures n / d >= q
  {
    var k, m := n / d, n % d;
    assert n == k * d + m && m < d;
    if k < q {
      MulLeInt(k + 1, q, d);
    }
  }

  lemma MulLeInt(a: int, b: int, d: int)
    requires a <= b && d >= 0
    ensures a * d <= b * d
  {
    assert b * d == a * d + (b - a) * d;
  }

  /** When ProcessImages resizes (one of the sides is positive), the image it saves has at least one
      pixel in each direction. */
  lemma ResizedHasPixels(img: Image, longerSide: int, shorterSide: int, down: Filter, up: Filter)
    requires Dx(img.bounds) > 0 && Dy(img.bounds) > 0
    requires longerSide > 0 || shorterSide > 0
    ensures var b := ResizeImage(img, longerSide, shorterSide, down, up).image.bounds;
            Dx(b) >= 1 && Dy(b) >= 1
  {
    DerivedSides(Max(Dx(img.bounds), Dy(img.bounds)), Min(Dx(img.bounds), Dy(img.bounds)), longerSide, shorterSide);
  }

  /** The worked example: a 200x100 image resized to a longer side of 100 (shorter side derived)
      becomes 100x50. */
  lemma ResizeExample()
    ensures ResizedBounds(Image(Rect(0, 0, 200, 100), true), 100, 0) == Rect(0, 0, 100, 50)
  {
    assert TargetSides(200, 100, 100, 0) == (100, 50);
  }

  /** A 300x1 sliver resized to a longer side of 100: the derived shorter side rounds to 0, so Go's
      height factor is 0 (FlatScale), while imaging.Resize keeps one row of pixels. */
  lemma ResizeSliverExample(down: Filter, up: Filter)
    ensures ResizeImage(Image(Rect(0, 0, 300, 1), true), 100, 0, down, up).image.bounds == Rect(0, 0, 100, 1)
  {
    SliverResizes(down, up);
    SliverBounds(down, up);
  }

  /** resizeImage on the 300x1 image with longer side 100 and shorter side 0 rescales to 100x0. */
  lemma SliverResizes(down: Filter, up: Filter)
    ensures ResizeImage(Image(Rect(0, 0, 300, 1), true), 100, 0, down, up)
            == Rescale(Image(Rect(0, 0, 300, 1), true), Rect(0, 0, 100, 0), down, up)
  {
    SliverRequested();
  }

  /** Rescaling the 300x1 image to the requested 100x0 keeps one row. */
  lemma SliverBounds(down: Filter, up: Filter)
    ensures Rescale(Image(Rect(0, 0, 300, 1), true), Rect(0, 0, 100, 0), down, up).image.bounds
            == Rect(0, 0, 100, 1)
  {
    SliverResampled();
  }

  /** The requested 100x0 has fewer pixels than the 300x1 source, so the downsampling filter is used. */
  lemma SliverFilter(down: Filter, up: Filter)
    ensures Rescale(Image(Rect(0, 0, 300, 1), true), Rect(0, 0, 100, 0), down, up).filter == down
  {
    assert Dx(Rect(0, 0, 100, 0)) * Dy(Rect(0, 0, 100, 0)) == 0;
    assert Dx(Rect(0, 0, 300, 1)) * Dy(Rect(0, 0, 300, 1)) == 300;
  }

  /** The horizontal scale factor of the 300 to 100 rescale is a third. */
  lemma SliverWidthScale(down: Filter, up: Filter)
    ensures Rescale(Image(Rect(0, 0, 300, 1), true), Rect(0, 0, 100, 0), down, up).scaleWidth
            == 1.0 / 3.0
  {
    var r := Rescale(Image(Rect(0, 0, 300, 1), true), Rect(0, 0, 100, 0), down, up);
    assert r.scaleWidth * 300.0 == 100.0;
  }

  /** A request of height 0 gives a vertical scale factor of 0. */
  lemma FlatScale(img: Image, b: Rect, down: Filter, up: Filter)
    requires Dx(img.bounds) > 0 && Dy(img.bounds) > 0 && Dy(b) == 0
    ensures Rescale(img, b, down, up).scaleHeight == 0.0
  {
    var r := Rescale(img, b, down, up);
    ZeroFactor(r.scaleHeight, Dy(img.bounds) as real);
  }

  lemma ZeroFactor(x: real, y: real)
    requires y > 0.0 && x * y == 0.0
    ensures x == 0.0
  {
  }

  /** The size ResizeSliverExample requests: 100x0. */
  lemma SliverRequested()
    ensures ResizedBounds(Image(Rect(0, 0, 300, 1), true), 100, 0) == Rect(0, 0, 100, 0)
  {
    assert RoundDiv(100 * 1, 300) == 0;
    assert TargetSides(300, 1, 100, 0) == (100, 0);
  }

  /** The size imaging.Resize gives in ResizeSliverExample: 100x1. */
  lemma SliverResampled()
    ensures ResampledBounds(300, 1, 100, 0) == Rect(0, 0, 100, 1)
  {
    assert RoundDiv(100 * 1, 300) == 0;
  }

  /** The output encodings of saveImage. */
  datatype Encoding = PNG | JPEG(quality: int)

  /** saveImage's choice of encoder: PNG for a ".png" extension in any letter case, JPEG otherwise. */
  function SaveEncoding(path: string, jpegQuality: int): Encoding
  {
    if ToLower(Paths.Ext(path)) == ".png" then PNG else JPEG(jpegQuality)
  }
}
