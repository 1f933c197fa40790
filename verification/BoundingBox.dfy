/** The crop box of the zoom-in tool, over exact reals. */
module BoundingBox {
  import opened Options

  const MIN_DIMENSION := 28

  datatype Box = Box(left: real, top: real, right: real, bottom: real) {
    function Width(): real { right - left }
    function Height(): real { bottom - top }
  }

  function Min(a: real, b: real): real {
    if a <= b then a else b
  }

  function Max(a: real, b: real): real {
    if a >= b then a else b
  }

  function Prod(x: real, y: real): real {
    x * y
  }

  function Quot(x: real, y: real): real
    requires y != 0.0
  {
    x / y
  }

  function Ceil(x: real): int {
    -(-x).Floor
  }

  /** A proper box whose longer side is at most a hundred times the shorter. */
  predicate Valid(b: Box) {
    b.left < b.right && b.top < b.bottom && Max(b.Height(), b.Width()) <= 100.0 * Min(b.Height(), b.Width())
  }

  /** `_validate_bbox` */
  method ValidateBBox(b: Box) returns (ok: bool)
    ensures ok == Valid(b)
  {
    if !(b.left < b.right && b.top < b.bottom) {
      return false;
    }
    var height := b.bottom - b.top;
    var width := b.right - b.left;
    if Max(height, width) / Min(height, width) > 100.0 {
      RatioAbove(Max(height, width), Min(height, width));
      return false;
    }
    RatioAbove(Max(height, width), Min(height, width));
    ok := true;
  }

  lemma RatioAbove(long: real, short: real)
    requires short > 0.0
    ensures long / short > 100.0 <==> long > 100.0 * short
  {
    var q := long / short;
    assert long == q * short;
    if q > 100.0 { assert (q - 100.0) * short > 0.0; }
    if q <= 100.0 { assert (100.0 - q) * short >= 0.0; }
  }

  /** The part of the requested box inside the image. */
  function Clamped(b: Box, width: nat, height: nat): Box {
    Box(Max(0.0, b.left), Max(0.0, b.top), Min(width as real, b.right), Min(height as real, b.bottom))
  }

  /** A point lies in the clamped box exactly when it lies in the requested box and in the image. */
  lemma ClampedExact(b: Box, width: nat, height: nat, x: real, y: real)
    ensures var c := Clamped(b, width, height);
      (c.left <= x <= c.right && c.top <= y <= c.bottom) <==>
        (b.left <= x <= b.right && b.top <= y <= b.bottom && 0.0 <= x <= width as real && 0.0 <= y <= height as real)
  {}

  predicate Small(b: Box) {
    b.Height() < MIN_DIMENSION as real || b.Width() < MIN_DIMENSION as real
  }

  /** The enlarged size: the shorter side to the minimum, then scaled down to fit, width first. */
  function Target(w: real, h: real, width: nat, height: nat): (real, real)
    requires w > 0.0 && h > 0.0
  {
    var ratio := Quot(MIN_DIMENSION as real, Min(h, w));
    Fitted(Prod(w, ratio), Prod(h, ratio), width as real, height as real)
  }

  function Fitted(tw: real, th: real, iw: real, ih: real): (real, real)
    requires iw >= 0.0 && ih >= 0.0
  {
    var (w1, h1) := if tw > iw then (iw, Prod(th, Quot(iw, tw))) else (tw, th);
    if h1 > ih then (Prod(w1, Quot(ih, h1)), ih) else (w1, h1)
  }

  /** Where a side of the given size starts: around the centre, shifted into the image. */
  function Placed(center: real, size: real, limit: real): real {
    var start := center - size / 2.0;
    var inside := if start < 0.0 then 0.0 else start;
    if inside + size > limit then limit - size else inside
  }

  /** The enlarged box before rounding. */
  function Enlarged(b: Box, width: nat, height: nat): Box
    requires b.Width() > 0.0 && b.Height() > 0.0
  {
    var (tw, th) := Target(b.Width(), b.Height(), width, height);
    var left, top := Placed((b.left + b.right) / 2.0, tw, width as real), Placed((b.top + b.bottom) / 2.0, th, height as real);
    Box(left, top, left + tw, top + th)
  }

  /** Rounded outwards. */
  function Rounded(b: Box): Box {
    Box(b.left.Floor as real, b.top.Floor as real, Ceil(b.right) as real, Ceil(b.bottom) as real)
  }

  predicate LargeEnough(b: Box) {
    b.bottom.Floor - b.top.Floor >= MIN_DIMENSION && b.right.Floor - b.left.Floor >= MIN_DIMENSION
  }

  function Resized(bbox: Box, width: nat, height: nat): Option<Box> {
    var b := Clamped(bbox, width, height);
    if !Valid(b) then None
    else
      var current := if Small(b) then Rounded(Enlarged(b, width, height)) else b;
      if Valid(current) && LargeEnough(current) then Some(current) else None
  }

  method TargetSize(w: real, h: real, imageWidth: nat, imageHeight: nat) returns (tw: real, th: real)
    requires w > 0.0 && h > 0.0
    ensures (tw, th) == Target(w, h, imageWidth, imageHeight)
  {
    hide Prod;
    hide Quot;
    var ratio := Quot(MIN_DIMENSION as real, Min(h, w));
    tw, th := Prod(w, ratio), Prod(h, ratio);
    if tw > imageWidth as real {
      var scaleDown := Quot(imageWidth as real, tw);
      tw := imageWidth as real;
      th := Prod(th, scaleDown);
    }
    if th > imageHeight as real {
      var scaleDown := Quot(imageHeight as real, th);
      th := imageHeight as real;
      tw := Prod(tw, scaleDown);
    }
  }

  /** Centre one side and shift it into the image. */
  method PlaceSide(center: real, size: real, limit: real) returns (start: real)
    ensures start == Placed(center, size, limit)
  {
    start := center - size / 2.0;
    if start < 0.0 { start := 0.0; }
    if start + size > limit { start := limit - size; }
  }

  lemma EnlargedIs(b: Box, width: nat, height: nat)
    requires b.Width() > 0.0 && b.Height() > 0.0
    ensures var (tw, th) := Target(b.Width(), b.Height(), width, height);
      var left, top := Placed((b.left + b.right) / 2.0, tw, width as real), Placed((b.top + b.bottom) / 2.0, th, height as real);
      Enlarged(b, width, height) == Box(left, top, left + tw, top + th)
  {}

  lemma ResizedIs(bbox: Box, width: nat, height: nat)
    ensures var b := Clamped(bbox, width, height);
      if !Valid(b) then Resized(bbox, width, height) == None
      else
        var current := if Small(b) then Rounded(Enlarged(b, width, height)) else b;
        Resized(bbox, width, height) == if Valid(current) && LargeEnough(current) then Some(current) else None
  {}

  /** `_maybe_resize_bbox` */
  method MaybeResizeBBox(bbox: Box, imageWidth: nat, imageHeight: nat) returns (r: Option<Box>)
    ensures r == Resized(bbox, imageWidth, imageHeight)
  {
    hide Target;
    hide Valid;
    hide Placed;
    hide Rounded;
    hide Enlarged;
    hide Resized;
    ResizedIs(bbox, imageWidth, imageHeight);
    var iw, ih := imageWidth as real, imageHeight as real;
    var left := Max(0.0, bbox.left);
    var top := Max(0.0, bbox.top);
    var right := Min(iw, bbox.right);
    var bottom := Min(ih, bbox.bottom);
    var current := Box(left, top, right, bottom);
    var ok := ValidateBBox(current);
    if !ok {
      return None;
    }
    ValidSides(current);
    var height := bottom - top;
    var width := right - left;
    if height < MIN_DIMENSION as real || width < MIN_DIMENSION as real {
      var centerX := (left + right) / 2.0;
      var centerY := (top + bottom) / 2.0;
      var targetWidth, targetHeight := TargetSize(width, height, imageWidth, imageHeight);
      var newLeft := PlaceSide(centerX, targetWidth, iw);
      var newTop := PlaceSide(centerY, targetHeight, ih);
      current := Rounded(Box(newLeft, newTop, newLeft + targetWidth, newTop + targetHeight));
      EnlargedIs(Box(left, top, right, bottom), imageWidth, imageHeight);
    }
    ok := ValidateBBox(current);
    if !ok {
      return None;
    }
    var finalHeight := current.bottom.Floor - current.top.Floor;
    var finalWidth := current.right.Floor - current.left.Floor;
    if finalHeight < MIN_DIMENSION || finalWidth < MIN_DIMENSION {
      return None;
    }
    r := Some(current);
  }

  lemma ValidSides(b: Box)
    requires Valid(b)
    ensures b.Width() > 0.0 && b.Height() > 0.0
  {}

  // ---------- The enlarged size ----------

  /** The common factor of both sides. */
  function Factor(w: real, h: real, width: nat, height: nat): real
    requires w > 0.0 && h > 0.0
  {
    Min(Quot(MIN_DIMENSION as real, Min(h, w)), Min(Quot(width as real, w), Quot(height as real, h)))
  }

  lemma ProdQuot(x: real, y: real)
    requires x > 0.0
    ensures Prod(x, Quot(y, x)) == y
    ensures y > 0.0 ==> Quot(y, x) > 0.0
  {
    var q := y / x;
    assert q * x == y;
    if q <= 0.0 { assert (-q) * x >= 0.0; }
  }

  lemma Scale(x: real, y: real, f: real)
    requires x > 0.0
    ensures Prod(x, f) <= y <==> f <= Quot(y, x)
    ensures f > 0.0 ==> Prod(x, f) > 0.0
    ensures f >= 1.0 ==> Prod(x, f) >= x
    ensures Prod(x, 1.0) == x
  {
    ScaleBelow(x, y, f);
    if f >= 1.0 { assert x * (f - 1.0) >= 0.0; }
  }

  lemma ScaleBelow(x: real, y: real, f: real)
    requires x > 0.0
    ensures Prod(x, f) <= y <==> f <= Quot(y, x)
  {
    var q := y / x;
    assert q * x == y;
    var d := (q - f) * x;
    assert d == y - Prod(x, f);
    assert f <= q ==> d >= 0.0;
    assert f > q ==> d < 0.0;
  }

  lemma ShrunkFactor(x: real, size: real, r: real, limit: real)
    requires x > 0.0 && size > 0.0 && r > 0.0 && Prod(size, r) > 0.0
    ensures Prod(Prod(x, r), Quot(limit, Prod(size, r))) == Prod(x, Quot(limit, size))
  {
    var q := limit / (size * r);
    assert q * (size * r) == limit;
    assert (q * r) * size == limit;
    assert q * r == limit / size;
    assert (x * r) * q == x * (q * r);
  }

  /** The enlarged size is the clamped size times one factor: its aspect ratio is exactly kept. */
  lemma TargetIsScaled(w: real, h: real, width: nat, height: nat)
    requires w > 0.0 && h > 0.0 && width > 0 && height > 0
    ensures var f := Factor(w, h, width, height);
      Target(w, h, width, height) == (Prod(w, f), Prod(h, f))
  {
    hide Prod;
    hide Quot;
    var iw, ih := width as real, height as real;
    ProdQuot(Min(h, w), MIN_DIMENSION as real);
    ProdQuot(w, iw);
    ProdQuot(h, ih);
    var ratio := Quot(MIN_DIMENSION as real, Min(h, w));
    Scale(w, iw, ratio);
    if Prod(w, ratio) > iw {
      ShrunkFactor(h, w, ratio, iw);
    }
    var s := Min(ratio, Quot(iw, w));
    assert Fitted(Prod(w, ratio), Prod(h, ratio), iw, ih) ==
      if Prod(h, s) > ih then (Prod(Prod(w, s), Quot(ih, Prod(h, s))), ih) else (Prod(w, s), Prod(h, s));
    Scale(h, ih, s);
    if Prod(h, s) > ih {
      ShrunkFactor(w, h, s, ih);
    }
  }

  /** The factor is the largest that brings the shorter side to at most 28 and keeps both sides in the image. */
  lemma FactorLargest(w: real, h: real, width: nat, height: nat, f: real)
    requires w > 0.0 && h > 0.0
    ensures f <= Factor(w, h, width, height) <==>
      f * Min(h, w) <= MIN_DIMENSION as real && f * w <= width as real && f * h <= height as real
  {
    var short := Min(h, w);
    assert short > 0.0;
    FactorIs(w, h, width, height, f);
    hide *;
    ScaleBelow(short, MIN_DIMENSION as real, f);
    ScaleBelow(w, width as real, f);
    ScaleBelow(h, height as real, f);
    ProdIs(short, f);
    ProdIs(w, f);
    ProdIs(h, f);
  }

  lemma FactorIs(w: real, h: real, width: nat, height: nat, f: real)
    requires w > 0.0 && h > 0.0
    ensures f <= Factor(w, h, width, height) <==>
      f <= Quot(MIN_DIMENSION as real, Min(h, w)) && f <= Quot(width as real, w) && f <= Quot(height as real, h)
  {
    hide Quot;
  }

  lemma ProdIs(x: real, y: real)
    ensures Prod(x, y) == y * x
  {}

  /** The factor enlarges and never leaves the image. */
  lemma FactorBounds(w: real, h: real, width: nat, height: nat)
    requires 0.0 < w <= width as real && 0.0 < h <= height as real
    requires h < MIN_DIMENSION as real || w < MIN_DIMENSION as real
    ensures var f := Factor(w, h, width, height);
      f >= 1.0 && w <= Prod(w, f) <= width as real && h <= Prod(h, f) <= height as real
      && Prod(Min(h, w), f) <= MIN_DIMENSION as real
  {
    hide Prod;
    hide Quot;
    var f := Factor(w, h, width, height);
    Scale(w, width as real, 1.0);
    Scale(h, height as real, 1.0);
    Scale(Min(h, w), MIN_DIMENSION as real, 1.0);
    Scale(w, width as real, f);
    Scale(h, height as real, f);
    Scale(Min(h, w), MIN_DIMENSION as real, f);
  }

  lemma PlacedInside(low: real, high: real, size: real, limit: real)
    requires 0.0 <= low < high <= limit && high - low <= size <= limit
    ensures var start := Placed((low + high) / 2.0, size, limit); 0.0 <= start <= low && high <= start + size <= limit
  {}

  /** One box lies within another. */
  predicate Within(a: Box, b: Box) {
    b.left <= a.left && b.top <= a.top && a.right <= b.right && a.bottom <= b.bottom
  }

  function Image(width: nat, height: nat): Box {
    Box(0.0, 0.0, width as real, height as real)
  }

  /** The enlarged box lies in the image around the clamped one, and is the clamped one scaled. */
  lemma EnlargedExact(b: Box, width: nat, height: nat)
    requires Valid(b) && Small(b) && Within(b, Image(width, height))
    ensures var e, f := Enlarged(b, width, height), Factor(b.Width(), b.Height(), width, height);
      && Within(b, e) && Within(e, Image(width, height))
      && e.Width() == Prod(b.Width(), f) && e.Height() == Prod(b.Height(), f)
      && Prod(e.Width(), b.Height()) == Prod(e.Height(), b.Width())
  {
    hide Target;
    hide Factor;
    hide Prod;
    var w, h := b.Width(), b.Height();
    FactorBounds(w, h, width, height);
    TargetIsScaled(w, h, width, height);
    var f := Factor(w, h, width, height);
    PlacedInside(b.left, b.right, Prod(w, f), width as real);
    PlacedInside(b.top, b.bottom, Prod(h, f), height as real);
    SameRatio(w, h, f);
  }

  lemma SameRatio(w: real, h: real, f: real)
    ensures Prod(Prod(w, f), h) == Prod(Prod(h, f), w)
  {
    assert w * f * h == h * f * w;
  }

  lemma FloorBounds(x: real)
    ensures x.Floor as real <= x < x.Floor as real + 1.0
    ensures x <= Ceil(x) as real < x + 1.0
  {}

  lemma RoundedInside(low: real, high: real, limit: nat)
    requires 0.0 <= low && high <= limit as real
    ensures 0 <= low.Floor && Ceil(high) <= limit
    ensures low.Floor as real <= low && high <= Ceil(high) as real
    ensures Ceil(high) as real - low.Floor as real < high - low + 2.0
  {
    FloorBounds(low);
    FloorBounds(high);
  }

  /** Rounding outwards stays in the image and adds less than two pixels to a side. */
  lemma RoundedExact(b: Box, width: nat, height: nat)
    requires Within(b, Image(width, height))
    ensures Within(b, Rounded(b)) && Within(Rounded(b), Image(width, height))
    ensures Rounded(b).Width() < b.Width() + 2.0 && Rounded(b).Height() < b.Height() + 2.0
  {
    hide Ceil;
    RoundedInside(b.left, b.right, width);
    RoundedInside(b.top, b.bottom, height);
  }

  lemma ClampedInside(bbox: Box, width: nat, height: nat)
    requires Valid(Clamped(bbox, width, height))
    ensures Within(Clamped(bbox, width, height), Image(width, height))
  {}

  lemma LargeFloors(low: real, high: real)
    requires high - low >= MIN_DIMENSION as real
    ensures high.Floor - low.Floor >= MIN_DIMENSION
  {
    FloorBounds(low);
    FloorBounds(high);
  }

  /** Any box that is returned lies inside the image, contains the whole clamped request, is at least 28 in
      both floored dimensions, and is a valid box of aspect ratio at most 100. */
  lemma ReturnedBox(bbox: Box, width: nat, height: nat)
    requires Resized(bbox, width, height).Some?
    ensures var r := Resized(bbox, width, height).value;
      && Within(r, Image(width, height)) && Within(Clamped(bbox, width, height), r)
      && LargeEnough(r) && Valid(r)
  {
    var b := Clamped(bbox, width, height);
    ClampedInside(bbox, width, height);
    if Small(b) {
      EnlargedExact(b, width, height);
      RoundedExact(Enlarged(b, width, height), width, height);
    }
  }

  /** A valid clamped request that is not small is returned as it is. */
  lemma LargeBoxKept(bbox: Box, width: nat, height: nat)
    requires Valid(Clamped(bbox, width, height)) && !Small(Clamped(bbox, width, height))
    ensures Resized(bbox, width, height) == Some(Clamped(bbox, width, height))
  {
    var b := Clamped(bbox, width, height);
    LargeFloors(b.left, b.right);
    LargeFloors(b.top, b.bottom);
  }

  /** A returned box is returned unchanged when it is requested again. */
  lemma ResizeIdempotent(bbox: Box, width: nat, height: nat)
    requires Resized(bbox, width, height).Some?
    ensures var r := Resized(bbox, width, height).value; Resized(r, width, height) == Some(r)
  {
    var r := Resized(bbox, width, height).value;
    ReturnedBox(bbox, width, height);
    assert Clamped(r, width, height) == r;
    var b := Clamped(bbox, width, height);
    if Small(b) {
      var e := Rounded(Enlarged(b, width, height));
      assert e.left.Floor as real == e.left && e.right.Floor as real == e.right;
      assert e.top.Floor as real == e.top && e.bottom.Floor as real == e.bottom;
    } else {
      LargeBoxKept(bbox, width, height);
    }
    assert !Small(r);
    LargeBoxKept(r, width, height);
  }

  /** A small box whose enlargement fits the image comes back if the rounding of its long side, by up to two
      pixels, cannot take the aspect ratio above 100. */
  lemma SmallBoxEnlarged(bbox: Box, width: nat, height: nat)
    requires var b := Clamped(bbox, width, height);
      && Valid(b) && Small(b)
      && var ratio := Quot(MIN_DIMENSION as real, Min(b.Height(), b.Width()));
         Prod(b.Width(), ratio) <= width as real && Prod(b.Height(), ratio) <= height as real
         && Prod(Max(b.Height(), b.Width()), ratio) <= 100.0 * MIN_DIMENSION as real - 2.0
    ensures Resized(bbox, width, height) ==
      Some(Rounded(Enlarged(Clamped(bbox, width, height), width, height)))
  {
    var b := Clamped(bbox, width, height);
    var w, h := b.Width(), b.Height();
    ClampedInside(bbox, width, height);
    FullFactor(w, h, width, height);
    EnlargedExact(b, width, height);
    var e := Enlarged(b, width, height);
    RoundedExact(e, width, height);
    RoundedLarge(e.left, e.right);
    RoundedLarge(e.top, e.bottom);
    hide Prod;
    hide Quot;
    hide Enlarged;
    hide Factor;
    assert Valid(Rounded(e));
  }

  lemma FullFactor(w: real, h: real, width: nat, height: nat)
    requires w > 0.0 && h > 0.0
    requires var ratio := Quot(MIN_DIMENSION as real, Min(h, w));
      Prod(w, ratio) <= width as real && Prod(h, ratio) <= height as real
    ensures var f := Factor(w, h, width, height);
      && f == Quot(MIN_DIMENSION as real, Min(h, w))
      && Prod(Min(h, w), f) == MIN_DIMENSION as real
      && Prod(w, f) >= MIN_DIMENSION as real && Prod(h, f) >= MIN_DIMENSION as real
  {
    hide Prod;
    hide Quot;
    var ratio := Quot(MIN_DIMENSION as real, Min(h, w));
    Scale(w, width as real, ratio);
    Scale(h, height as real, ratio);
    ProdQuot(Min(h, w), MIN_DIMENSION as real);
    ProdMono(Min(h, w), w, ratio);
    ProdMono(Min(h, w), h, ratio);
  }

  lemma ProdMono(x: real, y: real, f: real)
    requires x <= y && f >= 0.0
    ensures Prod(x, f) <= Prod(y, f)
  {
    assert (y - x) * f >= 0.0;
  }

  lemma RoundedLarge(low: real, high: real)
    requires high - low >= MIN_DIMENSION as real
    ensures Ceil(high) - low.Floor >= MIN_DIMENSION
  {
    FloorBounds(low);
    FloorBounds(high);
  }

  /** Rounding can cost a valid box its validity: 14 by 1400 pixels are enlarged to 28 by 2800, which at a
      half-pixel offset round to 28 by 2801. */
  lemma RoundingRejects()
    ensures var bbox := Box(7.0, 700.5, 21.0, 2100.5);
      Valid(Clamped(bbox, 4000, 4000)) && Resized(bbox, 4000, 4000) == None
  {
    var b := Box(7.0, 700.5, 21.0, 2100.5);
    assert Clamped(b, 4000, 4000) == b;
    assert Quot(28.0, 14.0) == 2.0 && Prod(14.0, 2.0) == 28.0 && Prod(1400.0, 2.0) == 2800.0;
    assert Target(14.0, 1400.0, 4000, 4000) == (28.0, 2800.0);
    assert Enlarged(b, 4000, 4000) == Box(0.0, 0.5, 28.0, 2800.5);
    assert (0.5).Floor == 0 && Ceil(2800.5) == 2801;
    assert Rounded(Box(0.0, 0.5, 28.0, 2800.5)) == Box(0.0, 0.0, 28.0, 2801.0);
  }

  /** In an image smaller than 28 pixels on a side, nothing is returned. */
  lemma TinyImage(bbox: Box, width: nat, height: nat)
    requires width < MIN_DIMENSION || height < MIN_DIMENSION
    ensures Resized(bbox, width, height) == None
  {
    if Resized(bbox, width, height).Some? {
      ReturnedBox(bbox, width, height);
      var r := Resized(bbox, width, height).value;
      FloorBounds(r.left);
      FloorBounds(r.right);
      FloorBounds(r.top);
      FloorBounds(r.bottom);
    }
  }
}
