/** Exactly when the zoom-in tool rejects a small box that it could enlarge: what rounding does to it. */
module BoxRounding {
  import opened Options
  import opened BoundingBox

  function Frac(x: real): real {
    x - x.Floor as real
  }

  /** The pixels that a side covers after rounding outwards. */
  function Pixels(start: real, size: real): int {
    Ceil(start + size) - start.Floor
  }

  lemma PixelsAtLeast(start: real, size: real, n: int)
    ensures Pixels(start, size) >= n <==> Frac(start) + size > n as real - 1.0
  {
    FloorBounds(start);
    FloorBounds(start + size);
    var c, f := Ceil(start + size), start.Floor;
    assert c >= n + f <==> start + size > (n + f) as real - 1.0 by {
      if c >= n + f {
        assert c as real >= (n + f) as real;
      } else {
        assert c as real <= (n + f - 1) as real;
      }
    }
  }

  // ---------- Both axes alike ----------

  function Transposed(b: Box): Box {
    Box(b.top, b.left, b.bottom, b.right)
  }

  lemma FactorTransposed(w: real, h: real, width: nat, height: nat)
    requires w > 0.0 && h > 0.0
    ensures Factor(w, h, width, height) == Factor(h, w, height, width)
  {
    assert Min(h, w) == Min(w, h);
  }

  lemma ImageNotEmpty(b: Box, width: nat, height: nat)
    requires Valid(b) && Within(b, Image(width, height))
    ensures width > 0 && height > 0 && b.Width() > 0.0 && b.Height() > 0.0
  {}

  /** The enlarged box, written out. */
  lemma EnlargedParts(b: Box, width: nat, height: nat)
    requires Valid(b) && Within(b, Image(width, height))
    ensures b.Width() > 0.0 && b.Height() > 0.0
    ensures var f := Factor(b.Width(), b.Height(), width, height);
      var tw, th := Prod(b.Width(), f), Prod(b.Height(), f);
      var left, top := Placed((b.left + b.right) / 2.0, tw, width as real), Placed((b.top + b.bottom) / 2.0, th, height as real);
      Enlarged(b, width, height) == Box(left, top, left + tw, top + th)
  {
    ImageNotEmpty(b, width, height);
    hide *;
    EnlargedIs(b, width, height);
    TargetIsScaled(b.Width(), b.Height(), width, height);
  }

  lemma EnlargedTransposed(b: Box, width: nat, height: nat)
    requires Valid(b) && Within(b, Image(width, height))
    ensures Valid(Transposed(b)) && Within(Transposed(b), Image(height, width))
    ensures b.Width() > 0.0 && b.Height() > 0.0
    ensures Enlarged(Transposed(b), height, width) == Transposed(Enlarged(b, width, height))
  {
    assert Valid(Transposed(b)) && Within(Transposed(b), Image(height, width));
    EnlargedParts(b, width, height);
    EnlargedParts(Transposed(b), height, width);
    FactorTransposed(b.Width(), b.Height(), width, height);
    hide Enlarged;
    hide Placed;
    hide Factor;
    hide Prod;
  }

  /** The tool treats the two axes alike. */
  lemma ResizedTransposed(bbox: Box, width: nat, height: nat)
    ensures Resized(Transposed(bbox), height, width) ==
      match Resized(bbox, width, height)
      case None => None
      case Some(r) => Some(Transposed(r))
  {
    var b := Clamped(bbox, width, height);
    assert Clamped(Transposed(bbox), height, width) == Transposed(b);
    if Valid(b) {
      ClampedInside(bbox, width, height);
      if Small(b) {
        EnlargedTransposed(b, width, height);
      }
    }
    hide Enlarged;
  }

  // ---------- The rejected boxes ----------

  /** Start and size of the short and the long side of the enlarged box, and the image along the long one. */
  datatype Sides = Sides(shortStart: real, shortSize: real, longStart: real, longSize: real, longLimit: nat)

  function SidesOf(b: Box, width: nat, height: nat): Sides
    requires b.Width() > 0.0 && b.Height() > 0.0
  {
    var f := Factor(b.Width(), b.Height(), width, height);
    var tw, th := Prod(b.Width(), f), Prod(b.Height(), f);
    var left, top := Placed((b.left + b.right) / 2.0, tw, width as real), Placed((b.top + b.bottom) / 2.0, th, height as real);
    if b.Width() <= b.Height() then Sides(left, tw, top, th, height) else Sides(top, th, left, tw, width)
  }

  /** An enlargement that fits has a short side of 28. It is rejected if the short side falls on whole pixels
      and the long one, after rounding, covers more than 2800. One that does not fit is rejected if the image
      is too small along the long side, or the short side covers too few pixels. */
  predicate Rejected(z: Sides) {
    if z.shortSize == MIN_DIMENSION as real then
      Frac(z.shortStart) == 0.0 && Frac(z.longStart) + z.longSize > 2800.0
    else
      z.longLimit < MIN_DIMENSION || Frac(z.shortStart) + z.shortSize <= 27.0
  }

  /** The final checks, in pixels. */
  lemma RejectedByPixels(bbox: Box, width: nat, height: nat)
    requires var b := Clamped(bbox, width, height); Valid(b) && Small(b) && b.Width() > 0.0 && b.Height() > 0.0
    ensures var e := Enlarged(Clamped(bbox, width, height), width, height);
      var w, h := Pixels(e.left, e.Width()), Pixels(e.top, e.Height());
      Resized(bbox, width, height) == None <==>
        w < MIN_DIMENSION || h < MIN_DIMENSION || w > 100 * h || h > 100 * w
  {
    var e := Enlarged(Clamped(bbox, width, height), width, height);
    hide Enlarged;
    PixelsOf(e);
  }

  lemma PixelsOf(e: Box)
    ensures var r, w, h := Rounded(e), Pixels(e.left, e.Width()), Pixels(e.top, e.Height());
      && r.Width() == w as real && r.Height() == h as real
      && (LargeEnough(r) <==> w >= MIN_DIMENSION && h >= MIN_DIMENSION)
      && (w > 0 && h > 0 ==> (Valid(r) <==> w <= 100 * h && h <= 100 * w))
  {
    assert e.left + e.Width() == e.right && e.top + e.Height() == e.bottom;
    var r := Rounded(e);
    assert r.left.Floor == e.left.Floor && r.right.Floor == Ceil(e.right);
    assert r.top.Floor == e.top.Floor && r.bottom.Floor == Ceil(e.bottom);
  }

  /** What the factor leaves for the two sides. */
  lemma SidesBounds(b: Box, width: nat, height: nat)
    requires Valid(b) && Small(b) && Within(b, Image(width, height)) && b.Width() <= b.Height()
    ensures b.Width() > 0.0
    ensures var z := SidesOf(b, width, height);
      && z.shortSize <= MIN_DIMENSION as real && z.shortSize <= z.longSize <= 100.0 * z.shortSize
      && (z.shortSize < MIN_DIMENSION as real ==>
            (z.longSize == height as real && z.longStart == 0.0) ||
            (z.shortSize == width as real && z.shortStart == 0.0))
  {
    ImageNotEmpty(b, width, height);
    var w, h := b.Width(), b.Height();
    var f := Factor(w, h, width, height);
    FactorBounds(w, h, width, height);
    ProdQuot(w, MIN_DIMENSION as real);
    ProdQuot(w, width as real);
    ProdQuot(h, height as real);
    LongShort(w, h, f);
  }

  lemma LongShort(w: real, h: real, f: real)
    requires 0.0 < w <= h <= 100.0 * w && f >= 1.0
    ensures Prod(w, f) <= Prod(h, f) <= 100.0 * Prod(w, f)
  {
    ProdMono(w, h, f);
    ProdMono(h, 100.0 * w, f);
    assert 100.0 * w * f == 100.0 * (w * f);
  }

  lemma RejectedTall(bbox: Box, width: nat, height: nat)
    requires var b := Clamped(bbox, width, height); Valid(b) && Small(b) && b.Width() <= b.Height()
    ensures var b := Clamped(bbox, width, height);
      b.Width() > 0.0 && (Resized(bbox, width, height) == None <==> Rejected(SidesOf(b, width, height)))
  {
    var b := Clamped(bbox, width, height);
    ClampedInside(bbox, width, height);
    ImageNotEmpty(b, width, height);
    SidesBounds(b, width, height);
    EnlargedParts(b, width, height);
    var e, z := Enlarged(b, width, height), SidesOf(b, width, height);
    assert e.left == z.shortStart && e.Width() == z.shortSize && e.top == z.longStart && e.Height() == z.longSize;
    RejectedByPixels(bbox, width, height);
    hide *;
    RejectedSides(z, width);
  }

  /** The pixels of the two sides against the closed condition. */
  lemma RejectedSides(z: Sides, shortLimit: nat)
    requires z.shortSize <= MIN_DIMENSION as real && z.shortSize <= z.longSize <= 100.0 * z.shortSize
    requires z.shortSize < MIN_DIMENSION as real ==>
      (z.longSize == z.longLimit as real && z.longStart == 0.0) || (z.shortSize == shortLimit as real && z.shortStart == 0.0)
    ensures var w, h := Pixels(z.shortStart, z.shortSize), Pixels(z.longStart, z.longSize);
      Rejected(z) <==> w < MIN_DIMENSION || h < MIN_DIMENSION || w > 100 * h || h > 100 * w
  {
    FloorBounds(z.shortStart);
    FloorBounds(z.longStart);
    PixelsAtLeast(z.shortStart, z.shortSize, 28);
    PixelsAtLeast(z.shortStart, z.shortSize, 29);
    PixelsAtLeast(z.shortStart, z.shortSize, 30);
    PixelsAtLeast(z.longStart, z.longSize, 28);
    PixelsAtLeast(z.longStart, z.longSize, 2801);
    PixelsAtLeast(z.longStart, z.longSize, 2802);
    hide Pixels;
    if z.shortSize < MIN_DIMENSION as real && z.longSize == z.longLimit as real && z.longStart == 0.0 {
      WholePixels(z.longLimit);
    }
  }

  lemma WholePixels(n: nat)
    ensures Pixels(0.0, n as real) == n
  {
    PixelsAtLeast(0.0, n as real, n);
    PixelsAtLeast(0.0, n as real, n + 1);
  }

  /** Which small boxes come back empty-handed: for every valid clamped box that is small, in both
      orientations, whether or not its enlargement fits the image. */
  lemma RejectedIff(bbox: Box, width: nat, height: nat)
    requires Valid(Clamped(bbox, width, height)) && Small(Clamped(bbox, width, height))
    ensures var b := Clamped(bbox, width, height);
      b.Width() > 0.0 && b.Height() > 0.0 &&
      (Resized(bbox, width, height) == None <==> Rejected(SidesOf(b, width, height)))
  {
    var b := Clamped(bbox, width, height);
    if b.Width() <= b.Height() {
      RejectedTall(bbox, width, height);
    } else {
      var tb := Clamped(Transposed(bbox), height, width);
      assert tb == Transposed(b);
      RejectedTall(Transposed(bbox), height, width);
      ResizedTransposed(bbox, width, height);
      FactorTransposed(b.Width(), b.Height(), width, height);
      hide Resized;
      hide Rejected;
      assert SidesOf(tb, height, width) == SidesOf(b, width, height);
    }
  }
}
