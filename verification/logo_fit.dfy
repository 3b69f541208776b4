/** Fitting an uploaded logo into the 300 × 100 box every copy is placed in
    (`scaleLogoToFit`). */
module LogoFit {

  /** Natural size of a decoded image, in pixels. */
  datatype ImageSize = ImageSize(width: nat, height: nat)

  const MaxWidth: real := 300.0
  const MaxHeight: real := 100.0

  function Min(a: real, b: real): real {
    if a <= b then a else b
  }

  /** The uniform scale factor for an image of the given natural size: first shrink to the
      maximum width if too wide, then, if the (possibly shrunk) height is still too tall,
      shrink to the maximum height instead. The result never enlarges, and the scaled
      image fits the box. */
  function ScaleLogoToFit(size: ImageSize): (scale: real)
    ensures 0.0 < scale <= 1.0
    ensures size.width as real * scale <= MaxWidth
    ensures size.height as real * scale <= MaxHeight
    ensures scale == 1.0 <==> size.width as real <= MaxWidth && size.height as real <= MaxHeight
  {
    var w := size.width as real;
    var h := size.height as real;
    var s := if w > MaxWidth then MaxWidth / w else 1.0;
    assert 0.0 < s <= 1.0 && w * s <= MaxWidth;
    if h * s > MaxHeight then
      assert h > 0.0;
      assert MaxHeight / h < s by { assert h * (MaxHeight / h) == MaxHeight; }
      assert w * (MaxHeight / h) <= w * s;
      MaxHeight / h
    else
      s
  }

  /** For a non-degenerate image the scale is `min(1, 300/w, 100/h)`. */
  lemma ScaleIsMinimum(size: ImageSize)
    requires size.width > 0 && size.height > 0
    ensures ScaleLogoToFit(size)
         == Min(1.0, Min(MaxWidth / size.width as real, MaxHeight / size.height as real))
  {
    var w := size.width as real;
    var h := size.height as real;
    var s := if w > MaxWidth then MaxWidth / w else 1.0;
    assert w <= MaxWidth ==> MaxWidth / w >= 1.0;
    assert h <= MaxHeight ==> MaxHeight / h >= 1.0;
    assert w > MaxWidth ==> MaxWidth / w < 1.0;
    assert h > MaxHeight ==> MaxHeight / h < 1.0;
    if w > MaxWidth {
      assert h * s > MaxHeight <==> MaxHeight / h < s by {
        assert h * (MaxHeight / h) == MaxHeight;
        assert h * s > MaxHeight <==> h * s > h * (MaxHeight / h);
      }
    }
  }

  /** Maximality: every scale that neither enlarges the image nor lets it overflow the box
      is at most the computed one, so the computed scale is the largest that fits. */
  lemma ScaleIsLargestFit(size: ImageSize, t: real)
    requires 0.0 < t <= 1.0
    requires size.width as real * t <= MaxWidth && size.height as real * t <= MaxHeight
    ensures t <= ScaleLogoToFit(size)
  {
    var w := size.width as real;
    var h := size.height as real;
    var s1 := if w > MaxWidth then MaxWidth / w else 1.0;
    if w > MaxWidth {
      assert t <= s1 by {
        assert w * t <= w * (MaxWidth / w);
      }
    }
    if h * s1 > MaxHeight {
      assert t <= MaxHeight / h by {
        assert h * t <= h * (MaxHeight / h);
      }
    }
  }

}
