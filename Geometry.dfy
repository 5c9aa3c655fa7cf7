/** Rectangles in the sense of Core Graphics' CGRect, over exact reals,
    and the two geometric steps the view controller applies to every
    face the detector reports: scaling a normalized box to the preview
    layer (transformBoundingBox) and making the result square. */
module Geometry {

  /** An origin (x, y) and a size (width, height), as CGRect stores them.
      The stored size may be negative; the getters Width and Height are
      CGRect's standardized width and height, which the view controller
      reads. The centre is the same for the stored and the standardized
      rect. */
  datatype Rect = Rect(x: real, y: real, width: real, height: real) {
    function Width(): real { Abs(width) }
    function Height(): real { Abs(height) }
    function MidX(): real { x + width / 2.0 }
    function MidY(): real { y + height / 2.0 }
    function MaxX(): real { x + width }
    function MaxY(): real { y + height }
  }

  datatype Size = Size(width: real, height: real)

  function Max(a: real, b: real): real { if a < b then b else a }

  function Abs(a: real): real { if a < 0.0 then -a else a }

  /** Swift's Int(_: CGFloat): rounds toward zero. */
  function TruncateToInt(r: real): (n: int)
    ensures r >= 0.0 ==> 0 <= n && n as real <= r < n as real + 1.0
    ensures r < 0.0 ==> n <= 0 && n as real - 1.0 < r <= n as real
    ensures Abs(n as real) <= Abs(r)
  {
    if r >= 0.0 then r.Floor else -((-r).Floor)
  }

  /** The region of a normalized box inside an image of the given pixel
      size (VNImageRectForNormalizedRect, taken as plain scaling): the
      centre is scaled by the image size, and so is a size that is not
      negative. */
  function ScaleNormalized(box: Rect, imageWidth: int, imageHeight: int): (r: Rect)
    ensures r.MidX() == box.MidX() * imageWidth as real
    ensures r.MidY() == box.MidY() * imageHeight as real
    ensures box.width >= 0.0 && imageWidth >= 0 ==> r.width >= 0.0 && r.Width() == box.Width() * imageWidth as real
    ensures box.height >= 0.0 && imageHeight >= 0 ==> r.height >= 0.0 && r.Height() == box.Height() * imageHeight as real
  {
    var w, h := imageWidth as real, imageHeight as real;
    assert (box.x + box.width / 2.0) * w == box.x * w + (box.width * w) / 2.0;
    assert (box.y + box.height / 2.0) * h == box.y * h + (box.height * h) / 2.0;
    Rect(box.x * w, box.y * h, box.width * w, box.height * h)
  }

  /** The inverse of ScaleNormalized: the box as fractions of the image. */
  function Normalize(rect: Rect, imageWidth: int, imageHeight: int): Rect
    requires imageWidth != 0 && imageHeight != 0
  {
    var w, h := imageWidth as real, imageHeight as real;
    Rect(rect.x / w, rect.y / h, rect.width / w, rect.height / h)
  }

  /** transformBoundingBox: the preview layer's size, in points, is first
      truncated to whole points, then the normalized box is scaled by it.
      For a box and preview of non-negative size the result has
      non-negative size, and the truncation loses less than one box
      width (height) against exact scaling by the preview size. */
  function TransformBoundingBox(box: Rect, previewSize: Size): (r: Rect)
    ensures box.width >= 0.0 && previewSize.width >= 0.0 ==>
              0.0 <= r.width && Within(r.width, box.width * previewSize.width, box.width)
    ensures box.height >= 0.0 && previewSize.height >= 0.0 ==>
              0.0 <= r.height && Within(r.height, box.height * previewSize.height, box.height)
  {
    var w, h := TruncateToInt(previewSize.width), TruncateToInt(previewSize.height);
    var r := ScaleNormalized(box, w, h);
    assert box.width >= 0.0 && previewSize.width >= 0.0 ==>
             0.0 <= r.width && Within(r.width, box.width * previewSize.width, box.width) by {
      if box.width >= 0.0 && previewSize.width >= 0.0 {
        TruncationLoss(box.width, previewSize.width);
      }
    }
    assert box.height >= 0.0 && previewSize.height >= 0.0 ==>
             0.0 <= r.height && Within(r.height, box.height * previewSize.height, box.height) by {
      if box.height >= 0.0 && previewSize.height >= 0.0 {
        TruncationLoss(box.height, previewSize.height);
      }
    }
    r
  }

  /** x lies between target - tolerance and target. */
  predicate Within(x: real, target: real, tolerance: real)
  {
    target - tolerance <= x <= target
  }

  /** Scaling a non-negative length by the truncation of a non-negative
      size p instead of by p itself loses at most the length. */
  lemma TruncationLoss(a: real, p: real)
    requires a >= 0.0 && p >= 0.0
    ensures 0.0 <= a * (TruncateToInt(p) as real) && Within(a * (TruncateToInt(p) as real), a * p, a)
  {
    var n := TruncateToInt(p) as real;
    assert 0.0 <= n <= p < n + 1.0;
    assert a * p - a * n == a * (p - n);
    assert 0.0 <= p - n <= 1.0;
    assert 0.0 <= a * (p - n) <= a * 1.0;
  }

  /** Transforming a box and normalizing it again by the same whole-point
      size gives the box back. */
  lemma TransformRoundTrip(box: Rect, previewSize: Size)
    requires TruncateToInt(previewSize.width) != 0 && TruncateToInt(previewSize.height) != 0
    ensures Normalize(TransformBoundingBox(box, previewSize),
                      TruncateToInt(previewSize.width), TruncateToInt(previewSize.height)) == box
  {
    var w, h := TruncateToInt(previewSize.width) as real, TruncateToInt(previewSize.height) as real;
    assert box.x * w / w == box.x;
    assert box.y * h / h == box.y;
    assert box.width * w / w == box.width;
    assert box.height * h / h == box.height;
  }

  /** With a preview layer measuring whole points, the transformation is
      exactly a scaling by that size; otherwise the fraction is lost. */
  lemma TransformWholePoints(box: Rect, previewSize: Size, w: nat, h: nat)
    requires previewSize == Size(w as real, h as real)
    ensures TransformBoundingBox(box, previewSize)
         == Rect(box.x * previewSize.width, box.y * previewSize.height,
                 box.width * previewSize.width, box.height * previewSize.height)
  {
    assert TruncateToInt(previewSize.width) == w;
    assert TruncateToInt(previewSize.height) == h;
  }

  /** The squaring block of handleDetectedFaces, on the standardized
      width and height: the shorter side grows to the longer one, and the
      origin along that side moves back by half the growth. A tie takes
      the second branch with a shift of zero. For a rect of non-negative
      size the centre stays put and the square covers the rect; with a
      negative stored size only the side that is assigned becomes
      non-negative. */
  function Squared(r: Rect): (s: Rect)
    ensures s.Width() == s.Height() == Max(r.Width(), r.Height())
    ensures r.Width() > r.Height() ==> s.x == r.x && s.width == r.width && s.height >= 0.0
    ensures r.Width() <= r.Height() ==> s.y == r.y && s.height == r.height && s.width >= 0.0
    ensures r.width >= 0.0 && r.height >= 0.0 ==>
              s.width == s.height && s.MidX() == r.MidX() && s.MidY() == r.MidY() && Contains(s, r)
    ensures r.width == r.height >= 0.0 ==> s == r
  {
    var w, h := r.Width(), r.Height();
    if w > h then
      r.(y := r.y - (w - h) / 2.0).(height := w)
    else
      r.(x := r.x - (h - w) / 2.0).(width := h)
  }

  /** `outer` covers `inner` (both with non-negative sizes). */
  predicate Contains(outer: Rect, inner: Rect)
  {
    outer.x <= inner.x && inner.MaxX() <= outer.MaxX() &&
    outer.y <= inner.y && inner.MaxY() <= outer.MaxY()
  }

  /** Squaring a squared rect takes the tie branch: it only makes the
      stored width non-negative, so for a rect of non-negative size it
      changes nothing. */
  lemma SquaredIdempotent(r: Rect)
    ensures Squared(Squared(r)) == Squared(r).(width := Squared(r).Height())
    ensures r.width >= 0.0 && r.height >= 0.0 ==> Squared(Squared(r)) == Squared(r)
  {
  }
}
