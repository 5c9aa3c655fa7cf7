/** The FaceMeasurement class of the view controller's file: two
    stateless estimators over a face rectangle. Neither reads any field,
    so each is a function here.

    Two inputs come from outside the arithmetic: `screenWidth` stands for
    UIScreen.main.bounds.width, and `tanHalfFov` for
    tan(cameraFieldOfView / 2 * pi / 180), the tangent of half the
    camera's field of view in radians. */
module FaceMeasurement {
  import opened Geometry

  /** calculateDistance: a pinhole-camera estimate in centimetres. The
      box's standardized width times the screen width is the face's width
      on screen;
      when that is zero the result is 0 and nothing is divided. */
  function CalculateDistance(boundingBox: Rect, knownFaceWidth: real, screenWidth: real, tanHalfFov: real): (d: real)
    requires tanHalfFov != 0.0
    ensures boundingBox.Width() * screenWidth == 0.0 ==> d == 0.0
  {
    var faceWidthOnScreen := boundingBox.Width() * screenWidth;
    if faceWidthOnScreen == 0.0 then
      0.0
    else
      var knownFaceWidthCm := knownFaceWidth * 100.0;
      (knownFaceWidthCm / faceWidthOnScreen) / (2.0 * tanHalfFov) * screenWidth
  }

  /** Away from the zero guard the screen width cancels: the estimate is
      100 * knownFaceWidth / (2 * tanHalfFov * width). */
  lemma DistanceClosedForm(boundingBox: Rect, knownFaceWidth: real, screenWidth: real, tanHalfFov: real)
    requires tanHalfFov != 0.0
    requires boundingBox.Width() != 0.0 && screenWidth != 0.0
    ensures CalculateDistance(boundingBox, knownFaceWidth, screenWidth, tanHalfFov)
         == 100.0 * knownFaceWidth / (2.0 * tanHalfFov * boundingBox.Width())
  {
    var w, s, t := boundingBox.Width(), screenWidth, tanHalfFov;
    var k := knownFaceWidth * 100.0;
    DistanceUnfold(boundingBox, knownFaceWidth, screenWidth, tanHalfFov);
    CancelScreenWidth(k, w, s, 2.0 * t);
    assert 100.0 * knownFaceWidth == k;
  }

  lemma DistanceUnfold(boundingBox: Rect, knownFaceWidth: real, screenWidth: real, tanHalfFov: real)
    requires tanHalfFov != 0.0
    requires boundingBox.Width() != 0.0 && screenWidth != 0.0
    ensures CalculateDistance(boundingBox, knownFaceWidth, screenWidth, tanHalfFov)
         == (knownFaceWidth * 100.0 / (boundingBox.Width() * screenWidth)) / (2.0 * tanHalfFov) * screenWidth
  {
    assert boundingBox.Width() * screenWidth != 0.0;
  }

  lemma CancelScreenWidth(k: real, w: real, s: real, t2: real)
    requires w != 0.0 && s != 0.0 && t2 != 0.0
    ensures (k / (w * s)) / t2 * s == k / (t2 * w)
  {
    DivideTwice(k, w * s, t2);
    assert w * s * t2 == (t2 * w) * s;
    DivideCancel(k, t2 * w, s);
  }

  lemma DivideTwice(a: real, b: real, c: real)
    requires b != 0.0 && c != 0.0
    ensures (a / b) / c == a / (b * c)
  {
    var q := a / b;
    var r := q / c;
    assert r * c == q && q * b == a;
    assert r * (b * c) == (r * c) * b;
  }

  lemma DivideCancel(a: real, b: real, c: real)
    requires b != 0.0 && c != 0.0
    ensures a / (b * c) * c == a / b
  {
    assert a / (b * c) * (b * c) == a;
    assert (a / (b * c) * c) * b == a;
  }

  /** The estimate does not depend on the screen width at all, so long as
      that width is not zero. */
  lemma DistanceIgnoresScreenWidth(boundingBox: Rect, knownFaceWidth: real, screenWidth1: real, screenWidth2: real, tanHalfFov: real)
    requires tanHalfFov != 0.0
    requires screenWidth1 != 0.0 && screenWidth2 != 0.0
    ensures CalculateDistance(boundingBox, knownFaceWidth, screenWidth1, tanHalfFov)
         == CalculateDistance(boundingBox, knownFaceWidth, screenWidth2, tanHalfFov)
  {
    if boundingBox.Width() != 0.0 {
      DistanceClosedForm(boundingBox, knownFaceWidth, screenWidth1, tanHalfFov);
      DistanceClosedForm(boundingBox, knownFaceWidth, screenWidth2, tanHalfFov);
    }
  }

  /** A face of positive width, of a positive known size, seen through a
      lens with a positive half-angle tangent, is at a positive distance. */
  lemma DistancePositive(boundingBox: Rect, knownFaceWidth: real, screenWidth: real, tanHalfFov: real)
    requires tanHalfFov > 0.0 && knownFaceWidth > 0.0
    requires boundingBox.Width() > 0.0 && screenWidth != 0.0
    ensures CalculateDistance(boundingBox, knownFaceWidth, screenWidth, tanHalfFov) > 0.0
  {
    DistanceClosedForm(boundingBox, knownFaceWidth, screenWidth, tanHalfFov);
    assert 2.0 * tanHalfFov * boundingBox.Width() > 0.0;
  }

  /** A wider face is strictly nearer. */
  lemma DistanceDecreasing(box1: Rect, box2: Rect, knownFaceWidth: real, screenWidth: real, tanHalfFov: real)
    requires tanHalfFov > 0.0 && knownFaceWidth > 0.0 && screenWidth != 0.0
    requires 0.0 < box1.Width() < box2.Width()
    ensures CalculateDistance(box2, knownFaceWidth, screenWidth, tanHalfFov)
          < CalculateDistance(box1, knownFaceWidth, screenWidth, tanHalfFov)
  {
    DistanceClosedForm(box1, knownFaceWidth, screenWidth, tanHalfFov);
    DistanceClosedForm(box2, knownFaceWidth, screenWidth, tanHalfFov);
    ClosedFormDecreasing(100.0 * knownFaceWidth, tanHalfFov, box1.Width(), box2.Width());
  }

  lemma ClosedFormDecreasing(k: real, t: real, w1: real, w2: real)
    requires k > 0.0 && t > 0.0 && 0.0 < w1 < w2
    ensures k / (2.0 * t * w2) < k / (2.0 * t * w1)
  {
    ScaleMonotone(2.0 * t, w1, w2);
    DivideAntitone(k, 2.0 * t * w1, 2.0 * t * w2);
  }

  lemma ScaleMonotone(t: real, a: real, b: real)
    requires t > 0.0 && 0.0 < a < b
    ensures 0.0 < t * a < t * b
  {
    assert t * b - t * a == t * (b - a);
  }

  lemma DivideAntitone(k: real, a: real, b: real)
    requires k > 0.0 && 0.0 < a < b
    ensures k / b < k / a
  {
    assert k / b * b == k && k / a * a == k;
  }

  /** A box 0.2 wide on a 1000-point screen, with the known face width of
      0.14 m the view controller passes, is 35 / tanHalfFov cm away (about
      60.6 cm for a 60 degree field of view). */
  lemma DistanceExample(boundingBox: Rect, tanHalfFov: real)
    requires tanHalfFov != 0.0 && boundingBox.Width() == 0.2
    ensures CalculateDistance(boundingBox, 0.14, 1000.0, tanHalfFov) == 35.0 / tanHalfFov
  {
    DistanceClosedForm(boundingBox, 0.14, 1000.0, tanHalfFov);
    assert 100.0 * 0.14 / (2.0 * tanHalfFov * 0.2) == 14.0 / (0.4 * tanHalfFov);
  }

  /** calculateAngle: the box's horizontal centre, scaled by the view's
      width, taken relative to the middle of the view and divided by half
      the width; from that ratio the source subtracts 360. The view width
      cancels: the result is 2 * midX - 1 - 360. */
  function CalculateAngle(boundingBox: Rect, viewSize: Size): (a: real)
    requires viewSize.width != 0.0
    ensures a == 2.0 * boundingBox.MidX() - 1.0 - 360.0
  {
    var faceCenterX := boundingBox.MidX();
    var facePositionInScreen := faceCenterX * viewSize.width;
    var distanceFromCenter := facePositionInScreen - viewSize.width / 2.0;
    var normalizedDistance := distanceFromCenter / (viewSize.width / 2.0);
    assert normalizedDistance == 2.0 * faceCenterX - 1.0 by {
      DivideExact(distanceFromCenter, viewSize.width / 2.0, 2.0 * faceCenterX - 1.0);
    }
    normalizedDistance - 360.0
  }

  lemma DivideExact(a: real, b: real, q: real)
    requires b != 0.0 && q * b == a
    ensures a / b == q
  {
    assert (a / b) * b == a;
    assert (a / b - q) * b == 0.0;
  }

  /** The angle depends on the box only through its horizontal centre and
      not on the view's size at all. */
  lemma AngleDependsOnlyOnMidX(box1: Rect, box2: Rect, viewSize1: Size, viewSize2: Size)
    requires viewSize1.width != 0.0 && viewSize2.width != 0.0
    requires box1.MidX() == box2.MidX()
    ensures CalculateAngle(box1, viewSize1) == CalculateAngle(box2, viewSize2)
  {
  }

  /** The range the source's comments have in mind: for a centre given as
      a fraction of the width, inside [0, 1], the result lies in
      [-361, -359], and a centre of 0.5 gives -360. The view controller
      never passes such a fraction: it passes the squared rect in points
      (see Overlay.PassAngleInPoints). */
  lemma AngleRange(boundingBox: Rect, viewSize: Size)
    requires viewSize.width != 0.0
    requires 0.0 <= boundingBox.MidX() <= 1.0
    ensures -361.0 <= CalculateAngle(boundingBox, viewSize) <= -359.0
    ensures boundingBox.MidX() == 0.5 ==> CalculateAngle(boundingBox, viewSize) == -360.0
  {
  }
}
