# FaceTracking overlay and measurements, modelled in Dafny

The FaceTracking app is one UIKit view controller. The camera feeds it
frames and the Vision framework reports face rectangles for each frame.
For every face the controller draws a round marker (a `FaceView`) and
overwrites one info label with an estimate of the face's distance and
angle. This project models the deterministic part of that work over exact
reals and proves its properties:

- **Geometry** (`Geometry.dfy`). A `Rect` datatype holds a `CGRect`'s
  stored origin and size. Its getters `Width()` and `Height()` are the
  standardized `CGRect.width` and `CGRect.height` (the magnitude of the
  stored size), which the code reads. The module has `transformBoundingBox`,
  which truncates the preview layer's size to whole points with `Int(_:)`
  and scales the normalized box by it. It also has the squaring block of
  `handleDetectedFaces`.
- **FaceMeasurement** (`FaceMeasurement.dfy`). These are the two
  estimators written as functions: the pinhole distance with its
  zero-width guard, and the angle with its final `- 360` kept as written.
- **Overlay** (`Overlay.dfy`). This states, as functions on a `Screen`
  value, what one detection pass and one completion of the Vision request
  do to the screen. A `Screen` holds the subviews, the info label and the
  status label. The lemmas prove that a pass replaces the markers and never
  merges them, that other subviews are kept, which face the label shows,
  and that the label is created at most once.
- **FaceTracking** (`ViewController.dfy`). This is the `ViewController`
  class with the fields that a pass updates in place. Its methods do the
  source's steps one at a time: the `forEach` that removes markers, the
  in-place squaring of `var faceRect`, the lazy creation of the label, and
  the completion handler. Each method is proved to produce the state that
  the Overlay functions describe.

Inputs from outside the arithmetic are parameters, collected in
`Overlay.Env`:
- the preview layer's size;
- the root view's size;
- `UIScreen.main.bounds.width` (`screenWidth`);
- `tan(cameraFieldOfView / 2 * .pi / 180)` (`tanHalfFov`). The source
  always calls this with a field of view of 60°.

The detector is an input too. It completes with an error, with a list of
normalized boxes, or with results that are not face observations.

Behaviour kept exactly as the code has it:
- Squaring a rect whose width equals its height takes the second branch,
  with a shift of zero.
- `calculateDistance` receives the squared rect in view points, not a
  fraction, and multiplies its width by the screen width anyway. The
  screen width then cancels: the estimate is
  `100 * knownFaceWidth / (2 * tanHalfFov * width)`
  (`DistanceIgnoresScreenWidth`).
- The angle is `2 * midX - 1 - 360` for any non-zero view width. The
  comments of `calculateAngle` treat `midX` as a fraction of the width in
  [0, 1], where the result would lie in [-361, -359] (`AngleRange`). The
  caller passes the squared rect in preview points instead. So a pass shows
  `2 * midX - 361` with `midX` in points, and a face centred in the root
  view gets `viewSize.width - 361` (`PassAngleInPoints`).
- A box 0.1 wide and 0.2 high at (0.4, 0.4) in a 1000 × 1000 preview is
  taller than wide. The code therefore moves `origin.x` back by 50 and
  widens the box to 200. It does not grow the height (`SquaringExample`).
- With a negative stored size, the squaring compares and assigns the
  standardized sizes. Only the side it assigns becomes non-negative, and
  the centre can move (`Squared`).
- The label shows the distance times 1000. The source's own comments say
  the distance is already in centimetres.
- The info label view is added to the subviews while the first face of the
  first non-empty pass is handled. It therefore sits between that pass's
  first and second markers (`PassLayout`, `FirstPassLayout`). Later passes never remove
  it, because it is not a `FaceView`.
- An empty pass removes the markers but leaves the info label showing the
  last face of an earlier pass (`PassEmpty`).
- `statusLabel` is never assigned in this file, so
  `statusLabel?.text = …` changes nothing unless a status label exists.
  The model keeps this as an `Option`.

## Model

| member | source | states |
|---|---|---|
| `Geometry.TruncateToInt` | FaceTracking/ViewController.swift:163 | `Int(size.width)` rounds toward zero: for r ≥ 0 the result n satisfies 0 ≤ n ≤ r < n+1; for r < 0 it satisfies n-1 < r ≤ n ≤ 0; and \|n\| ≤ \|r\| |
| `Geometry.ScaleNormalized` | FaceTracking/ViewController.swift:163 | scaling a normalized box by an image size scales its centre by that size, and a non-negative width or height stays non-negative and is scaled by it |
| `Geometry.TransformBoundingBox` | FaceTracking/ViewController.swift:158-165 | for a box and preview of non-negative size the result has non-negative size, and its width (height) lies between `width*previewWidth - width` and `width*previewWidth`: truncating to whole points loses less than one box width |
| `Geometry.TransformRoundTrip` | FaceTracking/ViewController.swift:158-165 | normalizing the transformed box again by the same truncated preview size gives back the detector's box |
| `Geometry.TransformWholePoints` | FaceTracking/ViewController.swift:158-165 | when the preview size is whole points, the transformation is exactly `x*w, y*h, width*w, height*h` |
| `Geometry.Squared` | FaceTracking/ViewController.swift:118-124 | compares and assigns the standardized sizes: the result's standardized width and height both equal the larger of the two; the wider case keeps `x` and the stored width and makes the height non-negative; the other case keeps `y` and the stored height and makes the width non-negative; for a rect of non-negative size the result is a square with the same centre that covers the rect, and a square is unchanged |
| `Geometry.SquaredIdempotent` | FaceTracking/ViewController.swift:118-124 | squaring a squared rect only makes its stored width non-negative; for a rect of non-negative size it changes nothing |
| `FaceMeasurement.CalculateDistance` | FaceTracking/ViewController.swift:196-211 | returns exactly 0 when `width * screenWidth == 0` (standardized width), which is the guard branch where nothing is divided |
| `FaceMeasurement.DistanceClosedForm` | FaceTracking/ViewController.swift:206-209 | away from the guard the estimate equals `100*knownFaceWidth / (2*tanHalfFov*width)` |
| `FaceMeasurement.DistanceIgnoresScreenWidth` | FaceTracking/ViewController.swift:198-209 | any two non-zero screen widths give the same estimate |
| `FaceMeasurement.DistancePositive` | FaceTracking/ViewController.swift:206-210 | non-zero width and positive known face width and tangent give a strictly positive distance |
| `FaceMeasurement.DistanceDecreasing` | FaceTracking/ViewController.swift:206-210 | a strictly wider face gets a strictly smaller distance |
| `FaceMeasurement.DistanceExample` | FaceTracking/ViewController.swift:196-211 | width 0.2, screen width 1000 and known width 0.14 give `35 / tanHalfFov` |
| `FaceMeasurement.CalculateAngle` | FaceTracking/ViewController.swift:238-254 | for a non-zero view width the result is `2*midX - 1 - 360` |
| `FaceMeasurement.AngleDependsOnlyOnMidX` | FaceTracking/ViewController.swift:238-254 | the angle depends only on the box's `midX`; the view's size and the box's height and y do not matter |
| `FaceMeasurement.AngleRange` | FaceTracking/ViewController.swift:239-253 | if `midX` were the width ratio in [0, 1] that the comments assume, the angle would lie in [-361, -359], and -360 at 0.5 |
| `Overlay.FaceRect` | FaceTracking/ViewController.swift:116-124 | a marker's frame has equal standardized width and height; for a box and preview of non-negative size it is a square of side max(width, height) of the transformed box, with that box's centre, covering it |
| `Overlay.UpdateInfoLabel` | FaceTracking/ViewController.swift:140-155 | the label view is appended only when there was no label; the label's frame has the face rect's x and width, is 30 high and ends where the face rect begins; it shows distance×1000 and the angle; the status text is untouched; label consistency is kept |
| `Overlay.AddFace` | FaceTracking/ViewController.swift:115-135 | one face appends its marker, then the label view if no label existed; the label then sits on this face and shows `2*midX - 361` of its squared rect; the status text is untouched; label consistency is kept |
| `Overlay.RemoveFaceViews` | FaceTracking/ViewController.swift:108-112 | removing markers never lengthens the subview list |
| `Overlay.AddFaces` | FaceTracking/ViewController.swift:115-136 | the per-face loop leaves the status text unchanged, adds at least one subview per face, and leaves a label exactly when one existed or a face was shown |
| `Overlay.HandleDetectedFaces` | FaceTracking/ViewController.swift:105-138 | a pass never touches the status text; the label exists afterwards exactly when it existed before or a face was detected; an empty pass leaves the label as it was |
| `Overlay.OnCompletion` | FaceTracking/ViewController.swift:88-101 | a detector error changes only the status text, which becomes the error message if a status label exists; face results never touch the status text; results that are not face observations change nothing |
| `Overlay.PassFaceViews` | FaceTracking/ViewController.swift:105-136 | after a pass over N faces the subviews hold exactly N markers; marker i has frame `Squared(TransformBoundingBox(face i))`; they are in detector order; no earlier marker survives |
| `Overlay.PassKeepsOtherViews` | FaceTracking/ViewController.swift:108-148 | the non-marker subviews after a pass are those before it, in the same order, plus the info label view if this pass created it |
| `Overlay.PassLayout` | FaceTracking/ViewController.swift:105-148 | the subviews after a pass, back to front: the old non-marker views, the first face's marker, the label view if this pass created it, then the other faces' markers in detector order |
| `Overlay.PassLabel` | FaceTracking/ViewController.swift:131-153 | after a non-empty pass the label's frame is `(x, y-30, width, 30)` of the last face's squared rect, and it shows that face's distance (known width 0.14) times 1000 and its angle |
| `Overlay.PassAngleInPoints` | FaceTracking/ViewController.swift:131-132 | after a non-empty pass the angle shown is `2*midX - 361` with `midX` of the last squared rect in points, so a face centred in the root view gets `viewSize.width - 361` |
| `Overlay.PassEmpty` | FaceTracking/ViewController.swift:105-136 | a pass with no faces removes the markers and leaves the label and status text unchanged |
| `Overlay.PassKeepsLabelConsistent` | FaceTracking/ViewController.swift:142-148 | the label is a subview exactly when it exists, and at most once; a pass adds the label view once, on the first non-empty pass, and never again |
| `Overlay.FirstPassLayout` | FaceTracking/ViewController.swift:115-148 | a first pass with two faces on an empty screen yields the subviews [marker 0, info label, marker 1] |
| `Overlay.SquaringExample` | FaceTracking/ViewController.swift:116-124 | the box (0.4, 0.4, 0.1, 0.2) in a 1000×1000 preview becomes the square (350, 400, 200, 200) |
| `FaceTracking.ViewController.constructor` | FaceTracking/ViewController.swift:6-12 | starts with no info label, the given subviews and status label, and the invariant established |
| `FaceTracking.ViewController.UpdateInfoLabel` | FaceTracking/ViewController.swift:140-155 | the label view is appended to the subviews only if there was no label; the label's frame becomes `(x, y-30, width, 30)`; its numbers become distance×1000 and the angle; the status label is untouched |
| `FaceTracking.ViewController.RemoveFaceViewsInPlace` | FaceTracking/ViewController.swift:108-112 | the `forEach` removal leaves exactly `RemoveFaceViews` of the old subviews, and the labels are untouched |
| `FaceTracking.ViewController.ShowFace` | FaceTracking/ViewController.swift:115-136 | the in-place squaring, the appended marker and the label update together give the state `AddFace` of the old state and the face |
| `FaceTracking.ViewController.HandleDetectedFaces` | FaceTracking/ViewController.swift:105-138 | the new state is `Overlay.HandleDetectedFaces` of the old state, and the label invariant is kept |
| `FaceTracking.ViewController.CompletionHandler` | FaceTracking/ViewController.swift:88-101 | the new state is `OnCompletion` of the old state for an error, for face observations, and for other results |

## Left out

- Camera session setup, the preview layer and UI layout (`setupCamera`, `setupPreviewLayer`, `setupUI`, lines 24-78). These are AVFoundation and UIKit input/output. The preview layer's and root view's sizes are inputs (`Env`).
- Frame intake and the Vision request (`captureOutput`, lines 79-103). These are calls into frameworks. The detector's outcome is the input `Completion`. Dropping late frames is `alwaysDiscardsLateVideoFrames` (line 39), which is framework behaviour.
- `DispatchQueue.main.async` hops and the `[weak self]` capture (lines 88-106). Their point is concurrency. A pass is one atomic step, and the case where the controller is gone (an early return) is not modelled.
- `FaceView.draw` (lines 178-189). This is rendering.
- The `%.2f` formatting of the label text (line 153). The label holds the two numbers it prints.
- `CGFloat` floating point, `tan`, `.pi` and `UIScreen` are not modelled. Reals are used, and the tangent and the screen width are parameters.
- `Int(_:)` trapping on a size outside `Int`'s range and the force unwrap of `previewLayer` (lines 162-163) are not modelled.
- `VNImageRectForNormalizedRect` is taken as plain scaling by the truncated sizes, because its source is not part of this model. The code hands it the preview layer's size in points where it expects pixel counts; the model scales by those points as passed.
- `FaceMeasurement.CalculateAngle`: requires a non-zero view width. With width 0 the source divides in floating point and yields NaN or an infinity. Reals cannot represent these.
- `FaceMeasurement.CalculateDistance`: requires a non-zero `tanHalfFov`. A zero tangent would divide by zero in floating point. The source always passes 60°, whose tangent is not zero.
- `bringSubviewToFront` (line 128) is applied to the view that `addSubview` has just put in front, so it is a no-op and appears only as a comment.
- The commented-out older angle formulas (lines 214-237) are dead code.
