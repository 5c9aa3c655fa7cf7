/** The view controller itself: the fields a detection pass updates in
    place, and the methods that update them step by step. Each method is
    proved to leave the state that the functions of Overlay describe. */
module FaceTracking {
  import opened Geometry
  import opened FaceMeasurement
  import opened Overlay

  lemma SkipOne<T>(a: seq<T>, b: seq<T>)
    requires b != []
    ensures (a + b)[..|a|] == a && (a + b)[|a|] == b[0] && (a + b)[|a| + 1..] == b[1..]
  {
  }

  /** One step of the removal loop: with the first i views of `before`
      processed, removing the next one if it is a marker (or skipping it)
      processes i + 1. */
  lemma RemoveStep(before: seq<View>, i: nat, subviews: seq<View>)
    requires i < |before|
    requires subviews == RemoveFaceViews(before[..i]) + before[i..]
    ensures var kept := |RemoveFaceViews(before[..i])|;
      kept < |subviews| &&
      (before[i].FaceView? ==>
         subviews[..kept] + subviews[kept + 1..] == RemoveFaceViews(before[..i + 1]) + before[i + 1..] &&
         |RemoveFaceViews(before[..i + 1])| == kept) &&
      (!before[i].FaceView? ==>
         subviews == RemoveFaceViews(before[..i + 1]) + before[i + 1..] &&
         |RemoveFaceViews(before[..i + 1])| == kept + 1)
  {
    var done := RemoveFaceViews(before[..i]);
    RemoveFaceViewsSnoc(before, i);
    SkipOne(done, before[i..]);
    assert before[i..] == [before[i]] + before[i + 1..];
    if !before[i].FaceView? {
      assert subviews == (done + [before[i]]) + before[i + 1..];
    }
  }

  class ViewController {
    /** The root view's subviews, back to front. */
    var subviews: seq<View>
    /** The info label, once the first face has created it. */
    var infoLabel: Option<Label>
    /** The status label's text; None when there is no status label. */
    var statusLabel: Option<string>
    /** Sizes and camera constants the pass reads. */
    const env: Env

    function Snapshot(): Screen
      reads this
    {
      Screen(subviews, infoLabel, statusLabel)
    }

    ghost predicate Valid()
      reads this
    {
      env.Usable() && LabelConsistent(Snapshot())
    }

    constructor (env: Env, subviews: seq<View>, statusLabel: Option<string>)
      requires env.Usable() && InfoLabelView !in subviews
      ensures Valid()
      ensures this.env == env && Snapshot() == Screen(subviews, None, statusLabel)
    {
      this.env := env;
      this.subviews := subviews;
      this.infoLabel := None;
      this.statusLabel := statusLabel;
      new;
      assert LabelCount(subviews) == 0;
    }

    /** updateInfoLabel: create the label on first use, then overwrite
        its frame and its text. Like RemoveFaceViewsInPlace and ShowFace
        it is one step of a pass and may run on a state that Valid() does
        not describe yet; HandleDetectedFaces re-establishes Valid(). */
    method UpdateInfoLabel(faceRect: Rect, distance: real, angle: real)
      modifies this
      ensures infoLabel == Some(Label(Rect(faceRect.x, faceRect.y - 30.0, faceRect.Width(), 30.0), distance * 1000.0, angle))
      ensures subviews == if old(infoLabel).None? then old(subviews) + [InfoLabelView] else old(subviews)
      ensures statusLabel == old(statusLabel)
    {
      if infoLabel.None? {
        infoLabel := Some(Label(Rect(0.0, 0.0, 0.0, 0.0), 0.0, 0.0));
        subviews := subviews + [InfoLabelView];
      }
      var frame := Rect(faceRect.x, faceRect.y - LabelHeight, faceRect.Width(), LabelHeight);
      var distanceInCm := distance * 1000.0;
      infoLabel := Some(Label(frame, distanceInCm, angle));
    }

    /** Removes every face marker from the subviews, visiting a copy of
        the list as the source's forEach does. */
    method RemoveFaceViewsInPlace()
      modifies this
      ensures subviews == RemoveFaceViews(old(subviews))
      ensures infoLabel == old(infoLabel) && statusLabel == old(statusLabel)
    {
      var before := subviews;
      var i, kept := 0, 0;
      while i < |before|
        invariant 0 <= i <= |before|
        invariant kept == |RemoveFaceViews(before[..i])|
        invariant subviews == RemoveFaceViews(before[..i]) + before[i..]
        invariant infoLabel == old(infoLabel) && statusLabel == old(statusLabel)
      {
        RemoveStep(before, i, subviews);
        if before[i].FaceView? {
          subviews := subviews[..kept] + subviews[kept + 1..];
        } else {
          kept := kept + 1;
        }
        i := i + 1;
      }
      assert before[..i] == before;
    }

    /** The body of the forEach over the faces in handleDetectedFaces:
        square the face's rect in place, add its marker, and rewrite the
        info label with its measurements. */
    method ShowFace(faceObservation: Rect)
      requires env.Usable()
      modifies this
      ensures Snapshot() == AddFace(old(Snapshot()), env, faceObservation)
    {
      var faceRect := TransformBoundingBox(faceObservation, env.previewSize);
      if faceRect.Width() > faceRect.Height() {
        faceRect := faceRect.(y := faceRect.y - (faceRect.Width() - faceRect.Height()) / 2.0);
        faceRect := faceRect.(height := faceRect.Width());
      } else {
        faceRect := faceRect.(x := faceRect.x - (faceRect.Height() - faceRect.Width()) / 2.0);
        faceRect := faceRect.(width := faceRect.Height());
      }
      assert faceRect == FaceRect(env, faceObservation);
      // bringSubviewToFront on the view just added keeps it where it is:
      // addSubview already put it in front.
      subviews := subviews + [FaceView(faceRect)];
      var distance := CalculateDistance(faceRect, KnownFaceWidth, env.screenWidth, env.tanHalfFov);
      var angle := CalculateAngle(faceRect, env.viewSize);
      UpdateInfoLabel(faceRect, distance, angle);
    }

    /** handleDetectedFaces: clear the old markers, then show each face
        in detector order. */
    method HandleDetectedFaces(faces: seq<Rect>)
      requires Valid()
      modifies this
      ensures Valid()
      ensures Snapshot() == Overlay.HandleDetectedFaces(old(Snapshot()), env, faces)
    {
      ghost var start := Snapshot();
      RemoveFaceViewsInPlace();
      ghost var cleared := Snapshot();
      var n := 0;
      while n < |faces|
        invariant 0 <= n <= |faces|
        invariant Snapshot() == AddFaces(cleared, env, faces[..n])
      {
        ShowFace(faces[n]);
        AddFacesSnoc(cleared, env, faces, n);
        n := n + 1;
      }
      assert faces[..n] == faces;
      PassKeepsLabelConsistent(start, env, faces);
    }

    /** The completion handler of the face request: an error sets the
        status text, face observations run a pass, and other results are
        ignored. */
    method CompletionHandler(c: Completion)
      requires Valid()
      modifies this
      ensures Valid()
      ensures Snapshot() == OnCompletion(old(Snapshot()), env, c)
    {
      match c
      case DetectorError =>
        if statusLabel.Some? {
          statusLabel := Some(DetectionErrorText);
        }
      case Observations(faces) =>
        HandleDetectedFaces(faces);
      case NoObservations =>
    }
  }
}
