/** What one detection pass does to the screen, as a function of the
    screen before it: the view controller's subviews, its info label and
    its status label. The ViewController class in FaceTracking performs
    these steps in place; this module states their result and proves
    what a pass keeps, replaces and creates. */
module Overlay {
  import opened Geometry
  import opened FaceMeasurement

  datatype Option<T> = None | Some(value: T)

  /** A subview of the controller's root view: a face marker with its
      frame, the info label, or any other view, which a pass never
      touches. */
  datatype View = FaceView(frame: Rect) | InfoLabelView | OtherView(tag: nat)

  /** What the info label holds: its frame and the two numbers its text
      shows, the distance times 1000 and the angle. */
  datatype Label = Label(frame: Rect, distanceInCm: real, angle: real)

  /** The inputs a pass reads but never changes: the preview layer's
      size, the root view's size, the screen width and the tangent of
      half the camera's field of view. */
  datatype Env = Env(previewSize: Size, viewSize: Size, screenWidth: real, tanHalfFov: real) {
    predicate Usable() { viewSize.width != 0.0 && tanHalfFov != 0.0 }
  }

  /** The observable state: subviews in order, the info label once it
      exists, and the status label's text if there is a status label. */
  datatype Screen = Screen(subviews: seq<View>, infoLabel: Option<Label>, statusText: Option<string>)

  /** The physical face width handed to calculateDistance, in metres. */
  const KnownFaceWidth: real := 0.14
  const LabelHeight: real := 30.0
  const DetectionErrorText: string := "Yüz Tespiti Hatası"

  /** The frame of a face's marker: the detector's box in preview
      coordinates, squared. For a box and preview of non-negative size it
      is a square with the transformed box's centre that covers it. */
  function FaceRect(env: Env, box: Rect): (r: Rect)
    ensures r.Width() == r.Height() >= 0.0
    ensures box.width >= 0.0 && box.height >= 0.0 && env.previewSize.width >= 0.0 && env.previewSize.height >= 0.0 ==>
              var t := TransformBoundingBox(box, env.previewSize);
                r.width == r.height == Max(t.width, t.height) && r.MidX() == t.MidX() && r.MidY() == t.MidY() && Contains(r, t)
  {
    Squared(TransformBoundingBox(box, env.previewSize))
  }

  function FaceRects(env: Env, boxes: seq<Rect>): seq<Rect>
  {
    seq(|boxes|, i requires 0 <= i < |boxes| => FaceRect(env, boxes[i]))
  }

  /** The info label sits on top of the face rect: same x and width,
      30 points high, ending where the face rect begins. */
  function InfoLabelFrame(faceRect: Rect): Rect
  {
    Rect(faceRect.x, faceRect.y - LabelHeight, faceRect.Width(), LabelHeight)
  }

  /** updateInfoLabel: the label is created and added as a subview the
      first time only; every call then overwrites its frame and text. */
  function UpdateInfoLabel(s: Screen, faceRect: Rect, distance: real, angle: real): (r: Screen)
    ensures r.subviews == s.subviews + (if s.infoLabel.None? then [InfoLabelView] else [])
    ensures r.statusText == s.statusText
    ensures r.infoLabel.Some? && r.infoLabel.value.distanceInCm == distance * 1000.0 && r.infoLabel.value.angle == angle
    ensures var f := r.infoLabel.value.frame;
              f.x == faceRect.x && f.MaxY() == faceRect.y && f.Width() == faceRect.Width() && f.height == 30.0
    ensures LabelConsistent(s) ==> LabelConsistent(r)
  {
    var withLabel := if s.infoLabel.None? then s.(subviews := s.subviews + [InfoLabelView]) else s;
    assert multiset(s.subviews + [InfoLabelView]) == multiset(s.subviews) + multiset{InfoLabelView};
    withLabel.(infoLabel := Some(Label(InfoLabelFrame(faceRect), distance * 1000.0, angle)))
  }

  /** The body of the per-face loop of handleDetectedFaces: the face's
      marker goes on top, the label view follows it if this is the first
      face ever shown, and the label then sits on this face, with the
      angle computed from the squared rect's centre in points. */
  function AddFace(s: Screen, env: Env, box: Rect): (r: Screen)
    requires env.Usable()
    ensures r.subviews == s.subviews + [FaceView(FaceRect(env, box))] + (if s.infoLabel.None? then [InfoLabelView] else [])
    ensures r.statusText == s.statusText
    ensures r.infoLabel.Some? && r.infoLabel.value.frame.MaxY() == FaceRect(env, box).y
    ensures r.infoLabel.value.angle == 2.0 * FaceRect(env, box).MidX() - 361.0
    ensures LabelConsistent(s) ==> LabelConsistent(r)
  {
    var faceRect := FaceRect(env, box);
    var shown := s.(subviews := s.subviews + [FaceView(faceRect)]);
    assert multiset(shown.subviews) == multiset(s.subviews) + multiset{FaceView(faceRect)};
    var distance := CalculateDistance(faceRect, KnownFaceWidth, env.screenWidth, env.tanHalfFov);
    var angle := CalculateAngle(faceRect, env.viewSize);
    UpdateInfoLabel(shown, faceRect, distance, angle)
  }

  /** The per-face loop over the boxes in detector order. */
  function AddFaces(s: Screen, env: Env, boxes: seq<Rect>): (r: Screen)
    requires env.Usable()
    ensures r.statusText == s.statusText
    ensures |r.subviews| >= |s.subviews| + |boxes|
    ensures r.infoLabel.Some? == (s.infoLabel.Some? || boxes != [])
    decreases |boxes|
  {
    if boxes == [] then s
    else AddFace(AddFaces(s, env, boxes[..|boxes| - 1]), env, boxes[|boxes| - 1])
  }

  /** The subviews left after removing every face marker, in order. */
  function RemoveFaceViews(subviews: seq<View>): (r: seq<View>)
    ensures |r| <= |subviews|
    decreases |subviews|
  {
    if subviews == [] then []
    else
      var last := subviews[|subviews| - 1];
      RemoveFaceViews(subviews[..|subviews| - 1]) + (if last.FaceView? then [] else [last])
  }

  /** handleDetectedFaces: clear the old markers, then add the new faces.
      A pass never touches the status text, and the label exists after it
      once it existed before or the pass saw a face. */
  function HandleDetectedFaces(s: Screen, env: Env, faces: seq<Rect>): (r: Screen)
    requires env.Usable()
    ensures r.statusText == s.statusText
    ensures r.infoLabel.Some? == (s.infoLabel.Some? || faces != [])
    ensures faces == [] ==> r.infoLabel == s.infoLabel
  {
    AddFaces(s.(subviews := RemoveFaceViews(s.subviews)), env, faces)
  }

  /** How the Vision request completes: with an error, with face
      observations, or with results that are not face observations. */
  datatype Completion = DetectorError | Observations(faces: seq<Rect>) | NoObservations

  /** The completion handler: an error only sets the status label's text
      (there is nothing to set when the status label is absent); face
      observations run a pass; anything else changes nothing. */
  function OnCompletion(s: Screen, env: Env, c: Completion): (r: Screen)
    requires env.Usable()
    ensures c.DetectorError? ==> r.subviews == s.subviews && r.infoLabel == s.infoLabel
    ensures c.DetectorError? ==> r.statusText == if s.statusText.Some? then Some("Yüz Tespiti Hatası") else None
    ensures !c.DetectorError? ==> r.statusText == s.statusText
    ensures c.NoObservations? ==> r == s
  {
    match c
    case DetectorError => s.(statusText := if s.statusText.Some? then Some(DetectionErrorText) else None)
    case Observations(faces) => HandleDetectedFaces(s, env, faces)
    case NoObservations => s
  }

  /** The frames of the face markers among the subviews, in order. */
  function FaceViewFrames(subviews: seq<View>): seq<Rect>
    decreases |subviews|
  {
    if subviews == [] then []
    else
      var last := subviews[|subviews| - 1];
      FaceViewFrames(subviews[..|subviews| - 1]) + (if last.FaceView? then [last.frame] else [])
  }

  function LabelCount(subviews: seq<View>): nat
  {
    multiset(subviews)[InfoLabelView]
  }

  /** The info label is a subview exactly when it exists, and it is a
      subview at most once. */
  predicate LabelConsistent(s: Screen)
  {
    (s.infoLabel.Some? <==> InfoLabelView in s.subviews) && LabelCount(s.subviews) <= 1
  }

  /** The info label view that a pass adds: one, on the first non-empty
      pass, and none otherwise. */
  function CreatedLabel(s: Screen, faces: seq<Rect>): seq<View>
  {
    if s.infoLabel.None? && faces != [] then [InfoLabelView] else []
  }

  // ---------------------------------------------------------------------
  // Lemmas about the list operations

  lemma {:induction false} FaceViewFramesAppend(a: seq<View>, b: seq<View>)
    ensures FaceViewFrames(a + b) == FaceViewFrames(a) + FaceViewFrames(b)
    decreases |b|
  {
    if b == [] {
      assert a + b == a;
    } else {
      var b' := b[..|b| - 1];
      assert (a + b)[..|a + b| - 1] == a + b';
      FaceViewFramesAppend(a, b');
    }
  }

  lemma {:induction false} RemoveFaceViewsAppend(a: seq<View>, b: seq<View>)
    ensures RemoveFaceViews(a + b) == RemoveFaceViews(a) + RemoveFaceViews(b)
    decreases |b|
  {
    if b == [] {
      assert a + b == a;
    } else {
      var b' := b[..|b| - 1];
      assert (a + b)[..|a + b| - 1] == a + b';
      RemoveFaceViewsAppend(a, b');
    }
  }

  lemma RemoveFaceViewsSnoc(subviews: seq<View>, i: nat)
    requires i < |subviews|
    ensures RemoveFaceViews(subviews[..i + 1])
         == RemoveFaceViews(subviews[..i]) + (if subviews[i].FaceView? then [] else [subviews[i]])
  {
    assert subviews[..i + 1][..i] == subviews[..i];
  }

  lemma AddFacesSnoc(s: Screen, env: Env, boxes: seq<Rect>, n: nat)
    requires env.Usable() && n < |boxes|
    ensures AddFaces(s, env, boxes[..n + 1]) == AddFace(AddFaces(s, env, boxes[..n]), env, boxes[n])
  {
    assert boxes[..n + 1][..n] == boxes[..n];
  }

  /** Removing the markers leaves no marker. */
  lemma {:induction false} NoFramesAfterRemove(subviews: seq<View>)
    ensures FaceViewFrames(RemoveFaceViews(subviews)) == []
    decreases |subviews|
  {
    if subviews != [] {
      var init, last := subviews[..|subviews| - 1], subviews[|subviews| - 1];
      NoFramesAfterRemove(init);
      var tail := if last.FaceView? then [] else [last];
      FaceViewFramesAppend(RemoveFaceViews(init), tail);
    }
  }

  /** Removing the markers twice is removing them once. */
  lemma {:induction false} RemoveFaceViewsIdempotent(subviews: seq<View>)
    ensures RemoveFaceViews(RemoveFaceViews(subviews)) == RemoveFaceViews(subviews)
    decreases |subviews|
  {
    if subviews != [] {
      var init, last := subviews[..|subviews| - 1], subviews[|subviews| - 1];
      RemoveFaceViewsIdempotent(init);
      var tail := if last.FaceView? then [] else [last];
      RemoveFaceViewsAppend(RemoveFaceViews(init), tail);
      assert RemoveFaceViews(tail) == tail by {
        if tail != [] {
          assert tail[..0] == [];
        }
      }
    }
  }

  /** Removing the markers leaves every info label view where it was. */
  lemma {:induction false} RemoveKeepsLabelCount(subviews: seq<View>)
    ensures LabelCount(RemoveFaceViews(subviews)) == LabelCount(subviews)
    decreases |subviews|
  {
    if subviews != [] {
      var init, last := subviews[..|subviews| - 1], subviews[|subviews| - 1];
      assert subviews == init + [last];
      RemoveKeepsLabelCount(init);
    }
  }

  // ---------------------------------------------------------------------
  // Lemmas about a pass

  /** One step of the loop appends exactly one marker, the face's. */
  lemma AddFaceFrames(s: Screen, env: Env, box: Rect)
    requires env.Usable()
    ensures FaceViewFrames(AddFace(s, env, box).subviews) == FaceViewFrames(s.subviews) + [FaceRect(env, box)]
  {
    var r := FaceRect(env, box);
    var tail := if s.infoLabel.None? then [FaceView(r), InfoLabelView] else [FaceView(r)];
    assert AddFace(s, env, box).subviews == s.subviews + tail;
    FaceViewFramesAppend(s.subviews, tail);
    assert [FaceView(r)][..0] == [];
    assert tail[..|tail| - 1] == if s.infoLabel.None? then [FaceView(r)] else [];
  }

  lemma {:induction false} AddFacesFrames(s: Screen, env: Env, boxes: seq<Rect>)
    requires env.Usable()
    ensures FaceViewFrames(AddFaces(s, env, boxes).subviews) == FaceViewFrames(s.subviews) + FaceRects(env, boxes)
    decreases |boxes|
  {
    if boxes == [] {
      assert FaceRects(env, boxes) == [];
    } else {
      var init, last := boxes[..|boxes| - 1], boxes[|boxes| - 1];
      var prev := AddFaces(s, env, init);
      assert AddFaces(s, env, boxes) == AddFace(prev, env, last);
      AddFacesFrames(s, env, init);
      AddFaceFrames(prev, env, last);
      FaceRectsSnoc(env, boxes);
    }
  }

  lemma FaceRectsSnoc(env: Env, boxes: seq<Rect>)
    requires boxes != []
    ensures FaceRects(env, boxes) == FaceRects(env, boxes[..|boxes| - 1]) + [FaceRect(env, boxes[|boxes| - 1])]
  {
  }

  /** Replace, don't merge: after a pass the markers are exactly one per
      detected face, with the squared frames, in detector order. No
      marker of an earlier pass survives. */
  lemma PassFaceViews(s: Screen, env: Env, faces: seq<Rect>)
    requires env.Usable()
    ensures FaceViewFrames(HandleDetectedFaces(s, env, faces).subviews) == FaceRects(env, faces)
    ensures |FaceViewFrames(HandleDetectedFaces(s, env, faces).subviews)| == |faces|
    ensures forall i :: 0 <= i < |faces| ==>
              FaceViewFrames(HandleDetectedFaces(s, env, faces).subviews)[i] == Squared(TransformBoundingBox(faces[i], env.previewSize))
  {
    NoFramesAfterRemove(s.subviews);
    AddFacesFrames(s.(subviews := RemoveFaceViews(s.subviews)), env, faces);
  }

  lemma AddFaceOthers(s: Screen, env: Env, box: Rect)
    requires env.Usable()
    ensures RemoveFaceViews(AddFace(s, env, box).subviews)
         == RemoveFaceViews(s.subviews) + (if s.infoLabel.None? then [InfoLabelView] else [])
  {
    var r := FaceRect(env, box);
    var tail := if s.infoLabel.None? then [FaceView(r), InfoLabelView] else [FaceView(r)];
    assert AddFace(s, env, box).subviews == s.subviews + tail;
    RemoveFaceViewsAppend(s.subviews, tail);
    assert [FaceView(r)][..0] == [];
    assert tail[..|tail| - 1] == if s.infoLabel.None? then [FaceView(r)] else [];
  }

  lemma {:induction false} AddFacesOthers(s: Screen, env: Env, boxes: seq<Rect>)
    requires env.Usable()
    ensures RemoveFaceViews(AddFaces(s, env, boxes).subviews) == RemoveFaceViews(s.subviews) + CreatedLabel(s, boxes)
    decreases |boxes|
  {
    if boxes != [] {
      var init := boxes[..|boxes| - 1];
      AddFacesOthers(s, env, init);
      AddFaceOthers(AddFaces(s, env, init), env, boxes[|boxes| - 1]);
    }
  }

  /** A pass leaves every other subview in place and in order; the only
      view it adds besides markers is the info label, on the first
      non-empty pass. */
  lemma PassKeepsOtherViews(s: Screen, env: Env, faces: seq<Rect>)
    requires env.Usable()
    ensures RemoveFaceViews(HandleDetectedFaces(s, env, faces).subviews) == RemoveFaceViews(s.subviews) + CreatedLabel(s, faces)
  {
    RemoveFaceViewsIdempotent(s.subviews);
    AddFacesOthers(s.(subviews := RemoveFaceViews(s.subviews)), env, faces);
  }

  /** After a non-empty pass the info label describes the last face:
      frame 30 points above its squared rect, its distance times 1000
      and its angle. */
  lemma PassLabel(s: Screen, env: Env, faces: seq<Rect>)
    requires env.Usable() && faces != []
    ensures var r := FaceRect(env, faces[|faces| - 1]);
              HandleDetectedFaces(s, env, faces).infoLabel
                == Some(Label(Rect(r.x, r.y - 30.0, r.Width(), 30.0),
                              CalculateDistance(r, 0.14, env.screenWidth, env.tanHalfFov) * 1000.0,
                              CalculateAngle(r, env.viewSize)))
  {
  }

  /** An empty pass removes the markers and changes nothing else. */
  lemma PassEmpty(s: Screen, env: Env)
    requires env.Usable()
    ensures HandleDetectedFaces(s, env, []) == Screen(RemoveFaceViews(s.subviews), s.infoLabel, s.statusText)
  {
  }

  /** A pass keeps the info label consistent: it is created at most
      once, and a label that exists stays a single subview. */
  lemma PassKeepsLabelConsistent(s: Screen, env: Env, faces: seq<Rect>)
    requires env.Usable() && LabelConsistent(s)
    ensures LabelConsistent(HandleDetectedFaces(s, env, faces))
    ensures LabelCount(HandleDetectedFaces(s, env, faces).subviews) == LabelCount(s.subviews) + |CreatedLabel(s, faces)|
  {
    var r := HandleDetectedFaces(s, env, faces);
    PassKeepsOtherViews(s, env, faces);
    AddFacesOthers(s.(subviews := RemoveFaceViews(s.subviews)), env, faces);
    RemoveKeepsLabelCount(s.subviews);
    RemoveKeepsLabelCount(r.subviews);
    assert LabelCount(r.subviews) == LabelCount(s.subviews) + |CreatedLabel(s, faces)| by {
      assert multiset(RemoveFaceViews(s.subviews) + CreatedLabel(s, faces))
          == multiset(RemoveFaceViews(s.subviews)) + multiset(CreatedLabel(s, faces));
    }
    assert InfoLabelView in r.subviews <==> LabelCount(r.subviews) > 0;
    assert InfoLabelView in s.subviews <==> LabelCount(s.subviews) > 0;
  }

  /** The angle a pass shows is computed from the last face's squared
      rect in preview points, not from a fraction of the width: it is
      2 * midX - 361 points, so a face centred in the root view gets
      viewSize.width - 361 rather than -360. */
  lemma PassAngleInPoints(s: Screen, env: Env, faces: seq<Rect>)
    requires env.Usable() && faces != []
    ensures var r := FaceRect(env, faces[|faces| - 1]);
              var angle := HandleDetectedFaces(s, env, faces).infoLabel.value.angle;
                angle == 2.0 * r.MidX() - 361.0 &&
                (r.MidX() == env.viewSize.width / 2.0 ==> angle == env.viewSize.width - 361.0)
  {
    var init := faces[..|faces| - 1];
    assert HandleDetectedFaces(s, env, faces)
        == AddFace(AddFaces(s.(subviews := RemoveFaceViews(s.subviews)), env, init), env, faces[|faces| - 1]);
  }

  /** The markers of the given boxes, in order. */
  function Markers(env: Env, boxes: seq<Rect>): seq<View>
  {
    seq(|boxes|, i requires 0 <= i < |boxes| => FaceView(FaceRect(env, boxes[i])))
  }

  lemma {:induction false} AddFacesConcat(s: Screen, env: Env, a: seq<Rect>, b: seq<Rect>)
    requires env.Usable()
    ensures AddFaces(s, env, a + b) == AddFaces(AddFaces(s, env, a), env, b)
    decreases |b|
  {
    if b == [] {
      assert a + b == a;
    } else {
      var b' := b[..|b| - 1];
      assert (a + b)[..|a + b| - 1] == a + b';
      assert (a + b)[|a + b| - 1] == b[|b| - 1];
      AddFacesConcat(s, env, a, b');
    }
  }

  /** Once the label exists, the loop only appends markers. */
  lemma {:induction false} AddFacesLabelled(s: Screen, env: Env, boxes: seq<Rect>)
    requires env.Usable() && s.infoLabel.Some?
    ensures AddFaces(s, env, boxes).subviews == s.subviews + Markers(env, boxes)
    decreases |boxes|
  {
    if boxes == [] {
      assert Markers(env, boxes) == [];
    } else {
      var init, last := boxes[..|boxes| - 1], boxes[|boxes| - 1];
      var prev := AddFaces(s, env, init);
      assert AddFaces(s, env, boxes) == AddFace(prev, env, last);
      AddFacesLabelled(s, env, init);
      assert prev.infoLabel.Some?;
      assert Markers(env, boxes) == Markers(env, init) + [FaceView(FaceRect(env, last))];
    }
  }

  /** The subviews after a pass, back to front: the views that are not
      markers, then the first face's marker, then the label view if this
      pass created it, then the markers of the other faces in detector
      order. */
  lemma PassLayout(s: Screen, env: Env, faces: seq<Rect>)
    requires env.Usable()
    ensures HandleDetectedFaces(s, env, faces).subviews
         == RemoveFaceViews(s.subviews) +
            (if faces == [] then []
             else [FaceView(FaceRect(env, faces[0]))] + CreatedLabel(s, faces) + Markers(env, faces[1..]))
  {
    if faces != [] {
      var s0 := s.(subviews := RemoveFaceViews(s.subviews));
      var rest := faces[1..];
      var s1 := AddFace(s0, env, faces[0]);
      AddFacesFirst(s0, env, faces);
      AddFacesLabelled(s1, env, rest);
      var marker, created := [FaceView(FaceRect(env, faces[0]))], CreatedLabel(s, faces);
      assert s1.subviews == s0.subviews + marker + created;
      assert HandleDetectedFaces(s, env, faces).subviews == s0.subviews + marker + created + Markers(env, rest);
      ConcatAssoc(s0.subviews, marker, created, Markers(env, rest));
    }
  }

  lemma ConcatAssoc<T>(a: seq<T>, b: seq<T>, c: seq<T>, d: seq<T>)
    ensures a + b + c + d == a + (b + c + d)
  {
  }

  lemma AddFacesFirst(s: Screen, env: Env, boxes: seq<Rect>)
    requires env.Usable() && boxes != []
    ensures AddFaces(s, env, boxes) == AddFaces(AddFace(s, env, boxes[0]), env, boxes[1..])
  {
    assert boxes == [boxes[0]] + boxes[1..];
    AddFacesConcat(s, env, [boxes[0]], boxes[1..]);
    assert [boxes[0]][..0] == [];
    assert AddFaces(s, env, [boxes[0]]) == AddFace(AddFaces(s, env, []), env, boxes[0]);
  }

  /** The first pass of two faces on a screen without markers or label:
      the label view lands between the two markers, since it is added
      while the first face is handled. */
  lemma FirstPassLayout(env: Env, status: Option<string>, box0: Rect, box1: Rect)
    requires env.Usable()
    ensures HandleDetectedFaces(Screen([], None, status), env, [box0, box1]).subviews
         == [FaceView(FaceRect(env, box0)), InfoLabelView, FaceView(FaceRect(env, box1))]
  {
    var s := Screen([], None, status);
    assert [box0, box1][..1] == [box0];
    assert [box0][..0] == [];
    var after0 := AddFace(s, env, box0);
    assert AddFaces(s, env, [box0]) == after0;
    assert after0.subviews == [FaceView(FaceRect(env, box0)), InfoLabelView];
    assert AddFaces(s, env, [box0, box1]) == AddFace(after0, env, box1);
  }

  /** A box 0.1 wide and 0.2 high at (0.4, 0.4) in a 1000 by 1000
      preview is 100 by 200 at (400, 400); it is taller than wide, so its
      x moves back by 50 and its width grows to 200. */
  lemma SquaringExample(env: Env)
    requires env.previewSize == Size(1000.0, 1000.0)
    ensures FaceRect(env, Rect(0.4, 0.4, 0.1, 0.2)) == Rect(350.0, 400.0, 200.0, 200.0)
  {
    TransformWholePoints(Rect(0.4, 0.4, 0.1, 0.2), env.previewSize, 1000, 1000);
  }
}
