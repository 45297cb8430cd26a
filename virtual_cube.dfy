/** The scan-state machine of the scanner's 3D guide (`VirtualCube`): which
    faces are known, which face is expected next, the single pending
    "guide to the next face" action, and the pulse and rotation tracks that
    the render loop advances. Drawing to the scene is not modelled; the
    scene's scale and rotation are kept as two fields. */
module Scanner {
  import opened Wrappers
  import opened Faces
  import opened CubeStore
  import opened Animation

  class VirtualCube {
    /** The six face slots and the stray "undefined" entry. */
    var cubeState: CubeState
    /** Set once at construction and never cleared. */
    var isScanning: bool
    /** The pending guidance action: the time at which it is due, if one is
        scheduled and has not run yet. */
    var nextMoveDue: Option<int>
    var firstScanDone: bool
    var currentExpectedFaceId: Option<Face>
    var scaleState: PulseState
    var rotationState: RotationState
    /** The scale and rotation last given to the cube group in the scene. */
    var groupScale: Scale
    var groupRotation: Angles

    /** The invariant every operation keeps: the scan state's part and the
        animation tracks' part. */
    ghost predicate Valid()
      reads this
    {
      ScanValid() && TracksValid()
    }

    /** Every set slot holds its own face's reading; nothing is set or pending
        before the first accepted reading; no face is expected once complete. */
    ghost predicate ScanValid()
      reads this`cubeState, this`firstScanDone, this`nextMoveDue, this`currentExpectedFaceId
    {
      && Consistent(cubeState)
      && (!firstScanDone ==> (forall f: Face :: cubeState.slots[f].None?) && nextMoveDue.None?)
      && (IsComplete(cubeState) ==> currentExpectedFaceId.None?)
    }

    /** Both tracks have a positive duration; the pulse always lasts 600 ms. */
    ghost predicate TracksValid()
      reads this`scaleState, this`rotationState
    {
      scaleState.duration == PulseDuration && rotationState.duration > 0
    }

    constructor ()
      ensures Valid()
      ensures cubeState == Empty && isScanning && !firstScanDone
      ensures nextMoveDue.None? && currentExpectedFaceId.None?
      ensures scaleState == PulseState(false, 0, PulseDuration)
      ensures rotationState == RotationState(false, 0, RotationDuration, Rest, Rest)
      ensures groupScale == Baseline && groupRotation == Rest
    {
      cubeState := Empty;
      isScanning := true;
      nextMoveDue := None;
      firstScanDone := false;
      currentExpectedFaceId := None;
      scaleState := PulseState(false, 0, PulseDuration);
      rotationState := RotationState(false, 0, RotationDuration, Rest, Rest);
      groupScale := Baseline;
      groupRotation := Rest;
    }

    /** `getExpectedCenterColor`: nothing before the first accepted reading or
        while no face is expected; otherwise the colour whose face is expected. */
    function GetExpectedCenterColor(): (c: Option<string>)
      reads this
      ensures c.Some? <==> firstScanDone && currentExpectedFaceId.Some?
      ensures c.Some? ==> ColorFace(c.value) == currentExpectedFaceId
    {
      if !firstScanDone then None
      else if currentExpectedFaceId.Some? then Some(FaceColor(currentExpectedFaceId.value))
      else None
    }

    /** `addFace`: map the colours to face letters and store the reading under
        its centre sticker's face; return that face. */
    method AddFace(faceColors: seq<string>) returns (faceId: Option<Face>)
      modifies this`cubeState
      ensures faceId == CenterFace(MapColors(faceColors))
      ensures cubeState == Store(old(cubeState), MapColors(faceColors))
      ensures faceId.Some? ==> cubeState.slots[faceId.value] == Some(MapColors(faceColors))
      ensures forall g: Face :: Some(g) != faceId ==> cubeState.slots[g] == old(cubeState).slots[g]
    {
      var stickers := MapColors(faceColors);
      faceId := CenterFace(stickers);
      cubeState := Store(cubeState, stickers);
    }

    /** `animateScale`: advance the pulse by one tick. */
    method AnimateScale(now: int)
      requires Valid()
      modifies this`scaleState, this`groupScale
      ensures Valid()
      ensures scaleState == PulseTick(old(scaleState), now)
      ensures groupScale == PulseScale(old(scaleState), now, old(groupScale))
    {
      if !scaleState.active {
        return;
      }
      var progress := Progress(now - scaleState.startTime, scaleState.duration);
      groupScale := Swell(progress);
      if progress == 1.0 {
        scaleState := scaleState.(active := false);
        groupScale := Baseline;
      }
    }

    /** `animateRotation`: advance the rotation tween by one tick. */
    method AnimateRotation(now: int)
      requires Valid()
      modifies this`rotationState, this`groupRotation
      ensures Valid()
      ensures rotationState == RotationTick(old(rotationState), now)
      ensures groupRotation == RotationAngles(old(rotationState), now, old(groupRotation))
    {
      if !rotationState.active {
        return;
      }
      var progress := Progress(now - rotationState.startTime, rotationState.duration);
      groupRotation := Lerp(rotationState.start, rotationState.end, EaseOut(progress));
      if progress == 1.0 {
        rotationState := rotationState.(active := false);
      }
    }

    /** `setTargetRotation`: start a tween from the pose the group has now. */
    method SetTargetRotation(target: Angles, now: int)
      requires Valid()
      modifies this`rotationState
      ensures Valid()
      ensures rotationState == RotationState(true, now, old(rotationState.duration), groupRotation, target)
    {
      rotationState := rotationState.(start := groupRotation, end := target, startTime := now, active := true);
    }

    /** `guideToNextFace`: with faces still missing, expect the first of them
        in the order F, R, B, L, U, D and turn toward its pose over 1500 ms;
        with none missing, do nothing. */
    method GuideToNextFace(now: int)
      requires Valid()
      modifies this`currentExpectedFaceId, this`rotationState
      ensures Valid()
      ensures IsComplete(cubeState) ==>
        currentExpectedFaceId == old(currentExpectedFaceId) && rotationState == old(rotationState)
      ensures !IsComplete(cubeState) ==>
        var next := NextFace(MissingFaces(cubeState));
        && cubeState.slots[next].None?
        && currentExpectedFaceId == Some(next)
        && rotationState == RotationState(true, now, GuideDuration, groupRotation, RotationForFace(next))
    {
      var missing := MissingFaces(cubeState);
      if |missing| == 0 {
        return;
      }
      var next := NextFace(missing);
      NextFaceIsUnset(cubeState);
      currentExpectedFaceId := Some(next);
      var target := RotationForFace(next);
      rotationState := rotationState.(duration := GuideDuration);
      SetTargetRotation(target, now);
    }

    /** The pending guidance timer firing: once due, it runs `guideToNextFace`
        and is no longer pending; before that, nothing happens. */
    method RunDueTimer(now: int)
      requires Valid()
      modifies this`nextMoveDue, this`currentExpectedFaceId, this`rotationState
      ensures Valid()
      ensures !(old(nextMoveDue).Some? && old(nextMoveDue).value <= now) ==>
        && nextMoveDue == old(nextMoveDue)
        && currentExpectedFaceId == old(currentExpectedFaceId)
        && rotationState == old(rotationState)
      ensures old(nextMoveDue).Some? && old(nextMoveDue).value <= now && IsComplete(cubeState) ==>
        && nextMoveDue.None?
        && currentExpectedFaceId == old(currentExpectedFaceId)
        && rotationState == old(rotationState)
      ensures old(nextMoveDue).Some? && old(nextMoveDue).value <= now && !IsComplete(cubeState) ==>
        var next := NextFace(MissingFaces(cubeState));
        && nextMoveDue.None?
        && currentExpectedFaceId == Some(next)
        && rotationState == RotationState(true, now, GuideDuration, groupRotation, RotationForFace(next))
    {
      if nextMoveDue.Some? && nextMoveDue.value <= now {
        nextMoveDue := None;
        GuideToNextFace(now);
      }
    }

    /** The commit step of `loop` for one reading: store it; if its centre
        named a face, restart the pulse, on the very first such reading snap
        the group to that face's pose and expect that face, and then either
        clear the expected face (cube complete, the pending timer is left as it
        is) or replace the pending guidance action by one due after the delay. */
    method Commit(faceColors: seq<string>, now: int) returns (faceId: Option<Face>)
      requires Valid()
      modifies this`cubeState, this`scaleState, this`firstScanDone, this`groupRotation,
        this`currentExpectedFaceId, this`nextMoveDue
      ensures Valid()
      ensures faceId == CenterFace(MapColors(faceColors))
      ensures cubeState == Store(old(cubeState), MapColors(faceColors))
      ensures faceId.None? ==>
        && scaleState == old(scaleState) && firstScanDone == old(firstScanDone)
        && groupRotation == old(groupRotation) && currentExpectedFaceId == old(currentExpectedFaceId)
        && nextMoveDue == old(nextMoveDue)
      ensures faceId.Some? ==>
        && scaleState == PulseState(true, now, PulseDuration)
        && firstScanDone
        && groupRotation == (if old(firstScanDone) then old(groupRotation) else RotationForFace(faceId.value))
        && currentExpectedFaceId ==
             (if IsComplete(cubeState) then None
              else if old(firstScanDone) then old(currentExpectedFaceId) else faceId)
        && nextMoveDue == (if IsComplete(cubeState) then old(nextMoveDue) else Some(now + DelayBeforeNext))
    {
      ghost var before := cubeState;
      faceId := AddFace(faceColors);
      StoreKeepsConsistent(before, MapColors(faceColors));
      if faceId.None? {
        return;
      }
      scaleState := scaleState.(active := true, startTime := now);
      if !firstScanDone {
        firstScanDone := true;
        groupRotation := RotationForFace(faceId.value);
        currentExpectedFaceId := faceId;
      }
      if IsComplete(cubeState) {
        currentExpectedFaceId := None;
      } else {
        nextMoveDue := Some(now + DelayBeforeNext);
      }
    }

    /** `loop`: advance both tracks, then commit the reading of this tick, if
        there is one (scanning is never switched off). */
    method Loop(faceColors: Option<seq<string>>, now: int)
      requires Valid()
      modifies this
      ensures Valid()
      ensures isScanning == old(isScanning)
      ensures rotationState == RotationTick(old(rotationState), now)
      ensures groupScale == PulseScale(old(scaleState), now, old(groupScale))
      ensures faceColors.None? || !old(isScanning) ==>
        && cubeState == old(cubeState)
        && scaleState == PulseTick(old(scaleState), now)
        && groupRotation == RotationAngles(old(rotationState), now, old(groupRotation))
        && firstScanDone == old(firstScanDone)
        && currentExpectedFaceId == old(currentExpectedFaceId)
        && nextMoveDue == old(nextMoveDue)
      ensures faceColors.Some? && old(isScanning) ==>
        cubeState == Store(old(cubeState), MapColors(faceColors.value))
      ensures faceColors.Some? && old(isScanning) && CenterFace(MapColors(faceColors.value)).None? ==>
        && scaleState == PulseTick(old(scaleState), now)
        && groupRotation == RotationAngles(old(rotationState), now, old(groupRotation))
        && firstScanDone == old(firstScanDone)
        && currentExpectedFaceId == old(currentExpectedFaceId)
        && nextMoveDue == old(nextMoveDue)
      ensures faceColors.Some? && old(isScanning) && CenterFace(MapColors(faceColors.value)).Some? ==>
        var face := CenterFace(MapColors(faceColors.value)).value;
        && scaleState == PulseState(true, now, PulseDuration)
        && firstScanDone
        && groupRotation ==
             (if old(firstScanDone) then RotationAngles(old(rotationState), now, old(groupRotation))
              else RotationForFace(face))
        && currentExpectedFaceId ==
             (if IsComplete(cubeState) then None
              else if old(firstScanDone) then old(currentExpectedFaceId) else Some(face))
        && nextMoveDue == (if IsComplete(cubeState) then old(nextMoveDue) else Some(now + DelayBeforeNext))
    {
      AnimateScale(now);
      AnimateRotation(now);
      if faceColors.None? || !isScanning {
        return;
      }
      var faceId := Commit(faceColors.value, now);
    }
  }

  /** Scanning the Front face first: the group snaps to Front's pose, Front is
      expected at once, and guidance is scheduled 1200 ms later. */
  method FrontFirstScenario() returns (cube: VirtualCube)
    ensures fresh(cube) && cube.Valid()
    ensures cube.cubeState.slots[F].Some? && cube.cubeState.stray.None?
    ensures forall g: Face :: g != F ==> cube.cubeState.slots[g].None?
    ensures cube.nextMoveDue == Some(2200)
    ensures cube.firstScanDone && cube.groupRotation == Rest
    ensures cube.currentExpectedFaceId == Some(F) && cube.GetExpectedCenterColor() == Some("green")
  {
    cube := new VirtualCube();
    var greens := ["green", "green", "green", "green", "green", "green", "green", "green", "green"];
    assert CenterFace(MapColors(greens)) == Some(F);
    cube.Loop(Some(greens), 1000);
    assert cube.firstScanDone && cube.groupRotation == Rest;
    assert !IsComplete(cube.cubeState) by {
      MissingFacesSpec(cube.cubeState);
      assert R in MissingFaces(cube.cubeState);
    }
  }

  /** After Front alone was scanned, the guidance timer coming due makes Right
      the expected face and turns the group toward Right's pose. */
  method RightAfterFrontScenario() returns (cube: VirtualCube)
    ensures cube.Valid() && cube.nextMoveDue.None?
    ensures cube.currentExpectedFaceId == Some(R) && cube.GetExpectedCenterColor() == Some("red")
    ensures cube.rotationState == RotationState(true, 2200, GuideDuration, Rest, RotationForFace(R))
  {
    cube := FrontFirstScenario();
    ghost var scanned := cube.cubeState;
    cube.RunDueTimer(2200);
    MissingFacesSpec(scanned);
    assert F !in MissingFaces(scanned) && R in MissingFaces(scanned);
    assert NextFace(MissingFaces(scanned)) == R;
  }
}
