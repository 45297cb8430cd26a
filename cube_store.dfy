/** The cube-state object of the scanner (`cubeState`) as a value: six face
    slots, each unset (`null`) or holding a mapped reading, plus the entry a
    rejected reading writes under the key "undefined". */
module CubeStore {
  import opened Wrappers
  import opened Faces

  /** A colour-mapped face reading, in raster order (index 4 is the centre). */
  type Reading = seq<Sticker>

  /** The six face slots; every face has a key. */
  type Slots = m: map<Face, Option<Reading>> | forall f: Face :: f in m
    witness map f: Face :: None

  /** `stray` is the value under the key "undefined", present once a reading
      whose centre colour is unknown has been stored. */
  datatype CubeState = CubeState(slots: Slots, stray: Option<Reading>)

  /** The state a new scanner starts from: every slot `null`, no stray entry. */
  const Empty: CubeState :=
    CubeState(map f: Face :: None, None)

  /** `this.cubeState[faceId] = stickers` with `faceId = stickers[4]`: an unknown
      centre writes the stray key instead of a face slot. */
  function Store(cube: CubeState, stickers: Reading): CubeState
  {
    match CenterFace(stickers)
    case Some(f) => cube.(slots := cube.slots[f := Some(stickers)])
    case None => cube.(stray := Some(stickers))
  }

  /** Every set slot holds a reading whose centre names that slot: a slot is
      never overwritten with another face's reading. */
  ghost predicate Consistent(cube: CubeState)
  {
    forall f: Face :: cube.slots[f].Some? ==> CenterFace(cube.slots[f].value) == Some(f)
  }

  /** The faces of SlotOrder[k..] whose slot is `null`, in slot order. */
  function MissingFrom(slots: Slots, k: nat): seq<Face>
    requires k <= 6
    decreases 6 - k
  {
    if k == 6 then []
    else (if slots[SlotOrder[k]].None? then [SlotOrder[k]] else []) + MissingFrom(slots, k + 1)
  }

  /** `getMissingFaces`: the keys whose value is `null`, in key order. The
      stray key is never `null`, so it is never listed. */
  function MissingFaces(cube: CubeState): seq<Face>
  {
    MissingFrom(cube.slots, 0)
  }

  /** `isComplete`: no missing faces. */
  predicate IsComplete(cube: CubeState)
  {
    |MissingFaces(cube)| == 0
  }

  lemma {:induction false} MissingFromHas(slots: Slots, k: nat)
    requires k <= 6
    ensures forall f: Face :: f in MissingFrom(slots, k) <==> Rank(f) >= k && slots[f].None?
    decreases 6 - k
  {
    if k < 6 {
      MissingFromHas(slots, k + 1);
    }
  }

  /** Every face of `m` has rank at least `k`, and ranks strictly increase. */
  ghost predicate RankedFrom(m: seq<Face>, k: nat)
  {
    (forall i :: 0 <= i < |m| ==> Rank(m[i]) >= k) &&
    (forall i, j :: 0 <= i < j < |m| ==> Rank(m[i]) < Rank(m[j]))
  }

  lemma {:induction false} MissingFromOrdered(slots: Slots, k: nat)
    requires k <= 6
    ensures RankedFrom(MissingFrom(slots, k), k)
    decreases 6 - k
  {
    if k < 6 {
      MissingFromOrdered(slots, k + 1);
      var rest := MissingFrom(slots, k + 1);
      if slots[SlotOrder[k]].None? {
        RankOfSlot(k);
        PrependRanked(SlotOrder[k], rest, k);
      } else {
        assert MissingFrom(slots, k) == rest;
      }
    }
  }

  lemma PrependRanked(x: Face, rest: seq<Face>, k: nat)
    requires Rank(x) == k && RankedFrom(rest, k + 1)
    ensures RankedFrom([x] + rest, k)
  {
    var m := [x] + rest;
    assert forall i :: 1 <= i < |m| ==> m[i] == rest[i - 1];
  }

  /** `getMissingFaces` lists exactly the faces whose slot is unset. */
  lemma MissingFacesSpec(cube: CubeState)
    ensures forall f: Face :: f in MissingFaces(cube) <==> cube.slots[f].None?
  {
    MissingFromHas(cube.slots, 0);
    assert MissingFaces(cube) == MissingFrom(cube.slots, 0);
  }

  /** ... each of them once, in key order U, D, F, B, L, R. */
  lemma MissingFacesInKeyOrder(cube: CubeState)
    ensures var m := MissingFaces(cube);
      forall i, j :: 0 <= i < j < |m| ==> Rank(m[i]) < Rank(m[j])
  {
    MissingFromOrdered(cube.slots, 0);
    assert MissingFaces(cube) == MissingFrom(cube.slots, 0);
  }

  /** Complete exactly when every one of the six slots is set. */
  lemma CompleteIffAllSet(cube: CubeState)
    ensures IsComplete(cube) <==> forall f: Face :: cube.slots[f].Some?
  {
    MissingFacesSpec(cube);
    if !IsComplete(cube) {
      assert MissingFaces(cube)[0] in MissingFaces(cube);
    }
  }

  /** Storing any reading keeps every slot consistent with its centre. */
  lemma StoreKeepsConsistent(cube: CubeState, stickers: Reading)
    requires Consistent(cube)
    ensures Consistent(Store(cube, stickers))
  {
  }

  /** A face slot, once set, stays set whatever is stored next. */
  lemma StoreKeepsSetSlots(cube: CubeState, stickers: Reading, f: Face)
    requires cube.slots[f].Some?
    ensures Store(cube, stickers).slots[f].Some?
  {
  }

  /** Storing a reading unsets nothing: a complete cube stays complete. */
  lemma StoreKeepsComplete(cube: CubeState, stickers: Reading)
    requires IsComplete(cube)
    ensures IsComplete(Store(cube, stickers))
  {
    CompleteIffAllSet(cube);
    CompleteIffAllSet(Store(cube, stickers));
  }

  /** Re-scanning a face that is already set leaves the missing faces as they were. */
  lemma {:induction false} RescanKeepsMissing(cube: CubeState, stickers: Reading)
    requires CenterFace(stickers).Some? && cube.slots[CenterFace(stickers).value].Some?
    ensures MissingFaces(Store(cube, stickers)) == MissingFaces(cube)
  {
    SameMissingFrom(cube.slots, Store(cube, stickers).slots, 0);
  }

  lemma {:induction false} SameMissingFrom(a: Slots, b: Slots, k: nat)
    requires k <= 6
    requires forall f: Face :: a[f].None? <==> b[f].None?
    ensures MissingFrom(a, k) == MissingFrom(b, k)
    decreases 6 - k
  {
    if k < 6 {
      SameMissingFrom(a, b, k + 1);
    }
  }

  /** Storing a reading for a face not yet scanned removes exactly one missing face. */
  lemma NewFaceShrinksMissing(cube: CubeState, stickers: Reading)
    requires CenterFace(stickers).Some? && cube.slots[CenterFace(stickers).value].None?
    ensures |MissingFaces(Store(cube, stickers))| == |MissingFaces(cube)| - 1
  {
    var f := CenterFace(stickers).value;
    ShrinkMissingFrom(cube.slots, f, Some(stickers), 0);
  }

  lemma {:induction false} ShrinkMissingFrom(a: Slots, f: Face, v: Option<Reading>, k: nat)
    requires k <= 6 && a[f].None? && v.Some?
    ensures |MissingFrom(a[f := v], k)| == |MissingFrom(a, k)| - (if Rank(f) >= k then 1 else 0)
    decreases 6 - k
  {
    if k < 6 {
      ShrinkMissingFrom(a, f, v, k + 1);
    }
  }

  /** Storing readings one after another, as successive commits do. */
  function StoreAll(cube: CubeState, readings: seq<Reading>): CubeState
    decreases |readings|
  {
    if readings == [] then cube
    else StoreAll(Store(cube, readings[0]), readings[1..])
  }

  /** Readings whose centres are known and pairwise different faces. */
  ghost predicate DistinctFaces(readings: seq<Reading>)
  {
    && (forall i :: 0 <= i < |readings| ==> CenterFace(readings[i]).Some?)
    && (forall i, j :: 0 <= i < j < |readings| ==> CenterFace(readings[i]) != CenterFace(readings[j]))
  }

  /** Readings of distinct faces that are all still missing in `cube`. */
  ghost predicate AllNew(cube: CubeState, readings: seq<Reading>)
  {
    && DistinctFaces(readings)
    && forall i :: 0 <= i < |readings| ==> cube.slots[CenterFace(readings[i]).value].None?
  }

  lemma AllNewAfterFirst(cube: CubeState, readings: seq<Reading>)
    requires readings != [] && AllNew(cube, readings)
    ensures AllNew(Store(cube, readings[0]), readings[1..])
  {
    var next, rest := Store(cube, readings[0]), readings[1..];
    forall i, j | 0 <= i < j < |rest|
      ensures CenterFace(rest[i]) != CenterFace(rest[j])
    {
      assert rest[i] == readings[i + 1] && rest[j] == readings[j + 1];
    }
    forall i | 0 <= i < |rest|
      ensures CenterFace(rest[i]).Some? && next.slots[CenterFace(rest[i]).value].None?
    {
      assert rest[i] == readings[i + 1];
      assert CenterFace(readings[0]) != CenterFace(readings[i + 1]);
    }
  }

  /** Starting from `cube`, storing readings of faces that are all still missing
      and pairwise different leaves as many faces missing as there were, minus
      the number of readings. */
  lemma {:induction false} DistinctCommitsCount(cube: CubeState, readings: seq<Reading>)
    requires AllNew(cube, readings)
    ensures |MissingFaces(StoreAll(cube, readings))| == |MissingFaces(cube)| - |readings|
    decreases |readings|
  {
    if readings != [] {
      NewFaceShrinksMissing(cube, readings[0]);
      AllNewAfterFirst(cube, readings);
      DistinctCommitsCount(Store(cube, readings[0]), readings[1..]);
    }
  }

  /** In a fresh state all six faces are missing, in slot order. */
  lemma EmptyMissesAll()
    ensures MissingFaces(Empty) == SlotOrder
  {
    assert forall f: Face :: Empty.slots[f].None?;
    UnsetMissFrom(Empty.slots, 0);
  }

  lemma {:induction false} UnsetMissFrom(slots: Slots, k: nat)
    requires k <= 6
    requires forall f: Face :: slots[f].None?
    ensures MissingFrom(slots, k) == SlotOrder[k..]
    decreases 6 - k
  {
    if k < 6 {
      UnsetMissFrom(slots, k + 1);
      assert SlotOrder[k..] == [SlotOrder[k]] + SlotOrder[k + 1..];
    }
  }

  /** Scanning from a fresh state, face readings of pairwise different faces:
      the cube is complete exactly after the sixth of them. */
  lemma CompleteAfterSixDistinct(readings: seq<Reading>)
    requires DistinctFaces(readings)
    ensures |readings| <= 6
    ensures IsComplete(StoreAll(Empty, readings)) <==> |readings| == 6
  {
    EmptyMissesAll();
    assert AllNew(Empty, readings);
    DistinctCommitsCount(Empty, readings);
  }

  /** `order.find(f => missing.includes(f))` over GuideOrder[k..]: the
      first face of the priority order, from position k on, that is missing. */
  function FirstListed(missing: seq<Face>, k: nat): (r: Option<Face>)
    requires k <= 6
    ensures r.Some? ==> r.value in missing && Priority(r.value) >= k
    ensures r.Some? ==> forall g :: g in missing && Priority(g) >= k ==> Priority(r.value) <= Priority(g)
    ensures r.None? ==> forall g :: g in missing ==> Priority(g) < k
    decreases 6 - k
  {
    if k == 6 then None
    else if GuideOrder[k] in missing then Some(GuideOrder[k])
    else FirstListed(missing, k + 1)
  }

  /** The face `guideToNextFace` asks for: the missing face that comes first in
      the priority order F, R, B, L, U, D. The code's fallback to the first
      missing face can never be taken, since the priority order lists every face. */
  function NextFace(missing: seq<Face>): (f: Face)
    requires missing != []
    ensures f in missing
    ensures forall g :: g in missing ==> Priority(f) <= Priority(g)
  {
    assert Priority(missing[0]) >= 0;
    FirstListed(missing, 0).value
  }

  /** The face asked for next is always one whose slot is still unset. */
  lemma NextFaceIsUnset(cube: CubeState)
    requires !IsComplete(cube)
    ensures cube.slots[NextFace(MissingFaces(cube))].None?
  {
    MissingFacesSpec(cube);
  }

  /** With Up and Down the only faces missing, Up is asked for first. */
  lemma UpBeforeDown()
    ensures NextFace([U, D]) == U && NextFace([D, U]) == U
  {
  }
}
