/** The solver adapter: `validateState` counts the stickers of each face
    over every value of the cube state, `getSolverMoves` serialises the six
    faces in the solver's order, calls the solver and flattens its four
    stages into a move list. */
module SolverUtils {
  import opened Wrappers
  import opened Faces
  import opened CubeStore
  import opened MoveText

  /** `Object.values(cubeState)`: the six slots in key order, then the stray
      "undefined" entry when a rejected reading wrote one. */
  function Values(cube: CubeState): (vs: seq<Option<Reading>>)
    ensures |vs| == (if cube.stray.Some? then 7 else 6)
    ensures forall i :: 0 <= i < 6 ==> vs[i] == cube.slots[SlotOrder[i]]
    ensures cube.stray.Some? ==> vs[6] == cube.stray
  {
    [cube.slots[U], cube.slots[D], cube.slots[F], cube.slots[B], cube.slots[L], cube.slots[R]]
      + (if cube.stray.Some? then [cube.stray] else [])
  }

  /** Stickers of face `f` over a list of values, `null` values counting none. */
  function Tally(vs: seq<Option<Reading>>, f: Face): nat
  {
    if vs == [] then 0
    else
      var last := vs[|vs| - 1];
      Tally(vs[..|vs| - 1], f) + (if last.Some? then multiset(last.value)[Some(f)] else 0)
  }

  /** How many stickers of face `f` the whole cube state holds. */
  function Count(cube: CubeState, f: Face): nat
  {
    Tally(Values(cube), f)
  }

  /** The first face from position `k` of the order F, R, U, D, L, B whose
      count is not nine. */
  function FirstMismatch(cube: CubeState, k: nat): (r: Option<Face>)
    requires k <= 6
    ensures r.None? <==> forall m :: k <= m < 6 ==> Count(cube, SolverOrder[m]) == 9
    ensures r.Some? ==> exists m :: (k <= m < 6 && SolverOrder[m] == r.value
      && Count(cube, r.value) != 9
      && forall m' :: k <= m' < m ==> Count(cube, SolverOrder[m']) == 9)
    decreases 6 - k
  {
    if k == 6 then None
    else if Count(cube, SolverOrder[k]) != 9 then Some(SolverOrder[k])
    else FirstMismatch(cube, k + 1)
  }

  /** The colour names of the error message. */
  function ColorLabel(f: Face): string
  {
    match f
    case F => "Green" case R => "Red" case U => "White"
    case D => "Yellow" case L => "Orange" case B => "Blue"
  }

  /** An ASCII capital letter as its lower-case letter; any other character
      unchanged. */
  function Lower(c: char): char
  {
    if 'A' <= c <= 'Z' then (c as int + 32) as char else c
  }

  /** The error message's colour names are the scanner's colour names with a
      capital first letter. */
  lemma LabelsMatchColors(f: Face)
    ensures |ColorLabel(f)| == |FaceColor(f)| > 0
    ensures 'A' <= ColorLabel(f)[0] <= 'Z' && Lower(ColorLabel(f)[0]) == FaceColor(f)[0]
    ensures ColorLabel(f)[1..] == FaceColor(f)[1..]
  {
  }

  function Digit(d: nat): (c: char)
    requires d < 10
    ensures '0' <= c <= '9' && c as int - '0' as int == d
  {
    ('0' as int + d) as char
  }

  /** A count as the template literal prints it: decimal, no leading zeros. */
  function Decimal(n: nat): (s: string)
    ensures |s| >= 1 && (|s| > 1 ==> s[0] != '0')
    ensures forall i :: 0 <= i < |s| ==> '0' <= s[i] <= '9'
    decreases n
  {
    if n < 10 then [Digit(n)] else Decimal(n / 10) + [Digit(n % 10)]
  }

  /** Reading a string of decimal digits back as a number. */
  function DecimalValue(s: string): nat
  {
    if s == [] then 0
    else
      var d := s[|s| - 1] as int - '0' as int;
      // A character below '0' reads as 0, so the value stays a natural number;
      // `Decimal` only produces digits, where this case does not arise.
      DecimalValue(s[..|s| - 1]) * 10 + (if 0 <= d then d else 0)
  }

  /** The printed count reads back as the count. */
  lemma {:induction false} DecimalRoundTrip(n: nat)
    ensures DecimalValue(Decimal(n)) == n
    decreases n
  {
    if n >= 10 {
      DecimalRoundTrip(n / 10);
      var s := Decimal(n);
      assert s[..|s| - 1] == Decimal(n / 10);
    }
  }

  /** The message `validateState` returns for a face with a wrong count. */
  function Describe(f: Face, count: nat): string
  {
    "Scan Error: Found " + Decimal(count) + " " + ColorLabel(f) + " stickers (need 9)."
  }

  /** What `validateState` returns: nothing when every face has nine
      stickers, else the message about the first face, in the order
      F, R, U, D, L, B, that does not. */
  function ValidationError(cube: CubeState): (e: Option<string>)
    ensures e.None? <==> forall f: Face :: Count(cube, f) == 9
  {
    var first := FirstMismatch(cube, 0);
    if first.None? then
      assert forall f: Face :: Count(cube, f) == 9 by {
        forall f: Face ensures Count(cube, f) == 9 {
          assert SolverOrder[SolverIndex(f)] == f;
        }
      }
      None
    else Some(Describe(first.value, Count(cube, first.value)))
  }

  /** Position of a face in SolverOrder. */
  function SolverIndex(f: Face): (i: nat)
    ensures i < 6 && SolverOrder[i] == f
  {
    match f
    case F => 0 case R => 1 case U => 2 case D => 3 case L => 4 case B => 5
  }

  /** The message names a face whose count is wrong, with that count, and
      every face before it in the order F, R, U, D, L, B has nine. */
  lemma ValidationNamesFirstBadFace(cube: CubeState)
    requires ValidationError(cube).Some?
    ensures exists m :: (0 <= m < 6
      && Count(cube, SolverOrder[m]) != 9
      && ValidationError(cube).value == Describe(SolverOrder[m], Count(cube, SolverOrder[m]))
      && forall m' :: 0 <= m' < m ==> Count(cube, SolverOrder[m']) == 9)
  {
  }

  /** The stray entry a rejected reading leaves is counted like a face: its
      stickers add to the counts of the faces they name. */
  lemma StrayIsCounted(cube: CubeState, rd: Reading, f: Face)
    ensures Count(cube.(stray := Some(rd)), f) == Count(cube.(stray := None), f) + multiset(rd)[Some(f)]
  {
    var withStray := Values(cube.(stray := Some(rd)));
    assert withStray[..6] == Values(cube.(stray := None));
  }

  /** `validateState`: count every sticker of every non-null value, then
      check the six counts in the order F, R, U, D, L, B. */
  method ValidateState(cube: CubeState) returns (err: Option<string>)
    ensures err == ValidationError(cube)
  {
    var counts: map<Face, nat> := map[F := 0, R := 0, U := 0, D := 0, L := 0, B := 0];
    var values := Values(cube);
    forall f: Face ensures f in counts && counts[f] == Tally(values[..0], f) {
      assert values[..0] == [];
      match f
      case F => case R => case U => case D => case L => case B =>
    }
    var i := 0;
    while i < |values|
      invariant 0 <= i <= |values|
      invariant forall f: Face :: f in counts && counts[f] == Tally(values[..i], f)
    {
      var faceStickers := values[i];
      if faceStickers.Some? {
        var stickers := faceStickers.value;
        var j := 0;
        while j < |stickers|
          invariant 0 <= j <= |stickers|
          invariant forall f: Face ::
            f in counts && counts[f] == Tally(values[..i], f) + multiset(stickers[..j])[Some(f)]
        {
          var s := stickers[j];
          OneMoreSticker(stickers, j);
          if s.Some? {
            counts := counts[s.value := counts[s.value] + 1];
          }
          j := j + 1;
        }
        assert stickers[..j] == stickers;
      }
      OneMoreValue(values, i);
      i := i + 1;
    }
    assert values[..i] == values;
    var k := 0;
    while k < 6
      invariant 0 <= k <= 6
      invariant FirstMismatch(cube, k) == FirstMismatch(cube, 0)
    {
      var color := SolverOrder[k];
      if counts[color] != 9 {
        return Some(Describe(color, counts[color]));
      }
      k := k + 1;
    }
    return None;
  }

  lemma OneMoreSticker(stickers: Reading, j: nat)
    requires j < |stickers|
    ensures forall f: Face :: (multiset(stickers[..j + 1])[Some(f)] ==
      multiset(stickers[..j])[Some(f)] + (if stickers[j] == Some(f) then 1 else 0))
  {
    assert stickers[..j + 1] == stickers[..j] + [stickers[j]];
  }

  lemma OneMoreValue(vs: seq<Option<Reading>>, i: nat)
    requires i < |vs|
    ensures forall f: Face :: (Tally(vs[..i + 1], f) ==
      Tally(vs[..i], f) + (if vs[i].Some? then multiset(vs[i].value)[Some(f)] else 0))
  {
    assert vs[..i + 1][..i] == vs[..i];
  }

  /** `typeMap[stickerId]` appended to a string: the lower-case letter of the
      face, or the text "undefined" for a sticker with no face. */
  function Letter(s: Sticker): string
  {
    match s
    case Some(f) => [LowerLetter(f)]
    case None => "undefined"
  }

  function LowerLetter(f: Face): char
  {
    match f
    case F => 'f' case R => 'r' case U => 'u' case D => 'd' case L => 'l' case B => 'b'
  }

  /** What the solver reads back from one character of the cube string. */
  function ParseLetter(c: char): Sticker
  {
    if c == 'f' then Some(F)
    else if c == 'r' then Some(R)
    else if c == 'u' then Some(U)
    else if c == 'd' then Some(D)
    else if c == 'l' then Some(L)
    else if c == 'b' then Some(B)
    else None
  }

  /** One reading spelled sticker by sticker. */
  function Spell(rd: Reading): string
  {
    if rd == [] then "" else Spell(rd[..|rd| - 1]) + Letter(rd[|rd| - 1])
  }

  /** The first `k` faces of the order F, R, U, D, L, B are all set. */
  predicate SetUpTo(cube: CubeState, k: nat)
  {
    k <= 6 && forall m :: 0 <= m < k ==> cube.slots[SolverOrder[m]].Some?
  }

  /** The first `k` faces of the order F, R, U, D, L, B spelled one after
      the other. */
  function SpellUpTo(cube: CubeState, k: nat): string
    requires SetUpTo(cube, k)
  {
    if k == 0 then "" else SpellUpTo(cube, k - 1) + Spell(cube.slots[SolverOrder[k - 1]].value)
  }

  /** The cube string, or nothing when a face slot is `null` (the code then
      fails inside its `try` block). */
  function Serialised(cube: CubeState): (r: Option<string>)
    ensures r.Some? <==> forall f: Face :: cube.slots[f].Some?
  {
    if SetUpTo(cube, 6) then
      assert forall f: Face :: cube.slots[f].Some? by {
        forall f: Face ensures cube.slots[f].Some? {
          assert SolverOrder[SolverIndex(f)] == f;
        }
      }
      Some(SpellUpTo(cube, 6))
    else None
  }

  /** The serialisation loop of `getSolverMoves`. */
  method Serialise(cube: CubeState) returns (r: Option<string>)
    ensures r == Serialised(cube)
  {
    var cubeString := "";
    var k := 0;
    while k < 6
      invariant 0 <= k <= 6 && SetUpTo(cube, k)
      invariant cubeString == SpellUpTo(cube, k)
    {
      var stickers := cube.slots[SolverOrder[k]];
      if stickers.None? {
        return None;
      }
      cubeString := AppendReading(cubeString, stickers.value);
      k := k + 1;
    }
    return Some(cubeString);
  }

  /** The inner `stickers.forEach`: append each sticker's letter in turn. */
  method AppendReading(prefix: string, rd: Reading) returns (s: string)
    ensures s == prefix + Spell(rd)
  {
    s := prefix;
    var j := 0;
    while j < |rd|
      invariant 0 <= j <= |rd|
      invariant s == prefix + Spell(rd[..j])
    {
      SpellOneMore(rd, j);
      s := s + Letter(rd[j]);
      j := j + 1;
    }
    assert rd[..j] == rd;
  }

  lemma SpellOneMore(rd: Reading, j: nat)
    requires j < |rd|
    ensures Spell(rd[..j + 1]) == Spell(rd[..j]) + Letter(rd[j])
  {
    assert rd[..j + 1][..j] == rd[..j];
  }

  /** Reading a cube string back, character by character. */
  function Parse(s: string): Reading
  {
    seq(|s|, i requires 0 <= i < |s| => ParseLetter(s[i]))
  }

  /** Every sticker names a face. */
  predicate AllKnown(rd: Reading)
  {
    forall i :: 0 <= i < |rd| ==> rd[i].Some?
  }

  /** A reading whose stickers all name faces is spelled one letter per
      sticker, and the letters read back as the reading. */
  lemma {:induction false} SpellRoundTrip(rd: Reading)
    requires AllKnown(rd)
    ensures |Spell(rd)| == |rd| && Parse(Spell(rd)) == rd
    decreases |rd|
  {
    if rd != [] {
      var init := rd[..|rd| - 1];
      SpellRoundTrip(init);
      var last := rd[|rd| - 1];
      assert ParseLetter(LowerLetter(last.value)) == last;
      assert Parse(Spell(rd)) == Parse(Spell(init)) + [last];
      assert rd == init + [last];
    }
  }

  /** The first `k` readings in the order F, R, U, D, L, B, one after the other. */
  function StickersUpTo(cube: CubeState, k: nat): Reading
    requires SetUpTo(cube, k)
  {
    if k == 0 then [] else StickersUpTo(cube, k - 1) + cube.slots[SolverOrder[k - 1]].value
  }

  /** When the set faces' stickers all name faces, the cube string holds one
      letter per sticker and reads back as the readings in the order
      F, R, U, D, L, B: 54 letters for six nine-sticker faces. */
  lemma {:induction false} SerialisedRoundTrip(cube: CubeState, k: nat)
    requires SetUpTo(cube, k)
    requires forall m :: 0 <= m < k ==> AllKnown(cube.slots[SolverOrder[m]].value)
    ensures |SpellUpTo(cube, k)| == |StickersUpTo(cube, k)|
    ensures Parse(SpellUpTo(cube, k)) == StickersUpTo(cube, k)
    ensures (forall m :: 0 <= m < k ==> |cube.slots[SolverOrder[m]].value| == 9) ==>
      |SpellUpTo(cube, k)| == 9 * k
  {
    if k > 0 {
      SerialisedRoundTrip(cube, k - 1);
      var rd := cube.slots[SolverOrder[k - 1]].value;
      SpellRoundTrip(rd);
      assert Parse(SpellUpTo(cube, k - 1) + Spell(rd)) == Parse(SpellUpTo(cube, k - 1)) + Parse(Spell(rd));
    }
  }

  /** The answer of the solver library for a cube string: it either fails
      (throws, or returns nothing usable) or returns its four stages. */
  datatype SolverResponse = Crashed | Partitioned(cross: Phase, f2l: Phase, oll: Phase, pll: Phase)

  const Impossible := "Impossible Cube State. Please rescan."
  const NotLoaded := "Solver library not loaded. Check internet."

  /** `getSolverMoves`: validation first, then serialisation, then the
      solver's presence, then its answer. `solver` is the global solver
      library, `None` when it did not load. */
  method GetSolverMoves(cube: CubeState, solver: Option<string -> SolverResponse>)
    returns (r: Result<seq<string>, string>)
    ensures ValidationError(cube).Some? ==> r == Failure(ValidationError(cube).value)
    ensures ValidationError(cube).None? && Serialised(cube).None? ==> r == Failure(Impossible)
    ensures ValidationError(cube).None? && Serialised(cube).Some? && solver.None? ==>
      r == Failure(NotLoaded)
    ensures ValidationError(cube).None? && Serialised(cube).Some? && solver.Some? ==>
      match solver.value(Serialised(cube).value)
      case Crashed => r == Failure(Impossible)
      case Partitioned(c, f, o, p) => r == Success(Moves([c, f, o, p]))
    ensures r.Success? ==> forall f: Face :: Count(cube, f) == 9
    ensures r.Success? ==> forall i :: 0 <= i < |r.value| ==>
      r.value[i] != "" && NoSpace(r.value[i]) && NoPrime(r.value[i])
  {
    var validationError := ValidateState(cube);
    if validationError.Some? {
      return Failure(validationError.value);
    }
    var cubeString := Serialise(cube);
    if cubeString.None? {
      return Failure(Impossible);
    }
    if solver.None? {
      return Failure(NotLoaded);
    }
    var result := solver.value(cubeString.value);
    match result
    case Crashed =>
      return Failure(Impossible);
    case Partitioned(c, f, o, p) =>
      var moves := Moves([c, f, o, p]);
      MovesAreTokens([c, f, o, p]);
      MovesHaveNoPrime([c, f, o, p]);
      return Success(moves);
  }

  /** An empty cube state fails validation on the green face, with count 0. */
  lemma EmptyCubeMessage()
    ensures ValidationError(Empty) == Some(Describe(F, 0)) && Decimal(0) == "0"
  {
    NothingCounted(Values(Empty), F);
    assert FirstMismatch(Empty, 0) == Some(F);
    assert Decimal(0) == "0";
  }

  lemma {:induction false} NothingCounted(vs: seq<Option<Reading>>, f: Face)
    requires forall i :: 0 <= i < |vs| ==> vs[i].None?
    ensures Tally(vs, f) == 0
    decreases |vs|
  {
    if vs != [] {
      NothingCounted(vs[..|vs| - 1], f);
    }
  }
}
