/** The vocabulary shared by the scanner and the solver adapter: the six face
    letters, the three fixed face orders, and the colour-name tables. */
module Faces {
  import opened Wrappers

  /** A logical face of the cube, named by its letter. */
  datatype Face = U | D | F | B | L | R

  /** Key order of the cube-state object (`{ U, D, F, B, L, R }`). */
  const SlotOrder: seq<Face> := [U, D, F, B, L, R]

  /** Priority in which the scanner asks for the next face. */
  const GuideOrder: seq<Face> := [F, R, B, L, U, D]

  /** Face order of the solver's input string, also the order of the count check. */
  const SolverOrder: seq<Face> := [F, R, U, D, L, B]

  /** Position of a face in SlotOrder. */
  function Rank(f: Face): (r: nat)
    ensures r < 6 && SlotOrder[r] == f
  {
    match f
    case U => 0 case D => 1 case F => 2 case B => 3 case L => 4 case R => 5
  }

  /** Rank inverts indexing into SlotOrder. */
  lemma RankOfSlot(k: nat)
    requires k < 6
    ensures Rank(SlotOrder[k]) == k
  {
    if k == 0 {} else if k == 1 {} else if k == 2 {} else if k == 3 {} else if k == 4 {}
  }

  /** Position of a face in GuideOrder. */
  function Priority(f: Face): (r: nat)
    ensures r < 6 && GuideOrder[r] == f
  {
    match f
    case F => 0 case R => 1 case B => 2 case L => 3 case U => 4 case D => 5
  }

  /** The colour-name table `colorFace`: a colour name the vision side reports
      gives the face of that colour; any other name gives `undefined`. */
  function ColorFace(c: string): Option<Face>
  {
    if c == "white" then Some(U)
    else if c == "yellow" then Some(D)
    else if c == "green" then Some(F)
    else if c == "blue" then Some(B)
    else if c == "orange" then Some(L)
    else if c == "red" then Some(R)
    else None
  }

  /** The inverse table `faceColor`, built by swapping the entries of `colorFace`. */
  function FaceColor(f: Face): (c: string)
    ensures ColorFace(c) == Some(f)
  {
    match f
    case U => "white" case D => "yellow" case F => "green"
    case B => "blue" case L => "orange" case R => "red"
  }

  /** The two tables are mutually inverse: a known colour name is the one its
      face maps back to. */
  lemma ColorFaceInverse(c: string, f: Face)
    requires ColorFace(c) == Some(f)
    ensures FaceColor(f) == c
  {
  }

  /** A sticker after colour mapping: a face letter, or `undefined` for a
      colour name outside the table. */
  type Sticker = Option<Face>

  /** `faceColors.map(color => this.colorFace[color])`. */
  function MapColors(colors: seq<string>): seq<Sticker>
  {
    seq(|colors|, i requires 0 <= i < |colors| => ColorFace(colors[i]))
  }

  /** `stickers[4]`: the centre sticker, `undefined` when the reading is too short. */
  function CenterFace(stickers: seq<Sticker>): Option<Face>
  {
    if |stickers| > 4 then stickers[4] else None
  }

  /** A reading is keyed by the face of its centre colour. */
  lemma CenterOfMappedReading(colors: seq<string>)
    ensures CenterFace(MapColors(colors)) == (if |colors| > 4 then ColorFace(colors[4]) else None)
  {
  }
}
