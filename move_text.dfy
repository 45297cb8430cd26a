/** How `getSolverMoves` turns the solver's four partitioned stages into one
    list of move tokens: each stage becomes text (an array is joined with
    single spaces, a missing stage is empty), the four texts are joined with
    single spaces, every "prime" becomes an apostrophe, the text is split on
    runs of whitespace and blank pieces are dropped. */
module MoveText {

  /** One stage of the solver's answer: an array of tokens, a string, or a
      falsy value (missing, `null`, the empty string). */
  datatype Phase = Tokens(tokens: seq<string>) | Text(text: string) | Absent

  /** The characters the regular-expression class `\s` matches (the same set
      `String.prototype.trim` removes). */
  predicate IsSpace(c: char)
  {
    || c == '\t' || c == '\n' || c == '\U{B}' || c == '\U{C}' || c == '\r' || c == ' '
    || c == '\U{A0}' || c == '\U{1680}' || ('\U{2000}' <= c <= '\U{200A}')
    || c == '\U{2028}' || c == '\U{2029}' || c == '\U{202F}' || c == '\U{205F}'
    || c == '\U{3000}' || c == '\U{FEFF}'
  }

  predicate NoSpace(s: string)
  {
    forall i :: 0 <= i < |s| ==> !IsSpace(s[i])
  }

  /** `Array.prototype.join(' ')`. */
  function Join(ts: seq<string>): (s: string)
    ensures |ts| == 1 ==> s == ts[0]
  {
    if |ts| == 0 then ""
    else if |ts| == 1 then ts[0]
    else ts[0] + " " + Join(ts[1..])
  }

  /** A stage as text: an array joined with spaces, a string as it is, a
      falsy value as the empty string. */
  function PhaseText(p: Phase): string
  {
    match p
    case Tokens(ts) => Join(ts)
    case Text(s) => s
    case Absent => ""
  }

  /** "prime" occurs in `s` at index `i`. */
  predicate PrimeAt(s: string, i: int)
  {
    0 <= i && i + 5 <= |s|
    && s[i] == 'p' && s[i + 1] == 'r' && s[i + 2] == 'i' && s[i + 3] == 'm' && s[i + 4] == 'e'
  }

  /** `replace(/prime/g, "'")`: leftmost, non-overlapping occurrences, the
      scan resuming after each replaced one. */
  function ReplacePrime(s: string): string
  {
    if |s| < 5 then s
    else if PrimeAt(s, 0) then "'" + ReplacePrime(s[5..])
    else [s[0]] + ReplacePrime(s[1..])
  }

  /** Length of the leading run of non-space characters. */
  function WordLen(s: string): (n: nat)
    ensures n <= |s| && NoSpace(s[..n]) && (n < |s| ==> IsSpace(s[n]))
  {
    if s == [] || IsSpace(s[0]) then 0 else 1 + WordLen(s[1..])
  }

  /** `s` without its leading run of space characters. */
  function DropSpaces(s: string): (t: string)
    ensures |t| <= |s| && t == s[|s| - |t|..]
    ensures t == [] || !IsSpace(t[0])
    ensures s != [] && IsSpace(s[0]) ==> |t| < |s|
  {
    if s != [] && IsSpace(s[0]) then DropSpaces(s[1..]) else s
  }

  /** `split(/\s+/)`: the pieces between maximal runs of whitespace; leading
      or trailing whitespace yields an empty first or last piece, and the
      empty string yields one empty piece. */
  function SplitWs(s: string): (pieces: seq<string>)
    ensures |pieces| >= 1
    decreases |s|
  {
    var n := WordLen(s);
    if n == |s| then [s]
    else [s[..n]] + SplitWs(DropSpaces(s[n..]))
  }

  /** `m.trim().length == 0`. */
  predicate IsBlank(m: string)
  {
    forall i :: 0 <= i < |m| ==> IsSpace(m[i])
  }

  /** `filter(m => m.trim().length > 0)`. */
  function KeepNonBlank(ms: seq<string>): seq<string>
  {
    if ms == [] then []
    else (if IsBlank(ms[0]) then [] else [ms[0]]) + KeepNonBlank(ms[1..])
  }

  /** The move list of `getSolverMoves`, computed the way the code does. */
  function Moves(parts: seq<Phase>): seq<string>
  {
    KeepNonBlank(SplitWs(ReplacePrime(Join(seq(|parts|, i requires 0 <= i < |parts| => PhaseText(parts[i]))))))
  }

  /** Reference reading: the maximal runs of non-space characters, in order. */
  function Words(s: string): (ws: seq<string>)
    ensures forall i :: 0 <= i < |ws| ==> ws[i] != "" && NoSpace(ws[i])
    decreases |s|
  {
    if s == [] then []
    else if IsSpace(s[0]) then Words(s[1..])
    else
      var n := WordLen(s);
      [s[..n]] + Words(s[n..])
  }

  /** The moves one stage contributes on its own. */
  function PhaseMoves(p: Phase): (ms: seq<string>)
    ensures p.Absent? ==> ms == []
  {
    Words(ReplacePrime(PhaseText(p)))
  }

  /** The moves of several stages, stage after stage. */
  function AllPhaseMoves(parts: seq<Phase>): seq<string>
  {
    if parts == [] then [] else PhaseMoves(parts[0]) + AllPhaseMoves(parts[1..])
  }

  lemma {:induction false} WordsSkipSpaces(s: string)
    ensures Words(DropSpaces(s)) == Words(s)
    decreases |s|
  {
    if s != [] && IsSpace(s[0]) {
      WordsSkipSpaces(s[1..]);
    }
  }

  lemma KeepNonBlankCons(x: string, xs: seq<string>)
    ensures KeepNonBlank([x] + xs) == (if IsBlank(x) then [] else [x]) + KeepNonBlank(xs)
  {
    assert ([x] + xs)[1..] == xs;
  }

  /** Splitting on whitespace and dropping blank pieces yields exactly the
      maximal non-space runs. */
  lemma {:induction false} SplitMatchesWords(s: string)
    ensures KeepNonBlank(SplitWs(s)) == Words(s)
    decreases |s|
  {
    var n := WordLen(s);
    if n == |s| {
      SplitLastPiece(s);
    } else {
      var rest := DropSpaces(s[n..]);
      SplitMatchesWords(rest);
      SplitNextPiece(s);
    }
  }

  /** The one-piece case of SplitMatchesWords. */
  lemma SplitLastPiece(s: string)
    requires WordLen(s) == |s|
    ensures KeepNonBlank(SplitWs(s)) == Words(s)
  {
    KeepNonBlankCons(s, []);
    if s != [] {
      assert !IsSpace(s[0]);
      assert s[..|s|] == s && s[|s|..] == [];
    }
  }

  /** The step of SplitMatchesWords: the first piece, then the rest. */
  lemma SplitNextPiece(s: string)
    requires WordLen(s) < |s|
    ensures var n := WordLen(s);
      && KeepNonBlank(SplitWs(s)) == (if n == 0 then [] else [s[..n]]) + KeepNonBlank(SplitWs(DropSpaces(s[n..])))
      && Words(s) == (if n == 0 then [] else [s[..n]]) + Words(DropSpaces(s[n..]))
  {
    var n := WordLen(s);
    WordsSkipSpaces(s[n..]);
    KeepNonBlankCons(s[..n], SplitWs(DropSpaces(s[n..])));
    if n == 0 {
      assert IsBlank(s[..n]);
      assert s[n..] == s;
    } else {
      assert !IsSpace(s[..n][0]);
    }
  }

  /** A space separates words: the words of `a + " " + b` are those of `a`
      followed by those of `b`. */
  lemma {:induction false} WordsAcrossSpace(a: string, b: string)
    ensures Words(a + " " + b) == Words(a) + Words(b)
    decreases |a|
  {
    var s := a + " " + b;
    if a == [] {
      assert s[1..] == b;
    } else if IsSpace(a[0]) {
      WordsAcrossSpace(a[1..], b);
      assert s[1..] == a[1..] + " " + b;
    } else {
      var n := WordLen(a);
      assert s == a + (" " + b);
      WordLenPrefix(a, " " + b);
      WordsAcrossSpace(a[n..], b);
      assert s[..n] == a[..n];
      assert s[n..] == a[n..] + " " + b;
    }
  }

  lemma {:induction false} WordLenPrefix(a: string, t: string)
    requires t != [] && IsSpace(t[0])
    ensures WordLen(a + t) == WordLen(a)
    decreases |a|
  {
    if a != [] && !IsSpace(a[0]) {
      WordLenPrefix(a[1..], t);
      assert (a + t)[1..] == a[1..] + t;
    }
  }

  /** A space is never part of "prime", so the replacement acts on each side
      of it separately. */
  lemma {:induction false} ReplacePrimeAcrossSpace(a: string, b: string)
    ensures ReplacePrime(a + " " + b) == ReplacePrime(a) + " " + ReplacePrime(b)
    decreases |a|
  {
    var s := a + " " + b;
    if a == [] {
      assert !PrimeAt(s, 0) && s[1..] == b;
      if |s| < 5 {
        assert ReplacePrime(b) == b;
      }
    } else if PrimeAt(a, 0) {
      assert PrimeAt(s, 0);
      ReplacePrimeAcrossSpace(a[5..], b);
      assert s[5..] == a[5..] + " " + b;
    } else {
      assert !PrimeAt(s, 0) by {
        if |a| < 5 { assert s[|a|] == ' '; }
      }
      assert s[1..] == a[1..] + " " + b;
      ReplacePrimeAcrossSpace(a[1..], b);
      if |s| < 5 {
        assert ReplacePrime(b) == b && ReplacePrime(a) == a && ReplacePrime(a[1..]) == a[1..];
      } else if |a| < 5 {
        assert ReplacePrime(a[1..]) == a[1..];
      }
    }
  }

  /** Joining the stage texts with spaces and reading the moves off the whole
      text gives each stage's moves in turn. */
  lemma {:induction false} JoinedMoves(texts: seq<string>)
    ensures Words(ReplacePrime(Join(texts))) ==
      AllPhaseMoves(seq(|texts|, i requires 0 <= i < |texts| => Text(texts[i])))
    decreases |texts|
  {
    var parts := seq(|texts|, i requires 0 <= i < |texts| => Text(texts[i]));
    if |texts| == 0 {
    } else if |texts| == 1 {
      assert AllPhaseMoves(parts) == PhaseMoves(parts[0]) + AllPhaseMoves(parts[1..]);
      assert parts[1..] == [];
    } else {
      var tail := texts[1..];
      JoinedMoves(tail);
      ReplacePrimeAcrossSpace(texts[0], Join(tail));
      WordsAcrossSpace(ReplacePrime(texts[0]), ReplacePrime(Join(tail)));
      assert parts[1..] == seq(|tail|, i requires 0 <= i < |tail| => Text(tail[i]));
    }
  }

  /** The move list is the concatenation of the stages' own moves: no move
      is glued across two stages, and a missing stage contributes none. */
  lemma MovesByPhase(parts: seq<Phase>)
    ensures Moves(parts) == AllPhaseMoves(parts)
  {
    var texts := seq(|parts|, i requires 0 <= i < |parts| => PhaseText(parts[i]));
    SplitMatchesWords(ReplacePrime(Join(texts)));
    JoinedMoves(texts);
    SameMovesAsText(parts, texts);
  }

  lemma {:induction false} SameMovesAsText(parts: seq<Phase>, texts: seq<string>)
    requires |texts| == |parts| && forall i :: 0 <= i < |parts| ==> texts[i] == PhaseText(parts[i])
    ensures AllPhaseMoves(parts) == AllPhaseMoves(seq(|texts|, i requires 0 <= i < |texts| => Text(texts[i])))
    decreases |parts|
  {
    if parts != [] {
      SameMovesAsText(parts[1..], texts[1..]);
      var ts := seq(|texts|, i requires 0 <= i < |texts| => Text(texts[i]));
      assert ts[1..] == seq(|texts[1..]|, i requires 0 <= i < |texts[1..]| => Text(texts[1..][i]));
    }
  }

  /** Every move is non-empty and holds no whitespace. */
  lemma MovesAreTokens(parts: seq<Phase>)
    ensures forall i :: 0 <= i < |Moves(parts)| ==> Moves(parts)[i] != "" && NoSpace(Moves(parts)[i])
  {
    var raw := ReplacePrime(Join(seq(|parts|, i requires 0 <= i < |parts| => PhaseText(parts[i]))));
    SplitMatchesWords(raw);
  }

  /** `w` is a prefix of `s`. */
  predicate StartsWith(s: string, w: string)
  {
    |w| <= |s| && s[..|w|] == w
  }

  /** No "prime" anywhere in `s`. */
  predicate NoPrime(s: string)
  {
    forall i :: 0 <= i < |s| ==> !PrimeAt(s, i)
  }

  /** A replaced text begins with a piece free of 'p' and of the apostrophe
      only where the original text begins with the same piece. */
  lemma {:induction false} ReplacedPrefix(t: string, w: string)
    requires forall i :: 0 <= i < |w| ==> w[i] != 'p' && w[i] != '\''
    requires StartsWith(ReplacePrime(t), w)
    ensures StartsWith(t, w)
    decreases |w|
  {
    if w != [] && |t| >= 5 {
      assert w[0] == ReplacePrime(t)[0];
      assert !PrimeAt(t, 0);
      var rest := ReplacePrime(t[1..]);
      assert ReplacePrime(t) == [t[0]] + rest;
      assert StartsWith(rest, w[1..]) by {
        assert ReplacePrime(t)[1..|w|] == rest[..|w| - 1];
      }
      ReplacedPrefix(t[1..], w[1..]);
      assert t[..|w|] == [t[0]] + t[1..][..|w| - 1];
    }
  }

  /** After the replacement no "prime" is left, not even one formed across a
      replaced occurrence. */
  lemma {:induction false} NoPrimeLeft(s: string)
    ensures NoPrime(ReplacePrime(s))
    decreases |s|
  {
    var r := ReplacePrime(s);
    if |s| < 5 {
    } else if PrimeAt(s, 0) {
      NoPrimeLeft(s[5..]);
      var rest := ReplacePrime(s[5..]);
      assert r == "'" + rest;
      forall i | 0 <= i < |r| ensures !PrimeAt(r, i) {
        if 1 <= i {
          assert !PrimeAt(rest, i - 1);
        }
      }
    } else {
      NoPrimeLeft(s[1..]);
      var rest := ReplacePrime(s[1..]);
      assert r == [s[0]] + rest;
      forall i | 0 <= i < |r| ensures !PrimeAt(r, i) {
        if 1 <= i {
          assert !PrimeAt(rest, i - 1);
        } else if PrimeAt(r, 0) {
          assert StartsWith(rest, "rime") by {
            assert rest[..4] == r[1..5];
          }
          ReplacedPrefix(s[1..], "rime");
          assert false;
        }
      }
    }
  }

  /** No move contains "prime". */
  lemma MovesHaveNoPrime(parts: seq<Phase>)
    ensures forall i :: 0 <= i < |Moves(parts)| ==> NoPrime(Moves(parts)[i])
  {
    var joined := Join(seq(|parts|, i requires 0 <= i < |parts| => PhaseText(parts[i])));
    NoPrimeLeft(joined);
    SplitMatchesWords(ReplacePrime(joined));
    WordsHaveNoPrime(ReplacePrime(joined));
  }

  /** Every word of a text without "prime" is itself without "prime". */
  lemma {:induction false} WordsHaveNoPrime(s: string)
    requires NoPrime(s)
    ensures forall i :: 0 <= i < |Words(s)| ==> NoPrime(Words(s)[i])
    decreases |s|
  {
    if s == [] {
    } else if IsSpace(s[0]) {
      NoPrimeSlice(s, 1, |s|);
      assert s[1..|s|] == s[1..];
      WordsHaveNoPrime(s[1..]);
    } else {
      var n := WordLen(s);
      NoPrimeSlice(s, n, |s|);
      NoPrimeSlice(s, 0, n);
      assert s[n..|s|] == s[n..] && s[0..n] == s[..n];
      WordsHaveNoPrime(s[n..]);
      assert Words(s) == [s[..n]] + Words(s[n..]);
    }
  }

  lemma NoPrimeSlice(s: string, j: nat, k: nat)
    requires NoPrime(s) && j <= k <= |s|
    ensures NoPrime(s[j..k])
  {
    forall i | 0 <= i < k - j ensures !PrimeAt(s[j..k], i) {
      if PrimeAt(s[j..k], i) {
        assert PrimeAt(s, j + i);
      }
    }
  }

  /** A non-empty run without whitespace is one word. */
  lemma {:induction false} SingleWord(w: string)
    requires w != [] && NoSpace(w)
    ensures Words(w) == [w]
    decreases |w|
  {
    WholeWord(w);
    assert w[..|w|] == w && w[|w|..] == [];
  }

  lemma {:induction false} WholeWord(w: string)
    requires NoSpace(w)
    ensures WordLen(w) == |w|
    decreases |w|
  {
    if w != [] {
      WholeWord(w[1..]);
    }
  }

  /** The replacement neither empties a text nor brings whitespace into it. */
  lemma {:induction false} ReplacePrimeKeepsToken(t: string)
    ensures |ReplacePrime(t)| <= |t| && (t != [] ==> ReplacePrime(t) != [])
    ensures NoSpace(t) ==> NoSpace(ReplacePrime(t))
    decreases |t|
  {
    if |t| >= 5 {
      var k := if PrimeAt(t, 0) then 5 else 1;
      ReplacePrimeKeepsToken(t[k..]);
      if NoSpace(t) {
        assert NoSpace(t[k..]) by {
          forall i | 0 <= i < |t[k..]| ensures !IsSpace(t[k..][i]) {
            assert t[k..][i] == t[k + i];
          }
        }
      }
    }
  }

  /** An array stage whose tokens are non-empty and free of whitespace
      contributes exactly its tokens, each with "prime" replaced. */
  lemma {:induction false} TokensPhase(ts: seq<string>)
    requires forall i :: 0 <= i < |ts| ==> ts[i] != [] && NoSpace(ts[i])
    ensures PhaseMoves(Tokens(ts)) == seq(|ts|, i requires 0 <= i < |ts| => ReplacePrime(ts[i]))
    decreases |ts|
  {
    if |ts| >= 1 {
      ReplacePrimeKeepsToken(ts[0]);
      SingleWord(ReplacePrime(ts[0]));
    }
    if |ts| >= 2 {
      TokensPhase(ts[1..]);
      ReplacePrimeAcrossSpace(ts[0], Join(ts[1..]));
      WordsAcrossSpace(ReplacePrime(ts[0]), ReplacePrime(Join(ts[1..])));
    }
  }

  /** Stages whose text is empty (missing, `null`, "" or an empty array)
      contribute no moves. */
  lemma {:induction false} SilentPhases(parts: seq<Phase>)
    requires forall i :: 0 <= i < |parts| ==> PhaseText(parts[i]) == ""
    ensures AllPhaseMoves(parts) == []
    decreases |parts|
  {
    if parts != [] {
      SilentPhases(parts[1..]);
    }
  }

  /** The array-valued example: tokens "R", "Uprime", "F2" followed by three
      empty stages become the moves R, U', F2. */
  lemma TokensExample(ts: seq<string>, parts: seq<Phase>)
    requires ts == ["R", "Uprime", "F2"] && parts == [Tokens(ts), Absent, Text(""), Absent]
    ensures Moves(parts) == ["R", "U'", "F2"]
  {
    MovesByPhase(parts);
    ExampleStage(ts);
    assert AllPhaseMoves(parts) == PhaseMoves(parts[0]) + AllPhaseMoves(parts[1..]);
    SilentPhases(parts[1..]);
  }

  lemma ExampleStage(ts: seq<string>)
    requires ts == ["R", "Uprime", "F2"]
    ensures PhaseMoves(Tokens(ts)) == ["R", "U'", "F2"]
  {
    assert NoSpace(ts[1]) by {
      forall i | 0 <= i < 6 ensures !IsSpace(ts[1][i]) {
        assert 'A' <= ts[1][i] <= 'z';
      }
    }
    TokensPhase(ts);
    assert ReplacePrime(ts[1]) == "U'";
  }
}
