/** Where the stripper's reading of a source departs from what its line numbers and its callers rely
    on, and exactly when. */
module SourceEdges {
  import opened Wrappers
  import opened SourceAudit
  import opened SourcePieces

  // ---- Lines ----

  /** No comment or literal holds a line break other than the newline. */
  predicate NewlinesOnly(pieces: seq<Piece>) {
    forall i :: 0 <= i < |pieces| && !pieces[i].Code? ==> OnlyNewlines(Show(pieces[i]))
  }

  /** Every break of `text` from `k` on is still there in `blanked`. */
  predicate BreaksStay(text: string, blanked: string) {
    |blanked| == |text| && forall k :: 0 <= k < |text| && IsBreak(text[k]) ==> blanked[k] == text[k]
  }

  lemma {:induction false} PiecesBreaksStay(pieces: seq<Piece>)
    ensures |Sanitised(pieces)| == |ShowAll(pieces)|
    ensures BreaksStay(ShowAll(pieces), Sanitised(pieces)) <==> NewlinesOnly(pieces)
  {
    hide Show, IsBreak;
    if pieces == [] {
    } else {
      var p, rest := pieces[0], pieces[1..];
      var shown := if p.Code? then Show(p) else Blanked(Show(p));
      PiecesBreaksStay(rest);
      BreaksStayTogether(Show(p), shown, ShowAll(rest), Sanitised(rest));
      PieceBreaksStay(Show(p));
      FirstNewlinesOnly(pieces);
    }
  }

  lemma FirstNewlinesOnly(pieces: seq<Piece>)
    requires pieces != []
    ensures NewlinesOnly(pieces) <==> (pieces[0].Code? || OnlyNewlines(Show(pieces[0]))) && NewlinesOnly(pieces[1..])
  {
    hide Show, OnlyNewlines;
    assert forall i :: 1 <= i < |pieces| ==> pieces[i] == pieces[1..][i - 1];
  }

  lemma PieceBreaksStay(s: string)
    ensures BreaksStay(s, s) && (BreaksStay(s, Blanked(s)) <==> OnlyNewlines(s))
  {
    assert !IsBreak(' ');
  }

  lemma BreaksStayTogether(a: string, a': string, b: string, b': string)
    requires |a| == |a'| && |b| == |b'|
    ensures BreaksStay(a + b, a' + b') <==> BreaksStay(a, a') && BreaksStay(b, b')
  {
    hide IsBreak;
    var t, t' := a + b, a' + b';
    assert forall k :: 0 <= k < |a| ==> t[k] == a[k] && t'[k] == a'[k];
    assert forall k :: 0 <= k < |b| ==> t[|a| + k] == b[k] && t'[|a| + k] == b'[k];
    if BreaksStay(a, a') && BreaksStay(b, b') {
      forall k | 0 <= k < |t| && IsBreak(t[k]) ensures t'[k] == t[k] {
        if k >= |a| {
          assert t[k] == b[k - |a|];
        }
      }
    }
  }

  /** In a text made of pieces that fit together, raw and sanitised lines agree, start for start and end
      for end, if and only if no comment or literal holds a line break other than the newline. */
  lemma PiecesAlign(pieces: seq<Piece>)
    requires FitTogether(pieces)
    ensures LinesFrom(Strip(ShowAll(pieces)), 0) == LinesFrom(ShowAll(pieces), 0) <==> NewlinesOnly(pieces)
  {
    hide Strip, Sanitised, ShowAll, LinesFrom, FitTogether, NewlinesOnly, IsBreak;
    PiecesAreSanitised(pieces);
    PiecesBreaksStay(pieces);
    SanitisedLinesAlign(ShowAll(pieces));
  }

  // ---- Nested comments ----

  /** Where a block comment ends when comments nest, `depth` of them being open at `k`. */
  function NestedEnd(text: string, k: nat, depth: nat): Option<nat>
    decreases |text| - k
  {
    if k + 2 > |text| then None
    else if Stands(text, "/*", k) then NestedEnd(text, k + 2, depth + 1)
    else if Stands(text, "*/", k) then (if depth <= 1 then Some(k + 2) else NestedEnd(text, k + 2, depth - 1))
    else NestedEnd(text, k + 1, depth)
  }

  /** A comment cannot end before a closing mark that stands. */
  lemma {:induction false} NestedEndsLate(text: string, k: nat, depth: nat, j: nat)
    requires k <= |text| && depth >= 1 && forall m :: k <= m < j ==> !Stands(text, "*/", m)
    ensures var end := NestedEnd(text, k, depth); end.Some? ==> end.value >= (if k <= j then j else k) + 2 * depth
    decreases |text| - k
  {
    if k + 2 <= |text| {
      if Stands(text, "/*", k) {
        NestedEndsLate(text, k + 2, depth + 1, j);
      } else if Stands(text, "*/", k) {
        if depth > 1 {
          NestedEndsLate(text, k + 2, depth - 1, j);
        }
      } else {
        NestedEndsLate(text, k + 1, depth, j);
      }
    }
  }

  /** Where one comment is open, counting nests and looking for the first closing mark agree exactly
      if no opening mark stands before that closing mark. */
  lemma {:induction false} FirstCloseIsEnd(text: string, k: nat, j: nat)
    requires k <= j && Stands(text, "*/", j) && forall m :: k <= m < j ==> !Stands(text, "*/", m)
    ensures NestedEnd(text, k, 1) == Some(j + 2) <==> forall m :: k <= m < j ==> !Stands(text, "/*", m)
    decreases j - k
  {
    if k == j {
      assert text[j..j + 2][0] == '*';
    } else if Stands(text, "/*", k) {
      NestedEndsLate(text, k + 2, 2, j);
    } else {
      FirstCloseIsEnd(text, k + 1, j);
    }
  }

  /** The stripper ends a block comment where Rust does, for which comments nest, if and only if no
      comment opens inside it before its first closing mark. */
  lemma CommentEndsAsNested(text: string, i: nat)
    requires i < |text| && Stands(text, "/*", i) && Find(text, "*/", i + 2).Some?
    ensures BlankEnd(text, i).Some?
    ensures BlankEnd(text, i) == NestedEnd(text, i + 2, 1)
       <==> forall m :: i + 2 <= m < Find(text, "*/", i + 2).value ==> !Stands(text, "/*", m)
  {
    assert text[i..i + 2][0] == '/' && text[i..i + 2][1] == '*';
    FirstCloseIsEnd(text, i + 2, Find(text, "*/", i + 2).value);
  }

  const NESTED := "/*/**/{*/"

  lemma NestedEndsLast()
    ensures NestedEnd(NESTED, 2, 1) == Some(|NESTED|)
  {
    var t := NESTED;
    assert t[2..4] == "/*" && t[4..6] == "*/" && t[6..8] == "{*" && t[7..9] == "*/";
    assert NestedEnd(t, 7, 1) == Some(9);
    assert NestedEnd(t, 6, 1) == Some(9);
    assert NestedEnd(t, 4, 2) == Some(9);
  }

  /** A piece put in front. */
  lemma InFront(p: Piece, rest: seq<Piece>)
    ensures ShowAll([p] + rest) == Show(p) + ShowAll(rest)
    ensures Sanitised([p] + rest) == (if p.Code? then Show(p) else Blanked(Show(p))) + Sanitised(rest)
    ensures FitTogether([p] + rest) <==> Fits(p, ShowAll(rest)) && FitTogether(rest)
  {
    assert ([p] + rest)[1..] == rest;
  }

  lemma NestedPieces() returns (pieces: seq<Piece>)
    ensures FitTogether(pieces) && ShowAll(pieces) == NESTED && Sanitised(pieces) == "      {*/"
  {
    hide ShowAll, Sanitised, FitTogether;
    pieces := NoPieces();
    InFront(Code('/'), pieces);
    pieces := [Code('/')] + pieces;
    InFront(Code('*'), pieces);
    pieces := [Code('*')] + pieces;
    InFront(Code('{'), pieces);
    pieces := [Code('{')] + pieces;
    assert ShowAll(pieces) == "{*/" && Sanitised(pieces) == "{*/";
    var t := "/*" + "*/";
    assert t[0..2] == "/*" && t[1..3] == "**";
    assert EndsFirst("/*", "*/");
    InFront(BlockComment("/*"), pieces);
    pieces := [BlockComment("/*")] + pieces;
    assert Blanked("/*/**/") == "      ";
  }

  lemma NoPieces() returns (pieces: seq<Piece>)
    ensures pieces == [] && FitTogether(pieces) && ShowAll(pieces) == "" && Sanitised(pieces) == ""
  {
    pieces := [];
  }

  /** A nested comment comes back with its end as code: a brace in it is counted. */
  lemma NestedCommentShows()
    ensures Strip(NESTED) == "      {*/" && NestedEnd(NESTED, 2, 1) == Some(|NESTED|)
  {
    NestedEndsLast();
    var pieces := NestedPieces();
    PiecesAreSanitised(pieces);
  }

  // ---- Escapes in character literals ----

  /** A character literal whose body is a backslash and `escape`. */
  function EscapedLiteral(escape: string): string {
    "'\\" + escape + "'"
  }

  /** An escaped character literal is blanked, to its end, if and only if its escape is one character
      long; a longer one, as in `'\x41'`, stays as code. */
  lemma OnlyShortEscapesBlank(text: string, i: nat, escape: string, rest: string)
    requires StandsHere(text, i, EscapedLiteral(escape), rest)
    requires escape != "" && '\'' !in escape[1..]
    ensures i < |text|
    ensures BlankEnd(text, i) == if |escape| == 1 then Some(i + |EscapedLiteral(escape)|) else None
  {
    var piece := EscapedLiteral(escape);
    HereAt(text, i, piece, rest, 0);
    HereAt(text, i, piece, rest, 1);
    HereAt(text, i, piece, rest, 3);
    if |escape| > 1 {
      assert piece[3] == escape[1] && escape[1] == escape[1..][0];
    }
  }

  /** `'\x41'` comes back whole. */
  lemma LongEscapeShows()
    ensures Strip(EscapedLiteral("x41")) == EscapedLiteral("x41")
  {
    var pieces := [Code('\''), Code('\\'), Code('x'), Code('4'), Code('1'), Code('\'')];
    assert ShowAll(pieces[6..]) == "" && ShowAll(pieces[5..]) == "'" && ShowAll(pieces[4..]) == "1'" &&
             ShowAll(pieces[3..]) == "41'";
    assert ShowAll(pieces[2..]) == "x41'" && ShowAll(pieces[1..]) == "\\x41'" &&
             ShowAll(pieces) == EscapedLiteral("x41");
    PiecesAreSanitised(pieces);
  }
}
