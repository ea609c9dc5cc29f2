/** What the stripper takes for code, comments and literals, written down as a grammar: a text that
    follows it is blanked in exactly the pieces that are not code. */
module SourcePieces {
  import opened Wrappers
  import opened SourceAudit

  /** The pieces of a source text. A raw string has `hashes` `#` on each side; `byte` puts a `b` in
      front. */
  datatype Piece =
    | Code(c: char)
    | LineComment(body: string)
    | BlockComment(body: string)
    | Quoted(byte: bool, body: string)
    | Raw(byte: bool, hashes: nat, body: string)
    | CharLiteral(body: string)

  function Byte(byte: bool): string {
    if byte then "b" else ""
  }

  function Show(p: Piece): (s: string)
    ensures s != ""
  {
    match p
    case Code(c) => [c]
    case LineComment(body) => "//" + body
    case BlockComment(body) => "/*" + body + "*/"
    case Quoted(byte, body) => Byte(byte) + "\"" + body + "\""
    case Raw(byte, hashes, body) => Byte(byte) + "r" + Hashes(hashes) + "\"" + body + "\"" + Hashes(hashes)
    case CharLiteral(body) => "'" + body + "'"
  }

  function ShowAll(pieces: seq<Piece>): string {
    if pieces == [] then "" else Show(pieces[0]) + ShowAll(pieces[1..])
  }

  /** The text with every piece but code replaced by spaces, newlines kept. */
  function Sanitised(pieces: seq<Piece>): string {
    if pieces == [] then ""
    else (if pieces[0].Code? then Show(pieces[0]) else Blanked(Show(pieces[0]))) + Sanitised(pieces[1..])
  }

  // ---- Which pieces may stand before which text ----

  predicate Starts(s: string, c: char) {
    s != "" && s[0] == c
  }

  /** After some `#`, a quote: the rest of a raw string's opening. */
  predicate OpensRaw(s: string) {
    Starts(s, '"') || (Starts(s, '#') && OpensRaw(s[1..]))
  }

  /** A character that starts no comment and no literal before `rest`. */
  predicate CodeBefore(c: char, rest: string) {
    match c
    case '/' => !Starts(rest, '/') && !Starts(rest, '*')
    case '"' => false
    case 'r' => !OpensRaw(rest)
    case 'b' => !Starts(rest, '"') && !(Starts(rest, 'r') && OpensRaw(rest[1..]))
    case '\'' =>
      if Starts(rest, '\\') && |rest| >= 2 then !Starts(rest[2..], '\'')
      else rest != "" ==> !Starts(rest[1..], '\'')
    case _ => true
  }

  /** Escapes are whole and no quote stands outside them. */
  predicate Escaped(body: string) {
    body == ""
    || (body[0] == '\\' && |body| >= 2 && Escaped(body[2..]))
    || (body[0] != '\\' && body[0] != '"' && Escaped(body[1..]))
  }

  /** The terminator does not stand in the body, nor across its end. */
  predicate EndsFirst(body: string, terminator: string) {
    forall k :: 0 <= k < |body| ==> !Stands(body + terminator, terminator, k)
  }

  predicate Fits(p: Piece, rest: string) {
    match p
    case Code(c) => CodeBefore(c, rest)
    case LineComment(body) => '\n' !in body && (rest == "" || Starts(rest, '\n'))
    case BlockComment(body) => EndsFirst(body, "*/")
    case Quoted(_, body) => Escaped(body)
    case Raw(_, hashes, body) => EndsFirst(body, "\"" + Hashes(hashes))
    case CharLiteral(body) => (|body| == 1 && body[0] != '\\') || (|body| == 2 && body[0] == '\\')
  }

  predicate FitTogether(pieces: seq<Piece>) {
    pieces == [] || (Fits(pieces[0], ShowAll(pieces[1..])) && FitTogether(pieces[1..]))
  }

  // ---- Reading a piece where it stands ----

  lemma FindAt(text: string, pattern: string, from: nat, k: nat)
    requires from <= k && Stands(text, pattern, k) && forall j :: from <= j < k ==> !Stands(text, pattern, j)
    ensures Find(text, pattern, from) == Some(k)
  {
  }

  /** What stands in the text at `i`. */
  predicate StandsHere(text: string, i: nat, piece: string, rest: string) {
    i <= |text| && text[i..] == piece + rest
  }

  lemma HereAt(text: string, i: nat, piece: string, rest: string, k: nat)
    requires StandsHere(text, i, piece, rest) && k < |piece| + |rest|
    ensures i + k < |text| && text[i + k] == (piece + rest)[k]
  {
    assert text[i..][k] == text[i + k];
  }

  lemma HereSlice(text: string, i: nat, piece: string, rest: string, a: nat, b: nat)
    requires StandsHere(text, i, piece, rest) && a <= b <= |piece|
    ensures i + b <= |text| && text[i + a..i + b] == piece[a..b]
  {
    var tail := text[i..];
    assert |tail| == |text| - i && |tail| == |piece| + |rest|;
    forall k | a <= k < b ensures text[i + k] == piece[k] {
      assert tail[k] == (piece + rest)[k];
    }
    var here := text[i + a..i + b];
    assert forall k :: 0 <= k < |here| ==> here[k] == text[i + (a + k)];
    assert here == piece[a..b];
  }

  /** A body with its terminator, read from where the body starts. */
  lemma TerminatorFound(text: string, i: nat, body: string, terminator: string, rest: string)
    requires StandsHere(text, i, body + terminator, rest) && EndsFirst(body, terminator) && terminator != ""
    ensures Find(text, terminator, i) == Some(i + |body|)
  {
    var t := body + terminator;
    HereSlice(text, i, t, rest, |body|, |t|);
    assert t[|body|..] == terminator;
    forall j | i <= j < i + |body| ensures !Stands(text, terminator, j) {
      var k := j - i;
      if k + |terminator| <= |t| {
        HereSlice(text, i, t, rest, k, k + |terminator|);
        assert !Stands(t, terminator, k);
      }
    }
    FindAt(text, terminator, i, i + |body|);
  }

  lemma {:induction false} QuoteFound(text: string, i: nat, body: string, rest: string)
    requires StandsHere(text, i, body + "\"", rest) && Escaped(body)
    ensures QuoteEnd(text, i) == Some(i + |body| + 1)
    decreases |body|
  {
    HereAt(text, i, body + "\"", rest, 0);
    if body == "" {
    } else {
      var n := if body[0] == '\\' then 2 else 1;
      assert body == body[..n] + body[n..];
      assert text[i + n..] == text[i..][n..] == (body + "\"" + rest)[n..] == body[n..] + "\"" + rest;
      if n == 2 {
        HereAt(text, i, body + "\"", rest, 1);
      }
      QuoteFound(text, i + n, body[n..], rest);
    }
  }

  lemma {:induction false} HashesCounted(text: string, i: nat, n: nat, rest: string)
    requires StandsHere(text, i, Hashes(n), rest) && !Starts(rest, '#')
    ensures HashEnd(text, i) == i + n
    decreases n
  {
    if n == 0 {
      assert text[i..] == rest;
      if i < |text| { HereAt(text, i, "", rest, 0); }
    } else {
      HereAt(text, i, Hashes(n), rest, 0);
      assert text[i + 1..] == text[i..][1..] == Hashes(n - 1) + rest;
      HashesCounted(text, i + 1, n - 1, rest);
    }
  }

  /** After a letter that opens no raw string, none is read. */
  lemma {:induction false} NoRawHere(text: string, k: nat)
    requires k <= |text| && !OpensRaw(text[k..])
    ensures !At(text, HashEnd(text, k), '"')
    decreases |text| - k
  {
    if k < |text| {
      assert text[k..][0] == text[k] && text[k..][1..] == text[k + 1..];
      if text[k] == '#' {
        NoRawHere(text, k + 1);
      }
    }
  }

  lemma CodeIsKept(text: string, i: nat, c: char, rest: string)
    requires StandsHere(text, i, [c], rest) && CodeBefore(c, rest)
    ensures i < |text| && BlankEnd(text, i).None?
  {
    HereAt(text, i, [c], rest, 0);
    assert text[i + 1..] == text[i..][1..] == rest;
    forall k | 0 <= k < |rest| ensures text[i + 1 + k] == rest[k] {
      HereAt(text, i + 1, "", rest, k);
    }
    if c == 'r' {
      NoRawHere(text, i + 1);
    }
    if c == 'b' && Starts(rest, 'r') {
      assert text[i + 2..] == rest[1..];
      NoRawHere(text, i + 2);
    }
  }

  lemma LineCommentEnds(text: string, i: nat, body: string, rest: string)
    requires StandsHere(text, i, "//" + body, rest) && '\n' !in body && (rest == "" || Starts(rest, '\n'))
    ensures i < |text| && BlankEnd(text, i) == Some(i + 2 + |body|)
  {
    var piece := "//" + body;
    var end := i + |piece|;
    HereAt(text, i, piece, rest, 0);
    HereAt(text, i, piece, rest, 1);
    forall j | i <= j < end ensures !Stands(text, "\n", j) {
      HereAt(text, i, piece, rest, j - i);
      assert (piece + rest)[j - i] == piece[j - i] != '\n';
      assert text[j..j + 1][0] == text[j];
    }
    assert |text| == end + |rest|;
    if rest != "" {
      HereAt(text, i, piece, rest, |piece|);
      assert text[end..end + 1] == "\n";
      FindAt(text, "\n", i, end);
    }
  }

  lemma BlockCommentEnds(text: string, i: nat, body: string, rest: string)
    requires StandsHere(text, i, "/*" + body + "*/", rest) && EndsFirst(body, "*/")
    ensures i < |text| && BlankEnd(text, i) == Some(i + |body| + 4)
  {
    var piece := "/*" + body + "*/";
    HereAt(text, i, piece, rest, 0);
    HereAt(text, i, piece, rest, 1);
    assert text[i + 2..] == text[i..][2..] == body + "*/" + rest;
    TerminatorFound(text, i + 2, body, "*/", rest);
  }

  /** Read on past `a`. */
  lemma Past(text: string, i: nat, a: string, b: string)
    requires i <= |text| && text[i..] == a + b
    ensures i + |a| <= |text| && text[i + |a|..] == b && text[i..i + |a|] == a
    ensures a != "" ==> text[i] == a[0]
  {
    assert text[i..][|a|..] == b && text[i..][..|a|] == a;
    assert a != "" ==> text[i..][0] == text[i];
  }

  lemma QuotedOpens(byte: bool, body: string, rest: string)
    ensures Show(Quoted(byte, body)) + rest == Byte(byte) + ("\"" + ((body + "\"") + rest))
    ensures |Show(Quoted(byte, body))| == |Byte(byte)| + 2 + |body|
  {
  }

  lemma MarkIsPassed(text: string, i: nat, byte: bool)
    requires var j := i + |Byte(byte)|; j < |text| && text[j] in {'r', '"'} && (byte ==> text[i] == 'b')
    ensures ReadStringLiteral(text, i) == ReadUnmarked(text, i + |Byte(byte)|)
    ensures i < |text| && text[i] in {'r', 'b', '"'}
  {
    hide ReadUnmarked;
  }

  /** What the reader makes of a string whose end has been located. */
  lemma QuotedRead(text: string, i: nat, byte: bool, end: nat)
    requires var j := i + |Byte(byte)|;
             j < |text| && text[j] == '"' && (byte ==> text[i] == 'b') && QuoteEnd(text, j + 1) == Some(end)
    ensures i < |text| && BlankEnd(text, i) == Some(end)
  {
    hide QuoteEnd, Find, HashEnd, BlankEnd, ReadStringLiteral;
    MarkIsPassed(text, i, byte);
    LiteralIsBlanked(text, i);
  }

  lemma QuotedEnds(text: string, i: nat, byte: bool, body: string, rest: string)
    requires StandsHere(text, i, Show(Quoted(byte, body)), rest) && Escaped(body)
    ensures i < |text| && BlankEnd(text, i) == Some(i + |Show(Quoted(byte, body))|)
  {
    hide QuoteEnd, Escaped, BlankEnd, Show;
    var tail := (body + "\"") + rest;
    QuotedOpens(byte, body, rest);
    Past(text, i, Byte(byte), "\"" + tail);
    Past(text, i + |Byte(byte)|, "\"", tail);
    QuoteFound(text, i + |Byte(byte)| + 1, body, rest);
    QuotedRead(text, i, byte, i + |Byte(byte)| + 2 + |body|);
  }

  lemma RawOpens(byte: bool, hashes: nat, body: string, rest: string)
    ensures Show(Raw(byte, hashes, body)) + rest
         == Byte(byte) + ("r" + (Hashes(hashes) + ("\"" + ((body + ("\"" + Hashes(hashes))) + rest))))
    ensures |Show(Raw(byte, hashes, body))| == |Byte(byte)| + 2 + hashes + |body| + 1 + hashes
  {
    hide Hashes;
    var mark, h, q := Byte(byte), Hashes(hashes), "\"";
    var opening := mark + "r" + h + q;
    var closed := body + (q + h);
    Associates(opening + body, q, h);
    Associates(opening, body, q + h);
    Associates(opening, closed, rest);
    Associates(mark + "r" + h, q, closed + rest);
    Associates(mark + "r", h, q + (closed + rest));
    Associates(mark, "r", h + (q + (closed + rest)));
  }

  /** From the first `#` on: the hashes, the quote, the body and its terminator. */
  lemma RawTail(text: string, k: nat, hashes: nat, body: string, terminator: string, rest: string)
    requires terminator == "\"" + Hashes(hashes) && EndsFirst(body, terminator)
    requires k <= |text| && text[k..] == Hashes(hashes) + ("\"" + ((body + terminator) + rest))
    ensures HashEnd(text, k) == k + hashes && At(text, k + hashes, '"')
    ensures Find(text, terminator, k + hashes + 1) == Some(k + hashes + 1 + |body|)
  {
    hide Hashes, EndsFirst, Find, HashEnd;
    var tail := (body + terminator) + rest;
    Past(text, k, Hashes(hashes), "\"" + tail);
    Past(text, k + hashes, "\"", tail);
    HashesCounted(text, k, hashes, "\"" + tail);
    TerminatorFound(text, k + hashes + 1, body, terminator, rest);
  }

  lemma RawEnds(text: string, i: nat, byte: bool, hashes: nat, body: string, rest: string)
    requires StandsHere(text, i, Show(Raw(byte, hashes, body)), rest) && EndsFirst(body, "\"" + Hashes(hashes))
    ensures i < |text| && BlankEnd(text, i) == Some(i + |Show(Raw(byte, hashes, body))|)
  {
    hide Hashes, Show, EndsFirst, Find, HashEnd, BlankEnd;
    var terminator := "\"" + Hashes(hashes);
    var tail := Hashes(hashes) + ("\"" + ((body + terminator) + rest));
    var j := i + |Byte(byte)|;
    RawOpens(byte, hashes, body, rest);
    Past(text, i, Byte(byte), "r" + tail);
    Past(text, j, "r", tail);
    RawTail(text, j + 1, hashes, body, terminator, rest);
    RawRead(text, i, byte, hashes, |body|);
  }

  lemma RawUnmarked(text: string, j: nat, hashes: nat, len: nat)
    requires j < |text| && text[j] == 'r'
    requires HashEnd(text, j + 1) == j + 1 + hashes && At(text, j + 1 + hashes, '"')
    requires Find(text, "\"" + Hashes(hashes), j + 2 + hashes) == Some(j + 2 + hashes + len)
    ensures ReadUnmarked(text, j).Some? && ReadUnmarked(text, j).value.0 == j + 2 + hashes + len + 1 + hashes
  {
    hide Find, HashEnd, Hashes, QuoteEnd;
    RunsOn(text, j + 1);
    assert |"\"" + Hashes(hashes)| == 1 + hashes;
  }

  /** What the reader makes of a raw string whose opening and terminator have been located. */
  lemma RawRead(text: string, i: nat, byte: bool, hashes: nat, len: nat)
    requires var j := i + |Byte(byte)|;
             && j < |text| && text[j] == 'r' && (byte ==> text[i] == 'b')
             && HashEnd(text, j + 1) == j + 1 + hashes && At(text, j + 1 + hashes, '"')
             && Find(text, "\"" + Hashes(hashes), j + 2 + hashes) == Some(j + 2 + hashes + len)
    ensures i < |text| && BlankEnd(text, i) == Some(i + |Byte(byte)| + 2 + hashes + len + 1 + hashes)
  {
    hide Find, HashEnd, Hashes, BlankEnd, ReadStringLiteral, ReadUnmarked;
    MarkIsPassed(text, i, byte);
    RawUnmarked(text, i + |Byte(byte)|, hashes, len);
    LiteralIsBlanked(text, i);
  }

  lemma LiteralIsBlanked(text: string, i: nat)
    requires i < |text| && text[i] in {'r', 'b', '"'} && ReadStringLiteral(text, i).Some?
    ensures BlankEnd(text, i) == Some(ReadStringLiteral(text, i).value.0)
  {
    hide ReadStringLiteral;
  }

  lemma RunsOn(text: string, k: nat)
    requires k <= |text| && At(text, HashEnd(text, k), '"')
    ensures At(text, k, '#') || At(text, k, '"')
  {
  }

  lemma CharLiteralEnds(text: string, i: nat, body: string, rest: string)
    requires StandsHere(text, i, "'" + body + "'", rest) && Fits(CharLiteral(body), rest)
    ensures i < |text| && BlankEnd(text, i) == Some(i + |body| + 2)
  {
    var piece := "'" + body + "'";
    HereAt(text, i, piece, rest, 0);
    HereAt(text, i, piece, rest, 1);
    HereAt(text, i, piece, rest, |body|);
    HereAt(text, i, piece, rest, |body| + 1);
  }

  /** Every piece but code is blanked to its end, and no further. */
  lemma PieceIsBlanked(text: string, i: nat, p: Piece, rest: string)
    requires StandsHere(text, i, Show(p), rest) && Fits(p, rest) && !p.Code?
    ensures i < |text| && BlankEnd(text, i) == Some(i + |Show(p)|)
  {
    hide BlankEnd;
    match p {
      case LineComment(body) => LineCommentEnds(text, i, body, rest);
      case BlockComment(body) => BlockCommentEnds(text, i, body, rest);
      case Quoted(byte, body) => QuotedEnds(text, i, byte, body, rest);
      case Raw(byte, hashes, body) => RawEnds(text, i, byte, hashes, body, rest);
      case CharLiteral(body) => CharLiteralEnds(text, i, body, rest);
    }
  }

  /** The stripper consumes the piece that stands here, and carries on behind it. */
  lemma FirstPiece(text: string, i: nat, p: Piece, rest: string)
    requires StandsHere(text, i, Show(p), rest) && Fits(p, rest)
    ensures i + |Show(p)| <= |text| && text[i + |Show(p)|..] == rest
    ensures StripFrom(text, i) == (if p.Code? then Show(p) else Blanked(Show(p))) + StripFrom(text, i + |Show(p)|)
  {
    hide BlankEnd, Fits, Show, Blanked;
    Past(text, i, Show(p), rest);
    if p.Code? {
      OneCharacter(p, rest);
      CodeIsKept(text, i, p.c, rest);
    } else {
      PieceIsBlanked(text, i, p, rest);
    }
  }

  lemma {:induction false} PiecesStripFrom(text: string, i: nat, pieces: seq<Piece>)
    requires i <= |text| && text[i..] == ShowAll(pieces) && FitTogether(pieces)
    ensures StripFrom(text, i) == Sanitised(pieces)
    decreases |pieces|
  {
    hide StripFrom, Fits, Show, Blanked;
    if pieces == [] {
      assert i == |text|;
      NothingLeft(text);
    } else {
      FirstPiece(text, i, pieces[0], ShowAll(pieces[1..]));
      PiecesStripFrom(text, i + |Show(pieces[0])|, pieces[1..]);
    }
  }

  lemma NothingLeft(text: string)
    ensures StripFrom(text, |text|) == ""
  {
  }

  lemma OneCharacter(p: Piece, rest: string)
    requires p.Code? && Fits(p, rest)
    ensures Show(p) == [p.c] && CodeBefore(p.c, rest)
  {
  }

  /** The stripper on every text made of pieces that fit together: code stays as it is, comments and
      literals turn into spaces, newlines stay. */
  lemma PiecesAreSanitised(pieces: seq<Piece>)
    requires FitTogether(pieces)
    ensures Strip(ShowAll(pieces)) == Sanitised(pieces)
  {
    PiecesStripFrom(ShowAll(pieces), 0, pieces);
  }
}
