/** Splitting text on media placeholders of the form `${media:name}`. */
module MediaText {
  import opened Wrappers

  const OPENING := "${media:"

  predicate IsNameStart(c: char) {
    'a' <= c <= 'z' || 'A' <= c <= 'Z' || c == '_'
  }

  predicate IsNameChar(c: char) {
    IsNameStart(c) || '0' <= c <= '9'
  }

  predicate IsName(name: string) {
    name != "" && IsNameStart(name[0]) && forall i :: 0 <= i < |name| ==> IsNameChar(name[i])
  }

  function Token(name: string): string {
    OPENING + name + "}"
  }

  /** Where the run of name characters from `i` ends. */
  function RunEnd(text: string, i: nat): (k: nat)
    requires i <= |text|
    ensures i <= k <= |text|
    ensures forall j :: i <= j < k ==> IsNameChar(text[j])
    ensures k < |text| ==> !IsNameChar(text[k])
    decreases |text| - i
  {
    if i < |text| && IsNameChar(text[i]) then RunEnd(text, i + 1) else i
  }

  /** The end of the placeholder that starts at `i`, if one does. */
  function MatchAt(text: string, i: nat): (end: Option<nat>)
    requires i <= |text|
    ensures end.Some? ==> i + |OPENING| + 2 <= end.value <= |text|
  {
    var from := i + |OPENING|;
    if from > |text| || text[i..from] != OPENING then None
    else
      var k := RunEnd(text, from);
      if k > from && IsNameStart(text[from]) && k < |text| && text[k] == '}' then Some(k + 1) else None
  }

  /** The first placeholder that starts at or after `i`. */
  function NextMatch(text: string, i: nat): (m: Option<(nat, nat)>)
    requires i <= |text|
    ensures m.Some? ==> i <= m.value.0 < m.value.1 <= |text| && MatchAt(text, m.value.0) == Some(m.value.1)
    ensures m.Some? ==> forall j :: i <= j < m.value.0 ==> MatchAt(text, j).None?
    ensures m.None? ==> forall j :: i <= j <= |text| ==> MatchAt(text, j).None?
    decreases |text| - i
  {
    match MatchAt(text, i)
    case Some(end) => Some((i, end))
    case None => if i == |text| then None else NextMatch(text, i + 1)
  }

  predicate HasPlaceholder(text: string) {
    NextMatch(text, 0).Some?
  }

  datatype Segment = Plain(text: string) | Placeholder(name: string)

  function NameAt(text: string, start: nat, end: nat): string
    requires start + |OPENING| + 1 <= end <= |text|
  {
    text[start + |OPENING|..end - 1]
  }

  function PlainIfAny(text: string): seq<Segment> {
    if text == "" then [] else [Plain(text)]
  }

  /** The segments of `text` from `last` on. */
  function SegmentsFrom(text: string, last: nat): seq<Segment>
    requires last <= |text|
    decreases |text| - last
  {
    match NextMatch(text, last)
    case None => PlainIfAny(text[last..])
    case Some((start, end)) =>
      PlainIfAny(text[last..start]) + [Placeholder(NameAt(text, start, end))] + SegmentsFrom(text, end)
  }

  /** `split_text_on_media`, as a function. */
  function SplitOnMedia(text: string): seq<Segment> {
    SegmentsFrom(text, 0)
  }

  lemma GapSegments(text: string, a: nat, b: nat)
    requires a <= b <= |text|
    ensures PlainIfAny(text[a..b]) == if a < b then [Plain(text[a..b])] else []
  {
  }

  /** `split_text_on_media` as it runs: one capture after another. */
  method SplitTextOnMedia(text: string) returns (out: seq<Segment>)
    ensures out == SplitOnMedia(text)
  {
    hide NextMatch, MatchAt, PlainIfAny;
    out := [];
    var last := 0;
    var capture := NextMatch(text, last);
    while capture.Some?
      invariant last <= |text| && capture == NextMatch(text, last)
      invariant out + SegmentsFrom(text, last) == SplitOnMedia(text)
      decreases |text| - last
    {
      var (start, end) := capture.value;
      GapSegments(text, last, start);
      ghost var gap := PlainIfAny(text[last..start]);
      assert out + (gap + [Placeholder(NameAt(text, start, end))] + SegmentsFrom(text, end))
          == out + gap + [Placeholder(NameAt(text, start, end))] + SegmentsFrom(text, end);
      if start > last {
        out := out + [Plain(text[last..start])];
      }
      out := out + [Placeholder(NameAt(text, start, end))];
      last := end;
      capture := NextMatch(text, last);
    }
    GapSegments(text, last, |text|);
    assert text[last..|text|] == text[last..];
    if last < |text| {
      out := out + [Plain(text[last..])];
    }
  }

  function Show(segment: Segment): string {
    match segment
    case Plain(text) => text
    case Placeholder(name) => Token(name)
  }

  function ShowAll(segments: seq<Segment>): string {
    if segments == [] then "" else Show(segments[0]) + ShowAll(segments[1..])
  }

  /** Text that is not empty and holds no placeholder, or one placeholder with a proper name. */
  predicate Clean(segment: Segment) {
    match segment
    case Plain(text) => text != "" && !HasPlaceholder(text)
    case Placeholder(name) => IsName(name)
  }

  // ---- Laws ----

  lemma MatchIsToken(text: string, start: nat)
    requires start <= |text| && MatchAt(text, start).Some?
    ensures var end := MatchAt(text, start).value;
            text[start..end] == Token(NameAt(text, start, end)) && IsName(NameAt(text, start, end))
  {
    var end := MatchAt(text, start).value;
    assert text[start..end] == text[start..start + |OPENING|] + NameAt(text, start, end) + text[end - 1..end];
  }

  lemma {:induction false} ShowAllAppend(a: seq<Segment>, b: seq<Segment>)
    ensures ShowAll(a + b) == ShowAll(a) + ShowAll(b)
  {
    if a == [] {
      assert a + b == b;
    } else {
      assert (a + b)[1..] == a[1..] + b;
      ShowAllAppend(a[1..], b);
    }
  }

  lemma ShowOne(segment: Segment)
    ensures ShowAll([segment]) == Show(segment)
  {
  }

  /** A run of name characters that ends inside a substring ends at the same place outside it. */
  lemma {:induction false} RunEndInside(text: string, a: nat, b: nat, i: nat)
    requires a <= b <= |text| && i <= b - a && RunEnd(text[a..b], i) < b - a
    ensures RunEnd(text, a + i) == a + RunEnd(text[a..b], i)
    decreases b - a - i
  {
    if IsNameChar(text[a..b][i]) {
      RunEndInside(text, a, b, i + 1);
    }
  }

  /** A placeholder in a substring is a placeholder of the whole, in the same place. */
  lemma MatchInside(text: string, a: nat, b: nat, i: nat)
    requires a <= b <= |text| && i <= b - a && MatchAt(text[a..b], i).Some?
    ensures MatchAt(text, a + i) == Some(a + MatchAt(text[a..b], i).value)
  {
    var sub, from := text[a..b], i + |OPENING|;
    var x, y := sub[i..from], text[a + i..a + from];
    forall k | 0 <= k < |OPENING| ensures x[k] == y[k] {
      assert x[k] == sub[i + k] == text[a + i + k];
    }
    assert x == y;
    RunEndInside(text, a, b, from);
  }

  /** Text between placeholders holds none. */
  lemma GapIsPlain(text: string, a: nat, b: nat)
    requires a <= b <= |text| && forall j :: a <= j < b ==> MatchAt(text, j).None?
    ensures !HasPlaceholder(text[a..b])
  {
    if HasPlaceholder(text[a..b]) {
      MatchInside(text, a, b, NextMatch(text[a..b], 0).value.0);
    }
  }

  lemma GapIsClean(text: string, a: nat, b: nat)
    requires a <= b <= |text| && forall j :: a <= j < b ==> MatchAt(text, j).None?
    ensures ShowAll(PlainIfAny(text[a..b])) == text[a..b]
    ensures forall i :: 0 <= i < |PlainIfAny(text[a..b])| ==> Clean(PlainIfAny(text[a..b])[i])
  {
    GapIsPlain(text, a, b);
    if text[a..b] != "" {
      ShowOne(Plain(text[a..b]));
    }
  }

  lemma {:induction false} SegmentsFromLaws(text: string, last: nat)
    requires last <= |text|
    ensures ShowAll(SegmentsFrom(text, last)) == text[last..]
    ensures forall i :: 0 <= i < |SegmentsFrom(text, last)| ==> Clean(SegmentsFrom(text, last)[i])
    decreases |text| - last
  {
    hide MatchAt, PlainIfAny, Clean, ShowAll;
    match NextMatch(text, last) {
      case None =>
        GapIsClean(text, last, |text|);
        assert text[last..|text|] == text[last..];
      case Some((start, end)) =>
        var name, rest := NameAt(text, start, end), SegmentsFrom(text, end);
        var gap := PlainIfAny(text[last..start]);
        MatchIsToken(text, start);
        GapIsClean(text, last, start);
        SegmentsFromLaws(text, end);
        TokenIsClean(name);
        ShowAllAppend(gap + [Placeholder(name)], rest);
        ShowAllAppend(gap, [Placeholder(name)]);
        ShowOne(Placeholder(name));
        Cut(text, last, start, end);
    }
  }

  lemma Cut(text: string, a: nat, b: nat, c: nat)
    requires a <= b <= c <= |text|
    ensures text[a..] == text[a..b] + text[b..c] + text[c..]
  {
    var whole, parts := text[a..], text[a..b] + text[b..c] + text[c..];
    forall k | 0 <= k < |whole| ensures whole[k] == parts[k] {
      assert whole[k] == text[a + k];
    }
  }

  lemma TokenIsClean(name: string)
    requires IsName(name)
    ensures Clean(Placeholder(name))
  {
  }

  /** Splitting is an exact round trip: joined again the segments are the text, and every segment is
      either non-empty text without a placeholder or a placeholder with a proper name. */
  lemma SplitRoundTrips(text: string)
    ensures ShowAll(SplitOnMedia(text)) == text
    ensures forall i :: 0 <= i < |SplitOnMedia(text)| ==> Clean(SplitOnMedia(text)[i])
  {
    SegmentsFromLaws(text, 0);
  }

  lemma {:induction false} RunEndOfName(text: string, i: nat, k: nat)
    requires i <= k <= |text| && (forall j :: i <= j < k ==> IsNameChar(text[j])) &&
               (k < |text| ==> !IsNameChar(text[k]))
    ensures RunEnd(text, i) == k
    decreases k - i
  {
    if i < k {
      RunEndOfName(text, i + 1, k);
    }
  }

  lemma TokenMatches(name: string)
    requires IsName(name)
    ensures MatchAt(Token(name), 0) == Some(|Token(name)|) && NameAt(Token(name), 0, |Token(name)|) == name
  {
    var text, from := Token(name), |OPENING|;
    assert text[0..from] == OPENING;
    assert forall j :: from <= j < from + |name| ==> text[j] == name[j - from];
    RunEndOfName(text, from, from + |name|);
  }

  /** A segment, split again, is itself: splitting settles after one round. */
  lemma CleanSplitsToItself(segment: Segment)
    requires Clean(segment)
    ensures SplitOnMedia(Show(segment)) == [segment]
  {
    match segment {
      case Plain(text) =>
        assert text[0..] == text;
      case Placeholder(name) =>
        var text := Token(name);
        TokenMatches(name);
        assert NextMatch(text, 0) == Some((0, |text|));
        assert MatchAt(text, |text|).None? && NextMatch(text, |text|).None?;
        assert SegmentsFrom(text, |text|) == [];
        assert PlainIfAny(text[0..0]) == [];
    }
  }
}
