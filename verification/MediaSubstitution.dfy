/** What binding a media name means: in the content as it was before any splitting, every placeholder
    of that name becomes the media, and nothing else changes. */
module MediaSubstitution {
  import opened Wrappers
  import opened Text
  import opened MediaText
  import opened MediaPrompt
  import opened MediaLaws
  import opened MediaBinding

  /** The stream of a text with the placeholders of one name replaced. */
  function TextSubst(segments: seq<Segment>, name: string, id: nat): seq<Glyph> {
    if segments == [] then []
    else
      (if segments[0] == Placeholder(name) then [Media(id)] else Letters(Show(segments[0])))
      + TextSubst(segments[1..], name, id)
  }

  /** The stream of a part list with the placeholders of one name replaced. */
  function Subst(parts: seq<Part>, name: string, id: nat): seq<Glyph> {
    if parts == [] then []
    else
      (match parts[0]
       case TextPart(text, _) => TextSubst(SplitOnMedia(text), name, id)
       case OtherPart(other) => [Media(other)])
      + Subst(parts[1..], name, id)
  }

  /** The streams of a request: one a message, or one a group. */
  function Streams(r: Request): seq<seq<Glyph>> {
    match r
    case Chat(messages) => seq(|messages|, i requires 0 <= i < |messages| => Flow(MediaParts(messages[i])))
    case Blocks(_, _, groups) => seq(|groups|, i requires 0 <= i < |groups| => Flow(groups[i]))
    case NoMedia => []
  }

  function Substituted(r: Request, name: string, id: nat): seq<seq<Glyph>> {
    match r
    case Chat(messages) => seq(|messages|, i requires 0 <= i < |messages| => Subst(MediaParts(messages[i]), name, id))
    case Blocks(_, _, groups) => seq(|groups|, i requires 0 <= i < |groups| => Subst(groups[i], name, id))
    case NoMedia => []
  }

  // ---- Splitting does not change what a substitution gives ----

  lemma {:induction false} SubstAppend(a: seq<Part>, b: seq<Part>, name: string, id: nat)
    ensures Subst(a + b, name, id) == Subst(a, name, id) + Subst(b, name, id)
  {
    if a == [] {
      assert a + b == b;
    } else {
      assert (a + b)[1..] == a[1..] + b;
      SubstAppend(a[1..], b, name, id);
    }
  }

  lemma {:induction false} SegmentsSubst(segments: seq<Segment>, note: nat, keepsNote: bool, name: string, id: nat)
    requires forall i :: 0 <= i < |segments| ==> Clean(segments[i])
    ensures Subst(SegmentParts(segments, note, keepsNote), name, id) == TextSubst(segments, name, id)
  {
    hide SplitOnMedia, Letters, Show, Clean;
    if segments == [] {
    } else {
      SegmentsSubst(segments[1..], note, keepsNote, name, id);
      var parts := SegmentParts(segments, note, keepsNote);
      assert parts[1..] == SegmentParts(segments[1..], note, keepsNote);
      CleanSplitsToItself(segments[0]);
      var one := [segments[0]];
      assert one[1..] == [] && TextSubst(one[1..], name, id) == [];
      assert TextSubst(one, name, id) + [] == TextSubst(one, name, id);
    }
  }

  lemma {:induction false} SplittingKeepsSubst(parts: seq<Part>, keepsNote: bool, name: string, id: nat)
    ensures Subst(SplitParts(parts, keepsNote), name, id) == Subst(parts, name, id)
  {
    if parts == [] {
    } else {
      var first := SplitPart(parts[0], keepsNote);
      SplittingKeepsSubst(parts[1..], keepsNote, name, id);
      SubstAppend(first, SplitParts(parts[1..], keepsNote), name, id);
      if parts[0].TextPart? {
        SplitRoundTrips(parts[0].text);
        SegmentsSubst(SplitOnMedia(parts[0].text), parts[0].note, keepsNote, name, id);
      } else {
        assert first == [parts[0]] && first[1..] == [];
        assert Subst(first[1..], name, id) == [];
      }
    }
  }

  lemma SplitMessageKeepsSubst(m: Message, name: string, id: nat)
    ensures Subst(MediaParts(SplitMessage(m)), name, id) == Subst(MediaParts(m), name, id)
  {
    if !m.isSystem && m.content.Some? {
      match m.content.value {
        case Whole(text) =>
          var part := TextPart(text, 0);
          SplittingKeepsSubst([part], false, name, id);
          assert SplitParts([part], false) == SplitPart(part, false) + SplitParts([], false)
                 == SegmentParts(SplitOnMedia(text), 0, false);
        case Parts(parts) => SplittingKeepsSubst(parts, false, name, id);
      }
    }
  }

  // ---- Binding in split content ----

  lemma {:induction false} NothingToReplace(segments: seq<Segment>, name: string, id: nat)
    requires name !in NamesOf(segments)
    ensures TextSubst(segments, name, id) == Letters(ShowAll(segments))
  {
    if segments == [] {
    } else {
      NothingToReplace(segments[1..], name, id);
      LettersAppend(Show(segments[0]), ShowAll(segments[1..]));
    }
  }

  /** A split text part is the placeholder looked for, to the letter, or has none of that name. */
  lemma CleanPartMatches(part: Part, keepsNote: bool, name: string, id: nat)
    requires CleanPart(part, keepsNote) && part.TextPart? && IsName(name)
    ensures if Trim(part.text) == Token(name)
            then && part.text == Token(name) && SplitOnMedia(part.text) == [Placeholder(name)]
                 && NamesOf(SplitOnMedia(part.text)) == [name]
                 && TextSubst(SplitOnMedia(part.text), name, id) == [Media(id)]
            else && name !in NamesOf(SplitOnMedia(part.text))
                 && TextSubst(SplitOnMedia(part.text), name, id) == Letters(part.text)
  {
    hide CleanPart, Trim, SplitOnMedia, Letters;
    TokenMatchesItself(name);
    if Trim(part.text) == Token(name) {
      CleanIsIsolated(part, keepsNote, name);
      var one := [Placeholder(name)];
      assert one[1..] == [] && TextSubst(one[1..], name, id) == [] && NamesOf(one[1..]) == [];
    } else {
      CleanNames(part, keepsNote);
      TokenIsTrimmed(name);
      NothingToReplace(SplitOnMedia(part.text), name, id);
      SplitRoundTrips(part.text);
    }
  }

  lemma TokenMatchesItself(name: string)
    requires IsName(name)
    ensures SplitOnMedia(Token(name)) == [Placeholder(name)] && HasPlaceholder(Token(name))
  {
    TokenMatches(name);
    TokenIsClean(name);
    CleanSplitsToItself(Placeholder(name));
  }

  lemma {:induction false} PartsSubstituted(parts: seq<Part>, keepsNote: bool, name: string, id: nat)
    requires CleanParts(parts, keepsNote) && IsName(name)
    ensures var b := BindParts(parts, name, Ok(id));
            && b.error.None? && (b.found <==> name in NamesIn(parts))
            && Flow(b.parts) == Subst(parts, name, id)
  {
    hide CleanPart, Trim, SplitOnMedia, Letters, NamesOf, TextSubst;
    if parts == [] {
    } else {
      PartsSubstituted(parts[1..], keepsNote, name, id);
      if parts[0].TextPart? {
        CleanPartMatches(parts[0], keepsNote, name, id);
      }
      assert BindParts(parts, name, Ok(id)).parts[1..] == BindParts(parts[1..], name, Ok(id)).parts;
    }
  }

  lemma MessageSubstituted(m: Message, name: string, id: nat)
    requires NormalMessage(m) && IsName(name)
    ensures var b := BindMessage(m, name, Ok(id));
            && b.error.None? && (b.found <==> name in NamesIn(MediaParts(m)))
            && Flow(MediaParts(b.parts)) == Subst(MediaParts(m), name, id)
  {
    hide CleanPart, Trim, SplitOnMedia, Letters, NamesOf, TextSubst, BindParts;
    if !m.isSystem && m.content.Some? {
      match m.content.value {
        case Parts(parts) => PartsSubstituted(parts, false, name, id);
        case Whole(text) => WholeIsKept(text, name, id);
      }
    }
  }

  lemma WholeIsKept(text: string, name: string, id: nat)
    requires !HasPlaceholder(text)
    ensures var parts := [TextPart(text, 0)]; name !in NamesIn(parts) && Flow(parts) == Subst(parts, name, id)
  {
    hide Letters, TextSubst, SplitOnMedia, NamesOf;
    var parts := [TextPart(text, 0)];
    WholeHasNoNames(text);
    assert parts[1..] == [] && Flow(parts[1..]) == [] && Subst(parts[1..], name, id) == [] && NamesIn(parts[1..]) == [];
    assert NamesOf(SplitOnMedia(text)) + [] == NamesOf(SplitOnMedia(text));
    NothingToReplace(SplitOnMedia(text), name, id);
    SplitRoundTrips(text);
  }

  lemma {:induction false} MessagesSubstituted(messages: seq<Message>, name: string, id: nat)
    requires IsName(name) && forall i :: 0 <= i < |messages| ==> NormalMessage(messages[i])
    ensures var b := BindMessages(messages, name, Ok(id));
            && b.error.None? && (b.found <==> name in MessageNames(messages)) && |b.parts| == |messages|
            && forall i :: 0 <= i < |messages| ==>
                Flow(MediaParts(b.parts[i])) == Subst(MediaParts(messages[i]), name, id)
  {
    hide NormalMessage, BindMessage, NamesIn, MediaParts, Flow, Subst;
    if messages == [] {
    } else {
      MessageSubstituted(messages[0], name, id);
      MessagesSubstituted(messages[1..], name, id);
    }
  }

  lemma {:induction false} GroupsSubstituted(groups: seq<seq<Part>>, keepsNote: bool, name: string, id: nat)
    requires IsName(name) && forall i :: 0 <= i < |groups| ==> CleanParts(groups[i], keepsNote)
    ensures var b := BindGroups(groups, name, Ok(id));
            && b.error.None? && (b.found <==> name in GroupNames(groups)) && |b.parts| == |groups|
            && forall i :: 0 <= i < |groups| ==> Flow(b.parts[i]) == Subst(groups[i], name, id)
  {
    hide CleanParts, BindParts, NamesIn, Flow, Subst;
    if groups == [] {
    } else {
      PartsSubstituted(groups[0], keepsNote, name, id);
      GroupsSubstituted(groups[1..], keepsNote, name, id);
    }
  }

  // ---- The whole operation ----

  lemma SplitRequestKeepsSubst(r: Request, name: string, id: nat)
    ensures Substituted(SplitRequest(r), name, id) == Substituted(r, name, id)
  {
    hide Subst, SplitParts, SplitMessage, MediaParts;
    match r {
      case Chat(messages) =>
        forall i | 0 <= i < |messages|
          ensures Subst(MediaParts(SplitMessage(messages[i])), name, id) == Subst(MediaParts(messages[i]), name, id)
        {
          SplitMessageKeepsSubst(messages[i], name, id);
        }
      case Blocks(_, keepsNote, groups) =>
        forall i | 0 <= i < |groups|
          ensures Subst(SplitParts(groups[i], keepsNote), name, id) == Subst(groups[i], name, id)
        {
          SplittingKeepsSubst(groups[i], keepsNote, name, id);
        }
      case NoMedia =>
    }
  }

  lemma RequestSubstituted(r: Request, name: string, id: nat)
    requires Normal(r) && IsName(name)
    ensures var b := BindRequest(r, name, Ok(id));
            && b.error.None? && (b.found <==> name in Names(r)) && Streams(b.parts) == Substituted(r, name, id)
  {
    hide NormalMessage, CleanParts, BindMessages, BindGroups, MessageNames, GroupNames, Flow, Subst, MediaParts;
    match r {
      case Chat(messages) => MessagesSubstituted(messages, name, id);
      case Blocks(_, keepsNote, groups) => GroupsSubstituted(groups, keepsNote, name, id);
      case NoMedia =>
    }
  }

  /** Binding is substitution, for every prompt and every proper name: it succeeds exactly when system
      text holds no media and the name stands in the request, and then every placeholder of that name
      in the request as it was has become the media, with all other text and parts in place. */
  lemma BindingSubstitutes(p: Prompt, name: string, id: nat)
    requires IsName(name)
    ensures var (q, e) := BindMedia(p, name, Ok(id));
            && e == (if SystemHasMedia(p.request) then Some(MediaInSystem)
                     else if name in Names(p.request) then None
                     else Some(NotFound))
            && (e.None? ==> Streams(q.request) == Substituted(p.request, name, id))
  {
    hide Normal, SystemHasMedia, SplitRequest, BindRequest, Names, Streams, Substituted, Without, Dedupe;
    if !SystemHasMedia(p.request) {
      SplitRequestLaws(p.request);
      SplitRequestKeepsSubst(p.request, name, id);
      RequestSubstituted(SplitRequest(p.request), name, id);
    }
  }
}
