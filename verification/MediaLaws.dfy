/** What normalising and binding promise about a prompt. */
module MediaLaws {
  import opened MediaText
  import opened MediaPrompt

  // ---- Parts ----

  /** A part that splitting leaves alone. */
  predicate CleanPart(part: Part, keepsNote: bool) {
    SplitPart(part, keepsNote) == [part]
  }

  predicate CleanParts(parts: seq<Part>, keepsNote: bool) {
    forall i :: 0 <= i < |parts| ==> CleanPart(parts[i], keepsNote)
  }

  lemma SegmentPartIsClean(segment: Segment, note: nat, keepsNote: bool)
    requires Clean(segment)
    ensures CleanPart(SegmentPart(segment, note, keepsNote), keepsNote)
  {
    CleanSplitsToItself(segment);
    var part := SegmentPart(segment, note, keepsNote);
    assert SegmentParts([segment], part.note, keepsNote) == [part];
  }

  lemma SplitPartIsClean(part: Part, keepsNote: bool)
    ensures CleanParts(SplitPart(part, keepsNote), keepsNote)
  {
    if part.TextPart? {
      SplitRoundTrips(part.text);
      var segments := SplitOnMedia(part.text);
      forall i | 0 <= i < |segments| ensures CleanPart(SegmentPart(segments[i], part.note, keepsNote), keepsNote) {
        SegmentPartIsClean(segments[i], part.note, keepsNote);
      }
    }
  }

  lemma CleanAppend(a: seq<Part>, b: seq<Part>, keepsNote: bool)
    requires CleanParts(a, keepsNote) && CleanParts(b, keepsNote)
    ensures CleanParts(a + b, keepsNote)
  {
    hide CleanPart;
  }

  lemma {:induction false} SplitPartsAreClean(parts: seq<Part>, keepsNote: bool)
    ensures CleanParts(SplitParts(parts, keepsNote), keepsNote)
  {
    hide CleanParts, SplitPart;
    if parts != [] {
      SplitPartIsClean(parts[0], keepsNote);
      SplitPartsAreClean(parts[1..], keepsNote);
      CleanAppend(SplitPart(parts[0], keepsNote), SplitParts(parts[1..], keepsNote), keepsNote);
    } else {
      NoPartsAreClean(keepsNote);
    }
  }

  lemma NoPartsAreClean(keepsNote: bool)
    ensures CleanParts([], keepsNote)
  {
  }

  lemma {:induction false} CleanPartsStay(parts: seq<Part>, keepsNote: bool)
    requires CleanParts(parts, keepsNote)
    ensures SplitParts(parts, keepsNote) == parts
  {
    hide SplitPart;
    if parts == [] {
    } else {
      assert CleanPart(parts[0], keepsNote);
      CleanPartsStay(parts[1..], keepsNote);
    }
  }

  // ---- Text is preserved ----

  /** A part list read as a stream: characters, and parts that are not text. */
  datatype Glyph = Letter(c: char) | Media(id: nat)

  function Letters(text: string): seq<Glyph> {
    seq(|text|, i requires 0 <= i < |text| => Letter(text[i]))
  }

  function Flow(parts: seq<Part>): seq<Glyph> {
    if parts == [] then []
    else (match parts[0] case TextPart(text, _) => Letters(text) case OtherPart(id) => [Media(id)]) + Flow(parts[1..])
  }

  lemma {:induction false} FlowAppend(a: seq<Part>, b: seq<Part>)
    ensures Flow(a + b) == Flow(a) + Flow(b)
  {
    if a == [] {
      assert a + b == b;
    } else {
      assert (a + b)[1..] == a[1..] + b;
      FlowAppend(a[1..], b);
    }
  }

  lemma LettersAppend(a: string, b: string)
    ensures Letters(a + b) == Letters(a) + Letters(b)
  {
  }

  lemma {:induction false} SegmentsFlow(segments: seq<Segment>, note: nat, keepsNote: bool)
    ensures Flow(SegmentParts(segments, note, keepsNote)) == Letters(ShowAll(segments))
  {
    if segments == [] {
    } else {
      SegmentsFlow(segments[1..], note, keepsNote);
      var parts := SegmentParts(segments, note, keepsNote);
      assert parts[1..] == SegmentParts(segments[1..], note, keepsNote);
      LettersAppend(Show(segments[0]), ShowAll(segments[1..]));
    }
  }

  /** Splitting moves no character and no other part: the stream of a part list is unchanged. */
  lemma {:induction false} SplittingKeepsText(parts: seq<Part>, keepsNote: bool)
    ensures Flow(SplitParts(parts, keepsNote)) == Flow(parts)
  {
    if parts == [] {
    } else {
      var first := SplitPart(parts[0], keepsNote);
      SplittingKeepsText(parts[1..], keepsNote);
      FlowAppend(first, SplitParts(parts[1..], keepsNote));
      if parts[0].TextPart? {
        SplitRoundTrips(parts[0].text);
        SegmentsFlow(SplitOnMedia(parts[0].text), parts[0].note, keepsNote);
      } else {
        assert first == [parts[0]] && first[1..] == [];
      }
    }
  }

  // ---- Names are preserved ----

  lemma {:induction false} NamesAppend(a: seq<Part>, b: seq<Part>)
    ensures NamesIn(a + b) == NamesIn(a) + NamesIn(b)
  {
    hide PartNames;
    if a == [] {
      assert a + b == b;
    } else {
      assert (a + b)[1..] == a[1..] + b;
      NamesAppend(a[1..], b);
    }
  }

  lemma {:induction false} SegmentNames(segments: seq<Segment>, note: nat, keepsNote: bool)
    requires forall i :: 0 <= i < |segments| ==> Clean(segments[i])
    ensures NamesIn(SegmentParts(segments, note, keepsNote)) == NamesOf(segments)
  {
    hide Clean;
    if segments == [] {
    } else {
      SegmentNames(segments[1..], note, keepsNote);
      var parts := SegmentParts(segments, note, keepsNote);
      assert parts[1..] == SegmentParts(segments[1..], note, keepsNote);
      CleanSplitsToItself(segments[0]);
      assert NamesOf([segments[0]]) == match segments[0] case Placeholder(name) => [name] case Plain(_) => [];
    }
  }

  lemma {:induction false} SplittingKeepsNames(parts: seq<Part>, keepsNote: bool)
    ensures NamesIn(SplitParts(parts, keepsNote)) == NamesIn(parts)
  {
    if parts == [] {
    } else {
      var first := SplitPart(parts[0], keepsNote);
      SplittingKeepsNames(parts[1..], keepsNote);
      NamesAppend(first, SplitParts(parts[1..], keepsNote));
      if parts[0].TextPart? {
        SplitRoundTrips(parts[0].text);
        SegmentNames(SplitOnMedia(parts[0].text), parts[0].note, keepsNote);
      } else {
        assert first == [parts[0]] && first[1..] == [];
      }
    }
  }

  // ---- Requests ----

  predicate NormalContent(content: Content) {
    match content
    case Whole(text) => !HasPlaceholder(text)
    case Parts(parts) => CleanParts(parts, false)
  }

  predicate NormalMessage(m: Message) {
    m.isSystem || m.content.None? || NormalContent(m.content.value)
  }

  /** Every text part outside system text is plain text or one placeholder. */
  predicate Normal(r: Request) {
    match r
    case Chat(messages) => forall i :: 0 <= i < |messages| ==> NormalMessage(messages[i])
    case Blocks(_, keepsNote, groups) => forall i :: 0 <= i < |groups| ==> CleanParts(groups[i], keepsNote)
    case NoMedia => true
  }

  lemma SplitMessageLaws(m: Message)
    ensures NormalMessage(SplitMessage(m)) && (NormalMessage(m) ==> SplitMessage(m) == m)
    ensures NamesIn(MediaParts(SplitMessage(m))) == NamesIn(MediaParts(m))
    ensures Flow(MediaParts(SplitMessage(m))) == Flow(MediaParts(m))
    ensures SplitMessage(m).isSystem == m.isSystem && (m.isSystem ==> SplitMessage(m) == m)
  {
    hide CleanPart, Letters;
    if !m.isSystem && m.content.Some? {
      match m.content.value {
        case Whole(text) =>
          var part := TextPart(text, 0);
          SplitPartsAreClean([part], false);
          SplittingKeepsNames([part], false);
          SplittingKeepsText([part], false);
          assert SplitParts([part], false) == SplitPart(part, false) + SplitParts([], false)
                 == SegmentParts(SplitOnMedia(text), 0, false);
        case Parts(parts) =>
          SplitPartsAreClean(parts, false);
          SplittingKeepsNames(parts, false);
          SplittingKeepsText(parts, false);
          if CleanParts(parts, false) {
            CleanPartsStay(parts, false);
          }
      }
    }
  }

  lemma {:induction false} MessageNamesPointwise(a: seq<Message>, b: seq<Message>)
    requires |a| == |b| && forall i :: 0 <= i < |a| ==> NamesIn(MediaParts(a[i])) == NamesIn(MediaParts(b[i]))
    ensures MessageNames(a) == MessageNames(b)
  {
    if a == [] {
    } else {
      MessageNamesPointwise(a[1..], b[1..]);
    }
  }

  lemma {:induction false} GroupNamesPointwise(a: seq<seq<Part>>, b: seq<seq<Part>>)
    requires |a| == |b| && forall i :: 0 <= i < |a| ==> NamesIn(a[i]) == NamesIn(b[i])
    ensures GroupNames(a) == GroupNames(b)
  {
    if a == [] {
    } else {
      GroupNamesPointwise(a[1..], b[1..]);
    }
  }

  /** Splitting a request makes it normal, leaves a normal request alone, and keeps its names and its
      system text. */
  lemma SplitRequestLaws(r: Request)
    ensures Normal(SplitRequest(r)) && (Normal(r) ==> SplitRequest(r) == r)
    ensures Names(SplitRequest(r)) == Names(r) && SystemHasMedia(SplitRequest(r)) == SystemHasMedia(r)
  {
    hide NormalMessage, SplitMessage, CleanParts, SplitParts, NamesIn, MediaParts;
    match r {
      case Chat(messages) =>
        var split := SplitRequest(r).messages;
        forall i | 0 <= i < |messages|
          ensures split[i] == SplitMessage(messages[i]) && NormalMessage(split[i]) &&
                    (NormalMessage(messages[i]) ==> split[i] == messages[i])
          ensures NamesIn(MediaParts(split[i])) == NamesIn(MediaParts(messages[i]))
          ensures split[i].isSystem == messages[i].isSystem && (messages[i].isSystem ==> split[i] == messages[i])
        {
          SplitMessageLaws(messages[i]);
        }
        MessageNamesPointwise(split, messages);
      case Blocks(system, keepsNote, groups) =>
        var split := SplitRequest(r).groups;
        forall i | 0 <= i < |groups|
          ensures split[i] == SplitParts(groups[i], keepsNote) && CleanParts(split[i], keepsNote)
          ensures CleanParts(groups[i], keepsNote) ==> split[i] == groups[i]
          ensures NamesIn(split[i]) == NamesIn(groups[i])
        {
          SplitPartsAreClean(groups[i], keepsNote);
          SplittingKeepsNames(groups[i], keepsNote);
          if CleanParts(groups[i], keepsNote) {
            CleanPartsStay(groups[i], keepsNote);
          }
        }
        GroupNamesPointwise(split, groups);
      case NoMedia =>
    }
  }

  // ---- Declared names ----

  lemma {:induction false} DedupeFromMembers(items: seq<string>, seen: set<string>)
    ensures forall x :: x in DedupeFrom(items, seen) <==> x in items && x !in seen
    decreases |items|
  {
    if items == [] {
    } else {
      DedupeFromMembers(items[1..], if items[0] in seen then seen else seen + {items[0]});
      assert forall x :: x in items <==> x == items[0] || x in items[1..];
    }
  }

  /** Filtering what has been filtered changes nothing. */
  lemma {:induction false} DedupeTwice(items: seq<string>, seen: set<string>)
    ensures DedupeFrom(DedupeFrom(items, seen), seen) == DedupeFrom(items, seen)
    decreases |items|
  {
    if items == [] {
    } else {
      if items[0] in seen {
        DedupeTwice(items[1..], seen);
      } else {
        var d := DedupeFrom(items[1..], seen + {items[0]});
        DedupeTwice(items[1..], seen + {items[0]});
        assert ([items[0]] + d)[1..] == d;
      }
    }
  }

  lemma {:induction false} DedupeSeen(items: seq<string>, seen: set<string>)
    requires forall i :: 0 <= i < |items| ==> items[i] in seen
    ensures DedupeFrom(items, seen) == []
    decreases |items|
  {
    if items == [] {
    } else {
      DedupeSeen(items[1..], seen);
    }
  }

  function SetOf(items: seq<string>): set<string> {
    set i | 0 <= i < |items| :: items[i]
  }

  lemma {:induction false} DedupeAppend(a: seq<string>, b: seq<string>, seen: set<string>)
    ensures DedupeFrom(a + b, seen) == DedupeFrom(a, seen) + DedupeFrom(b, seen + SetOf(a))
    decreases |a|
  {
    if a == [] {
      assert a + b == b && seen + SetOf(a) == seen;
    } else {
      assert (a + b)[1..] == a[1..] + b;
      var seen' := if a[0] in seen then seen else seen + {a[0]};
      DedupeAppend(a[1..], b, seen');
      assert seen' + SetOf(a[1..]) == seen + SetOf(a) by {
        SetOfCons(a);
      }
    }
  }

  lemma SetOfCons(a: seq<string>)
    requires a != []
    ensures SetOf(a) == {a[0]} + SetOf(a[1..])
  {
    forall x | x in SetOf(a) ensures x in {a[0]} + SetOf(a[1..]) {
      var i :| 0 <= i < |a| && a[i] == x;
      assert i > 0 ==> a[1..][i - 1] == x;
    }
    forall x | x in SetOf(a[1..]) ensures x in SetOf(a) {
      var i :| 0 <= i < |a[1..]| && a[1..][i] == x;
      assert a[i + 1] == x;
    }
  }

  /** Putting the names in front of their own deduplicated list once more adds nothing. */
  lemma DedupeAgain(names: seq<string>, declared: seq<string>)
    ensures Dedupe(names + Dedupe(names + declared)) == Dedupe(names + declared)
  {
    hide DedupeFrom;
    var own, rest := Dedupe(names), DedupeFrom(declared, SetOf(names));
    DedupeAppend(names, declared, {});
    assert {} + SetOf(names) == SetOf(names);
    assert Dedupe(names + declared) == own + rest;
    DedupeAppend(names, own + rest, {});
    DedupeAppend(own, rest, SetOf(names));
    DedupeFromMembers(names, {});
    forall i | 0 <= i < |own| ensures own[i] in SetOf(names) {
      assert own[i] in names;
    }
    DedupeSeen(own, SetOf(names));
    assert SetOf(names) + SetOf(own) == SetOf(names);
    DedupeTwice(declared, SetOf(names));
  }

  /** Normalising is idempotent: request, declared names and verdict are settled after one round. */
  lemma NormalizingIsIdempotent(p: Prompt)
    ensures var (q, e) := Normalize(p); Normalize(q) == (q, e)
  {
    SplitRequestLaws(p.request);
    SplitRequestLaws(SplitRequest(p.request));
    DedupeAgain(Names(p.request), p.declared);
  }
}
