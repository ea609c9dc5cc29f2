/** Binding media: when a placeholder can be found unisolated, and that a prompt with every declared
    name bound renders without a missing one. */
module MediaBinding {
  import opened Wrappers
  import opened Text
  import opened MediaText
  import opened MediaPrompt
  import opened MediaLaws

  // ---- Isolation ----

  lemma {:induction false} TrimEndIsPrefix(s: string)
    ensures |TrimEnd(s)| <= |s| && TrimEnd(s) == s[..|TrimEnd(s)|]
  {
    if s != "" && IsWhite(s[|s| - 1]) {
      TrimEndIsPrefix(s[..|s| - 1]);
    }
  }

  lemma {:induction false} TrimStartIsSuffix(s: string)
    ensures |TrimStart(s)| <= |s| && TrimStart(s) == s[|s| - |TrimStart(s)|..]
  {
    if s != "" && IsWhite(s[0]) {
      TrimStartIsSuffix(s[1..]);
    }
  }

  /** Trimming cuts a piece out of the text. */
  lemma TrimIsASlice(s: string) returns (a: nat, b: nat)
    ensures a <= b <= |s| && Trim(s) == s[a..b]
  {
    TrimStartIsSuffix(s);
    var t := TrimStart(s);
    TrimEndIsPrefix(t);
    a := |s| - |t|;
    b := a + |Trim(s)|;
    assert t[..|Trim(s)|] == s[a..b];
  }

  lemma PlaceholderInside(text: string, a: nat, b: nat)
    requires a <= b <= |text| && HasPlaceholder(text[a..b])
    ensures HasPlaceholder(text)
  {
    MatchInside(text, a, b, NextMatch(text[a..b], 0).value.0);
  }

  lemma TokenIsTrimmed(name: string)
    ensures Trim(Token(name)) == Token(name)
  {
    var t := Token(name);
    assert t[0] == '$' && t[|t| - 1] == '}';
    TrimmedStays(t);
  }

  /** A clean part with a placeholder somewhere in it is that placeholder and nothing else. */
  lemma CleanWithPlaceholder(part: Part, keepsNote: bool)
    requires CleanPart(part, keepsNote) && part.TextPart? && HasPlaceholder(part.text)
    ensures exists n :: IsName(n) && part.text == Token(n) && NamesOf(SplitOnMedia(part.text)) == [n]
  {
    SplitRoundTrips(part.text);
    var segments := SplitOnMedia(part.text);
    assert |segments| == 1;
    ShowOne(segments[0]);
    assert segments == [segments[0]];
    match segments[0] {
      case Plain(text) =>
      case Placeholder(n) => assert NamesOf(segments) == [n] + NamesOf([]);
    }
  }

  /** In clean parts, trimming cannot turn a part into the token of a proper placeholder. */
  lemma CleanIsIsolated(part: Part, keepsNote: bool, name: string)
    requires CleanPart(part, keepsNote) && part.TextPart? && Trim(part.text) == Token(name) &&
               HasPlaceholder(Token(name))
    ensures part.text == Token(name)
  {
    var a, b := TrimIsASlice(part.text);
    PlaceholderInside(part.text, a, b);
    CleanWithPlaceholder(part, keepsNote);
    var n :| IsName(n) && part.text == Token(n);
    TokenIsTrimmed(n);
  }

  lemma {:induction false} PartsAreIsolated(
    parts: seq<Part>, keepsNote: bool, name: string, built: Result<nat, MediaError>)
    requires CleanParts(parts, keepsNote) && HasPlaceholder(Token(name)) && built != Err(NotIsolated)
    ensures BindParts(parts, name, built).error != Some(NotIsolated)
  {
    hide CleanPart, HasPlaceholder;
    if parts == [] {
    } else {
      assert CleanPart(parts[0], keepsNote);
      if parts[0].TextPart? && Trim(parts[0].text) == Token(name) {
        CleanIsIsolated(parts[0], keepsNote, name);
      }
      PartsAreIsolated(parts[1..], keepsNote, name, built);
    }
  }

  lemma {:induction false} GroupsAreIsolated(
    groups: seq<seq<Part>>, keepsNote: bool, name: string, built: Result<nat, MediaError>)
    requires forall i :: 0 <= i < |groups| ==> CleanParts(groups[i], keepsNote)
    requires HasPlaceholder(Token(name)) && built != Err(NotIsolated)
    ensures BindGroups(groups, name, built).error != Some(NotIsolated)
  {
    hide CleanParts, HasPlaceholder;
    if groups == [] {
    } else {
      PartsAreIsolated(groups[0], keepsNote, name, built);
      GroupsAreIsolated(groups[1..], keepsNote, name, built);
    }
  }

  lemma {:induction false} MessagesAreIsolated(messages: seq<Message>, name: string, built: Result<nat, MediaError>)
    requires forall i :: 0 <= i < |messages| ==> NormalMessage(messages[i])
    requires HasPlaceholder(Token(name)) && built != Err(NotIsolated)
    ensures BindMessages(messages, name, built).error != Some(NotIsolated)
  {
    hide CleanParts, HasPlaceholder;
    if messages == [] {
    } else {
      var m := messages[0];
      assert NormalMessage(m);
      if !m.isSystem && m.content.Some? && m.content.value.Parts? {
        PartsAreIsolated(m.content.value.parts, false, name, built);
      }
      MessagesAreIsolated(messages[1..], name, built);
    }
  }

  /** A name whose token is itself read as a placeholder is always found isolated: normalising first
      rules the error out, for every prompt. */
  lemma BindingIsIsolated(p: Prompt, name: string, built: Result<nat, MediaError>)
    requires HasPlaceholder(Token(name)) && built != Err(NotIsolated)
    ensures BindMedia(p, name, built).1 != Some(NotIsolated)
  {
    hide HasPlaceholder, CleanParts, NormalMessage;
    SplitRequestLaws(p.request);
    var r := SplitRequest(p.request);
    match r {
      case Chat(messages) => MessagesAreIsolated(messages, name, built);
      case Blocks(_, keepsNote, groups) => GroupsAreIsolated(groups, keepsNote, name, built);
      case NoMedia =>
    }
  }

  /** A prompt whose one part is the token of `name` with a space in front. */
  function Spaced(name: string): Prompt {
    Prompt(Blocks([], false, [[TextPart(" " + Token(name), 0)]]), [])
  }

  lemma SpacedIsPlain(name: string)
    requires !HasPlaceholder(Token(name))
    ensures SplitOnMedia(" " + Token(name)) == [Plain(" " + Token(name))] && Trim(" " + Token(name)) == Token(name)
  {
    var text := " " + Token(name);
    assert text[1..|text|] == Token(name);
    if HasPlaceholder(text) {
      var (start, end) := NextMatch(text, 0).value;
      MatchIsToken(text, start);
      assert start > 0 by {
        assert text[start] == text[start..end][0] == '$';
      }
      MatchOutside(text, 1, start);
      assert false;
    }
    assert text[0..] == text;
    assert TrimStart(text) == TrimStart(text[1..]);
    TokenIsTrimmed(name);
    assert Token(name)[0] == '$';
  }

  /** A placeholder at or after `a` is one of the text from `a` on. */
  lemma MatchOutside(text: string, a: nat, i: nat)
    requires a <= i <= |text| && MatchAt(text, i).Some?
    ensures MatchAt(text[a..|text|], i - a).Some?
  {
    var sub, from := text[a..|text|], i - a + |OPENING|;
    var x, y := sub[i - a..from], text[i..i + |OPENING|];
    forall k | 0 <= k < |OPENING| ensures x[k] == y[k] {
      assert x[k] == sub[i - a + k] == text[i + k];
    }
    assert x == y;
    var k := RunEnd(text, i + |OPENING|);
    RunEndOfName(sub, from, k - a);
  }

  /** `MediaPlaceholderNotIsolated` can arise from some prompt exactly for the names whose token is
      not read as a placeholder, which no proper name is. */
  lemma NotIsolatedOnlyForBadNames(name: string)
    ensures (exists p: Prompt, id: nat :: BindMedia(p, name, Ok(id)).1 == Some(NotIsolated)) <==>
              !HasPlaceholder(Token(name))
    ensures IsName(name) ==> HasPlaceholder(Token(name))
  {
    if HasPlaceholder(Token(name)) {
      forall p: Prompt, id: nat ensures BindMedia(p, name, Ok(id)).1 != Some(NotIsolated) {
        BindingIsIsolated(p, name, Ok(id));
      }
    } else {
      SpacedIsPlain(name);
      var text := " " + Token(name);
      var part := TextPart(text, 0);
      var p := Spaced(name);
      assert SplitPart(part, false) == [part];
      assert SplitParts([part], false) == [part] by {
        assert [part][1..] == [];
      }
      assert SplitRequest(p.request).groups == [[part]];
      assert |text| == |Token(name)| + 1;
      assert BindParts([part], name, Ok(0)).error == Some(NotIsolated);
      assert BindMedia(p, name, Ok(0)).1 == Some(NotIsolated);
    }
    if IsName(name) {
      TokenMatches(name);
    }
  }

  // ---- Names after binding ----

  lemma CleanNames(part: Part, keepsNote: bool)
    requires CleanPart(part, keepsNote) && part.TextPart?
    ensures forall n :: n in NamesOf(SplitOnMedia(part.text)) ==> part.text == Token(n)
  {
    if HasPlaceholder(part.text) {
      CleanWithPlaceholder(part, keepsNote);
      var n :| IsName(n) && part.text == Token(n) && NamesOf(SplitOnMedia(part.text)) == [n];
    } else {
      assert part.text[0..] == part.text;
    }
  }

  predicate NamesLeft(after: seq<string>, before: seq<string>, name: string) {
    forall n :: n in after ==> n in before && n != name
  }

  lemma {:induction false} BindPartsLaws(parts: seq<Part>, keepsNote: bool, name: string, id: nat)
    requires CleanParts(parts, keepsNote) && BindParts(parts, name, Ok(id)).error.None?
    ensures var b := BindParts(parts, name, Ok(id));
            CleanParts(b.parts, keepsNote) && NamesLeft(NamesIn(b.parts), NamesIn(parts), name)
  {
    hide SplitPart, HasPlaceholder, Trim;
    if parts == [] {
    } else {
      var b := BindParts(parts[1..], name, Ok(id));
      assert CleanPart(parts[0], keepsNote);
      BindPartsLaws(parts[1..], keepsNote, name, id);
      if parts[0].TextPart? && Trim(parts[0].text) == Token(name) {
        OtherIsClean(id, keepsNote);
        assert ([OtherPart(id)] + b.parts)[1..] == b.parts;
      } else {
        if parts[0].TextPart? {
          CleanNames(parts[0], keepsNote);
          forall n | n in NamesOf(SplitOnMedia(parts[0].text)) ensures n != name {
            TokenIsTrimmed(n);
          }
        }
        assert ([parts[0]] + b.parts)[1..] == b.parts;
      }
    }
  }

  lemma OtherIsClean(id: nat, keepsNote: bool)
    ensures CleanPart(OtherPart(id), keepsNote)
  {
  }

  lemma {:induction false} BindGroupsLaws(groups: seq<seq<Part>>, keepsNote: bool, name: string, id: nat)
    requires forall i :: 0 <= i < |groups| ==> CleanParts(groups[i], keepsNote)
    requires BindGroups(groups, name, Ok(id)).error.None?
    ensures var b := BindGroups(groups, name, Ok(id));
            && (forall i :: 0 <= i < |b.parts| ==> CleanParts(b.parts[i], keepsNote))
            && NamesLeft(GroupNames(b.parts), GroupNames(groups), name)
  {
    hide CleanParts, NamesIn;
    if groups == [] {
    } else {
      var b := BindParts(groups[0], name, Ok(id)).parts;
      var rest := BindGroups(groups[1..], name, Ok(id)).parts;
      BindPartsLaws(groups[0], keepsNote, name, id);
      BindGroupsLaws(groups[1..], keepsNote, name, id);
      assert ([b] + rest)[1..] == rest;
    }
  }

  lemma BindMessageLaws(m: Message, name: string, id: nat)
    requires NormalMessage(m) && BindMessage(m, name, Ok(id)).error.None?
    ensures var b := BindMessage(m, name, Ok(id)).parts;
            && NormalMessage(b) && NamesLeft(NamesIn(MediaParts(b)), NamesIn(MediaParts(m)), name)
            && b.isSystem == m.isSystem && (m.isSystem ==> b == m)
  {
    hide CleanParts, BindParts;
    if !m.isSystem && m.content.Some? {
      match m.content.value {
        case Parts(parts) => BindPartsLaws(parts, false, name, id);
        case Whole(text) => WholeHasNoNames(text);
      }
    }
  }

  lemma WholeHasNoNames(text: string)
    requires !HasPlaceholder(text)
    ensures NamesIn([TextPart(text, 0)]) == []
  {
    assert NamesOf(PlainIfAny(text[0..])) == [];
    assert [TextPart(text, 0)][1..] == [];
  }

  lemma {:induction false} BindMessagesLaws(messages: seq<Message>, name: string, id: nat)
    requires forall i :: 0 <= i < |messages| ==> NormalMessage(messages[i])
    requires BindMessages(messages, name, Ok(id)).error.None?
    ensures var b := BindMessages(messages, name, Ok(id)).parts;
            && |b| == |messages|
            && (forall i :: 0 <= i < |b| ==>
                  && NormalMessage(b[i]) && b[i].isSystem == messages[i].isSystem
                  && (b[i].isSystem ==> b[i] == messages[i]))
            && NamesLeft(MessageNames(b), MessageNames(messages), name)
  {
    hide NormalMessage, NamesIn, MediaParts, BindMessage;
    if messages == [] {
    } else {
      var b := BindMessage(messages[0], name, Ok(id)).parts;
      var rest := BindMessages(messages[1..], name, Ok(id)).parts;
      BindMessageLaws(messages[0], name, id);
      BindMessagesLaws(messages[1..], name, id);
      assert ([b] + rest)[1..] == rest;
    }
  }

  /** A successful binding leaves the request normal, its system text as it was, and exactly no
      occurrence of the name. */
  lemma BindRequestLaws(r: Request, name: string, id: nat)
    requires Normal(r) && BindRequest(r, name, Ok(id)).error.None?
    ensures var b := BindRequest(r, name, Ok(id)).parts;
            Normal(b) && SystemHasMedia(b) == SystemHasMedia(r) && NamesLeft(Names(b), Names(r), name)
  {
    hide CleanParts, NormalMessage, MessageNames, GroupNames;
    match r {
      case Chat(messages) => BindMessagesLaws(messages, name, id);
      case Blocks(_, keepsNote, groups) => BindGroupsLaws(groups, keepsNote, name, id);
      case NoMedia =>
    }
  }

  // ---- Binding every declared name ----

  /** A normalised prompt: clean request, no media in system text, every name in it declared. */
  predicate Tracked(p: Prompt) {
    !SystemHasMedia(p.request) && Normal(p.request) && forall n :: n in Names(p.request) ==> n in p.declared
  }

  lemma NormalizeTracks(p: Prompt)
    requires Normalize(p).1.None?
    ensures var q := Normalize(p).0;
            Tracked(q) && forall n :: n in q.declared <==> n in Names(p.request) || n in p.declared
  {
    hide Normal, Names, SystemHasMedia;
    SplitRequestLaws(p.request);
    DedupeFromMembers(Names(p.request) + p.declared, {});
  }

  lemma {:induction false} WithoutMembers(items: seq<string>, name: string)
    ensures forall n :: n in Without(items, name) <==> n in items && n != name
  {
    if items == [] {
    } else {
      WithoutMembers(items[1..], name);
      assert forall n :: n in items <==> n == items[0] || n in items[1..];
    }
  }

  /** One successful binding strikes one name and keeps the prompt tracked. */
  lemma BindStrikes(p: Prompt, name: string, id: nat)
    requires BindMedia(p, name, Ok(id)).1.None?
    ensures var q := BindMedia(p, name, Ok(id)).0;
            && Tracked(q) && Normalize(p).1.None?
            && forall n :: n in q.declared <==> n in Normalize(p).0.declared && n != name
  {
    hide Normal, Names, SystemHasMedia;
    NormalizeTracks(p);
    var q := Normalize(p).0;
    BindRequestLaws(q.request, name, id);
    WithoutMembers(q.declared, name);
  }

  predicate Binds(bindings: seq<(string, nat)>, n: string) {
    exists i :: 0 <= i < |bindings| && bindings[i].0 == n
  }

  lemma {:induction false} BindAllStrikes(p: Prompt, bindings: seq<(string, nat)>)
    requires Normalize(p).1.None? && BindAll(p, bindings).1.None?
    ensures var q := BindAll(p, bindings).0;
            && Normalize(q).1.None?
            && forall n :: n in Normalize(q).0.declared <==> n in Normalize(p).0.declared && !Binds(bindings, n)
    decreases |bindings|
  {
    hide Normalize, BindMedia;
    if bindings == [] {
    } else {
      var (name, id) := bindings[0];
      var q := BindMedia(p, name, Ok(id)).0;
      BindStrikes(p, name, id);
      TrackedNormalizes(q);
      BindAllStrikes(q, bindings[1..]);
      forall n ensures Binds(bindings, n) <==> n == name || Binds(bindings[1..], n) {
        if Binds(bindings, n) && n != name {
          var i :| 0 <= i < |bindings| && bindings[i].0 == n;
          assert bindings[1..][i - 1].0 == n;
        }
        if Binds(bindings[1..], n) {
          var i :| 0 <= i < |bindings[1..]| && bindings[1..][i].0 == n;
          assert bindings[i + 1].0 == n;
        }
      }
    }
  }

  lemma TrackedNormalizes(q: Prompt)
    requires Tracked(q)
    ensures Normalize(q).1.None? && forall n :: n in Normalize(q).0.declared <==> n in q.declared
  {
    hide Normal, Names, SystemHasMedia;
    NormalizeTracks(q);
  }

  /** After any list of successful bindings, `render` finds no media name missing if and only if every
      name that was declared, or stood in the request, has been bound. */
  lemma AllBoundMeansNoneMissing(p: Prompt, bindings: seq<(string, nat)>)
    requires Normalize(p).1.None? && BindAll(p, bindings).1.None?
    ensures MissingMedia(BindAll(p, bindings).0) == Ok(None) <==>
              forall n :: n in Normalize(p).0.declared ==> Binds(bindings, n)
  {
    hide Normalize;
    var q := BindAll(p, bindings).0;
    BindAllStrikes(p, bindings);
    if Normalize(q).0.declared != [] {
      assert Normalize(q).0.declared[0] in Normalize(q).0.declared;
    }
  }
}
