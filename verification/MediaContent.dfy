/** What normalising comes to, told from the texts of a prompt: when it is refused, and which names are
    then declared, in which order. */
module MediaContent {
  import opened Wrappers
  import opened Text
  import opened MediaText
  import opened MediaPrompt
  import opened MediaLaws
  import opened MediaBinding
  import opened MediaSubstitution

  // ---- Placeholders by their characters ----

  /** A letter or underscore, then letters, digits and underscores. */
  predicate ProperName(name: string) {
    && name != "" && !('0' <= name[0] <= '9')
    && forall i :: 0 <= i < |name| ==>
         'a' <= name[i] <= 'z' || 'A' <= name[i] <= 'Z' || '0' <= name[i] <= '9' || name[i] == '_'
  }

  /** `${media:name}` with a proper name stands in the text at `at`. */
  predicate NameStands(text: string, at: nat, name: string) {
    && ProperName(name) && at + |name| + 9 <= |text|
    && text[at..at + |name| + 9] == "${media:" + name + "}"
  }

  ghost predicate Mentions(text: string) {
    exists at, name :: NameStands(text, at, name)
  }

  lemma ProperIsName(name: string)
    ensures ProperName(name) <==> IsName(name)
  {
  }

  /** A text has a placeholder exactly when a proper name stands in it between the marks. */
  lemma PlaceholderByContent(text: string)
    ensures HasPlaceholder(text) <==> Mentions(text)
  {
    if HasPlaceholder(text) {
      var (start, end) := NextMatch(text, 0).value;
      var name := NameAt(text, start, end);
      MatchIsToken(text, start);
      ProperIsName(name);
      assert NameStands(text, start, name);
    }
    if at: nat, name :| NameStands(text, at, name) {
      ProperIsName(name);
      TokenMatches(name);
      var end := at + |name| + 9;
      assert text[at..end] == Token(name);
      MatchInside(text, at, end, 0);
      assert MatchAt(text, at).Some?;
    }
  }

  // ---- Media in system text ----

  /** The texts a request gives to the system. */
  predicate IsSystemText(r: Request, text: string) {
    match r
    case Chat(messages) =>
      exists i :: 0 <= i < |messages| && messages[i].isSystem && messages[i].content.Some?
                  && HoldsText(messages[i].content.value, text)
    case Blocks(system, _, _) => text in system
    case NoMedia => false
  }

  predicate HoldsText(content: Content, text: string) {
    match content
    case Whole(t) => t == text
    case Parts(parts) => exists i :: 0 <= i < |parts| && parts[i].TextPart? && parts[i].text == text
  }

  lemma ContentByText(content: Content)
    ensures ContentHasPlaceholder(content) <==> exists text :: HoldsText(content, text) && HasPlaceholder(text)
  {
    hide HasPlaceholder;
    match content {
      case Whole(t) => assert HoldsText(content, t);
      case Parts(parts) =>
        if ContentHasPlaceholder(content) {
          var i :| 0 <= i < |parts| && parts[i].TextPart? && HasPlaceholder(parts[i].text);
          assert HoldsText(content, parts[i].text);
        }
    }
  }

  lemma SystemByText(r: Request)
    ensures SystemHasMedia(r) <==> exists text :: IsSystemText(r, text) && HasPlaceholder(text)
  {
    hide HasPlaceholder, ContentHasPlaceholder, HoldsText;
    match r {
      case Chat(messages) =>
        if SystemHasMedia(r) {
          var i :| && 0 <= i < |messages| && messages[i].isSystem
                   && messages[i].content.Some? && ContentHasPlaceholder(messages[i].content.value);
          ContentByText(messages[i].content.value);
          var text :| HoldsText(messages[i].content.value, text) && HasPlaceholder(text);
          assert IsSystemText(r, text);
        }
        if text :| IsSystemText(r, text) && HasPlaceholder(text) {
          var i :| && 0 <= i < |messages| && messages[i].isSystem
                   && messages[i].content.Some? && HoldsText(messages[i].content.value, text);
          ContentByText(messages[i].content.value);
        }
      case Blocks(system, _, _) =>
        if SystemHasMedia(r) {
          var i :| 0 <= i < |system| && HasPlaceholder(system[i]);
          assert IsSystemText(r, system[i]);
        }
      case NoMedia =>
    }
  }

  // ---- The declared names ----

  /** Each item that is not among those before it, in order. */
  function Firsts(items: seq<string>): seq<string> {
    if items == [] then []
    else
      var before, last := items[..|items| - 1], items[|items| - 1];
      Firsts(before) + if last in before then [] else [last]
  }

  lemma {:induction false} DedupeIsFirsts(items: seq<string>)
    ensures Dedupe(items) == Firsts(items)
  {
    if items == [] {
    } else {
      var before, last := items[..|items| - 1], items[|items| - 1];
      DedupeIsFirsts(before);
      assert items == before + [last];
      DedupeAppend(before, [last], {});
      SetOfMembers(before, last);
      assert DedupeFrom([last], {} + SetOf(before)) == if last in before then [] else [last];
    }
  }

  lemma SetOfMembers(items: seq<string>, x: string)
    ensures x in SetOf(items) <==> x in items
  {
  }

  /** Normalising is refused exactly when a placeholder stands in a text given to the system, and then
      changes nothing. Otherwise the declared names are the first occurrences among the names split off,
      in order, and then those declared before. */
  lemma NormalizeExactly(p: Prompt)
    ensures var (q, e) := Normalize(p);
            if exists text :: IsSystemText(p.request, text) && Mentions(text) then (q, e) == (p, Some(MediaInSystem))
            else
              && e.None? && q.request == SplitRequest(p.request)
              && q.declared == Firsts(Names(p.request) + p.declared)
  {
    hide IsSystemText, Mentions, SystemHasMedia, Firsts, Dedupe, HasPlaceholder;
    SystemByText(p.request);
    forall text: string ensures HasPlaceholder(text) <==> Mentions(text) {
      PlaceholderByContent(text);
    }
    DedupeIsFirsts(Names(p.request) + p.declared);
  }

  // ---- Annotations ----

  /** Text that is one placeholder and nothing else. */
  ghost predicate IsToken(text: string) {
    exists name :: ProperName(name) && text == Token(name)
  }

  lemma TokenIsMentioned(name: string)
    requires ProperName(name)
    ensures HasPlaceholder(Token(name))
  {
    ProperIsName(name);
    TokenMatches(name);
  }

  /** What is split off a text part keeps its annotations, unless it is a placeholder and the request kind
      drops them there. */
  lemma SplittingKeepsNotes(part: Part, keepsNote: bool, i: nat)
    requires part.TextPart? && i < |SplitPart(part, keepsNote)|
    ensures var q := SplitPart(part, keepsNote)[i];
            q.TextPart? && q.note == if IsToken(q.text) && !keepsNote then 0 else part.note
  {
    hide HasPlaceholder, SplitOnMedia;
    SplitRoundTrips(part.text);
    var segment := SplitOnMedia(part.text)[i];
    match segment {
      case Placeholder(name) => ProperIsName(name);
      case Plain(text) =>
        if name :| ProperName(name) && text == Token(name) {
          TokenIsMentioned(name);
        }
    }
  }

  // ---- A builder that refuses ----

  /** Nothing is replaced, and the builder's error is reported if the name was found. */
  predicate Refuses<T(==)>(before: T, b: Bound<T>, found: bool, e: MediaError) {
    b == Bound(before, false, if found then Some(e) else None)
  }

  lemma {:induction false} PartsRefuse(parts: seq<Part>, keepsNote: bool, name: string, e: MediaError)
    requires CleanParts(parts, keepsNote) && IsName(name)
    ensures Refuses(parts, BindParts(parts, name, Err(e)), name in NamesIn(parts), e)
  {
    hide CleanPart, Trim, SplitOnMedia, NamesOf, Letters, TextSubst;
    if parts == [] {
    } else {
      PartsRefuse(parts[1..], keepsNote, name, e);
      if parts[0].TextPart? {
        CleanPartMatches(parts[0], keepsNote, name, 0);
      }
      assert [parts[0]] + parts[1..] == parts;
    }
  }

  lemma MessageRefuses(m: Message, name: string, e: MediaError)
    requires NormalMessage(m) && IsName(name)
    ensures Refuses(m, BindMessage(m, name, Err(e)), name in NamesIn(MediaParts(m)), e)
  {
    hide BindParts, NamesIn;
    if !m.isSystem && m.content.Some? {
      match m.content.value {
        case Parts(parts) => PartsRefuse(parts, false, name, e);
        case Whole(text) => WholeHasNoNames(text);
      }
    } else {
      assert NamesIn([]) == [] by { NoParts(); }
    }
  }

  lemma NoParts()
    ensures NamesIn([]) == []
  {
  }

  lemma {:induction false} MessagesRefuse(messages: seq<Message>, name: string, e: MediaError)
    requires IsName(name) && forall i :: 0 <= i < |messages| ==> NormalMessage(messages[i])
    ensures Refuses(messages, BindMessages(messages, name, Err(e)), name in MessageNames(messages), e)
  {
    hide NormalMessage, BindMessage, NamesIn, MediaParts;
    if messages == [] {
    } else {
      MessageRefuses(messages[0], name, e);
      MessagesRefuse(messages[1..], name, e);
      assert [messages[0]] + messages[1..] == messages;
    }
  }

  lemma {:induction false} GroupsRefuse(groups: seq<seq<Part>>, keepsNote: bool, name: string, e: MediaError)
    requires IsName(name) && forall i :: 0 <= i < |groups| ==> CleanParts(groups[i], keepsNote)
    ensures Refuses(groups, BindGroups(groups, name, Err(e)), name in GroupNames(groups), e)
  {
    hide CleanParts, BindParts, NamesIn;
    if groups == [] {
    } else {
      PartsRefuse(groups[0], keepsNote, name, e);
      GroupsRefuse(groups[1..], keepsNote, name, e);
      assert [groups[0]] + groups[1..] == groups;
    }
  }

  lemma RequestRefuses(r: Request, name: string, e: MediaError)
    requires Normal(r) && IsName(name)
    ensures Refuses(r, BindRequest(r, name, Err(e)), name in Names(r), e)
  {
    hide NormalMessage, CleanParts, BindMessages, BindGroups, MessageNames, GroupNames;
    match r {
      case Chat(messages) => MessagesRefuse(messages, name, e);
      case Blocks(_, keepsNote, groups) => GroupsRefuse(groups, keepsNote, name, e);
      case NoMedia =>
    }
  }

  /** Binding media the provider does not take: whatever the prompt, it ends normalised with nothing
      replaced and no name struck, and the builder's own error is reported exactly when the name stands in
      the request and system text holds no media. */
  lemma BuilderRefuses(p: Prompt, name: string, e: MediaError)
    requires IsName(name)
    ensures var (q, error) := BindMedia(p, name, Err(e));
            && q == Normalize(p).0
            && error == Some(if SystemHasMedia(p.request) then MediaInSystem
                             else if name in Names(p.request) then e
                             else NotFound)
  {
    hide Normal, SystemHasMedia, SplitRequest, BindRequest, Names, Without, Dedupe;
    if !SystemHasMedia(p.request) {
      SplitRequestLaws(p.request);
      RequestRefuses(SplitRequest(p.request), name, e);
    }
  }

  /** Striking a name keeps the others as they stood. */
  lemma {:induction false} StrikingKeepsOrder(a: seq<string>, b: seq<string>, name: string)
    ensures Without(a + b, name) == Without(a, name) + Without(b, name)
  {
    if a == [] {
      assert a + b == b && Without(a, name) == [];
    } else {
      var rest := a[1..];
      var head := if a[0] == name then [] else [a[0]];
      StrikingKeepsOrder(rest, b, name);
      assert (a + b)[1..] == rest + b && (a + b)[0] == a[0];
      assert head + (Without(rest, name) + Without(b, name)) == head + Without(rest, name) + Without(b, name);
    }
  }

  lemma StrikingOne(item: string, name: string)
    ensures Without([item], name) == if item == name then [] else [item]
  {
    assert [item][1..] == [];
  }
}
