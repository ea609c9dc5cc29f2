/** The prompt as the program edits it: parts are split, replaced and collected in place, part by part
    and message by message. */
module MediaEdit {
  import opened Wrappers
  import opened Text
  import opened MediaText
  import opened MediaPrompt

  lemma Shift<T>(out: seq<T>, x: T, rest: seq<T>)
    ensures out + ([x] + rest) == out + [x] + rest
  {
  }

  /** `dedupe_preserve_order`. */
  method DedupePreserveOrder(items: seq<string>) returns (out: seq<string>)
    ensures out == Dedupe(items)
  {
    out := [];
    var seen: set<string> := {};
    for i := 0 to |items|
      invariant out + DedupeFrom(items[i..], seen) == Dedupe(items)
    {
      assert items[i..][1..] == items[i + 1..];
      if items[i] !in seen {
        assert out + ([items[i]] + DedupeFrom(items[i + 1..], seen + {items[i]}))
            == out + [items[i]] + DedupeFrom(items[i + 1..], seen + {items[i]});
        seen := seen + {items[i]};
        out := out + [items[i]];
      }
    }
  }

  method SplitOnePart(part: Part, keepsNote: bool) returns (out: seq<Part>, names: seq<string>)
    ensures out == SplitPart(part, keepsNote) && names == PartNames(part)
  {
    match part {
      case TextPart(text, note) =>
        var segments := SplitTextOnMedia(text);
        return SegmentParts(segments, note, keepsNote), NamesOf(segments);
      case OtherPart(_) => return [part], [];
    }
  }

  lemma NextPart(parts: seq<Part>, i: nat, keepsNote: bool, out: seq<Part>, names: seq<string>)
    requires i < |parts|
    ensures out + SplitParts(parts[i..], keepsNote)
         == out + SplitPart(parts[i], keepsNote) + SplitParts(parts[i + 1..], keepsNote)
    ensures names + NamesIn(parts[i..]) == names + PartNames(parts[i]) + NamesIn(parts[i + 1..])
  {
    hide SplitPart, PartNames;
    assert parts[i..][1..] == parts[i + 1..];
  }

  /** Split the text parts of one list, collecting the names met. */
  method SplitPartList(parts: seq<Part>, keepsNote: bool) returns (out: seq<Part>, names: seq<string>)
    ensures out == SplitParts(parts, keepsNote) && names == NamesIn(parts)
  {
    hide SplitPart, PartNames;
    out, names := [], [];
    for i := 0 to |parts|
      invariant out + SplitParts(parts[i..], keepsNote) == SplitParts(parts, keepsNote)
      invariant names + NamesIn(parts[i..]) == NamesIn(parts)
    {
      var split, found := SplitOnePart(parts[i], keepsNote);
      NextPart(parts, i, keepsNote, out, names);
      out, names := out + split, names + found;
    }
  }

  method SplitOneMessage(m: Message) returns (out: Message, found: seq<string>)
    ensures out == SplitMessage(m) && found == NamesIn(MediaParts(m))
  {
    out, found := m, [];
    if !m.isSystem && m.content.Some? {
      match m.content.value {
        case Whole(text) =>
          var segments := SplitTextOnMedia(text);
          WholeNames(text);
          found := NamesOf(segments);
          if HasPlaceholder(text) {
            out := m.(content := Some(Parts(SegmentParts(segments, 0, false))));
          }
        case Parts(parts) =>
          var split;
          split, found := SplitPartList(parts, false);
          out := m.(content := Some(Parts(split)));
      }
    }
  }

  method SplitMessageList(messages: seq<Message>) returns (out: seq<Message>, names: seq<string>)
    ensures Chat(out) == SplitRequest(Chat(messages)) && names == MessageNames(messages)
  {
    hide SplitMessage, NamesIn, MediaParts;
    out, names := [], [];
    for i := 0 to |messages|
      invariant |out| == i && forall j :: 0 <= j < i ==> out[j] == SplitMessage(messages[j])
      invariant names + MessageNames(messages[i..]) == MessageNames(messages)
    {
      assert messages[i..][1..] == messages[i + 1..];
      var m, found := SplitOneMessage(messages[i]);
      assert names + (found + MessageNames(messages[i + 1..])) == names + found + MessageNames(messages[i + 1..]);
      out, names := out + [m], names + found;
    }
  }

  lemma WholeNames(text: string)
    ensures NamesIn([TextPart(text, 0)]) == NamesOf(SplitOnMedia(text))
  {
    assert [TextPart(text, 0)][1..] == [];
  }

  method SplitGroupList(groups: seq<seq<Part>>, keepsNote: bool) returns (out: seq<seq<Part>>, names: seq<string>)
    ensures |out| == |groups| && forall i :: 0 <= i < |groups| ==> out[i] == SplitParts(groups[i], keepsNote)
    ensures names == GroupNames(groups)
  {
    hide SplitParts, NamesIn;
    out, names := [], [];
    for i := 0 to |groups|
      invariant |out| == i && forall j :: 0 <= j < i ==> out[j] == SplitParts(groups[j], keepsNote)
      invariant names + GroupNames(groups[i..]) == GroupNames(groups)
    {
      assert groups[i..][1..] == groups[i + 1..];
      var split, found := SplitPartList(groups[i], keepsNote);
      assert names + (found + GroupNames(groups[i + 1..])) == names + found + GroupNames(groups[i + 1..]);
      out, names := out + [split], names + found;
    }
  }

  /** `split_request_text_parts`. */
  method SplitRequestTextParts(request: Request) returns (out: Request, names: seq<string>)
    ensures out == SplitRequest(request) && names == Names(request)
  {
    hide SplitParts, NamesIn, SplitMessage, MediaParts;
    match request {
      case Chat(messages) =>
        var split;
        split, names := SplitMessageList(messages);
        return Chat(split), names;
      case Blocks(system, keepsNote, groups) =>
        var split;
        split, names := SplitGroupList(groups, keepsNote);
        assert Blocks(system, keepsNote, split) == SplitRequest(request);
        return Blocks(system, keepsNote, split), names;
      case NoMedia => return request, [];
    }
  }

  /** Replace every part of one list that is the placeholder, stopping at the first failure. */
  method BindPartList(parts: seq<Part>, name: string, built: Result<nat, MediaError>) returns (b: Bound<seq<Part>>)
    ensures b == BindParts(parts, name, built)
  {
    hide Trim, Token;
    var out: seq<Part> := [];
    var found := false;
    ghost var all := BindParts(parts, name, built);
    assert parts[0..] == parts && [] + all.parts == all.parts;
    for i := 0 to |parts|
      invariant var r := BindParts(parts[i..], name, built);
                all.parts == out + r.parts && all.found == (found || r.found) && all.error == r.error
    {
      var part, rest := parts[i], parts[i + 1..];
      assert parts[i..][1..] == rest;
      ghost var r := BindParts(rest, name, built);
      if part.TextPart? && Trim(part.text) == Token(name) {
        if part.text != Token(name) {
          return Bound(out + parts[i..], found, Some(NotIsolated));
        }
        if built.Err? {
          return Bound(out + parts[i..], found, Some(built.error));
        }
        part := OtherPart(built.value);
        found := true;
      }
      Shift(out, part, r.parts);
      out := out + [part];
    }
    assert parts[|parts|..] == [] && out + [] == out;
    return Bound(out, found, None);
  }

  method BindGroupList(groups: seq<seq<Part>>, name: string, built: Result<nat, MediaError>)
    returns (b: Bound<seq<seq<Part>>>)
    ensures b == BindGroups(groups, name, built)
  {
    hide BindParts;
    var out: seq<seq<Part>> := [];
    var found := false;
    ghost var all := BindGroups(groups, name, built);
    assert groups[0..] == groups && [] + all.parts == all.parts;
    for i := 0 to |groups|
      invariant var r := BindGroups(groups[i..], name, built);
                all.parts == out + r.parts && all.found == (found || r.found) && all.error == r.error
    {
      var rest := groups[i + 1..];
      assert groups[i..][1..] == rest;
      var bound := BindPartList(groups[i], name, built);
      ghost var r := BindGroups(rest, name, built);
      Shift(out, bound.parts, r.parts);
      Shift(out, bound.parts, rest);
      out, found := out + [bound.parts], found || bound.found;
      if bound.error.Some? {
        return Bound(out + rest, found, bound.error);
      }
    }
    assert groups[|groups|..] == [] && out + [] == out;
    return Bound(out, found, None);
  }

  method BindMessageList(messages: seq<Message>, name: string, built: Result<nat, MediaError>)
    returns (b: Bound<seq<Message>>)
    ensures b == BindMessages(messages, name, built)
  {
    hide BindParts;
    var out: seq<Message> := [];
    var found := false;
    ghost var all := BindMessages(messages, name, built);
    assert messages[0..] == messages && [] + all.parts == all.parts;
    for i := 0 to |messages|
      invariant var r := BindMessages(messages[i..], name, built);
                all.parts == out + r.parts && all.found == (found || r.found) && all.error == r.error
    {
      var m, rest := messages[i], messages[i + 1..];
      assert messages[i..][1..] == rest;
      ghost var r := BindMessages(rest, name, built);
      var bound := Bound(m, false, None);
      if !m.isSystem && m.content.Some? && m.content.value.Parts? {
        var parts := BindPartList(m.content.value.parts, name, built);
        bound := Bound(m.(content := Some(Parts(parts.parts))), parts.found, parts.error);
      }
      Shift(out, bound.parts, r.parts);
      Shift(out, bound.parts, rest);
      out, found := out + [bound.parts], found || bound.found;
      if bound.error.Some? {
        return Bound(out + rest, found, bound.error);
      }
    }
    assert messages[|messages|..] == [] && out + [] == out;
    return Bound(out, found, None);
  }

  class EditablePrompt {
    var request: Request
    var declared: seq<string>

    constructor (request: Request, declared: seq<string>)
      ensures Value() == Prompt(request, declared)
    {
      this.request, this.declared := request, declared;
    }

    function Value(): Prompt
      reads this
    {
      Prompt(request, declared)
    }

    /** Split media placeholders into parts of their own and declare their names. */
    method NormalizeMediaPlaceholders() returns (error: Option<MediaError>)
      modifies this
      ensures (Value(), error) == Normalize(old(Value()))
    {
      hide SystemHasMedia, SplitRequest, Names, Dedupe;
      if SystemHasMedia(request) {
        return Some(MediaInSystem);
      }
      var split, names := SplitRequestTextParts(request);
      request := split;
      declared := DedupePreserveOrder(names + declared);
      return None;
    }

    /** Bind one placeholder to built media; on an error the prompt keeps what was done before it. */
    method BindMediaMut(name: string, built: Result<nat, MediaError>) returns (error: Option<MediaError>)
      modifies this
      ensures (Value(), error) == BindMedia(old(Value()), name, built)
    {
      error := NormalizeMediaPlaceholders();
      if error.Some? {
        return;
      }
      var found := false;
      match request {
        case Chat(messages) =>
          var b := BindMessageList(messages, name, built);
          request, found, error := Chat(b.parts), b.found, b.error;
        case Blocks(system, keepsNote, groups) =>
          var b := BindGroupList(groups, name, built);
          request, found, error := Blocks(system, keepsNote, b.parts), b.found, b.error;
        case NoMedia =>
      }
      if error.Some? {
        return;
      }
      if !found {
        return Some(NotFound);
      }
      Strike(name);
    }

    method Strike(name: string)
      modifies this`declared
      ensures declared == Without(old(declared), name)
    {
      var kept: seq<string> := [];
      for i := 0 to |declared|
        invariant declared == old(declared) && kept + Without(declared[i..], name) == Without(declared, name)
      {
        assert declared[i..][1..] == declared[i + 1..];
        if declared[i] != name {
          assert kept + ([declared[i]] + Without(declared[i + 1..], name))
              == kept + [declared[i]] + Without(declared[i + 1..], name);
          kept := kept + [declared[i]];
        }
      }
      declared := kept;
    }
  }
}
