/** Media placeholders in prompt requests: splitting them into parts of their own, binding them to
    media, and the check that none is left when a prompt is rendered. */
module MediaPrompt {
  import opened Wrappers
  import opened Text
  import opened MediaText

  /** A native part: text with its formatting, or anything else. */
  datatype Part = TextPart(text: string, note: nat) | OtherPart(id: nat)

  datatype Content = Whole(text: string) | Parts(parts: seq<Part>)

  datatype Message = Message(isSystem: bool, content: Option<Content>)

  /** A provider request as far as media goes. `Chat` keeps system text among its messages; `Blocks`
      (the other three providers) keeps it apart, and `keepsNote` says whether a placeholder split off
      a text part keeps the part's formatting. `NoMedia` stands for the request kinds without parts. */
  datatype Request =
    | Chat(messages: seq<Message>)
    | Blocks(system: seq<string>, keepsNote: bool, groups: seq<seq<Part>>)
    | NoMedia

  /** `Unsupported` is what a media builder may answer. */
  datatype MediaError = MediaInSystem | NotFound | NotIsolated | Unsupported

  // ---- Splitting ----

  function SegmentPart(segment: Segment, note: nat, keepsNote: bool): Part {
    TextPart(Show(segment), if segment.Plain? || keepsNote then note else 0)
  }

  function SegmentParts(segments: seq<Segment>, note: nat, keepsNote: bool): (parts: seq<Part>)
    ensures |parts| == |segments|
  {
    seq(|segments|, i requires 0 <= i < |segments| => SegmentPart(segments[i], note, keepsNote))
  }

  function SplitPart(part: Part, keepsNote: bool): seq<Part> {
    match part
    case TextPart(text, note) => SegmentParts(SplitOnMedia(text), note, keepsNote)
    case OtherPart(_) => [part]
  }

  function SplitParts(parts: seq<Part>, keepsNote: bool): seq<Part> {
    if parts == [] then [] else SplitPart(parts[0], keepsNote) + SplitParts(parts[1..], keepsNote)
  }

  function NamesOf(segments: seq<Segment>): seq<string> {
    if segments == [] then []
    else (match segments[0] case Placeholder(name) => [name] case Plain(_) => []) + NamesOf(segments[1..])
  }

  function PartNames(part: Part): seq<string> {
    match part
    case TextPart(text, _) => NamesOf(SplitOnMedia(text))
    case OtherPart(_) => []
  }

  /** The placeholder names in a list of parts, in order. */
  function NamesIn(parts: seq<Part>): seq<string> {
    if parts == [] then [] else PartNames(parts[0]) + NamesIn(parts[1..])
  }

  function SplitContent(content: Content): Content {
    match content
    case Whole(text) => if HasPlaceholder(text) then Parts(SegmentParts(SplitOnMedia(text), 0, false)) else content
    case Parts(parts) => Parts(SplitParts(parts, false))
  }

  function SplitMessage(m: Message): Message {
    if m.isSystem || m.content.None? then m else m.(content := Some(SplitContent(m.content.value)))
  }

  function SplitRequest(r: Request): Request {
    match r
    case Chat(messages) => Chat(seq(|messages|, i requires 0 <= i < |messages| => SplitMessage(messages[i])))
    case Blocks(system, keepsNote, groups) =>
      Blocks(system, keepsNote, seq(|groups|, i requires 0 <= i < |groups| => SplitParts(groups[i], keepsNote)))
    case NoMedia => r
  }

  /** The parts of a message that may hold media: none for a system message, one for whole text. */
  function MediaParts(m: Message): seq<Part> {
    if m.isSystem || m.content.None? then []
    else match m.content.value case Whole(text) => [TextPart(text, 0)] case Parts(parts) => parts
  }

  function MessageNames(messages: seq<Message>): seq<string> {
    if messages == [] then [] else NamesIn(MediaParts(messages[0])) + MessageNames(messages[1..])
  }

  function GroupNames(groups: seq<seq<Part>>): seq<string> {
    if groups == [] then [] else NamesIn(groups[0]) + GroupNames(groups[1..])
  }

  /** The placeholder names a split reports. */
  function Names(r: Request): seq<string> {
    match r
    case Chat(messages) => MessageNames(messages)
    case Blocks(_, _, groups) => GroupNames(groups)
    case NoMedia => []
  }

  predicate ContentHasPlaceholder(content: Content) {
    match content
    case Whole(text) => HasPlaceholder(text)
    case Parts(parts) => exists i :: 0 <= i < |parts| && parts[i].TextPart? && HasPlaceholder(parts[i].text)
  }

  predicate SystemHasMedia(r: Request) {
    match r
    case Chat(messages) =>
      exists i :: 0 <= i < |messages| && messages[i].isSystem
                  && messages[i].content.Some? && ContentHasPlaceholder(messages[i].content.value)
    case Blocks(system, _, _) => exists i :: 0 <= i < |system| && HasPlaceholder(system[i])
    case NoMedia => false
  }

  // ---- The declared names ----

  /** First occurrences, in order, leaving out what has been seen. */
  function DedupeFrom(items: seq<string>, seen: set<string>): seq<string> {
    if items == [] then []
    else if items[0] in seen then DedupeFrom(items[1..], seen)
    else [items[0]] + DedupeFrom(items[1..], seen + {items[0]})
  }

  function Dedupe(items: seq<string>): seq<string> {
    DedupeFrom(items, {})
  }

  function Without(items: seq<string>, name: string): seq<string> {
    if items == [] then []
    else (if items[0] == name then [] else [items[0]]) + Without(items[1..], name)
  }

  // ---- Binding ----

  /** Parts after an attempt to bind, whether a placeholder was found, and the error that stopped it. */
  datatype Bound<T> = Bound(parts: T, found: bool, error: Option<MediaError>)

  function BindParts(parts: seq<Part>, name: string, built: Result<nat, MediaError>): Bound<seq<Part>> {
    if parts == [] then Bound([], false, None)
    else
      var part, rest := parts[0], parts[1..];
      if !(part.TextPart? && Trim(part.text) == Token(name)) then
        var b := BindParts(rest, name, built);
        Bound([part] + b.parts, b.found, b.error)
      else if part.text != Token(name) then Bound(parts, false, Some(NotIsolated))
      else
        match built
        case Err(e) => Bound(parts, false, Some(e))
        case Ok(id) =>
          var b := BindParts(rest, name, built);
          Bound([OtherPart(id)] + b.parts, true, b.error)
  }

  function BindGroups(groups: seq<seq<Part>>, name: string, built: Result<nat, MediaError>): Bound<seq<seq<Part>>> {
    if groups == [] then Bound([], false, None)
    else
      var b := BindParts(groups[0], name, built);
      if b.error.Some? then Bound([b.parts] + groups[1..], b.found, b.error)
      else
        var rest := BindGroups(groups[1..], name, built);
        Bound([b.parts] + rest.parts, b.found || rest.found, rest.error)
  }

  function BindMessage(m: Message, name: string, built: Result<nat, MediaError>): Bound<Message> {
    if m.isSystem || m.content.None? || m.content.value.Whole? then Bound(m, false, None)
    else
      var b := BindParts(m.content.value.parts, name, built);
      Bound(m.(content := Some(Parts(b.parts))), b.found, b.error)
  }

  function BindMessages(messages: seq<Message>, name: string, built: Result<nat, MediaError>): Bound<seq<Message>> {
    if messages == [] then Bound([], false, None)
    else
      var b := BindMessage(messages[0], name, built);
      if b.error.Some? then Bound([b.parts] + messages[1..], b.found, b.error)
      else
        var rest := BindMessages(messages[1..], name, built);
        Bound([b.parts] + rest.parts, b.found || rest.found, rest.error)
  }

  function BindRequest(r: Request, name: string, built: Result<nat, MediaError>): Bound<Request> {
    match r
    case Chat(messages) =>
      var b := BindMessages(messages, name, built);
      Bound(Chat(b.parts), b.found, b.error)
    case Blocks(system, keepsNote, groups) =>
      var b := BindGroups(groups, name, built);
      Bound(Blocks(system, keepsNote, b.parts), b.found, b.error)
    case NoMedia => Bound(r, false, None)
  }

  // ---- Prompts ----

  datatype Prompt = Prompt(request: Request, declared: seq<string>)

  /** `normalize_media_placeholders_mut`: the prompt afterwards and the error, if any. */
  function Normalize(p: Prompt): (Prompt, Option<MediaError>) {
    if SystemHasMedia(p.request) then (p, Some(MediaInSystem))
    else (Prompt(SplitRequest(p.request), Dedupe(Names(p.request) + p.declared)), None)
  }

  /** `bind_media_mut`: normalise, replace every part that is the placeholder, and strike the name. */
  function BindMedia(p: Prompt, name: string, built: Result<nat, MediaError>): (Prompt, Option<MediaError>) {
    var (q, e) := Normalize(p);
    if e.Some? then (q, e)
    else
      var b := BindRequest(q.request, name, built);
      if b.error.Some? then (q.(request := b.parts), b.error)
      else if !b.found then (q.(request := b.parts), Some(NotFound))
      else (Prompt(b.parts, Without(q.declared, name)), None)
  }

  /** The media check of `render`: the first name still missing. */
  function MissingMedia(p: Prompt): Result<Option<string>, MediaError> {
    var (q, e) := Normalize(p);
    if e.Some? then Err(e.value)
    else if q.declared == [] then Ok(None) else Ok(Some(q.declared[0]))
  }

  /** Bind a list of names one after another. */
  function BindAll(p: Prompt, bindings: seq<(string, nat)>): (Prompt, Option<MediaError>)
    decreases |bindings|
  {
    if bindings == [] then (p, None)
    else
      var (q, e) := BindMedia(p, bindings[0].0, Ok(bindings[0].1));
      if e.Some? then (q, e) else BindAll(q, bindings[1..])
  }
}
