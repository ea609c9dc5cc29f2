/** The audit script's view of a Rust source: literals and comments blanked out in place, and the line
    ranges it exempts as those of inline test modules. */
module SourceAudit {
  import opened Wrappers

  predicate Stands(text: string, pattern: string, k: nat) {
    k + |pattern| <= |text| && text[k..k + |pattern|] == pattern
  }

  /** `str.find`: the first place at or after `from` where `pattern` stands. */
  function Find(text: string, pattern: string, from: nat): (r: Option<nat>)
    ensures r.Some? ==> from <= r.value && Stands(text, pattern, r.value)
    ensures forall k :: from <= k && (r.Some? ==> k < r.value) ==> !Stands(text, pattern, k)
    decreases |text| - from
  {
    if from + |pattern| > |text| then None
    else if Stands(text, pattern, from) then Some(from)
    else Find(text, pattern, from + 1)
  }

  predicate At(text: string, i: nat, c: char) {
    i < |text| && text[i] == c
  }

  /** Where a run of `#` from `k` ends. */
  function HashEnd(text: string, k: nat): (end: nat)
    requires k <= |text|
    ensures k <= end <= |text|
    decreases |text| - k
  {
    if At(text, k, '#') then HashEnd(text, k + 1) else k
  }

  function Hashes(n: nat): (s: string)
    ensures |s| == n
  {
    if n == 0 then "" else "#" + Hashes(n - 1)
  }

  /** The end of a quoted body that starts at `k`, skipping whatever follows a backslash. */
  function QuoteEnd(text: string, k: nat): (end: Option<nat>)
    ensures end.Some? ==> k < end.value <= |text| && text[end.value - 1] == '"'
    decreases |text| - k
  {
    if k >= |text| then None
    else if text[k] == '\\' && k + 1 < |text| then QuoteEnd(text, k + 2)
    else if text[k] == '"' then Some(k + 1)
    else QuoteEnd(text, k + 1)
  }

  /** Whether a `b` at `i` is the byte mark of a literal. */
  predicate ByteMarked(text: string, i: nat) {
    At(text, i, 'b') && (At(text, i + 1, 'r') || At(text, i + 1, '"'))
  }

  /** `read_string_literal`: where the literal that starts at `i` ends, and its body. */
  function ReadStringLiteral(text: string, i: nat): (r: Option<(nat, string)>)
    ensures r.Some? ==> i < r.value.0 <= |text|
  {
    if i >= |text| then None
    else ReadUnmarked(text, if ByteMarked(text, i) then i + 1 else i)
  }

  /** The same once a byte mark has been passed. */
  function ReadUnmarked(text: string, j: nat): (r: Option<(nat, string)>)
    requires j < |text|
    ensures r.Some? ==> j < r.value.0 <= |text|
  {
    if text[j] == 'r' && (At(text, j + 1, '#') || At(text, j + 1, '"')) then
      var k := HashEnd(text, j + 1);
      if !At(text, k, '"') then None
      else
        var terminator := "\"" + Hashes(k - (j + 1));
        match Find(text, terminator, k + 1)
        case None => None
        case Some(end) =>
          var stop: nat, body: string := end + |terminator|, text[k + 1..end];
          Some((stop, body))
    else if text[j] == '"' then
      match QuoteEnd(text, j + 1)
      case None => None
      case Some(end) =>
        var body: string := text[j + 1..end - 1];
        Some((end, body))
    else None
  }

  /** The end of a character literal that starts at `i`, if one does. */
  function CharLiteralEnd(text: string, i: nat): (r: Option<nat>)
    requires i < |text|
    ensures r.Some? ==> i < r.value <= |text|
  {
    var j := i + 1;
    var j' := if At(text, j, '\\') && j + 1 < |text| then j + 2 else if j < |text| then j + 1 else j;
    if At(text, j', '\'') then Some(j' + 1) else None
  }

  /** What starts at `i`: a stretch to blank out, up to the position given, or an ordinary character. */
  function BlankEnd(text: string, i: nat): (r: Option<nat>)
    requires i < |text|
    ensures r.Some? ==> i < r.value <= |text|
  {
    if text[i] == '/' && At(text, i + 1, '/') then
      (match Find(text, "\n", i)
       case None => Some(|text|)
       case Some(j) => Some(j))
    else if text[i] == '/' && At(text, i + 1, '*') then
      (match Find(text, "*/", i + 2)
       case None => Some(|text|)
       case Some(j) => Some(j + 2))
    else if text[i] in {'r', 'b', '"'} && ReadStringLiteral(text, i).Some? then Some(ReadStringLiteral(text, i).value.0)
    else if text[i] == '\'' then CharLiteralEnd(text, i)
    else None
  }

  function BlankChar(c: char): char {
    if c == '\n' then c else ' '
  }

  function Blanked(s: string): (b: string)
    ensures |b| == |s| && forall k :: 0 <= k < |s| ==> b[k] == BlankChar(s[k])
  {
    seq(|s|, k requires 0 <= k < |s| => BlankChar(s[k]))
  }

  function StripFrom(text: string, i: nat): string
    requires i <= |text|
    decreases |text| - i
  {
    if i == |text| then ""
    else
      match BlankEnd(text, i)
      case Some(j) => Blanked(text[i..j]) + StripFrom(text, j)
      case None => [text[i]] + StripFrom(text, i + 1)
  }

  /** `strip_strings_and_comments`, as a function. */
  function Strip(text: string): string {
    StripFrom(text, 0)
  }

  /** Overwrite a stretch of the character list with spaces, newlines excepted. */
  method Blank(out: array<char>, i: nat, j: nat)
    requires i <= j <= out.Length
    modifies out
    ensures out[..] == old(out[..i]) + Blanked(old(out[i..j])) + old(out[j..])
  {
    for k := i to j
      invariant forall m :: 0 <= m < out.Length ==> out[m] == if i <= m < k then BlankChar(old(out[m])) else old(out[m])
    {
      if out[k] != '\n' {
        out[k] := ' ';
      }
    }
  }

  /** What the pass keeps: behind `i` the stripped text, from `i` on the raw one. */
  ghost predicate StrippedUpTo(text: string, out: string, i: nat) {
    && i <= |text| == |out|
    && out[..i] + StripFrom(text, i) == Strip(text)
    && out[i..] == text[i..]
  }

  lemma Spliced(before: string, middle: string, i: nat, j: nat)
    requires i <= j <= |before| && |middle| == j - i
    ensures var after := before[..i] + middle + before[j..];
            |after| == |before| && after[..j] == before[..i] + middle && after[j..] == before[j..]
  {
  }

  lemma StretchStripped(text: string, before: string, after: string, i: nat, j: nat)
    requires StrippedUpTo(text, before, i) && i < |text| && BlankEnd(text, i) == Some(j)
    requires after == before[..i] + Blanked(before[i..j]) + before[j..]
    ensures StrippedUpTo(text, after, j)
  {
    hide BlankEnd;
    assert before[i..j] == text[i..j] by { assert before[i..j] == before[i..][..j - i]; }
    assert before[j..] == text[j..] by { assert before[j..] == before[i..][j - i..]; }
    var blank := Blanked(text[i..j]);
    assert |blank| == j - i;
    hide Blanked;
    Spliced(before, blank, i, j);
    Associates(before[..i], blank, StripFrom(text, j));
  }

  lemma Associates(a: string, b: string, c: string)
    ensures a + (b + c) == a + b + c
  {
  }

  lemma CharacterKept(text: string, out: string, i: nat)
    requires StrippedUpTo(text, out, i) && i < |text| && BlankEnd(text, i) == None
    ensures StrippedUpTo(text, out, i + 1)
  {
    hide BlankEnd;
    var rest := StripFrom(text, i + 1);
    assert StripFrom(text, i) == [text[i]] + rest;
    hide StripFrom, Strip;
    SameTail(text, out, i);
    PrefixGrows(out, i);
    Associates(out[..i], [text[i]], rest);
  }

  lemma PrefixGrows(out: string, i: nat)
    requires i < |out|
    ensures out[..i + 1] == out[..i] + [out[i]]
  {
  }

  lemma SameTail(text: string, out: string, i: nat)
    requires i < |text| == |out| && out[i..] == text[i..]
    ensures out[i] == text[i] && out[i + 1..] == text[i + 1..]
  {
    assert out[i..][0] == out[i] && text[i..][0] == text[i];
    assert out[i..][1..] == out[i + 1..] && text[i..][1..] == text[i + 1..];
  }

  /** `strip_strings_and_comments` as it runs: one pass over the text, overwriting a copy. */
  method StripStringsAndComments(text: string) returns (sanitized: string)
    ensures sanitized == Strip(text)
  {
    var out := new char[|text|](k requires 0 <= k < |text| => text[k]);
    var i := 0;
    assert out[..] == text;
    while i < |text|
      invariant i <= out.Length && StrippedUpTo(text, out[..], i)
    {
      hide StrippedUpTo, BlankEnd, Blanked;
      var end := BlankEnd(text, i);
      ghost var before := out[..];
      if end.Some? {
        Blank(out, i, end.value);
        StretchStripped(text, before, out[..], i, end.value);
        i := end.value;
      } else {
        CharacterKept(text, before, i);
        i := i + 1;
      }
    }
    return out[..];
  }

  /** The sanitised text is the text with some characters, never newlines, replaced by spaces: length,
      newlines and every offset stay. */
  lemma {:induction false} StripFromAligned(text: string, i: nat)
    requires i <= |text|
    ensures |StripFrom(text, i)| == |text| - i
    ensures forall k :: i <= k < |text| ==>
              StripFrom(text, i)[k - i] == text[k] || (StripFrom(text, i)[k - i] == ' ' && text[k] != '\n')
    decreases |text| - i
  {
    hide BlankEnd;
    if i < |text| {
      var end := BlankEnd(text, i);
      var j := if end.Some? then end.value else i + 1;
      StripFromAligned(text, j);
      var rest := StripFrom(text, j);
      var head := if end.Some? then Blanked(text[i..j]) else [text[i]];
      assert StripFrom(text, i) == head + rest && |head| == j - i;
      forall k | i <= k < |text|
        ensures (head + rest)[k - i] == text[k] || ((head + rest)[k - i] == ' ' && text[k] != '\n')
      {
        if k >= j {
          assert (head + rest)[k - i] == rest[k - j];
        } else {
          assert (head + rest)[k - i] == head[k - i];
        }
      }
    }
  }

  /** `Strip` changes characters only to spaces and leaves every newline: same length, same newlines. */
  lemma StripIsAligned(text: string)
    ensures |Strip(text)| == |text|
    ensures forall k :: 0 <= k < |text| ==> Strip(text)[k] == text[k] || Strip(text)[k] == ' '
    ensures forall k :: 0 <= k < |text| ==> (Strip(text)[k] == '\n' <==> text[k] == '\n')
  {
    StripFromAligned(text, 0);
  }

  // ---- Lines ----

  /** The characters at which `str.splitlines` ends a line; `\r\n` counts once. */
  predicate IsBreak(c: char) {
    c in {'\n', '\r', '\U{000B}', '\U{000C}', '\U{001C}', '\U{001D}', '\U{001E}', '\U{0085}', '\U{2028}', '\U{2029}'}
  }

  /** The end of the line that starts at `i`, before its break. */
  function LineEnd(text: string, i: nat): (end: nat)
    requires i <= |text|
    ensures i <= end <= |text|
    decreases |text| - i
  {
    if i == |text| || IsBreak(text[i]) then i else LineEnd(text, i + 1)
  }

  function AfterBreak(text: string, end: nat): nat
    requires end < |text|
  {
    if text[end] == '\r' && At(text, end + 1, '\n') then end + 2 else end + 1
  }

  /** `str.splitlines`, as start and end offsets. */
  function LinesFrom(text: string, i: nat): seq<(nat, nat)>
    requires i <= |text|
    decreases |text| - i
  {
    if i == |text| then []
    else
      var end := LineEnd(text, i);
      [(i, end)] + if end == |text| then [] else LinesFrom(text, AfterBreak(text, end))
  }

  predicate OnlyNewlines(text: string) {
    forall k :: 0 <= k < |text| && IsBreak(text[k]) ==> text[k] == '\n'
  }

  lemma {:induction false} SameBreaksSameEnd(a: string, b: string, i: nat)
    requires |a| == |b| && i <= |a| && forall k :: 0 <= k < |a| ==> (IsBreak(a[k]) <==> IsBreak(b[k]))
    ensures LineEnd(a, i) == LineEnd(b, i)
    decreases |a| - i
  {
    if i < |a| && !IsBreak(a[i]) {
      SameBreaksSameEnd(a, b, i + 1);
    }
  }

  lemma {:induction false} LineEndIsBreak(text: string, i: nat)
    requires i <= |text|
    ensures forall k :: i <= k < LineEnd(text, i) ==> !IsBreak(text[k])
    ensures LineEnd(text, i) < |text| ==> IsBreak(text[LineEnd(text, i)])
    decreases |text| - i
  {
    if i < |text| && !IsBreak(text[i]) {
      LineEndIsBreak(text, i + 1);
    }
  }

  predicate SameBreaks(a: string, b: string) {
    |a| == |b| && forall k :: 0 <= k < |a| ==> if IsBreak(a[k]) then b[k] == a[k] else !IsBreak(b[k])
  }

  lemma SameBreakEnds(a: string, b: string, end: nat)
    requires SameBreaks(a, b) && end < |a| && IsBreak(a[end])
    ensures AfterBreak(a, end) == AfterBreak(b, end)
  {
    assert end + 1 < |a| ==> (a[end + 1] == '\n' <==> b[end + 1] == '\n');
  }

  lemma {:induction false} SameBreaksSameLines(a: string, b: string, i: nat)
    requires SameBreaks(a, b) && i <= |a|
    ensures LinesFrom(a, i) == LinesFrom(b, i)
    decreases |a| - i
  {
    hide IsBreak, LineEnd, AfterBreak;
    if i < |a| {
      SameBreaksSameEnd(a, b, i);
      var end := LineEnd(a, i);
      if end < |a| {
        LineEndIsBreak(a, i);
        SameBreakEnds(a, b, end);
        BreakIsPassed(a, end);
        SameBreaksSameLines(a, b, AfterBreak(a, end));
      }
    }
  }

  lemma BreakIsPassed(text: string, end: nat)
    requires end < |text|
    ensures end < AfterBreak(text, end) <= |text|
  {
  }

  /** Offset `k` lies inside some line. */
  predicate InLine(lines: seq<(nat, nat)>, k: nat) {
    exists l :: l in lines && l.0 <= k < l.1
  }

  /** Lines hold exactly the characters that are not breaks. */
  lemma {:induction false} LinesHoldTheRest(text: string, i: nat, k: nat)
    requires i <= k < |text|
    ensures InLine(LinesFrom(text, i), k) <==> !IsBreak(text[k])
    decreases |text| - i
  {
    LineEndIsBreak(text, i);
    var end := LineEnd(text, i);
    if end < |text| {
      BreakIsPassed(text, end);
      var next := AfterBreak(text, end);
      assert end <= k < next ==> IsBreak(text[k]);
      hide IsBreak, LineEnd, AfterBreak;
      var rest := LinesFrom(text, next);
      LinesStartLate(text, next);
      FirstLine((i, end), rest, k);
      if k >= next {
        LinesHoldTheRest(text, next, k);
      }
    } else {
      FirstLine((i, end), [], k);
    }
  }

  lemma FirstLine(first: (nat, nat), rest: seq<(nat, nat)>, k: nat)
    ensures InLine([first] + rest, k) <==> first.0 <= k < first.1 || InLine(rest, k)
  {
    var lines := [first] + rest;
    assert first in lines && forall l :: l in lines <==> l == first || l in rest;
  }

  lemma {:induction false} LinesStartLate(text: string, i: nat)
    requires i <= |text|
    ensures forall l :: l in LinesFrom(text, i) ==> i <= l.0
    decreases |text| - i
  {
    if i < |text| && LineEnd(text, i) < |text| {
      LinesStartLate(text, AfterBreak(text, LineEnd(text, i)));
    }
  }

  /** Raw and sanitised text have the same lines, start for start and end for end, so that a line and
      column found in one is the same character of the other, exactly when no line break is blanked. */
  lemma SanitisedLinesAlign(text: string)
    ensures |Strip(text)| == |text|
    ensures LinesFrom(Strip(text), 0) == LinesFrom(text, 0)
            <==> forall k :: 0 <= k < |text| && IsBreak(text[k]) ==> Strip(text)[k] == text[k]
  {
    StripIsAligned(text);
    if forall k :: 0 <= k < |text| && IsBreak(text[k]) ==> Strip(text)[k] == text[k] {
      SameBreaksSameLines(text, Strip(text), 0);
    } else {
      var k :| 0 <= k < |text| && IsBreak(text[k]) && Strip(text)[k] != text[k];
      LinesHoldTheRest(text, 0, k);
      LinesHoldTheRest(Strip(text), 0, k);
    }
  }

  /** That covers every text whose only line break is the newline. */
  lemma NewlinesAlign(text: string)
    requires OnlyNewlines(text)
    ensures LinesFrom(Strip(text), 0) == LinesFrom(text, 0)
  {
    StripIsAligned(text);
    SanitisedLinesAlign(text);
  }

  /** Another break does shift the lines: a form feed in a comment is blanked away. */
  lemma FormFeedMisaligns()
    ensures LinesFrom(Strip("//\U{000C}x"), 0) != LinesFrom("//\U{000C}x", 0)
  {
    var text := "//\U{000C}x";
    SanitisedLinesAlign(text);
    assert BlankEnd(text, 0) == Some(4);
    assert StripFrom(text, 4) == "";
    assert text[0..4] == text && Strip(text) == Blanked(text);
    assert IsBreak(text[2]);
  }

  // ---- Exempt ranges ----

  const CFG_TEST := "#[cfg(test)]"

  /** The depth of open braces after reading a stretch. */
  function Depth(s: string): int {
    if s == "" then 0
    else Depth(s[..|s| - 1]) + (if s[|s| - 1] == '{' then 1 else if s[|s| - 1] == '}' then -1 else 0)
  }

  /** The end of the block opened at `brace`, scanning on from `k` at the given depth; `brace` itself
      when the block is never closed. */
  function BlockEnd(s: string, brace: nat, k: nat, depth: int): (end: nat)
    requires brace <= k <= |s|
    ensures end == brace || k < end <= |s|
    decreases |s| - k
  {
    if k == |s| then brace
    else if s[k] == '{' then BlockEnd(s, brace, k + 1, depth + 1)
    else if s[k] == '}' then (if depth == 1 then k + 1 else BlockEnd(s, brace, k + 1, depth - 1))
    else BlockEnd(s, brace, k + 1, depth)
  }

  /** Newlines before offset `k`. */
  function NewlinesBefore(s: string, k: nat): nat
    requires k <= |s|
  {
    if k == 0 then 0 else NewlinesBefore(s, k - 1) + if s[k - 1] == '\n' then 1 else 0
  }

  function LineOf(s: string, k: nat): nat
    requires k <= |s|
  {
    NewlinesBefore(s, k) + 1
  }

  /** What the next attribute at or after `cursor` comes to: the next cursor, and, if "mod " stands after
      it before a brace, the offsets from the attribute to the end of the block at that brace. */
  function NextModule(s: string, cursor: nat): (r: Option<(nat, Option<(nat, nat)>)>)
    ensures r.Some? ==> cursor < r.value.0 <= |s|
    ensures r.Some? && r.value.1.Some? ==> cursor <= r.value.1.value.0 < r.value.1.value.1 == r.value.0
  {
    match Find(s, CFG_TEST, cursor)
    case None => None
    case Some(cfg) =>
      var mod_, brace := Find(s, "mod ", cfg), Find(s, "{", cfg);
      if mod_.None? || brace.None? || mod_.value > brace.value then Some((cfg + |CFG_TEST|, None))
      else
        BraceAfterAttribute(s, cfg, brace.value);
        var end := BlockEnd(s, brace.value, brace.value, 0);
        Some((end, Some((cfg, end))))
  }

  lemma BraceAfterAttribute(s: string, cfg: nat, brace: nat)
    requires cfg + |CFG_TEST| <= |s| && s[cfg..cfg + |CFG_TEST|] == CFG_TEST
    requires cfg <= brace < |s| && s[brace..brace + 1] == "{"
    ensures cfg + |CFG_TEST| <= brace
  {
    assert forall k :: 0 <= k < |CFG_TEST| ==> CFG_TEST[k] != '{';
    assert forall k :: cfg <= k < cfg + |CFG_TEST| ==> s[k] == CFG_TEST[k - cfg];
    assert s[brace..brace + 1][0] == s[brace];
  }

  /** `cfg_test_ranges` on sanitised text, as offsets from the attribute to the closing brace. */
  function Spans(s: string, cursor: nat): seq<(nat, nat)>
    decreases if cursor <= |s| then |s| - cursor else 0
  {
    match NextModule(s, cursor)
    case None => []
    case Some((next, span)) => (if span.Some? then [span.value] else []) + Spans(s, next)
  }

  predicate SpansFit(s: string, spans: seq<(nat, nat)>, from: nat) {
    && (forall i :: 0 <= i < |spans| ==> from <= spans[i].0 < spans[i].1 <= |s|)
    && (forall i, j :: 0 <= i < j < |spans| ==> spans[i].1 <= spans[j].0)
  }

  /** The spans found lie in the text, in order, without overlap. */
  lemma {:induction false} SpansAreOrdered(s: string, cursor: nat)
    ensures SpansFit(s, Spans(s, cursor), cursor)
    decreases if cursor <= |s| then |s| - cursor else 0
  {
    match NextModule(s, cursor) {
      case None =>
      case Some((next, span)) =>
        SpansAreOrdered(s, next);
    }
  }

  function LineRange(s: string, span: (nat, nat)): (nat, nat)
    requires span.0 <= |s| && span.1 <= |s|
  {
    (LineOf(s, span.0), LineOf(s, span.1))
  }

  lemma {:induction false} LinesGrow(s: string, a: nat, b: nat)
    requires a <= b <= |s|
    ensures LineOf(s, a) <= LineOf(s, b)
  {
    if a < b {
      LinesGrow(s, a, b - 1);
    }
  }

  /** The line ranges of a list of spans. */
  function LineRanges(s: string, spans: seq<(nat, nat)>): (ranges: seq<(nat, nat)>)
    requires forall i :: 0 <= i < |spans| ==> spans[i].0 <= |s| && spans[i].1 <= |s|
    ensures |ranges| == |spans| && forall i :: 0 <= i < |spans| ==> ranges[i] == LineRange(s, spans[i])
  {
    seq(|spans|, i requires 0 <= i < |spans| => LineRange(s, spans[i]))
  }

  /** Each range starts no later than it ends, and two share at most a boundary line. */
  lemma RangesAreOrdered(s: string)
    ensures SpansFit(s, Spans(s, 0), 0)
    ensures forall r :: r in LineRanges(s, Spans(s, 0)) ==> r.0 <= r.1
    ensures var ranges := LineRanges(s, Spans(s, 0));
            forall i, j :: 0 <= i < j < |ranges| ==> ranges[i].1 <= ranges[j].0
  {
    hide Spans, LineOf;
    SpansAreOrdered(s, 0);
    var spans := Spans(s, 0);
    forall i | 0 <= i < |spans| ensures LineRange(s, spans[i]).0 <= LineRange(s, spans[i]).1 {
      LinesGrow(s, spans[i].0, spans[i].1);
    }
    forall i, j | 0 <= i < j < |spans| ensures LineRange(s, spans[i]).1 <= LineRange(s, spans[j]).0 {
      LinesGrow(s, spans[i].1, spans[j].0);
    }
  }

  /** `cfg_test_ranges` as it runs on sanitised text; the cursor strictly grows, so it ends. */
  method CfgTestRanges(sanitized: string) returns (ranges: seq<(nat, nat)>)
    ensures SpansFit(sanitized, Spans(sanitized, 0), 0)
    ensures ranges == LineRanges(sanitized, Spans(sanitized, 0))
  {
    hide NextModule, LineOf;
    SpansAreOrdered(sanitized, 0);
    ranges := [];
    ghost var spans: seq<(nat, nat)> := [];
    var cursor := 0;
    var step := NextModule(sanitized, cursor);
    while step.Some?
      invariant cursor <= |sanitized| && step == NextModule(sanitized, cursor)
      invariant spans + Spans(sanitized, cursor) == Spans(sanitized, 0)
      invariant forall i :: 0 <= i < |spans| ==> spans[i].0 <= |sanitized| && spans[i].1 <= |sanitized|
      invariant ranges == LineRanges(sanitized, spans)
      decreases |sanitized| - cursor
    {
      var (next, span) := step.value;
      if span.Some? {
        assert spans + ([span.value] + Spans(sanitized, next)) == spans + [span.value] + Spans(sanitized, next);
        spans := spans + [span.value];
        ranges := ranges + [(LineOf(sanitized, span.value.0), LineOf(sanitized, span.value.1))];
      } else {
        assert [] + Spans(sanitized, next) == Spans(sanitized, next);
      }
      cursor := next;
      step := NextModule(sanitized, cursor);
    }
    assert spans + [] == spans;
  }

  lemma DepthPush(s: string, a: nat, k: nat)
    requires a <= k < |s|
    ensures Depth(s[a..k + 1]) == Depth(s[a..k]) + (if s[k] == '{' then 1 else if s[k] == '}' then -1 else 0)
  {
    assert s[a..k + 1][..k - a] == s[a..k];
  }

  /** The depth stays above zero from the brace up to `k`. */
  predicate StaysOpen(s: string, brace: nat, k: nat)
    requires k <= |s|
  {
    forall m :: brace < m <= k ==> Depth(s[brace..m]) > 0
  }

  lemma OpenOneMore(s: string, brace: nat, k: nat)
    requires brace <= k < |s| && s[brace] == '{' && StaysOpen(s, brace, k)
    ensures Depth(s[brace..k + 1]) > 0 ==> StaysOpen(s, brace, k + 1)
    ensures Depth(s[brace..k + 1]) <= 0 ==> s[k] == '}' && Depth(s[brace..k]) == 1 && Depth(s[brace..k + 1]) == 0
    ensures Depth(s[brace..k + 1]) > 0 && s[k] == '}' ==> Depth(s[brace..k]) != 1
  {
    DepthPush(s, brace, k);
    assert Depth(s[brace..brace]) == 0;
  }

  /** A block that is closed ends right after the brace that closes it: the depth is back at zero
      there for the first time. */
  lemma {:induction false} BlockIsBalanced(s: string, brace: nat, k: nat)
    requires brace <= k <= |s| && brace < |s| && s[brace] == '{' && StaysOpen(s, brace, k)
    ensures var end := BlockEnd(s, brace, k, Depth(s[brace..k]));
            if end == brace then StaysOpen(s, brace, |s|)
            else Depth(s[brace..end]) == 0 && s[end - 1] == '}' && StaysOpen(s, brace, end - 1)
    decreases |s| - k
  {
    hide Depth, StaysOpen;
    if k < |s| {
      DepthPush(s, brace, k);
      OpenOneMore(s, brace, k);
      if Depth(s[brace..k + 1]) > 0 {
        BlockIsBalanced(s, brace, k + 1);
      }
    }
  }
}
