/** The two ways the audit script numbers lines, and what the spans it exempts are spans of. */
module SourceLines {
  import opened Wrappers
  import opened SourceAudit

  // ---- Line numbers ----

  /** How many of these lines start at or before `k`. */
  function StartsUpTo(lines: seq<(nat, nat)>, k: nat): nat {
    if lines == [] then 0 else (if lines[0].0 <= k then 1 else 0) + StartsUpTo(lines[1..], k)
  }

  /** The number, from 1, of the line that `splitlines` puts offset `k` or the break at it in. */
  function LineNumber(text: string, k: nat): nat {
    StartsUpTo(LinesFrom(text, 0), k)
  }

  /** A break at `k` that is not counted as a newline, nor goes with one. */
  predicate Stray(text: string, k: nat)
    requires k < |text|
  {
    IsBreak(text[k]) && text[k] != '\n' && !(text[k] == '\r' && At(text, k + 1, '\n'))
  }

  function StraysBefore(text: string, k: nat): nat
    requires k <= |text|
  {
    if k == 0 then 0 else StraysBefore(text, k - 1) + if Stray(text, k - 1) then 1 else 0
  }

  lemma {:induction false} NothingBetween(text: string, i: nat, k: nat)
    requires i <= k <= |text| && forall j :: i <= j < k ==> !IsBreak(text[j])
    ensures NewlinesBefore(text, k) == NewlinesBefore(text, i) && StraysBefore(text, k) == StraysBefore(text, i)
    decreases k - i
  {
    if i < k {
      assert !IsBreak(text[k - 1]);
      NothingBetween(text, i, k - 1);
    }
  }

  /** A break counts once, as a newline or as a stray. */
  lemma BreakCountsOnce(text: string, end: nat)
    requires end < |text| && IsBreak(text[end])
    ensures var next := AfterBreak(text, end);
            && end < next <= |text|
            && NewlinesBefore(text, next) + StraysBefore(text, next)
               == NewlinesBefore(text, end) + StraysBefore(text, end) + 1
            && (forall k :: end <= k < next ==>
                  && NewlinesBefore(text, k) == NewlinesBefore(text, end)
                  && StraysBefore(text, k) == StraysBefore(text, end))
  {
    var next := AfterBreak(text, end);
    if next == end + 2 {
      assert IsBreak(text[end + 1]) && !Stray(text, end) && !Stray(text, end + 1);
    }
  }

  lemma {:induction false} LateStarts(lines: seq<(nat, nat)>, k: nat)
    requires forall l :: l in lines ==> k < l.0
    ensures StartsUpTo(lines, k) == 0
  {
    if lines == [] {
    } else {
      assert lines[0] in lines && forall l :: l in lines[1..] ==> l in lines;
      LateStarts(lines[1..], k);
    }
  }

  lemma FirstStart(first: (nat, nat), rest: seq<(nat, nat)>, k: nat)
    ensures StartsUpTo([first] + rest, k) == (if first.0 <= k then 1 else 0) + StartsUpTo(rest, k)
  {
    assert ([first] + rest)[1..] == rest;
  }

  lemma {:induction false} NumbersFrom(text: string, i: nat, k: nat)
    requires i <= k < |text|
    ensures StartsUpTo(LinesFrom(text, i), k)
         == 1 + (NewlinesBefore(text, k) - NewlinesBefore(text, i)) + (StraysBefore(text, k) - StraysBefore(text, i))
    decreases |text| - i
  {
    hide IsBreak, AfterBreak, LineEnd, NewlinesBefore, StraysBefore, StartsUpTo;
    LineEndIsBreak(text, i);
    var end := LineEnd(text, i);
    if end < |text| {
      BreakCountsOnce(text, end);
      NothingBetween(text, i, end);
      var next := AfterBreak(text, end);
      var rest := LinesFrom(text, next);
      FirstStart((i, end), rest, k);
      if k < next {
        LinesStartLate(text, next);
        LateStarts(rest, k);
        if k < end {
          NothingBetween(text, i, k);
        }
      } else {
        NumbersFrom(text, next, k);
      }
    } else {
      NothingBetween(text, i, k);
      FirstStart((i, end), [], k);
      LateStarts([], k);
    }
  }

  /** The two numbers of an offset differ by the stray breaks before it. */
  lemma LineNumbers(text: string, k: nat)
    requires k < |text|
    ensures LineNumber(text, k) == LineOf(text, k) + StraysBefore(text, k)
  {
    NumbersFrom(text, 0, k);
  }

  lemma {:induction false} NoStrays(text: string, k: nat)
    requires k <= |text|
    ensures StraysBefore(text, k) == 0 <==> forall j :: 0 <= j < k ==> !Stray(text, j)
    decreases k
  {
    if k == 0 {
    } else {
      NoStrays(text, k - 1);
    }
  }

  /** Findings are numbered as `splitlines` numbers lines, exempt ranges by counting newlines. The two
      agree at an offset if and only if every break before it is a newline, or a carriage return in
      front of one. */
  lemma NumbersAgree(text: string, k: nat)
    requires k < |text|
    ensures LineNumber(text, k) == LineOf(text, k) <==> forall j :: 0 <= j < k ==> !Stray(text, j)
  {
    LineNumbers(text, k);
    NoStrays(text, k);
  }

  /** A form feed in code: it survives the stripping, so lines agree, and yet the numbers do not. */
  lemma FormFeedMisnumbers()
    ensures var text := "\U{000C}\nx";
            Strip(text) == text && LineOf(text, 2) == 2 && LineNumber(text, 2) == 3
  {
    var text := "\U{000C}\nx";
    assert BlankEnd(text, 0).None? && BlankEnd(text, 1).None? && BlankEnd(text, 2).None?;
    assert StripFrom(text, 3) == "" && StripFrom(text, 2) == "x" && StripFrom(text, 1) == "\nx";
    LineNumbers(text, 2);
    assert NewlinesBefore(text, 1) == 0 && StraysBefore(text, 1) == 1;
  }

  // ---- Spans ----

  /** Where the body of the item from `k` on opens: at the first brace, unless a semicolon ends the item
      before. */
  function OwnOpening(s: string, k: nat): Option<nat>
    decreases |s| - k
  {
    if k >= |s| || s[k] == ';' then None
    else if s[k] == '{' then Some(k)
    else OwnOpening(s, k + 1)
  }

  lemma {:induction false} OpeningUnlessEnded(s: string, k: nat, brace: nat)
    requires k <= brace < |s| && s[brace] == '{' && forall j :: k <= j < brace ==> s[j] != '{'
    ensures OwnOpening(s, k) == Some(brace) <==> forall j :: k <= j < brace ==> s[j] != ';'
    decreases brace - k
  {
    if k < brace {
      if s[k] != ';' {
        OpeningUnlessEnded(s, k + 1, brace);
      }
    }
  }

  lemma BraceStands(s: string, j: nat)
    ensures Stands(s, "{", j) <==> j < |s| && s[j] == '{'
  {
    if j < |s| {
      assert s[j..j + 1] == [s[j]];
    }
  }

  lemma StandsStarts(s: string, pattern: string, j: nat)
    requires pattern != ""
    ensures Stands(s, pattern, j) ==> j < |s| && s[j] == pattern[0]
  {
    assert Stands(s, pattern, j) ==> s[j..j + |pattern|][0] == s[j];
  }

  /** A span runs from an attribute to the end of the first block after it, some "mod " standing in
      between. That block is the body of the item the attribute is on if and only if no semicolon
      stands between the attribute and the brace. */
  lemma SpanIsOwnBody(s: string, cursor: nat)
    ensures var r := NextModule(s, cursor);
            r.Some? && r.value.1.Some? ==>
              var (cfg, end) := r.value.1.value;
              var item := cfg + |CFG_TEST|;
              && Find(s, "{", cfg).Some?
              && var brace := Find(s, "{", cfg).value;
              && item <= brace && end == BlockEnd(s, brace, brace, 0)
              && (OwnOpening(s, item) == Some(brace) <==> forall j :: item <= j < brace ==> s[j] != ';')
  {
    var r := NextModule(s, cursor);
    if r.Some? && r.value.1.Some? {
      var (cfg, end) := r.value.1.value;
      var brace := Find(s, "{", cfg).value;
      BraceAfterAttribute(s, cfg, brace);
      BraceStands(s, brace);
      forall j | cfg <= j < brace ensures s[j] != '{' {
        BraceStands(s, j);
      }
      OpeningUnlessEnded(s, cfg + |CFG_TEST|, brace);
    }
  }

  /** Behind `cfg`, "mod " stands before the first brace. */
  ghost predicate ModBeforeBrace(s: string, cfg: nat) {
    exists m, brace ::
      && cfg <= m < brace < |s| && Stands(s, "mod ", m) && s[brace] == '{'
      && forall j :: cfg <= j < brace ==> s[j] != '{'
  }

  /** The first test attribute at or after `cursor`. */
  predicate FirstAttribute(s: string, cursor: nat, cfg: nat) {
    cursor <= cfg && Stands(s, "#[cfg(test)]", cfg) && forall k :: cursor <= k < cfg ==> !Stands(s, "#[cfg(test)]", k)
  }

  lemma ModFound(s: string, cfg: nat)
    ensures ModBeforeBrace(s, cfg) <==>
              var mod_, brace := Find(s, "mod ", cfg), Find(s, "{", cfg);
              mod_.Some? && brace.Some? && mod_.value <= brace.value
  {
    var mod_, brace := Find(s, "mod ", cfg), Find(s, "{", cfg);
    if brace.Some? {
      BraceStands(s, brace.value);
      forall j | cfg <= j < brace.value ensures j >= |s| || s[j] != '{' {
        BraceStands(s, j);
      }
    }
    if mod_.Some? {
      StandsStarts(s, "mod ", mod_.value);
    }
    if m, b: nat :|
      && cfg <= m < b < |s| && Stands(s, "mod ", m) && s[b] == '{' && forall j :: cfg <= j < b ==> s[j] != '{'
    {
      BraceStands(s, b);
    }
  }

  /** From a cursor on: the search ends when no attribute is left; otherwise the first one is exempted, up
      to the next cursor, if and only if "mod " stands between it and the first brace behind it, and
      passed over if not. */
  lemma AttributesExactly(s: string, cursor: nat)
    ensures match NextModule(s, cursor)
            case None => forall k :: cursor <= k ==> !Stands(s, "#[cfg(test)]", k)
            case Some((next, span)) =>
              exists cfg: nat ::
                && FirstAttribute(s, cursor, cfg)
                && if ModBeforeBrace(s, cfg) then span == Some((cfg, next)) else span == None && next == cfg + 12
  {
    hide ModBeforeBrace;
    var cfg := Find(s, CFG_TEST, cursor);
    if cfg.Some? {
      assert FirstAttribute(s, cursor, cfg.value);
      ModFound(s, cfg.value);
    }
  }

  const OUT_OF_LINE := CFG_TEST + " mod t; {a}"

  /** An out-of-line test module: the span runs over the block after it, which is ordinary code. */
  lemma OutOfLineExempts()
    ensures NextModule(OUT_OF_LINE, 0) == Some((23, Some((0, 23)))) && OwnOpening(OUT_OF_LINE, |CFG_TEST|) == None
  {
    var s := OUT_OF_LINE;
    var rest := " mod t; {a}";
    assert |CFG_TEST| == 12 && |s| == 23 && s[0..12] == CFG_TEST && Stands(s, CFG_TEST, 0);
    assert forall j :: 0 <= j < 12 ==> CFG_TEST[j] != '{' && CFG_TEST[j] != 'm';
    assert forall j :: 12 <= j < 23 ==> s[j] == rest[j - 12];
    assert rest[1..5] == "mod " && s[13..17] == rest[1..5];
    assert s[12] == ' ' && s[13] == 'm' && s[18] == ';' && s[20] == '{' && s[21] == 'a' && s[22] == '}';
    assert s[14] == 'o' && s[15] == 'd' && s[16] == ' ' && s[17] == 't' && s[19] == ' ';
    FirstAt(s, "mod ", 13);
    BraceStands(s, 20);
    FirstAt(s, "{", 20);
    assert BlockEnd(s, 20, 22, 1) == 23 && BlockEnd(s, 20, 21, 1) == 23 && BlockEnd(s, 20, 20, 0) == 23;
    assert OwnOpening(s, 18).None? && OwnOpening(s, 17).None? && OwnOpening(s, 16).None? && OwnOpening(s, 15).None?;
    assert OwnOpening(s, 14).None? && OwnOpening(s, 13).None?;
  }

  lemma FirstAt(s: string, pattern: string, k: nat)
    requires Stands(s, pattern, k) && pattern != "" && forall j :: 0 <= j < k ==> s[j] != pattern[0]
    ensures Find(s, pattern, 0) == Some(k)
  {
    forall j | 0 <= j < k ensures !Stands(s, pattern, j) {
      StandsStarts(s, pattern, j);
    }
  }
}
