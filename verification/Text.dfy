/** The string operations the parsers lean on, and how they act on text that was put together. */
module Text {
  import opened Wrappers

  predicate IsDigit(c: char) {
    '0' <= c <= '9'
  }

  predicate AllDigits(s: string) {
    forall i :: 0 <= i < |s| ==> IsDigit(s[i])
  }

  /** No character of `s` is one of `chars`. */
  predicate NoneIn(s: string, chars: set<char>) {
    forall i :: 0 <= i < |s| ==> s[i] !in chars
  }

  function DigitValue(c: char): nat
    requires IsDigit(c)
  {
    (c as int) - ('0' as int)
  }

  function DigitChar(n: nat): (c: char)
    requires n < 10
    ensures IsDigit(c) && DigitValue(c) == n
  {
    (('0' as int) + n) as char
  }

  /** The number a string of decimal digits writes. */
  function DigitsValue(s: string): nat
    requires AllDigits(s)
  {
    if s == "" then 0 else DigitsValue(s[..|s| - 1]) * 10 + DigitValue(s[|s| - 1])
  }

  /** Everything before and after the first of `seps`. */
  function SplitOnce(s: string, seps: set<char>): Option<(string, string)> {
    if s == "" then None
    else if s[0] in seps then Some(("", s[1..]))
    else
      match SplitOnce(s[1..], seps)
      case None => None
      case Some((before, after)) => Some(([s[0]] + before, after))
  }

  /** The pieces between occurrences of `sep`; always at least one. */
  function Split(s: string, sep: char): (parts: seq<string>)
    ensures |parts| >= 1
  {
    if s == "" then [""]
    else
      var parts := Split(s[1..], sep);
      if s[0] == sep then [""] + parts else [[s[0]] + parts[0]] + parts[1..]
  }

  /** The position of the last of `seps`. */
  function RFind(s: string, seps: set<char>): (r: Option<nat>)
    ensures r.Some? ==> r.value < |s| && s[r.value] in seps
  {
    if s == "" then None
    else if s[|s| - 1] in seps then Some(|s| - 1)
    else RFind(s[..|s| - 1], seps)
  }

  /** White space as `str::trim` knows it. */
  predicate IsWhite(c: char) {
    c in {' ', '\t', '\n', '\U{000B}', '\U{000C}', '\r', '\U{0085}', '\U{00A0}', '\U{1680}', '\U{2028}', '\U{2029}',
        '\U{202F}', '\U{205F}', '\U{3000}'}
    || '\U{2000}' <= c <= '\U{200A}'
  }

  function TrimEnd(s: string): string {
    if s != "" && IsWhite(s[|s| - 1]) then TrimEnd(s[..|s| - 1]) else s
  }

  function TrimStart(s: string): string {
    if s != "" && IsWhite(s[0]) then TrimStart(s[1..]) else s
  }

  function Trim(s: string): string {
    TrimEnd(TrimStart(s))
  }

  const I64_MAX := 0x7fff_ffff_ffff_ffff
  const U64_MAX := 0xffff_ffff_ffff_ffff

  /** `str::parse::<i64>`: an optional sign, then at least one digit, in range. */
  function ParseI64(s: string): Option<int> {
    var body := if s != "" && s[0] in {'+', '-'} then s[1..] else s;
    if body == "" || !AllDigits(body) then None
    else
      var magnitude: int := DigitsValue(body);
      var v := if s[0] == '-' then -magnitude else magnitude;
      if -I64_MAX - 1 <= v <= I64_MAX then Some(v) else None
  }

  /** `str::parse::<u64>`: an optional plus, then at least one digit, in range. */
  function ParseU64(s: string): Option<nat> {
    var body := if s != "" && s[0] == '+' then s[1..] else s;
    if body == "" || !AllDigits(body) then None
    else if DigitsValue(body) <= U64_MAX then Some(DigitsValue(body)) else None
  }

  // ---- Laws ----

  lemma {:induction false} SplitOnceAt(a: string, c: char, b: string, seps: set<char>)
    requires NoneIn(a, seps) && c in seps
    ensures SplitOnce(a + [c] + b, seps) == Some((a, b))
  {
    var s := a + [c] + b;
    if a == "" {
      assert s[1..] == b;
    } else {
      assert s[1..] == a[1..] + [c] + b;
      SplitOnceAt(a[1..], c, b, seps);
      assert a == [a[0]] + a[1..];
    }
  }

  lemma {:induction false} SplitOnceNone(s: string, seps: set<char>)
    requires NoneIn(s, seps)
    ensures SplitOnce(s, seps) == None
  {
    if s == "" {
    } else {
      SplitOnceNone(s[1..], seps);
    }
  }

  lemma {:induction false} SplitNone(s: string, sep: char)
    requires NoneIn(s, {sep})
    ensures Split(s, sep) == [s]
  {
    if s == "" {
    } else {
      assert s[0] != sep;
      SplitNone(s[1..], sep);
      assert s == [s[0]] + s[1..];
    }
  }

  lemma {:induction false} SplitAt(a: string, sep: char, b: string)
    requires NoneIn(a, {sep})
    ensures Split(a + [sep] + b, sep) == [a] + Split(b, sep)
  {
    var s := a + [sep] + b;
    if a == "" {
      assert s[1..] == b;
    } else {
      assert a[0] != sep;
      assert s[1..] == a[1..] + [sep] + b;
      SplitAt(a[1..], sep, b);
      assert a == [a[0]] + a[1..];
    }
  }

  lemma SplitThree(a: string, b: string, c: string, sep: char)
    requires NoneIn(a, {sep}) && NoneIn(b, {sep}) && NoneIn(c, {sep})
    ensures Split(a + [sep] + b + [sep] + c, sep) == [a, b, c]
  {
    assert a + [sep] + b + [sep] + c == a + [sep] + (b + [sep] + c);
    SplitAt(a, sep, b + [sep] + c);
    SplitAt(b, sep, c);
    SplitNone(c, sep);
  }

  lemma SplitTwo(a: string, b: string, sep: char)
    requires NoneIn(a, {sep}) && NoneIn(b, {sep})
    ensures Split(a + [sep] + b, sep) == [a, b]
  {
    SplitAt(a, sep, b);
    SplitNone(b, sep);
  }

  lemma {:induction false} RFindAt(a: string, c: char, b: string, seps: set<char>)
    requires NoneIn(b, seps) && c in seps
    ensures RFind(a + [c] + b, seps) == Some(|a|)
  {
    var s := a + [c] + b;
    if b == "" {
    } else {
      assert s[..|s| - 1] == a + [c] + b[..|b| - 1];
      RFindAt(a, c, b[..|b| - 1], seps);
    }
  }

  lemma DigitsPush(s: string, c: char)
    requires AllDigits(s) && IsDigit(c)
    ensures AllDigits(s + [c]) && DigitsValue(s + [c]) == DigitsValue(s) * 10 + DigitValue(c)
  {
    assert (s + [c])[..|s|] == s;
  }

  lemma {:induction false} TrimEndClean(s: string)
    ensures var t := TrimEnd(s); t <= s && (t != "" ==> !IsWhite(t[|t| - 1]))
  {
    if s != "" && IsWhite(s[|s| - 1]) {
      TrimEndClean(s[..|s| - 1]);
    }
  }

  lemma {:induction false} TrimStartClean(s: string)
    ensures var t := TrimStart(s); t != "" ==> !IsWhite(t[0])
  {
    if s != "" && IsWhite(s[0]) {
      TrimStartClean(s[1..]);
    }
  }

  predicate Trimmed(t: string) {
    t != "" ==> !IsWhite(t[0]) && !IsWhite(t[|t| - 1])
  }

  lemma TrimTrims(s: string)
    ensures Trimmed(Trim(s))
  {
    TrimStartClean(s);
    TrimEndClean(TrimStart(s));
  }

  lemma TrimmedStays(t: string)
    requires Trimmed(t)
    ensures Trim(t) == t
  {
  }

  // ---- Splitting and joining ----

  lemma {:induction false} PartsHaveNoSep(s: string, sep: char)
    ensures forall i :: 0 <= i < |Split(s, sep)| ==> sep !in Split(s, sep)[i]
  {
    if s == "" {
    } else {
      PartsHaveNoSep(s[1..], sep);
    }
  }

  function Join(parts: seq<string>, sep: char): string
    requires |parts| >= 1
  {
    if |parts| == 1 then parts[0] else parts[0] + [sep] + Join(parts[1..], sep)
  }

  lemma JoinCons(first: string, rest: seq<string>, sep: char)
    requires |rest| >= 1
    ensures Join([first] + rest, sep) == first + [sep] + Join(rest, sep)
  {
    assert ([first] + rest)[1..] == rest;
  }

  lemma JoinGrow(c: char, parts: seq<string>, sep: char)
    requires |parts| >= 1
    ensures Join([[c] + parts[0]] + parts[1..], sep) == [c] + Join(parts, sep)
  {
    if |parts| > 1 {
      JoinCons([c] + parts[0], parts[1..], sep);
      assert [c] + parts[0] + [sep] + Join(parts[1..], sep) == [c] + (parts[0] + [sep] + Join(parts[1..], sep));
    }
  }

  lemma {:induction false} JoinSplit(s: string, sep: char)
    ensures Join(Split(s, sep), sep) == s
  {
    if s == "" {
    } else {
      var parts := Split(s[1..], sep);
      JoinSplit(s[1..], sep);
      if s[0] == sep {
        JoinCons("", parts, sep);
      } else {
        JoinGrow(s[0], parts, sep);
      }
    }
  }

  lemma Join2(parts: seq<string>, sep: char)
    requires |parts| == 2
    ensures Join(parts, sep) == parts[0] + [sep] + parts[1]
  {
  }

  lemma Join3(parts: seq<string>, sep: char)
    requires |parts| == 3
    ensures Join(parts, sep) == parts[0] + [sep] + parts[1] + [sep] + parts[2]
  {
    assert parts[1..][1..] == parts[2..];
    Join2(parts[1..], sep);
    assert parts[0] + [sep] + (parts[1] + [sep] + parts[2]) == parts[0] + [sep] + parts[1] + [sep] + parts[2];
  }
}
