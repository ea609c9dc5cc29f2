/** The three readings of a version range agree: bounds survive normalisation, normalisation settles
    after two rounds, bare partials are recognised, and the bounds contain exactly the versions the
    requirement matches - with one exception, a bare zero major, pinned down exactly. */
module RangeLaws {
  import opened Wrappers
  import opened Text
  import opened Ranges

  /** The trimmed input is a bare major version whose number is zero. */
  predicate BareZero(s: string) {
    var t := Trim(s); t != "" && AllDigits(t) && DigitsValue(t) == 0
  }

  predicate BothFail(a: Result<Bounds, VersionError>, b: Result<Bounds, VersionError>) {
    a.Err? && b.Err?
  }

  predicate SameBounds(a: Result<Bounds, VersionError>, b: Result<Bounds, VersionError>) {
    a == b || BothFail(a, b)
  }

  // ---- Splitting ----

  /** The body of an expression is its parts with dots between. */
  lemma BodyIsParts(body: string)
    ensures var p := Split(body, '.');
            && (|p| == 1 ==> body == p[0])
            && (|p| == 2 ==> body == p[0] + ['.'] + p[1])
            && (|p| == 3 ==> body == p[0] + ['.'] + p[1] + ['.'] + p[2])
            && forall i :: 0 <= i < |p| ==> NoneIn(p[i], {'.'})
  {
    var p := Split(body, '.');
    JoinSplit(body, '.');
    PartsHaveNoSep(body, '.');
    if |p| == 2 { Join2(p, '.'); }
    if |p| == 3 { Join3(p, '.'); }
  }

  /** A character of the body other than the dot is in one of its parts. */
  lemma {:induction false} CharIsInAPart(body: string, c: char)
    requires Has(body, c) && c != '.'
    ensures exists i :: 0 <= i < |Split(body, '.')| && Has(Split(body, '.')[i], c)
  {
    var parts := Split(body[1..], '.');
    if body[0] == c {
      assert Has(Split(body, '.')[0], c);
    } else {
      CharIsInAPart(body[1..], c);
      var i :| 0 <= i < |parts| && Has(parts[i], c);
      if body[0] == '.' {
        assert Split(body, '.')[i + 1] == parts[i];
      } else {
        assert Has(Split(body, '.')[i], c);
      }
    }
  }

  // ---- Segments ----

  lemma {:induction false} SegmentsPointwise(parts: seq<string>)
    ensures ParseSegments(parts).Some? <==> forall i :: 0 <= i < |parts| ==> ParseSegment(parts[i]).Some?
    ensures ParseSegments(parts).Some? ==> forall i :: 0 <= i < |parts| ==>
              Some(ParseSegments(parts).value[i]) == ParseSegment(parts[i])
  {
    if parts == [] {
    } else {
      SegmentsPointwise(parts[1..]);
      if ParseSegments(parts).Some? {
        var v := ParseSegments(parts).value;
        forall i | 0 <= i < |parts| ensures ParseSegment(parts[i]) == Some(v[i]) {
          if i > 0 {
            assert parts[i] == parts[1..][i - 1];
          }
        }
      }
    }
  }

  /** A part that holds a star parses only as the wildcard. */
  lemma StarPart(part: string)
    requires Has(part, '*')
    ensures ParseSegment(part) == if part == "*" then Some(Wildcard) else None
  {
    if part != "*" {
      var i :| 0 <= i < |part| && part[i] == '*';
      var body := if part[0] == '+' then part[1..] else part;
      assert body == "" || !AllDigits(body) by {
        if body != "" {
          assert part[0] == '+' ==> body[i - 1] == '*';
        }
      }
    }
  }

  /** A prefixed expression with a star in its body has no bounds. */
  lemma StarredPrefixFails(prefix: Prefix, body: string)
    requires Has(body, '*') && prefix != NoPrefix
    ensures PartsBounds(prefix, Split(body, '.')).Err?
  {
    CharIsInAPart(body, '*');
    var parts := Split(body, '.');
    var i :| 0 <= i < |parts| && Has(parts[i], '*');
    StarPart(parts[i]);
    SegmentsPointwise(parts);
    if ParseSegments(parts).Some? {
      assert ParseSegments(parts).value[i].Wildcard?;
    }
  }

  predicate StarFree(parts: seq<string>) {
    forall i :: 0 <= i < |parts| ==> !Has(parts[i], '*')
  }

  lemma StarFreeBody(body: string)
    requires !Has(body, '*')
    ensures StarFree(Split(body, '.'))
  {
    forall i | 0 <= i < |Split(body, '.')| ensures !Has(Split(body, '.')[i], '*') {
      if Has(Split(body, '.')[i], '*') {
        PartIsInBody(body, i, '*');
      }
    }
  }

  lemma {:induction false} PartIsInBody(body: string, i: nat, c: char)
    requires i < |Split(body, '.')| && Has(Split(body, '.')[i], c)
    ensures Has(body, c)
  {
    if body == "" {
    } else {
      var parts := Split(body[1..], '.');
      if body[0] == '.' {
        PartIsInBody(body[1..], i - 1, c);
      } else if i > 0 || Has(parts[0], c) {
        PartIsInBody(body[1..], i, c);
      }
    }
  }

  lemma NoWildcards(parts: seq<string>)
    requires StarFree(parts) && ParseSegments(parts).Some?
    ensures !AnyWildcard(ParseSegments(parts).value)
  {
    SegmentsPointwise(parts);
    var v := ParseSegments(parts).value;
    forall i | 0 <= i < |v| ensures v[i].Num? {
      assert Some(v[i]) == ParseSegment(parts[i]);
    }
  }

  function Padded(parts: seq<string>): seq<string>
    requires |parts| in {1, 2}
  {
    if |parts| == 1 then [parts[0], "0", "0"] else [parts[0], parts[1], "0"]
  }

  lemma PaddedSegments(parts: seq<string>)
    requires |parts| in {1, 2} && StarFree(parts)
    ensures StarFree(Padded(parts))
    ensures ParseSegments(Padded(parts)).Some? <==> ParseSegments(parts).Some?
    ensures ParseSegments(parts).Some? ==>
              var v, p := ParseSegments(parts).value, ParseSegments(Padded(parts)).value;
              && |v| == |parts| && |p| == 3
              && p[0] == v[0] && p[1] == (if |v| == 2 then v[1] else Num(0)) && p[2] == Num(0)
  {
    ZeroSegment();
    hide ParseSegment;
    SegmentsPointwise(parts);
    SegmentsPointwise(Padded(parts));
    hide ParseSegments;
    var padded := Padded(parts);
    assert forall i :: 0 <= i < |parts| ==> padded[i] == parts[i];
    assert forall i :: |parts| <= i < 3 ==> padded[i] == "0";
  }

  lemma ZeroSegment()
    ensures ParseSegment("0") == Some(Num(0))
  {
    assert DigitsValue("0") == 0;
  }

  /** A missing component written out as zero changes no caret or tilde bounds. */
  lemma PaddingKeepsBounds(prefix: Prefix, parts: seq<string>)
    requires StarFree(parts) && prefix in {Caret, Tilde}
    ensures |parts| == 1 ==> PartsBounds(prefix, [parts[0], "0", "0"]) == PartsBounds(prefix, parts)
    ensures |parts| == 2 ==> PartsBounds(prefix, [parts[0], parts[1], "0"]) == PartsBounds(prefix, parts)
  {
    if |parts| in {1, 2} {
      var padded := Padded(parts);
      PaddedSegments(parts);
      hide ParseSegments;
      if ParseSegments(parts).Some? {
        NoWildcards(parts);
        NoWildcards(padded);
      }
    }
  }

  /** A bare partial has the bounds of the prefixed form it stands for, except a zero major. */
  lemma BareIsPrefixed(parts: seq<string>)
    requires StarFree(parts) && |parts| >= 1
    ensures |parts| == 1 ==>
              (SameBounds(PartsBounds(NoPrefix, parts), PartsBounds(Caret, parts))
               <==> ParseSegment(parts[0]) != Some(Num(0)))
    ensures |parts| == 2 ==> PartsBounds(NoPrefix, parts) == PartsBounds(Tilde, parts)
    ensures |parts| == 3 ==> PartsBounds(NoPrefix, parts) == PartsBounds(Eq, parts)
    ensures |parts| > 3 ==> forall prefix :: PartsBounds(prefix, parts).Err?
  {
    SegmentsPointwise(parts);
    if ParseSegments(parts).Some? {
      NoWildcards(parts);
    }
  }

  // ---- Normalised text ----

  /** How `bounds_from_str` reads text that is trimmed, not `*`, and free of commas and suffixes. */
  lemma BoundsOfClean(n: string)
    requires n != "" && Trimmed(n) && n != "*" && !Has(n, ',')
    requires BodyOf(n) != "" && !Has(BodyOf(n), '-') && !Has(BodyOf(n), '+')
    ensures BoundsFromStr(n) == PartsBounds(PrefixOf(n), Split(BodyOf(n), '.'))
  {
    TrimmedStays(n);
  }

  lemma SplitOne(a: string)
    requires NoneIn(a, {'.'})
    ensures Split(a + ".0.0", '.') == [a, "0", "0"]
  {
    SplitThree(a, "0", "0", '.');
    assert a + ".0.0" == a + ['.'] + "0" + ['.'] + "0";
  }

  lemma SplitPadTwo(a: string, b: string)
    requires NoneIn(a, {'.'}) && NoneIn(b, {'.'})
    ensures Split(a + ['.'] + b + ".0", '.') == [a, b, "0"]
  {
    SplitThree(a, b, "0", '.');
    assert a + ['.'] + b + ".0" == a + ['.'] + b + ['.'] + "0";
  }

  /** Expressions whose body is plain: no comparator lead, comma, star or suffix. */
  predicate Plain(t: string) {
    t != "" && Trimmed(t) && !PassesThrough(t) && BodyOf(t) != ""
    && !Has(BodyOf(t), '*') && !Has(BodyOf(t), '-') && !Has(BodyOf(t), '+')
  }

  /** What the normaliser does with a plain expression, in one formula. */
  function Canonical(t: string): Option<string>
    requires Plain(t)
  {
    var p, body := Split(BodyOf(t), '.'), BodyOf(t);
    if |p| > 3 then None
    else if PrefixOf(t) == NoPrefix then Some((if |p| == 1 then "^" else if |p| == 2 then "~" else "=") + body)
    else Some([t[0]] + if |p| == 1 then body + ".0.0" else if |p| == 2 then body + ".0" else body)
  }

  lemma NormalizePlain(s: string)
    requires Plain(Trim(s))
    ensures NormalizeLoose(s) == match Canonical(Trim(s)) case Some(n) => Ok(n) case None => Err(NotRepresentable)
  {
    hide Split;
    BodyIsParts(BodyOf(Trim(s)));
  }

  /** What is not plain is either refused or left as it is. */
  lemma NormalizeOther(s: string)
    requires !Plain(Trim(s))
    ensures NormalizeLoose(s).Ok? ==> NormalizeLoose(s).value == Trim(s)
    ensures NormalizeLoose(s).Err? ==> BoundsFromStr(s).Err?
  {
    hide Split, PartsBounds;
    var t := Trim(s);
    TrimTrims(s);
    if t != "" && !PassesThrough(t) && t[0] in {'^', '~'} && Has(t[1..], '*') {
      StarredPrefixFails(PrefixOf(t), t[1..]);
    }
  }

  /** The canonical form is itself clean, and splits as the original does, padded. */
  lemma CanonicalIsClean(t: string)
    requires Plain(t) && Canonical(t).Some?
    ensures var n := Canonical(t).value;
            var p := Split(BodyOf(t), '.');
            && n != "" && Trimmed(n) && n != "*" && !Has(n, ',')
            && BodyOf(n) != "" && !Has(BodyOf(n), '-') && !Has(BodyOf(n), '+')
            && !Has(BodyOf(n), '*')
            && PrefixOf(n) == (if PrefixOf(t) != NoPrefix then PrefixOf(t)
                               else if |p| == 1 then Caret else if |p| == 2 then Tilde else Eq)
            && Split(BodyOf(n), '.') == if PrefixOf(t) == NoPrefix || |p| == 3 then p
                                        else if |p| == 1 then [p[0], "0", "0"] else [p[0], p[1], "0"]
  {
    hide Split;
    var n, p := Canonical(t).value, Split(BodyOf(t), '.');
    BodyIsParts(BodyOf(t));
    assert BodyOf(n) == n[1..];
    if PrefixOf(t) != NoPrefix && |p| == 1 {
      SplitOne(p[0]);
    } else if PrefixOf(t) != NoPrefix && |p| == 2 {
      SplitPadTwo(p[0], p[1]);
    }
  }

  // ---- Normalisation and bounds ----

  lemma DigitsSplitToOne(t: string)
    requires AllDigits(t)
    ensures Split(t, '.') == [t]
  {
    SplitNone(t, '.');
  }

  /** The zero bare major, seen from the parts. */
  lemma BareZeroParts(s: string)
    requires Plain(Trim(s))
    ensures var t := Trim(s); var p := Split(BodyOf(t), '.');
            BareZero(s) <==> PrefixOf(t) == NoPrefix && |p| == 1 && ParseSegment(p[0]) == Some(Num(0))
  {
    var t := Trim(s);
    BodyIsParts(BodyOf(t));
    if AllDigits(t) {
      DigitsSplitToOne(t);
      assert IsDigit(t[0]);
    }
  }

  lemma BareZeroIsPlain(s: string)
    requires BareZero(s)
    ensures Plain(Trim(s))
  {
    var t := Trim(s);
    TrimTrims(s);
    assert IsDigit(t[0]);
  }

  /** Normalisation commutes with bounds, for every input: the normaliser refuses only what has no
      bounds, and what it returns has the same bounds as the input, or neither has any - if and only
      if the input is not a bare zero major. */
  lemma NormalizingKeepsBounds(s: string)
    ensures NormalizeLoose(s).Err? ==> BoundsFromStr(s).Err?
    ensures NormalizeLoose(s).Ok? ==>
              (SameBounds(BoundsFromStr(NormalizeLoose(s).value), BoundsFromStr(s)) <==> !BareZero(s))
  {
    hide Split, PartsBounds, Canonical, NormalizeLoose;
    var t := Trim(s);
    TrimTrims(s);
    if !Plain(t) {
      NormalizeOther(s);
      TrimmedStays(t);
      if BareZero(s) { BareZeroIsPlain(s); }
    } else {
      var p := Split(BodyOf(t), '.');
      NormalizePlain(s);
      BareZeroParts(s);
      BoundsOfClean(t);
      StarFreeBody(BodyOf(t));
      if Canonical(t).Some? {
        CanonicalIsClean(t);
        BoundsOfClean(Canonical(t).value);
        if PrefixOf(t) != NoPrefix { PaddingKeepsBounds(PrefixOf(t), p); }
        BareIsPrefixed(p);
        CanonicalLength(t);
      } else {
        CanonicalLength(t);
        BareIsPrefixed(p);
      }
    }
  }

  lemma CanonicalLength(t: string)
    requires Plain(t)
    ensures Canonical(t).Some? <==> |Split(BodyOf(t), '.')| <= 3
  {
  }

  /** Normalising twice is enough: the second round always succeeds and keeps the bounds exactly, the
      third changes nothing. */
  lemma NormalizingSettles(s: string)
    requires NormalizeLoose(s).Ok?
    ensures var n := NormalizeLoose(s).value;
            && NormalizeLoose(n).Ok? && SameBounds(BoundsFromStr(NormalizeLoose(n).value), BoundsFromStr(n))
            && NormalizeLoose(NormalizeLoose(n).value) == NormalizeLoose(n)
  {
    hide NormalizeLoose, BoundsFromStr;
    var n := NormalizeLoose(s).value;
    NormalizedShape(s);
    SecondRound(n);
    NormalizingKeepsBounds(n);
  }

  /** Text that normalisation leaves alone, or the two short canonical forms, which it pads. */
  predicate Settled(n: string) {
    NormalizeLoose(n) == Ok(n)
  }

  predicate ShortForm(n: string) {
    Plain(n) && PrefixOf(n) in {Caret, Tilde} && |Split(BodyOf(n), '.')| <= 2
  }

  lemma NormalizedShape(s: string)
    requires NormalizeLoose(s).Ok?
    ensures var n := NormalizeLoose(s).value; !BareZero(n) && (Settled(n) || ShortForm(n))
  {
    hide Split;
    var t, n := Trim(s), NormalizeLoose(s).value;
    TrimTrims(s);
    if !Plain(t) {
      NormalizeOther(s);
      TrimmedStays(t);
      if BareZero(n) { BareZeroIsPlain(n); }
    } else {
      NormalizePlain(s);
      CanonicalIsClean(t);
      TrimmedStays(n);
      if PrefixOf(n) == Eq {
        assert Settled(n);
      } else if |Split(BodyOf(n), '.')| == 3 {
        NormalizePlain(n);
      }
    }
  }

  lemma SecondRound(n: string)
    requires Settled(n) || ShortForm(n)
    ensures NormalizeLoose(n).Ok? && Settled(NormalizeLoose(n).value)
  {
    hide Split;
    if ShortForm(n) {
      TrimmedStays(n);
      NormalizePlain(n);
      CanonicalIsClean(n);
      var m := Canonical(n).value;
      TrimmedStays(m);
      assert m[0] == n[0];
      NormalizePlain(m);
    }
  }

  // ---- The recogniser ----

  /** What was stored for an accepted input is recognised as a loose partial exactly when the trimmed
      input is one or two digit segments and nothing else. */
  lemma LoosePartialIsBarePartial(s: string)
    requires NormalizeLoose(s).Ok?
    ensures IsLoosePartial(NormalizeLoose(s).value) <==>
              var parts := Split(Trim(s), '.'); DigitParts(parts) && |parts| <= 2
  {
    hide Split, NormalizeLoose;
    var t, n := Trim(s), NormalizeLoose(s).value;
    TrimTrims(s);
    if Plain(t) {
      NormalizePlain(s);
      CanonicalIsClean(t);
      BodyIsParts(BodyOf(t));
      if PrefixOf(t) != NoPrefix {
        CharIsInAPart(t, t[0]);
        var i :| 0 <= i < |Split(t, '.')| && Has(Split(t, '.')[i], t[0]);
        assert !AllDigits(Split(t, '.')[i]) by { HasNoDigit(Split(t, '.')[i], t[0]); }
      }
    } else {
      NormalizeOther(s);
      DigitPartsArePlain(t);
    }
  }

  lemma HasNoDigit(part: string, c: char)
    requires Has(part, c) && !IsDigit(c)
    ensures !AllDigits(part)
  {
    var i :| 0 <= i < |part| && part[i] == c;
  }

  lemma DigitPartsArePlain(t: string)
    requires t != "" ==> Trimmed(t)
    ensures var parts := Split(t, '.'); DigitParts(parts) && |parts| <= 2 ==> Plain(t)
    ensures !Plain(t) ==> !IsLoosePartial(t)
  {
    hide Split;
    BodyIsParts(t);
    var parts := Split(t, '.');
    if DigitParts(parts) && |parts| <= 2 {
      assert forall i :: 0 <= i < |t| ==> IsDigit(t[i]) || t[i] == '.';
      assert IsDigit(t[0]);
    }
  }
}
