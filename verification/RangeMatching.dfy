/** SQL bounds against requirement matching. */
module RangeMatching {
  import opened Wrappers
  import opened Text
  import opened Ranges
  import opened RangeLaws

  /** The bounds hold exactly the pre-release-free versions the requirement matches. */
  ghost predicate Agree(b: Bounds, req: Req) {
    forall v: Triple :: InBounds(b, v) <==> Matches(req, v)
  }

  lemma NumericIsSegment(part: string)
    requires ParseNumeric(part).Some?
    ensures ParseSegment(part) == Some(Num(ParseNumeric(part).value))
  {
    assert IsDigit(part[0]);
  }

  /** Parts that parse as segments are stars or (possibly signed) digits. */
  lemma SegmentChars(part: string, i: nat)
    requires ParseSegment(part).Some? && i < |part|
    ensures part == "*" || IsDigit(part[i]) || part[i] == '+'
  {
    if part != "*" && i > 0 {
      var body := if part[0] == '+' then part[1..] else part;
      assert part[i] == if part[0] == '+' then body[i - 1] else body[i];
    }
  }

  /** The forms in which a stored range with bounds can come: a star somewhere under no prefix, an
      exact triple, a caret with one or three parts, a tilde with two or three. */
  predicate StoredForm(prefix: Prefix, parts: seq<string>) {
    match prefix
    case NoPrefix => exists i :: 0 <= i < |parts| && parts[i] == "*"
    case Eq => true
    case Caret => |parts| in {1, 3} && StarFree(parts)
    case Tilde => |parts| in {2, 3} && StarFree(parts)
  }

  lemma SegmentsOfParts(parts: seq<string>)
    requires ParseSegments(parts).Some?
    ensures var v := ParseSegments(parts).value;
            && |v| == |parts|
            && forall i :: 0 <= i < |parts| ==>
                 && (parts[i] == "*" <==> v[i].Wildcard?)
                 && (ParseNumeric(parts[i]).Some? ==> v[i] == Num(ParseNumeric(parts[i]).value))
  {
    SegmentsPointwise(parts);
    var v := ParseSegments(parts).value;
    forall i | 0 <= i < |parts|
      ensures parts[i] == "*" <==> v[i].Wildcard?
      ensures ParseNumeric(parts[i]).Some? ==> v[i] == Num(ParseNumeric(parts[i]).value)
    {
      if ParseNumeric(parts[i]).Some? {
        NumericIsSegment(parts[i]);
      }
    }
  }

  lemma WildParses(part: string)
    requires IsWild(part) && ParseSegment(part).Some?
    ensures part == "*"
  {
    if part != "*" {
      SegmentChars(part, 0);
    }
  }

  lemma CaretAgrees(parts: seq<string>)
    requires |parts| in {1, 3} && StarFree(parts) && PartsBounds(Caret, parts).Ok? && ReqOf(Caret, parts).Some?
    ensures Agree(PartsBounds(Caret, parts).value, ReqOf(Caret, parts).value) <==>
              !(|parts| == 1 && ParseSegment(parts[0]) == Some(Num(0)))
  {
    SegmentsOfParts(parts);
    NoWildcards(parts);
    SegmentsPointwise(parts);
    var b, req := PartsBounds(Caret, parts).value, ReqOf(Caret, parts).value;
    if |parts| == 3 {
      if IsWild(parts[1]) { WildParses(parts[1]); }
      if IsWild(parts[2]) { WildParses(parts[2]); }
    }
    if |parts| == 1 && ParseSegment(parts[0]) == Some(Num(0)) {
      assert !InBounds(b, Triple(0, 1, 0)) && Matches(req, Triple(0, 1, 0));
    }
  }

  lemma TildeAgrees(parts: seq<string>)
    requires |parts| in {2, 3} && StarFree(parts) && PartsBounds(Tilde, parts).Ok? && ReqOf(Tilde, parts).Some?
    ensures Agree(PartsBounds(Tilde, parts).value, ReqOf(Tilde, parts).value)
  {
    SegmentsOfParts(parts);
    NoWildcards(parts);
    SegmentsPointwise(parts);
    if IsWild(parts[1]) { WildParses(parts[1]); }
    if |parts| == 3 && IsWild(parts[2]) { WildParses(parts[2]); }
  }

  lemma EqAgrees(parts: seq<string>)
    requires |parts| >= 1 && PartsBounds(Eq, parts).Ok? && ReqOf(Eq, parts).Some?
    ensures Agree(PartsBounds(Eq, parts).value, ReqOf(Eq, parts).value)
  {
    SegmentsOfParts(parts);
    SegmentsPointwise(parts);
    var segments := ParseSegments(parts).value;
    assert !segments[1].Wildcard? && !segments[2].Wildcard?;
    if IsWild(parts[1]) { WildParses(parts[1]); }
    if IsWild(parts[2]) { WildParses(parts[2]); }
  }

  lemma WildcardAgrees(parts: seq<string>)
    requires |parts| >= 1 && (exists i :: 0 <= i < |parts| && parts[i] == "*")
    requires PartsBounds(NoPrefix, parts).Ok? && ReqOf(NoPrefix, parts).Some?
    ensures Agree(PartsBounds(NoPrefix, parts).value, ReqOf(NoPrefix, parts).value)
  {
    SegmentsOfParts(parts);
    SegmentsPointwise(parts);
    var segments := ParseSegments(parts).value;
    var i :| 0 <= i < |parts| && parts[i] == "*";
    assert segments[i].Wildcard?;
    if |parts| >= 2 && IsWild(parts[1]) { WildParses(parts[1]); }
    if |parts| >= 3 && IsWild(parts[2]) { WildParses(parts[2]); }
  }

  /** A stored range with bounds, other than `*`, is in one of the stored forms. */
  lemma StoredIsInForm(s: string)
    requires NormalizeLoose(s).Ok?
    ensures var n := NormalizeLoose(s).value;
            n != "*" && BoundsFromStr(n).Ok? ==>
              && n != "" && BoundsFromStr(n) == PartsBounds(PrefixOf(n), Split(BodyOf(n), '.'))
              && StoredForm(PrefixOf(n), Split(BodyOf(n), '.'))
              && (BareZero(s) <==>
                    && PrefixOf(n) == Caret && |Split(BodyOf(n), '.')| == 1
                    && ParseSegment(Split(BodyOf(n), '.')[0]) == Some(Num(0)))
  {
    hide Split, PartsBounds, Canonical;
    var t, n := Trim(s), NormalizeLoose(s).value;
    TrimTrims(s);
    TrimmedStays(t);
    if Plain(t) {
      NormalizePlain(s);
      CanonicalIsClean(t);
      BoundsOfClean(n);
      StarFreeBody(BodyOf(n));
      BareZeroParts(s);
      BodyIsParts(BodyOf(t));
    } else {
      NormalizeOther(s);
      if BareZero(s) { BareZeroIsPlain(s); }
      if n != "*" && BoundsFromStr(n).Ok? {
        OtherIsStarred(n);
      }
    }
  }

  /** What passes through with bounds is a starred bare expression or led by `=`. */
  lemma OtherIsStarred(n: string)
    requires Trimmed(n) && !Plain(n) && n != "*" && NormalizeLoose(n) == Ok(n) && BoundsFromStr(n).Ok?
    ensures n != "" && StoredForm(PrefixOf(n), Split(BodyOf(n), '.')) && PrefixOf(n) in {Eq, NoPrefix}
  {
    TrimmedStays(n);
    var prefix, parts := PrefixOf(n), Split(BodyOf(n), '.');
    SegmentsPointwise(parts);
    if prefix == NoPrefix {
      var c := if Has(n, '*') then '*' else n[0];
      CharIsInAPart(n, c);
      var i :| 0 <= i < |parts| && Has(parts[i], c);
      if c == '*' {
        StarPart(parts[i]);
      } else {
        var j :| 0 <= j < |parts[i]| && parts[i][j] == c;
        SegmentChars(parts[i], j);
        assert false;
      }
    }
  }

  /** The SQL bounds of a stored range contain exactly the pre-release-free versions its requirement
      matches, for every input the loose parser takes and that has bounds, if and only if the input
      is not a bare zero major. */
  lemma BoundsAgreeWithMatching(s: string)
    requires NormalizeLoose(s).Ok? && ParseReq(NormalizeLoose(s).value).Some? &&
               BoundsFromStr(NormalizeLoose(s).value).Ok?
    ensures var n := NormalizeLoose(s).value;
            Agree(BoundsFromStr(n).value, ParseReq(n).value) <==> !BareZero(s)
  {
    hide NormalizeLoose, BoundsFromStr, PartsBounds, ReqOf, InBounds, Matches, Split;
    var n := NormalizeLoose(s).value;
    if n == "*" {
      StarAgrees(s);
    } else {
      StoredIsInForm(s);
      var prefix, parts := PrefixOf(n), Split(BodyOf(n), '.');
      OnlyStarIsWild(n);
      match prefix {
        case Caret => CaretAgrees(parts);
        case Tilde => TildeAgrees(parts);
        case Eq => EqAgrees(parts);
        case NoPrefix => WildcardAgrees(parts);
      }
    }
  }

  /** The bare zero major, met: `"0"` is stored as `^0`, which matches 0.1.0, outside its bounds. */
  lemma ZeroDisagrees()
    ensures BareZero("0") && NormalizeLoose("0") == Ok("^0") && ParseReq("^0").Some? && BoundsFromStr("^0").Ok?
    ensures var v := Triple(0, 1, 0); Matches(ParseReq("^0").value, v) && !InBounds(BoundsFromStr("^0").value, v)
    ensures BoundsFromStr("0").Ok? && InBounds(BoundsFromStr("0").value, Triple(0, 1, 0))
  {
    TrimmedStays("0");
    TrimmedStays("^0");
    SplitNone("0", '.');
    assert DigitsValue("0") == 0;
    assert BodyOf("^0") == "0" && BodyOf("0") == "0";
    assert "^" + "0" == "^0";
  }

  lemma OnlyStarIsWild(n: string)
    requires n != "*" && n != "" && StoredForm(PrefixOf(n), Split(BodyOf(n), '.'))
    ensures !IsWild(n)
  {
    if IsWild(n) {
      SplitNone(n, '.');
    }
  }

  lemma StarAgrees(s: string)
    requires NormalizeLoose(s) == Ok("*")
    ensures BoundsFromStr("*").Ok? && ParseReq("*").Some? && Agree(BoundsFromStr("*").value, ParseReq("*").value) &&
              !BareZero(s)
  {
    TrimmedStays("*");
    if BareZero(s) {
      BareZeroIsPlain(s);
      NormalizePlain(s);
    }
  }

  /** The requirement grammar above misses nothing that has bounds: a stored range with bounds is one
      of its requirements as soon as no component has a leading zero. */
  lemma BoundedIsRequirement(s: string)
    requires NormalizeLoose(s).Ok? && BoundsFromStr(NormalizeLoose(s).value).Ok?
    requires var n := NormalizeLoose(s).value;
             n != "*" ==> n != "" && forall i :: 0 <= i < |Split(BodyOf(n), '.')| ==>
               Split(BodyOf(n), '.')[i] == "*" || ParseNumeric(Split(BodyOf(n), '.')[i]).Some?
    ensures ParseReq(NormalizeLoose(s).value).Some?
  {
    hide NormalizeLoose, BoundsFromStr, ReqOf, Split, ParseNumeric;
    var n := NormalizeLoose(s).value;
    if n == "*" {
      StarAgrees(s);
    } else {
      StoredIsInForm(s);
      OnlyStarIsWild(n);
      PartsAreRequirement(PrefixOf(n), Split(BodyOf(n), '.'));
    }
  }

  lemma PartsAreRequirement(prefix: Prefix, parts: seq<string>)
    requires |parts| >= 1 && PartsBounds(prefix, parts).Ok? && StoredForm(prefix, parts)
    requires forall i :: 0 <= i < |parts| ==> parts[i] == "*" || ParseNumeric(parts[i]).Some?
    ensures ReqOf(prefix, parts).Some?
  {
    SegmentsOfParts(parts);
    SegmentsPointwise(parts);
    forall i | 0 <= i < |parts| && parts[i] != "*" ensures !IsWild(parts[i]) && ParseNumeric(parts[i]).Some? {
      if IsWild(parts[i]) { WildParses(parts[i]); }
    }
  }

  /** Every interval returned contains its own lower bound, and a half-open one is not empty above it. */
  lemma LowerBoundIsInside(raw: string)
    requires BoundsFromStr(raw).Ok?
    ensures var b := BoundsFromStr(raw).value;
            && InBounds(b, b.lower) && (b.upper == None ==> !b.inclusive)
            && (b.inclusive ==> b.upper == Some(b.lower))
            && (b.upper.Some? && !b.inclusive ==> Less(b.lower, b.upper.value))
  {
    hide Split, Trim;
  }
}
