/** Exactly which expressions have bounds, which interval that is, and which error the others give; and
    exactly which expressions the normaliser takes, and what it makes of them. */
module RangeBounds {
  import opened Wrappers
  import opened Text
  import opened Ranges
  import opened RangeLaws

  // ---- Expressions read independently ----

  /** A part written as a number of 64 bits. */
  predicate IsNumber(part: string) {
    part != "" && AllDigits(part) && DigitsValue(part) <= 0xffff_ffff_ffff_ffff
  }

  function Value(parts: seq<string>, i: nat): nat {
    if i < |parts| && IsNumber(parts[i]) then DigitsValue(parts[i]) else 0
  }

  /** The parts of an expression, behind its lead if it has one. */
  function Parts(t: string): (parts: seq<string>)
    requires t != ""
    ensures |parts| >= 1
  {
    Split(if t[0] in {'^', '~', '='} then t[1..] else t, '.')
  }

  /** One to three parts, numbers and then stars: no stars behind a caret or tilde, exactly three
      numbers behind an equals sign, and never a star in first place. */
  predicate Shaped(lead: char, parts: seq<string>) {
    && 1 <= |parts| <= 3 && IsNumber(parts[0])
    && (forall i :: 0 <= i < |parts| ==> IsNumber(parts[i]) || (parts[i] == "*" && lead !in {'^', '~', '='}))
    && (forall i, j :: 0 <= i < j < |parts| && parts[i] == "*" ==> parts[j] == "*")
    && (lead == '=' ==> |parts| == 3)
  }

  /** The component an upper bound raises by one is below the largest number of 64 bits; a full triple,
      bare or behind an equals sign, raises none. */
  predicate Fits(lead: char, parts: seq<string>) {
    var v0, v1, v2 := Value(parts, 0), Value(parts, 1), Value(parts, 2);
    if lead == '^' then (if v0 != 0 then v0 else if v1 != 0 then v1 else v2) < 0xffff_ffff_ffff_ffff
    else if lead == '~' then v1 < 0xffff_ffff_ffff_ffff
    else if lead == '=' then true
    else if |parts| == 3 && parts[2] != "*" then true
    else if |parts| >= 2 && parts[1] != "*" then v1 < 0xffff_ffff_ffff_ffff
    else v0 < 0xffff_ffff_ffff_ffff
  }

  /** The versions an expression stands for. */
  predicate Within(lead: char, parts: seq<string>, v: Triple) {
    var v0, v1, v2 := Value(parts, 0), Value(parts, 1), Value(parts, 2);
    if lead == '^' then
      && v.major == v0 && (v0 == 0 ==> v.minor == v1) && (v0 == 0 && v1 == 0 ==> v.patch == v2)
      && !Less(v, Triple(v0, v1, v2))
    else if lead == '~' then v.major == v0 && v.minor == v1 && v.patch >= v2
    else if lead == '=' then v == Triple(v0, v1, v2)
    else
      && v.major == v0
      && (|parts| >= 2 && parts[1] != "*" ==> v.minor == v1)
      && (|parts| == 3 && parts[2] != "*" ==> v.patch == v2)
  }

  /** What a result should be for these parts. */
  ghost predicate Expected(lead: char, parts: seq<string>, r: Result<Bounds, VersionError>) {
    match r
    case Ok(b) =>
      && Shaped(lead, parts) && Fits(lead, parts)
      && b.lower == Triple(Value(parts, 0), Value(parts, 1), Value(parts, 2))
      && b.upper.Some? && forall v :: InBounds(b, v) <==> Within(lead, parts, v)
    case Err(e) =>
      if Shaped(lead, parts) then !Fits(lead, parts) && e == BoundsOverflow else e == NotRepresentable
  }

  // ---- Parts ----

  lemma PartReads(part: string)
    requires !Has(part, '+')
    ensures ParseSegment(part)
         == if part == "*" then Some(Wildcard) else if IsNumber(part) then Some(Num(DigitsValue(part))) else None
  {
    if part != "" {
      assert part[0] != '+';
    }
  }

  lemma StarIsNoNumber()
    ensures !IsNumber("*")
  {
    assert !IsDigit("*"[0]);
  }

  predicate Readable(parts: seq<string>) {
    forall i :: 0 <= i < |parts| ==> parts[i] == "*" || IsNumber(parts[i])
  }

  lemma PartsRead(parts: seq<string>)
    requires forall i :: 0 <= i < |parts| ==> !Has(parts[i], '+')
    ensures ParseSegments(parts).Some? <==> Readable(parts)
    ensures ParseSegments(parts).Some? ==> forall i :: 0 <= i < |parts| ==>
              ParseSegments(parts).value[i] == if parts[i] == "*" then Wildcard else Num(Value(parts, i))
  {
    SegmentsPointwise(parts);
    StarIsNoNumber();
    hide ParseSegments, IsNumber;
    forall i | 0 <= i < |parts|
      ensures ParseSegment(parts[i])
           == if parts[i] == "*" then Some(Wildcard)
              else if IsNumber(parts[i]) then Some(Num(Value(parts, i)))
              else None
    {
      hide ParseSegment;
      PartReads(parts[i]);
    }
    hide ParseSegment;
  }

  function LeadOf(prefix: Prefix): char {
    match prefix
    case Caret => '^'
    case Tilde => '~'
    case Eq => '='
    case NoPrefix => ' '
  }

  lemma PrefixedExact(prefix: Prefix, parts: seq<string>)
    requires prefix != NoPrefix
    requires |parts| >= 1 && forall i :: 0 <= i < |parts| ==> !Has(parts[i], '+')
    ensures Expected(LeadOf(prefix), parts, PartsBounds(prefix, parts))
  {
    PartsRead(parts);
    StarIsNoNumber();
    hide IsNumber, ParseSegments;
    if ParseSegments(parts).Some? {
      var v := ParseSegments(parts).value;
      if AnyWildcard(v) {
        var i :| 0 <= i < |v| && v[i].Wildcard?;
        assert parts[i] == "*";
      } else {
        assert forall i :: 0 <= i < |v| ==> v[i].Num?;
        hide AnyWildcard;
        if |v| <= 3 {
          NumbersExact(prefix, parts, v);
        }
      }
    }
  }

  lemma NumbersExact(prefix: Prefix, parts: seq<string>, v: seq<Segment>)
    requires prefix != NoPrefix && 1 <= |parts| <= 3 && |v| == |parts| && Readable(parts) && !AnyWildcard(v)
    requires forall i :: 0 <= i < |v| ==> v[i].Num? && parts[i] != "*" && v[i] == Num(Value(parts, i))
    ensures prefix == Caret ==> Expected('^', parts, CaretBounds(v))
    ensures prefix == Tilde ==> Expected('~', parts, TildeBounds(v))
    ensures prefix == Eq ==> Expected('=', parts, EqBounds(v))
  {
    hide IsNumber;
    match prefix {
      case Caret => assert Expected('^', parts, CaretBounds(v));
      case Tilde => assert Expected('~', parts, TildeBounds(v));
      case Eq => assert Expected('=', parts, EqBounds(v));
    }
  }

  lemma BareExact(parts: seq<string>)
    requires |parts| >= 1 && forall i :: 0 <= i < |parts| ==> !Has(parts[i], '+')
    ensures Expected(' ', parts, PartsBounds(NoPrefix, parts))
  {
    PartsRead(parts);
    StarIsNoNumber();
    hide IsNumber, ParseSegments;
    if ParseSegments(parts).Some? && |parts| <= 3 {
      var v := ParseSegments(parts).value;
      if AnyWildcard(v) {
        StarredExact(parts, v);
      } else {
        assert forall i :: 0 <= i < |v| ==> v[i].Num?;
      }
    }
  }

  lemma StarredExact(parts: seq<string>, v: seq<Segment>)
    requires 1 <= |parts| <= 3 && |v| == |parts| && AnyWildcard(v) && Readable(parts) && !IsNumber("*")
    requires forall i :: 0 <= i < |v| ==> v[i] == if parts[i] == "*" then Wildcard else Num(Value(parts, i))
    ensures Expected(' ', parts, PlainBounds(v))
  {
    hide IsNumber;
    var wild := FirstWildcard(v);
    assert parts[wild] == "*";
    if i :| wild <= i < |v| && v[i].Num? {
      assert parts[i] != "*";
    } else if wild > 0 {
      assert IsNumber(parts[0]) && Shaped(' ', parts);
    }
  }

  // ---- Whole expressions ----

  lemma SuffixHasNoShape(lead: char, body: string, c: char)
    requires Has(body, c) && c in {'-', '+', ','}
    ensures !Shaped(lead, Split(body, '.'))
  {
    CharIsInAPart(body, c);
    var parts := Split(body, '.');
    var i :| 0 <= i < |parts| && Has(parts[i], c);
    var k :| 0 <= k < |parts[i]| && parts[i][k] == c;
    assert !IsDigit(parts[i][k]);
  }

  lemma PlusIsNowhere(body: string)
    requires !Has(body, '+')
    ensures forall i :: 0 <= i < |Split(body, '.')| ==> !Has(Split(body, '.')[i], '+')
  {
    forall i | 0 <= i < |Split(body, '.')| ensures !Has(Split(body, '.')[i], '+') {
      if Has(Split(body, '.')[i], '+') {
        PartIsInBody(body, i, '+');
      }
    }
  }

  /** Only the three leads count. */
  lemma OtherLead(lead: char, parts: seq<string>, r: Result<Bounds, VersionError>)
    requires lead !in {'^', '~', '='}
    ensures Expected(lead, parts, r) == Expected(' ', parts, r)
  {
  }

  /** `bounds_from_str`, for every string: nothing, or a lead alone, is the empty version; a star is
      every version; and any other expression has bounds exactly when its parts have the shape and fit,
      which are then the bounds of the versions it stands for, an overflow exactly when they have the
      shape and do not fit, and otherwise not representable. */
  lemma BoundsExact(raw: string)
    ensures var t, r := Trim(raw), BoundsFromStr(raw);
            if t == "" || t == "^" || t == "~" || t == "=" then r == Err(EmptyVersion)
            else if t == "*" then r == Ok(Bounds(Triple(0, 0, 0), None, false))
            else Expected(t[0], Parts(t), r)
  {
    hide Expected, PartsBounds, Shaped;
    var t := Trim(raw);
    if t != "" && t != "*" && !(t == "^" || t == "~" || t == "=") {
      var body := BodyOf(t);
      var parts := Split(body, '.');
      assert parts == Parts(t);
      if Has(body, '-') || Has(body, '+') || Has(body, ',') {
        var c := if Has(body, '-') then '-' else if Has(body, '+') then '+' else ',';
        SuffixHasNoShape(t[0], body, c);
        assert Has(t, c);
        NoShape(t[0], parts);
      } else {
        assert !Has(t, ',') by {
          assert t == body || t == [t[0]] + body;
        }
        PlusIsNowhere(body);
        if PrefixOf(t) == NoPrefix {
          BareExact(parts);
          OtherLead(t[0], parts, PartsBounds(NoPrefix, parts));
        } else {
          PrefixedExact(PrefixOf(t), parts);
        }
      }
    }
  }

  lemma NoShape(lead: char, parts: seq<string>)
    requires !Shaped(lead, parts)
    ensures Expected(lead, parts, Err(NotRepresentable))
  {
  }

  // ---- The normaliser ----

  /** Handed on as it is: a star, a chain of comparators, or one comparator. */
  predicate IsComparator(t: string)
    requires t != ""
  {
    t == "*" || ',' in t || t[0] in {'>', '<', '='}
  }

  /** `normalize_loose`, for every string: which are refused and how, and what becomes of the others. A
      caret or tilde is padded to three parts, a bare partial becomes a caret or a tilde, and a bare
      triple is pinned. */
  lemma NormalizeExact(raw: string)
    ensures var t, r := Trim(raw), NormalizeLoose(raw);
            if t == "" || t == "^" || t == "~" then r == Err(EmptyVersion)
            else if IsComparator(t) then r == Ok(t)
            else
              var led, n := t[0] in {'^', '~'}, |Parts(t)|;
              if '*' in t then r == if led then Err(NotRepresentable) else Ok(t)
              else if '-' in t || '+' in t then r == Ok(t)
              else if n > 3 then r == Err(NotRepresentable)
              else if led then r == Ok(t + if n == 1 then ".0.0" else if n == 2 then ".0" else "")
              else r == Ok((if n == 1 then "^" else if n == 2 then "~" else "=") + t)
  {
    hide Trim, Split;
    var t := Trim(raw);
    if t != "" && !IsComparator(t) && t != "^" && t != "~" {
      assert !PassesThrough(t);
      var led := t[0] in {'^', '~'};
      var prefix, body := if led then [t[0]] else "", if led then t[1..] else t;
      assert t == prefix + body;
      PartsPadded(prefix, body);
    }
  }

  lemma PartsPadded(prefix: string, body: string)
    ensures var p, t := Split(body, '.'), prefix + body;
            && (|p| == 1 ==> body == p[0] && prefix + (p[0] + ".0.0") == t + ".0.0")
            && (|p| == 2 ==> body == p[0] + ['.'] + p[1] && prefix + (p[0] + ['.'] + p[1] + ".0") == t + ".0")
            && (|p| == 3 ==> body == p[0] + ['.'] + p[1] + ['.'] + p[2] && t + "" == t)
  {
    BodyIsParts(body);
  }
}
