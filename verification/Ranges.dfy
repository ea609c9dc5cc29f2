/** Version range expressions: the loose normaliser, the compiler to SQL bounds, the recogniser of
    bare partials, and requirement matching. */
module Ranges {
  import opened Wrappers
  import opened Text

  datatype VersionError = EmptyVersion | BoundsOverflow | NotRepresentable

  datatype Triple = Triple(major: nat, minor: nat, patch: nat)

  /** Inclusive lower bound, optional upper bound, and whether the upper bound is inclusive. */
  datatype Bounds = Bounds(lower: Triple, upper: Option<Triple>, inclusive: bool)

  datatype Segment = Num(n: nat) | Wildcard

  datatype Prefix = Caret | Tilde | Eq | NoPrefix

  /** Lexicographic order on triples, as the SQL row comparison has it. */
  predicate Less(a: Triple, b: Triple) {
    a.major < b.major || (a.major == b.major && (a.minor < b.minor || (a.minor == b.minor && a.patch < b.patch)))
  }

  predicate InBounds(b: Bounds, v: Triple) {
    && !Less(v, b.lower)
    && match b.upper
       case None => true
       case Some(u) => Less(v, u) || (b.inclusive && v == u)
  }

  // ---- Text ----

  predicate Has(s: string, c: char) {
    c in s
  }

  // ---- The normaliser ----

  /** Expressions handed on unchanged: `*`, comma chains, and anything led by a comparator. */
  predicate PassesThrough(t: string)
    requires t != ""
  {
    t == "*" || Has(t, ',') || ">=" <= t || "<=" <= t || t[0] == '>' || t[0] == '<' || t[0] == '='
  }

  /** `normalize_loose`. */
  function NormalizeLoose(value: string): Result<string, VersionError> {
    var t := Trim(value);
    if t == "" then Err(EmptyVersion)
    else if PassesThrough(t) then Ok(t)
    else
      var prefix := if t[0] == '^' then "^" else if t[0] == '~' then "~" else "";
      var body := if prefix == "" then t else t[1..];
      if body == "" then Err(EmptyVersion)
      else if Has(body, '*') then (if prefix != "" then Err(NotRepresentable) else Ok(body))
      else if Has(body, '-') || Has(body, '+') then Ok(prefix + body)
      else
        var parts := Split(body, '.');
        if prefix != "" then
          match |parts|
          case 1 => Ok(prefix + (parts[0] + ".0.0"))
          case 2 => Ok(prefix + (parts[0] + ['.'] + parts[1] + ".0"))
          case 3 => Ok(prefix + body)
          case _ => Err(NotRepresentable)
        else
          match |parts|
          case 1 => Ok("^" + parts[0])
          case 2 => Ok("~" + (parts[0] + ['.'] + parts[1]))
          case 3 => Ok("=" + (parts[0] + ['.'] + parts[1] + ['.'] + parts[2]))
          case _ => Err(NotRepresentable)
  }

  // ---- The compiler to bounds ----

  function ParseSegment(part: string): Option<Segment> {
    if part == "*" then Some(Wildcard)
    else
      match ParseU64(part)
      case Some(n) => Some(Num(n))
      case None => None
  }

  function ParseSegments(parts: seq<string>): (r: Option<seq<Segment>>)
    ensures r.Some? ==> |r.value| == |parts|
  {
    if parts == [] then Some([])
    else
      match (ParseSegment(parts[0]), ParseSegments(parts[1..]))
      case (Some(first), Some(rest)) => Some([first] + rest)
      case _ => None
  }

  /** The interval up to, not including, `upper`, one of whose components is `n` + 1. */
  function UpTo(lower: Triple, n: nat, upper: Triple): Result<Bounds, VersionError> {
    if n < U64_MAX then Ok(Bounds(lower, Some(upper), false)) else Err(BoundsOverflow)
  }

  function Pin(t: Triple): Result<Bounds, VersionError> {
    Ok(Bounds(t, Some(t), true))
  }

  predicate AnyWildcard(segments: seq<Segment>) {
    exists i :: 0 <= i < |segments| && segments[i].Wildcard?
  }

  /** Segment `i`, or 0 when it is absent. */
  function NumOr0(segments: seq<Segment>, i: nat): nat
    requires !AnyWildcard(segments)
  {
    if i < |segments| then segments[i].n else 0
  }

  function FirstWildcard(segments: seq<Segment>): (i: nat)
    requires AnyWildcard(segments)
    ensures i < |segments| && segments[i].Wildcard? && forall j :: 0 <= j < i ==> segments[j].Num?
  {
    if segments[0].Wildcard? then 0 else 1 + FirstWildcard(segments[1..])
  }

  function PlainBounds(segments: seq<Segment>): Result<Bounds, VersionError>
    requires 1 <= |segments| <= 3
  {
    if AnyWildcard(segments) then
      var wild := FirstWildcard(segments);
      if exists i :: wild <= i < |segments| && segments[i].Num? then Err(NotRepresentable)
      else if wild == 0 then Err(NotRepresentable)
      else if wild == 1 then UpTo(Triple(segments[0].n, 0, 0), segments[0].n, Triple(segments[0].n + 1, 0, 0))
      else UpTo(Triple(segments[0].n, segments[1].n, 0), segments[1].n, Triple(segments[0].n, segments[1].n + 1, 0))
    else
      var major, minor, patch := NumOr0(segments, 0), NumOr0(segments, 1), NumOr0(segments, 2);
      match |segments|
      case 1 => UpTo(Triple(major, 0, 0), major, Triple(major + 1, 0, 0))
      case 2 => UpTo(Triple(major, minor, 0), minor, Triple(major, minor + 1, 0))
      case _ => Pin(Triple(major, minor, patch))
  }

  function CaretBounds(segments: seq<Segment>): Result<Bounds, VersionError>
    requires 1 <= |segments| <= 3
  {
    if AnyWildcard(segments) then Err(NotRepresentable)
    else
      var major, minor, patch := NumOr0(segments, 0), NumOr0(segments, 1), NumOr0(segments, 2);
      var lower := Triple(major, minor, patch);
      if major != 0 then UpTo(lower, major, Triple(major + 1, 0, 0))
      else if minor != 0 then UpTo(lower, minor, Triple(0, minor + 1, 0))
      else UpTo(lower, patch, Triple(0, 0, patch + 1))
  }

  function TildeBounds(segments: seq<Segment>): Result<Bounds, VersionError>
    requires 1 <= |segments| <= 3
  {
    if AnyWildcard(segments) then Err(NotRepresentable)
    else
      var major, minor, patch := NumOr0(segments, 0), NumOr0(segments, 1), NumOr0(segments, 2);
      UpTo(Triple(major, minor, patch), minor, Triple(major, minor + 1, 0))
  }

  function EqBounds(segments: seq<Segment>): Result<Bounds, VersionError>
    requires 1 <= |segments| <= 3
  {
    if AnyWildcard(segments) || |segments| != 3 then Err(NotRepresentable)
    else Pin(Triple(segments[0].n, segments[1].n, segments[2].n))
  }

  function PrefixOf(t: string): Prefix
    requires t != ""
  {
    match t[0]
    case '^' => Caret
    case '~' => Tilde
    case '=' => Eq
    case _ => NoPrefix
  }

  function BodyOf(t: string): string
    requires t != ""
  {
    if PrefixOf(t) == NoPrefix then t else t[1..]
  }

  /** The bounds of dot-separated parts under a prefix. */
  function PartsBounds(prefix: Prefix, parts: seq<string>): Result<Bounds, VersionError> {
    match ParseSegments(parts)
    case None => Err(NotRepresentable)
    case Some(segments) =>
      if segments == [] || |segments| > 3 then Err(NotRepresentable)
      else
        match prefix
        case Caret => CaretBounds(segments)
        case Tilde => TildeBounds(segments)
        case Eq => EqBounds(segments)
        case NoPrefix => PlainBounds(segments)
  }

  /** `bounds_from_str`. */
  function BoundsFromStr(raw: string): Result<Bounds, VersionError> {
    var t := Trim(raw);
    if t == "" then Err(EmptyVersion)
    else if t == "*" then Ok(Bounds(Triple(0, 0, 0), None, false))
    else if Has(t, ',') then Err(NotRepresentable)
    else
      var body := BodyOf(t);
      if body == "" then Err(EmptyVersion)
      else if Has(body, '-') || Has(body, '+') then Err(NotRepresentable)
      else PartsBounds(PrefixOf(t), Split(body, '.'))
  }

  // ---- The recogniser ----

  predicate DigitParts(parts: seq<string>) {
    forall i :: 0 <= i < |parts| ==> parts[i] != "" && AllDigits(parts[i])
  }

  /** `is_loose_partial`, on the stored (normalised) string. */
  predicate IsLoosePartial(stored: string) {
    stored != "" && stored[0] in {'^', '~'} &&
    var body := stored[1..];
    body != "" && !Has(body, '-') && !Has(body, '+') && !Has(body, '*') && !Has(body, ',') &&
    var parts := Split(body, '.');
    DigitParts(parts) && |parts| == if stored[0] == '^' then 1 else 2
  }

  // ---- Requirement matching (the semver library's rules for one comparator) ----

  datatype Op = CaretOp | TildeOp | ExactOp | WildcardOp

  datatype Req = Any | Comparator(op: Op, major: nat, minor: Option<nat>, patch: Option<nat>)

  /** A numeric identifier: digits without a leading zero. */
  function ParseNumeric(s: string): Option<nat> {
    if s == "" || !AllDigits(s) || (s[0] == '0' && |s| > 1) || DigitsValue(s) > U64_MAX then None
    else Some(DigitsValue(s))
  }

  predicate IsWild(s: string) {
    s == "*" || s == "x" || s == "X"
  }

  /** The requirement of an operator prefix and its parts: one to three identifiers, of which the trailing
      ones may be wildcards. A bare version means caret. */
  function ReqOf(prefix: Prefix, parts: seq<string>): Option<Req>
    requires |parts| >= 1
  {
    var wildMinor, wildPatch := |parts| >= 2 && IsWild(parts[1]), |parts| >= 3 && IsWild(parts[2]);
    var op := match prefix
      case Caret => CaretOp
      case Tilde => TildeOp
      case Eq => ExactOp
      case NoPrefix => if wildMinor || wildPatch then WildcardOp else CaretOp;
    var major := ParseNumeric(parts[0]);
    var minor := if |parts| >= 2 && !wildMinor then ParseNumeric(parts[1]) else None;
    var patch := if |parts| >= 3 && !wildPatch then ParseNumeric(parts[2]) else None;
    if |parts| > 3 || major == None then None
    else if |parts| >= 2 && !wildMinor && minor == None then None
    else if |parts| >= 3 && !wildPatch && patch == None then None
    else if |parts| >= 3 && wildMinor && !wildPatch then None
    else Some(Comparator(op, major.value, minor, patch))
  }

  /** One comparator without spaces, pre-release or build metadata. */
  function ParseReq(s: string): Option<Req> {
    if IsWild(s) then Some(Any)
    else if s == "" then None
    else ReqOf(PrefixOf(s), Split(BodyOf(s), '.'))
  }

  predicate Agrees(pin: Option<nat>, component: nat) {
    pin == None || pin.value == component
  }

  function OrZero(pin: Option<nat>): nat {
    if pin == None then 0 else pin.value
  }

  /** Exact and wildcard: every given component is as written. Tilde: at least what is written, with
      major and a given minor fixed. Caret: at least what is written, with everything fixed up to and
      including the first written component that is not zero, or, if all are zero, the last written. */
  predicate Matches(req: Req, v: Triple) {
    match req
    case Any => true
    case Comparator(op, major, minor, patch) =>
      var least := Triple(major, OrZero(minor), OrZero(patch));
      match op
      case ExactOp => v.major == major && Agrees(minor, v.minor) && Agrees(patch, v.patch)
      case WildcardOp => v.major == major && Agrees(minor, v.minor) && Agrees(patch, v.patch)
      case TildeOp => v.major == major && Agrees(minor, v.minor) && !Less(v, least)
      case CaretOp =>
        && !Less(v, least) && v.major == major
        && (major == 0 ==> Agrees(minor, v.minor))
        && (major == 0 && minor == Some(0) ==> Agrees(patch, v.patch))
  }
}
