/** The hand-written date and RFC 3339 timestamp parsers of the batch builder, and what they read
    from text printed as section 5.6 of RFC 3339 lays down. */
module Timestamps {
  import opened Wrappers
  import opened Text
  import opened Civil

  const I32_MAX := 0x7fff_ffff

  /** Year, month and day between two dashes, each any 64-bit integer. */
  function ParseTriple(s: string, sep: char): Option<(int, int, int)> {
    var parts := Split(s, sep);
    if |parts| != 3 then None
    else
      match (ParseI64(parts[0]), ParseI64(parts[1]), ParseI64(parts[2]))
      case (Some(a), Some(b), Some(c)) => Some((a, b, c))
      case _ => None
  }

  /** `parse_date_days`. */
  function ParseDateDays(text: string): Option<int> {
    var date := match SplitOnce(text, {'T', ' '})
      case Some((before, _)) => before
      case None => text;
    match ParseTriple(date, '-')
    case None => None
    case Some((year, month, day)) =>
      if !(1 <= month <= 12) || !(1 <= day <= 31) then None
      else
        var days := DaysFromCivil(year, month, day);
        if -I32_MAX - 1 <= days <= I32_MAX then Some(days) else None
  }

  /** `parse_offset_secs`; the caller passes text that starts with the sign it found. */
  function ParseOffsetSecs(offset: string): Option<int>
    requires offset != ""
  {
    var parts := Split(offset[1..], ':');
    if offset[0] !in {'+', '-'} || |parts| > 2 then None
    else
      match (ParseI64(parts[0]), ParseI64(if |parts| == 2 then parts[1] else "0"))
      case (Some(hours), Some(minutes)) =>
        var secs := hours * 3_600 + minutes * 60;
        Some(if offset[0] == '+' then secs else -secs)
      case _ => None
  }

  function Zeros(n: nat): string {
    if n == 0 then "" else Zeros(n - 1) + "0"
  }

  function FirstSix(frac: string): string {
    if |frac| > 6 then frac[..6] else frac
  }

  /** `parse_fraction_micros` as a function: the first six digits, padded with zeros. */
  function FractionMicros(frac: string): Option<int> {
    if frac == "" then Some(0)
    else if !AllDigits(frac) then None
    else ParseI64(FirstSix(frac) + Zeros(6 - |FirstSix(frac)|))
  }

  lemma NoZeros(first: string)
    ensures first + Zeros(0) == first
  {
  }

  lemma ZerosPush(first: string, n: nat)
    ensures first + Zeros(n) + "0" == first + Zeros(n + 1)
  {
  }

  /** Its loop: push zeros up to six digits. */
  method PushZeros(truncated: string) returns (digits: string)
    requires |truncated| <= 6
    ensures digits == truncated + Zeros(6 - |truncated|)
  {
    hide Zeros;
    digits := truncated;
    NoZeros(truncated);
    while |digits| < 6
      invariant |truncated| <= |digits| <= 6 && digits == truncated + Zeros(|digits| - |truncated|)
    {
      ZerosPush(truncated, |digits| - |truncated|);
      digits := digits + "0";
    }
  }

  /** `parse_fraction_micros` as it runs: truncate, then push zeros. */
  method ParseFractionMicros(frac: string) returns (micros: Option<int>)
    ensures micros == FractionMicros(frac)
  {
    if frac == "" {
      return Some(0);
    }
    if !AllDigits(frac) {
      return None;
    }
    var digits := PushZeros(if |frac| > 6 then frac[..6] else frac);
    return ParseI64(digits);
  }

  /** The time of day and the offset in seconds: a trailing `Z`, or the last sign, or neither. */
  function SplitZone(rest: string): Option<(string, int)> {
    if rest != "" && rest[|rest| - 1] == 'Z' then Some((rest[..|rest| - 1], 0))
    else
      match RFind(rest, {'+', '-'})
      case None => Some((rest, 0))
      case Some(i) =>
        match ParseOffsetSecs(rest[i..])
        case None => None
        case Some(secs) => Some((rest[..i], secs))
  }

  /** `parse_rfc3339_micros`. */
  function ParseRfc3339Micros(text: string): Option<int> {
    match SplitOnce(text, {'T', ' '})
    case None => None
    case Some((date, rest)) =>
      match (ParseTriple(date, '-'), SplitZone(rest))
      case (Some((year, month, day)), Some((time, offset))) =>
        var (hms, frac) := match SplitOnce(time, {'.'})
          case Some((before, after)) => (before, after)
          case None => (time, "");
        (match (ParseTriple(hms, ':'), FractionMicros(frac))
         case (Some((hour, minute, second)), Some(micros)) =>
           if !(0 <= hour <= 23) || !(0 <= minute <= 59) || !(0 <= second <= 60) then None
           else
             var secs := DaysFromCivil(year, month, day) * 86_400 + hour * 3_600 + minute * 60 + second - offset;
             Some(secs * 1_000_000 + micros)
         case _ => None)
      case _ => None
  }

  // ---- Timestamps as section 5.6 of RFC 3339 prints them ----

  /** The last two are no zones of that section, but the parser takes them. */
  datatype Zone = Zulu | Numeric(east: bool, hours: nat, minutes: nat) | WholeHours(east: bool, hours: nat) | Unzoned

  datatype Stamp = Stamp(date: Date, hour: nat, minute: nat, second: nat, frac: string, zone: Zone)

  /** Stamps with as many digits as the form has places, whatever they say. */
  predicate Writable(t: Stamp) {
    && Printable(t.date)
    && t.hour < 100 && t.minute < 100 && t.second < 100 && AllDigits(t.frac) && WritableZone(t.zone)
  }

  predicate WritableZone(z: Zone) {
    match z
    case Numeric(_, hours, minutes) => hours < 100 && minutes < 100
    case WholeHours(_, hours) => hours < 100
    case _ => true
  }

  predicate InDay(t: Stamp) {
    t.hour <= 23 && t.minute <= 59 && t.second <= 60
  }

  /** Stamps of the right form, whose date may be off the calendar. */
  predicate PrintableStamp(t: Stamp) {
    && Writable(t) && InDay(t)
    && (t.zone.Zulu? || (t.zone.Numeric? && t.zone.hours <= 23 && t.zone.minutes <= 59))
  }

  predicate ValidStamp(t: Stamp) {
    PrintableStamp(t) && Valid(t.date)
  }

  function Two(n: nat): string
    requires n < 100
  {
    [DigitChar(n / 10), DigitChar(n % 10)]
  }

  function Four(n: nat): string
    requires n < 10_000
  {
    Two(n / 100) + Two(n % 100)
  }

  /** Dates that fit the form, on the calendar or not. */
  predicate Printable(d: Date) {
    0 <= d.year <= 9999 && 0 <= d.month < 100 && 0 <= d.day < 100
  }

  function PrintDate(d: Date): string
    requires Printable(d)
  {
    Four(d.year) + ['-'] + Two(d.month) + ['-'] + Two(d.day)
  }

  function PrintTime(t: Stamp): string
    requires Writable(t)
  {
    Two(t.hour) + [':'] + Two(t.minute) + [':'] + Two(t.second)
  }

  function PrintZone(z: Zone): string
    requires WritableZone(z)
  {
    match z
    case Zulu => "Z"
    case Unzoned => ""
    case WholeHours(east, hours) => [if east then '+' else '-'] + Two(hours)
    case Numeric(east, hours, minutes) => [if east then '+' else '-'] + (Two(hours) + [':'] + Two(minutes))
  }

  /** A stamp written with a `T` or a space between date and time. */
  function Write(t: Stamp, sep: char): string
    requires Writable(t)
  {
    PrintDate(t.date) + [sep] + (PrintTime(t) + (if t.frac == "" then "" else ['.'] + t.frac) + PrintZone(t.zone))
  }

  function Print(t: Stamp): string
    requires PrintableStamp(t)
  {
    Write(t, 'T')
  }

  // ---- What such text means, without the parser ----

  function Pow10(n: nat): (p: nat)
    ensures p >= 1
  {
    if n == 0 then 1 else 10 * Pow10(n - 1)
  }

  /** floor(0.frac * 10^6). */
  function FloorMicros(frac: string): int
    requires AllDigits(frac)
  {
    DigitsValue(frac) * 1_000_000 / Pow10(|frac|)
  }

  function ZoneSecs(z: Zone): int {
    match z
    case Zulu => 0
    case Unzoned => 0
    case WholeHours(east, hours) => if east then hours * 3_600 else -(hours * 3_600)
    case Numeric(east, hours, minutes) => if east then hours * 3_600 + minutes * 60 else -(hours * 3_600 + minutes * 60)
  }

  /** Microseconds from the epoch to the instant a stamp names, its date being `days` days from it. */
  function InstantOn(t: Stamp, days: int): int
    requires Writable(t)
  {
    (days * 86_400 + t.hour * 3_600 + t.minute * 60 + t.second - ZoneSecs(t.zone)) * 1_000_000 + FloorMicros(t.frac)
  }

  /** The same with the days counted on the calendar. */
  function Instant(t: Stamp): int
    requires ValidStamp(t)
  {
    InstantOn(t, CountedDays(t.date))
  }

  // ---- Fractions ----

  lemma MulMono(a: nat, b: nat, c: nat)
    requires a <= b
    ensures a * c <= b * c
  {
  }

  lemma MulAssoc(a: nat, b: nat, c: nat)
    ensures a * (b * c) == (a * b) * c == b * (a * c)
  {
  }

  lemma DivUnique(a: nat, b: nat, q: nat)
    requires b >= 1 && q * b <= a < (q + 1) * b
    ensures a / b == q
  {
    var r: int := a / b;
    assert a == r * b + a % b;
    NoOtherQuotient(q, r, a - q * b, a % b, b);
  }

  lemma NoOtherQuotient(q: int, r: int, s: int, t: int, b: int)
    requires b >= 1 && 0 <= s < b && 0 <= t < b && q * b + s == r * b + t
    ensures q == r
  {
    assert (q - r) * b == t - s && (r - q) * b == s - t;
    if q > r {
      MulMono(1, q - r, b);
    } else if q < r {
      MulMono(1, r - q, b);
    }
  }

  lemma {:induction false} ZerosMultiply(s: string, n: nat)
    requires AllDigits(s)
    ensures AllDigits(s + Zeros(n)) && |Zeros(n)| == n && DigitsValue(s + Zeros(n)) == DigitsValue(s) * Pow10(n)
  {
    if n == 0 {
      assert s + Zeros(0) == s;
    } else {
      ZerosMultiply(s, n - 1);
      assert s + Zeros(n) == (s + Zeros(n - 1)) + ['0'];
      DigitsPush(s + Zeros(n - 1), '0');
      MulAssoc(DigitsValue(s), 10, Pow10(n - 1));
    }
  }

  /** Cutting digits off the end divides by the power of ten, rounding down. */
  lemma {:induction false} PrefixIsFloor(s: string, n: nat)
    requires AllDigits(s) && n <= |s|
    ensures DigitsValue(s[..n]) * Pow10(|s| - n) <= DigitsValue(s) < (DigitsValue(s[..n]) + 1) * Pow10(|s| - n)
    decreases |s|
  {
    if n == |s| {
      assert s[..n] == s;
    } else {
      var init := s[..|s| - 1];
      PrefixIsFloor(init, n);
      assert init[..n] == s[..n];
      var v, p := DigitsValue(s[..n]), Pow10(|init| - n);
      MulAssoc(v, 10, p);
      MulAssoc(v + 1, 10, p);
      assert Pow10(|s| - n) == 10 * p;
      assert DigitsValue(s) == DigitsValue(init) * 10 + DigitValue(s[|s| - 1]);
    }
  }

  lemma {:induction false} PowAdd(a: nat, b: nat)
    ensures Pow10(a + b) == Pow10(a) * Pow10(b)
  {
    if a == 0 {
    } else {
      PowAdd(a - 1, b);
      assert 10 * (Pow10(a - 1) * Pow10(b)) == (10 * Pow10(a - 1)) * Pow10(b);
    }
  }

  lemma PowSix()
    ensures Pow10(6) == 1_000_000
  {
    assert Pow10(3) == 1_000;
    PowAdd(3, 3);
  }

  lemma SmallParses(s: string)
    requires AllDigits(s) && 1 <= |s| <= 6
    ensures ParseI64(s) == Some(DigitsValue(s))
  {
    DigitsBound(s);
    PowSix();
    PowGrows(|s|, 6);
  }

  lemma {:induction false} DigitsBound(s: string)
    requires AllDigits(s)
    ensures DigitsValue(s) < Pow10(|s|)
  {
    if s == "" {
    } else {
      DigitsBound(s[..|s| - 1]);
    }
  }

  lemma {:induction false} PowGrows(a: nat, b: nat)
    requires a <= b
    ensures Pow10(a) <= Pow10(b)
  {
    if a < b {
      PowGrows(a, b - 1);
    }
  }

  lemma ExactQuotient(v: nat, p: nat, z: nat)
    requires p >= 1 && p * z == 1_000_000
    ensures v * 1_000_000 / p == v * z
  {
    MulAssoc(v, z, p);
    assert (v * z) * p == v * (p * z);
    DivUnique(v * 1_000_000, p, v * z);
  }

  lemma ShortFraction(frac: string)
    requires AllDigits(frac) && 1 <= |frac| <= 6
    ensures FractionMicros(frac) == Some(FloorMicros(frac)) && 0 <= FloorMicros(frac) < 1_000_000
  {
    var n, padded := |frac|, frac + Zeros(6 - |frac|);
    PowSix();
    PowAdd(n, 6 - n);
    ZerosMultiply(frac, 6 - n);
    DigitsBound(padded);
    SmallParses(padded);
    hide ParseI64, DigitsValue, Pow10;
    ExactQuotient(DigitsValue(frac), Pow10(n), Pow10(6 - n));
  }

  lemma ScaleFloor(m: nat, v: nat, p: nat)
    requires m * p <= v < (m + 1) * p
    ensures m * (1_000_000 * p) <= v * 1_000_000 < (m + 1) * (1_000_000 * p)
  {
    MulAssoc(m, 1_000_000, p);
    MulAssoc(m + 1, 1_000_000, p);
  }

  lemma LongFraction(frac: string)
    requires AllDigits(frac) && |frac| > 6
    ensures FractionMicros(frac) == Some(FloorMicros(frac)) && 0 <= FloorMicros(frac) < 1_000_000
  {
    var v, n, six := DigitsValue(frac), |frac|, frac[..6];
    assert six + Zeros(0) == six;
    PowSix();
    PowAdd(6, n - 6);
    SmallParses(six);
    DigitsBound(six);
    PrefixIsFloor(frac, 6);
    ScaleFloor(DigitsValue(six), v, Pow10(n - 6));
    DivUnique(v * 1_000_000, Pow10(n), DigitsValue(six));
  }

  /** A fraction of any length contributes floor(0.frac * 10^6) microseconds. */
  lemma FractionRoundsDown(frac: string)
    requires AllDigits(frac)
    ensures FractionMicros(frac) == Some(FloorMicros(frac)) && 0 <= FloorMicros(frac) < 1_000_000
  {
    if frac == "" {
      assert FloorMicros(frac) == 0;
    } else if |frac| <= 6 {
      ShortFraction(frac);
    } else {
      LongFraction(frac);
    }
  }

  // ---- Printed text parses back ----

  lemma TwoParses(n: nat)
    requires n < 100
    ensures ParseI64(Two(n)) == Some(n) && AllDigits(Two(n)) && |Two(n)| == 2
  {
    var s := Two(n);
    assert s[..1] == [DigitChar(n / 10)] && s[..1][..0] == "";
    assert DigitsValue(s[..1]) == n / 10;
    assert DigitsValue(s) == n;
  }

  lemma FourParses(n: nat)
    requires n < 10_000
    ensures ParseI64(Four(n)) == Some(n) && AllDigits(Four(n)) && |Four(n)| == 4
  {
    var a, b := Two(n / 100), Two(n % 100);
    TwoParses(n / 100);
    TwoParses(n % 100);
    DigitsPush(a, b[0]);
    DigitsPush(a + [b[0]], b[1]);
    assert a + b == a + [b[0]] + [b[1]];
  }

  lemma DigitsAreFree(s: string, chars: set<char>)
    requires AllDigits(s) && forall c :: c in chars ==> !IsDigit(c)
    ensures NoneIn(s, chars)
  {
  }

  /** Three numbers between two separators read back as three numbers, with nothing else in between. */
  lemma ThreeFields(a: string, b: string, c: string, sep: char, chars: set<char>)
    requires AllDigits(a) && AllDigits(b) && AllDigits(c) && !IsDigit(sep)
    requires ParseI64(a).Some? && ParseI64(b).Some? && ParseI64(c).Some?
    requires sep !in chars && forall ch :: ch in chars ==> !IsDigit(ch)
    ensures ParseTriple(a + [sep] + b + [sep] + c, sep) ==
              Some((ParseI64(a).value, ParseI64(b).value, ParseI64(c).value))
    ensures NoneIn(a + [sep] + b + [sep] + c, chars)
  {
    var seps := {sep};
    DigitsAreFree(a, seps);
    DigitsAreFree(b, seps);
    DigitsAreFree(c, seps);
    DigitsAreFree(a, chars);
    DigitsAreFree(b, chars);
    DigitsAreFree(c, chars);
    hide ParseI64, AllDigits, IsDigit, Split;
    SplitThree(a, b, c, sep);
  }

  lemma DatePrints(d: Date)
    requires Printable(d)
    ensures ParseTriple(PrintDate(d), '-') == Some((d.year, d.month, d.day)) && NoneIn(PrintDate(d), {'T', ' '})
  {
    FourParses(d.year);
    TwoParses(d.month);
    TwoParses(d.day);
    hide ParseI64, ParseTriple, AllDigits, Two, Four, NoneIn;
    ThreeFields(Four(d.year), Two(d.month), Two(d.day), '-', {'T', ' '});
  }

  lemma TimePrints(t: Stamp)
    requires Writable(t)
    ensures ParseTriple(PrintTime(t), ':') == Some((t.hour, t.minute, t.second))
    ensures NoneIn(PrintTime(t), {'.', '+', '-', 'Z'}) && |PrintTime(t)| == 8
  {
    TwoParses(t.hour);
    TwoParses(t.minute);
    TwoParses(t.second);
    hide ParseI64, ParseTriple, AllDigits, Two, NoneIn;
    ThreeFields(Two(t.hour), Two(t.minute), Two(t.second), ':', {'.', '+', '-', 'Z'});
  }

  lemma OffsetPrints(z: Zone)
    requires z.Numeric? && WritableZone(z)
    ensures var sign, body := if z.east then '+' else '-', Two(z.hours) + [':'] + Two(z.minutes);
            && PrintZone(z) == [sign] + body && NoneIn(body, {'+', '-', 'Z'}) && |body| == 5
            && ParseOffsetSecs([sign] + body) == Some(ZoneSecs(z))
  {
    var sign, body := if z.east then '+' else '-', Two(z.hours) + [':'] + Two(z.minutes);
    TwoParses(z.hours);
    TwoParses(z.minutes);
    SplitTwo(Two(z.hours), Two(z.minutes), ':');
    assert ([sign] + body)[1..] == body;
  }

  lemma HoursPrint(z: Zone)
    requires z.WholeHours? && WritableZone(z)
    ensures var sign, body := if z.east then '+' else '-', Two(z.hours);
            && PrintZone(z) == [sign] + body && NoneIn(body, {'+', '-', 'Z'}) && |body| == 2
            && ParseOffsetSecs([sign] + body) == Some(ZoneSecs(z))
  {
    var sign, body := if z.east then '+' else '-', Two(z.hours);
    TwoParses(z.hours);
    SplitNone(body, ':');
    ZeroParses();
    assert ([sign] + body)[1..] == body;
  }

  lemma ZeroParses()
    ensures ParseI64("0") == Some(0)
  {
    assert DigitsValue("0") == 0;
  }

  /** Text behind a sign is the zone, if no other sign follows and it does not end in `Z`. */
  lemma SignedZone(time: string, sign: char, body: string, secs: int)
    requires sign in {'+', '-'} && body != "" && NoneIn(body, {'+', '-'}) && body[|body| - 1] != 'Z'
    requires ParseOffsetSecs([sign] + body) == Some(secs)
    ensures SplitZone(time + ([sign] + body)) == Some((time, secs))
  {
    hide ParseOffsetSecs;
    var rest := time + [sign] + body;
    assert time + ([sign] + body) == rest;
    assert rest[|rest| - 1] == body[|body| - 1];
    RFindAt(time, sign, body, {'+', '-'});
    hide RFind, NoneIn;
    assert rest[|time|..] == [sign] + body;
    assert rest[..|time|] == time;
  }

  lemma {:induction false} RFindNone(s: string, seps: set<char>)
    requires NoneIn(s, seps)
    ensures RFind(s, seps) == None
  {
    if s != "" {
      RFindNone(s[..|s| - 1], seps);
    }
  }

  lemma ZonePrints(time: string, z: Zone)
    requires WritableZone(z) && NoneIn(time, {'+', '-', 'Z'})
    ensures SplitZone(time + PrintZone(z)) == Some((time, ZoneSecs(z)))
  {
    hide ParseOffsetSecs, Two;
    match z {
      case Zulu => assert (time + "Z")[..|time|] == time;
      case Unzoned =>
        assert time + "" == time;
        RFindNone(time, {'+', '-'});
      case Numeric(east, hours, minutes) =>
        OffsetPrints(z);
        SignedZone(time, if east then '+' else '-', Two(hours) + [':'] + Two(minutes), ZoneSecs(z));
      case WholeHours(east, hours) =>
        HoursPrint(z);
        SignedZone(time, if east then '+' else '-', Two(hours), ZoneSecs(z));
    }
  }

  lemma TimeTextIsFree(t: Stamp, time: string)
    requires Writable(t) && time == PrintTime(t) + if t.frac == "" then "" else ['.'] + t.frac
    ensures NoneIn(time, {'+', '-', 'Z'})
  {
    TimePrints(t);
    hide PrintTime;
    DigitsAreFree(t.frac, {'+', '-', 'Z'});
  }

  /** Text of the form of section 5.6 of RFC 3339, written with `T` or a space, with a zone, whole hours
      only or no zone at all: it parses exactly when hour, minute and second are in range, and then to the
      instant computed from `days_from_civil` of its three date numbers, whatever they and the offset
      say. Text without a zone is in UTC. */
  lemma WrittenFormParses(t: Stamp, sep: char)
    requires Writable(t) && sep in {'T', ' '}
    ensures ParseRfc3339Micros(Write(t, sep))
         == if t.hour <= 23 && t.minute <= 59 && t.second <= 60 then
              Some(InstantOn(t, DaysFromCivil(t.date.year, t.date.month, t.date.day)))
            else None
  {
    hide DaysFromCivil, FloorMicros, SplitZone, FractionMicros, ParseTriple, PrintDate, PrintZone, PrintTime;
    var fracText := if t.frac == "" then "" else ['.'] + t.frac;
    var time := PrintTime(t) + fracText;
    DatePrints(t.date);
    TimePrints(t);
    TimeTextIsFree(t, time);
    ZonePrints(time, t.zone);
    FractionRoundsDown(t.frac);
    SplitOnceAt(PrintDate(t.date), sep, time + PrintZone(t.zone), {'T', ' '});
    if t.frac == "" {
      assert time == PrintTime(t);
      SplitOnceNone(time, {'.'});
    } else {
      assert time == PrintTime(t) + ['.'] + t.frac;
      SplitOnceAt(PrintTime(t), '.', t.frac, {'.'});
    }
  }

  lemma PrintedFormParses(t: Stamp)
    requires PrintableStamp(t)
    ensures ParseRfc3339Micros(Print(t)) == Some(InstantOn(t, DaysFromCivil(t.date.year, t.date.month, t.date.day)))
  {
    hide Write, ParseRfc3339Micros, InstantOn, DaysFromCivil;
    WrittenFormParses(t, 'T');
  }

  /** Every timestamp printed per section 5.6 of RFC 3339 parses to the instant it names, leap
      seconds, offsets and fractions of any length included. */
  lemma PrintedStampParses(t: Stamp)
    requires ValidStamp(t)
    ensures ParseRfc3339Micros(Print(t)) == Some(Instant(t))
  {
    hide CountedDays, DaysFromCivil, Print, ParseRfc3339Micros, InstantOn;
    PrintedFormParses(t);
    DaysFromCivilCounts(t.date);
  }

  lemma InstantsDiffer(t: Stamp, a: int, b: int)
    requires Writable(t)
    ensures InstantOn(t, a) == InstantOn(t, b) <==> a == b
  {
    hide FloorMicros;
  }

  /** The timestamp parser checks neither month nor day: dates off the calendar parse too. Days past
      the end of a month, and months past the end of a year, are carried over, if and only if the
      month is at most 14; with a later one the result is a wrong instant. The date parser refuses
      every month outside 1-12 and every day outside 1-31. */
  lemma OffCalendarStamps(t: Stamp)
    requires PrintableStamp(t)
    ensures ParseRfc3339Micros(Print(t)).Some?
    ensures ParseRfc3339Micros(Print(t)) == Some(InstantOn(t, CarriedDays(t.date))) <==> t.date.month <= 14
    ensures ParseDateDays(PrintDate(t.date)).Some? <==> 1 <= t.date.month <= 12 && 1 <= t.date.day <= 31
  {
    hide CarriedDays, DaysFromCivil, Print, PrintDate, ParseRfc3339Micros, ParseDateDays, InstantOn;
    PrintedFormParses(t);
    MonthsCarryTo14(t.date);
    InstantsDiffer(t, DaysFromCivil(t.date.year, t.date.month, t.date.day), CarriedDays(t.date));
    PlainDateParses(t.date);
  }

  // ---- One instant, many spellings ----

  /** The stamp for the instant `u` (printed in UTC) as a clock `minutes` away from UTC shows it. */
  function Localise(u: Stamp, minutes: int): Stamp
    requires ValidStamp(u) && u.zone == Zulu && -1440 < minutes < 1440
  {
    var clock := u.hour * 60 + u.minute + minutes;
    var date := if clock < 0 then Prev(u.date) else if clock >= 1440 then Next(u.date) else u.date;
    var m := if clock < 0 then clock + 1440 else if clock >= 1440 then clock - 1440 else clock;
    var size := if minutes < 0 then -minutes else minutes;
    Stamp(date, m / 60, m % 60, u.second, u.frac, Numeric(minutes >= 0, size / 60, size % 60))
  }

  /** Every spelling of one instant parses to the same number, whatever day, month or year the local
      clock shows. */
  lemma SpellingsAgree(u: Stamp, minutes: int)
    requires ValidStamp(u) && u.zone == Zulu && -1440 < minutes < 1440
    requires 0 <= Localise(u, minutes).date.year <= 9999
    ensures ValidStamp(Localise(u, minutes))
    ensures ParseRfc3339Micros(Print(Localise(u, minutes))) == ParseRfc3339Micros(Print(u))
  {
    hide Print, ParseRfc3339Micros, FloorMicros, CountedDays, DaysFromCivil;
    var t := Localise(u, minutes);
    NextDayIsPlusOne(u.date);
    PrevDayIsMinusOne(u.date);
    DaysFromCivilCounts(u.date);
    DaysFromCivilCounts(t.date);
    PrintedStampParses(u);
    PrintedStampParses(t);
    assert t.hour * 60 + t.minute == u.hour * 60 + u.minute + minutes +
             1440 * (CountedDays(u.date) - CountedDays(t.date));
    assert ZoneSecs(t.zone) == minutes * 60;
  }

  /** The parsed instant, and the seconds behind it, fit 64 bits with room to spare. */
  lemma PrintedStampFits(t: Stamp)
    requires ValidStamp(t)
    ensures -I64_MAX - 1 <= Instant(t) <= I64_MAX
  {
    hide CountedDays, FloorMicros;
    FractionRoundsDown(t.frac);
    DayInRange(t.date);
  }

  lemma DayInRange(d: Date)
    requires Valid(d) && 0 <= d.year <= 9999
    ensures -719_528 <= CountedDays(d) <= 2_932_896
  {
    hide DaysBeforeMonth, DaysBeforeYear, DaysFromCivil;
    var first, last := Date(0, 1, 1), Date(9999, 12, 31);
    DaysFromCivilCounts(d);
    DaysFromCivilCounts(first);
    DaysFromCivilCounts(last);
    DaysOrderDates(first, d);
    DaysOrderDates(d, last);
    PrintableRange();
  }

  lemma PrintableRange()
    ensures DaysFromCivil(0, 1, 1) == -719_528 && DaysFromCivil(9999, 12, 31) == 2_932_896
  {
  }

  /** `parse_date_days` on a printed date: it takes months 1-12 and days 1-31, whether or not the
      month is that long, and returns the day count, in which days past the end of the month run on
      into the next; anything else it refuses. */
  lemma PlainDateParses(d: Date)
    requires Printable(d)
    ensures ParseDateDays(PrintDate(d)) == if 1 <= d.month <= 12 && 1 <= d.day <= 31 then Some(CountedDays(d)) else None
  {
    hide DaysFromCivil, CountedDays, PrintDate, ParseTriple;
    DatePrints(d);
    SplitOnceNone(PrintDate(d), {'T', ' '});
    if 1 <= d.month <= 12 {
      DaysFromCivilCounts(d);
      DaysFromCivilCounts(d.(day := 1));
      DayInRange(d.(day := 1));
      assert CountedDays(d) == CountedDays(d.(day := 1)) + d.day - 1 by { ShiftDay(d); }
    }
  }

  /** A date column given a whole timestamp takes its date. */
  lemma DateOfStamp(d: Date, sep: char, rest: string)
    requires Printable(d) && sep in {'T', ' '}
    ensures ParseDateDays(PrintDate(d) + [sep] + rest) == ParseDateDays(PrintDate(d))
  {
    hide DaysFromCivil, PrintDate, ParseTriple;
    DatePrints(d);
    SplitOnceAt(PrintDate(d), sep, rest, {'T', ' '});
    SplitOnceNone(PrintDate(d), {'T', ' '});
  }

  /** Years of many digits, as long as the day count itself fits 64 bits: it is refused exactly outside
      32 bits. */
  lemma LongYearParses(year: string, month: nat, day: nat)
    requires year != "" && AllDigits(year) && DigitsValue(year) <= 25_000_000_000_000_000
    requires 1 <= month <= 12 && 1 <= day <= 31
    ensures var days := CountedDays(Date(DigitsValue(year), month, day));
            ParseDateDays(year + ['-'] + Two(month) + ['-'] + Two(day))
            == if -0x8000_0000 <= days <= 0x7fff_ffff then Some(days) else None
  {
    var d := Date(DigitsValue(year), month, day);
    TwoParses(month);
    TwoParses(day);
    ThreeFields(year, Two(month), Two(day), '-', {'T', ' '});
    SplitOnceNone(year + ['-'] + Two(month) + ['-'] + Two(day), {'T', ' '});
    hide ParseTriple, Two, CountedDays, DaysFromCivil;
    DaysFromCivilCounts(d);
  }

  lemma ShiftDay(d: Date)
    requires 1 <= d.month <= 12
    ensures CountedDays(d) == CountedDays(d.(day := 1)) + d.day - 1
  {
  }
}
