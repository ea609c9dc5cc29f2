/** Exactly which texts the date and timestamp parsers take, and what they make of each. */
module TimestampGrammar {
  import opened Wrappers
  import opened Text
  import opened Civil
  import opened Timestamps

  // ---- The texts ----

  /** Where a text says it is. */
  datatype Place = Nowhere | AtZ | Offset(sign: char, hours: string, minutes: Option<string>)

  /** A text in its pieces; `fraction` is what stands behind a dot, if there is one. */
  datatype Reading = Reading(
    year: string, month: string, day: string, sep: char,
    hour: string, minute: string, second: string, fraction: Option<string>, place: Place)

  function Joined(a: string, b: string, c: string, sep: char): string {
    a + [sep] + b + [sep] + c
  }

  function ShowFraction(fraction: Option<string>): string {
    match fraction
    case None => ""
    case Some(digits) => ['.'] + digits
  }

  function ShowPlace(place: Place): string {
    match place
    case Nowhere => ""
    case AtZ => "Z"
    case Offset(sign, hours, minutes) =>
      [sign] + (hours + (match minutes case None => "" case Some(m) => [':'] + m))
  }

  function ShowTime(r: Reading): string {
    Joined(r.hour, r.minute, r.second, ':') + ShowFraction(r.fraction)
  }

  function Spell(r: Reading): string {
    Joined(r.year, r.month, r.day, '-') + [r.sep] + (ShowTime(r) + ShowPlace(r.place))
  }

  predicate IsNumber(s: string) {
    ParseI64(s).Some?
  }

  function N(s: string): int {
    if IsNumber(s) then ParseI64(s).value else 0
  }

  predicate Signless(s: string) {
    NoneIn(s, {'+', '-'})
  }

  /** Every field is a number of 64 bits, a leading plus allowed, and a minus where no dash or offset would
      be seen in it: not in the date, not in an offset, and not in a time without a zone, where a plus
      would not do either. Month and day are not looked at. */
  predicate Proper(r: Reading) {
    && IsNumber(r.year) && IsNumber(r.month) && IsNumber(r.day) && r.sep in {'T', ' '}
    && '-' !in r.year && '-' !in r.month && '-' !in r.day
    && IsNumber(r.hour) && IsNumber(r.minute) && IsNumber(r.second)
    && 0 <= N(r.hour) <= 23 && 0 <= N(r.minute) <= 59 && 0 <= N(r.second) <= 60
    && (r.fraction.Some? ==> AllDigits(r.fraction.value))
    && match r.place
       case Nowhere => Signless(r.hour) && Signless(r.minute) && Signless(r.second)
       case AtZ => true
       case Offset(sign, hours, minutes) =>
         && sign in {'+', '-'} && IsNumber(hours) && Signless(hours)
         && (minutes.Some? ==> IsNumber(minutes.value) && Signless(minutes.value))
  }

  function PlaceSecs(place: Place): int {
    match place
    case Offset(sign, hours, minutes) =>
      var size := N(hours) * 3_600 + (match minutes case None => 0 case Some(m) => N(m) * 60);
      if sign == '+' then size else -size
    case _ => 0
  }

  function Micros(r: Reading): int
    requires Proper(r)
  {
    var fraction := if r.fraction.Some? then FloorMicros(r.fraction.value) else 0;
    (DaysFromCivil(N(r.year), N(r.month), N(r.day)) * 86_400
     + N(r.hour) * 3_600 + N(r.minute) * 60 + N(r.second) - PlaceSecs(r.place)) * 1_000_000 + fraction
  }

  // ---- Pieces ----

  lemma NumberChars(s: string)
    requires IsNumber(s)
    ensures s != "" && IsDigit(s[|s| - 1])
    ensures forall i :: 0 <= i < |s| ==> IsDigit(s[i]) || (i == 0 && s[0] in {'+', '-'})
  {
    if s[0] in {'+', '-'} {
      assert forall i :: 0 < i < |s| ==> s[i] == s[1..][i - 1];
    }
  }

  lemma NumberIsFree(s: string, chars: set<char>)
    requires IsNumber(s) && forall c :: c in chars ==> !IsDigit(c) && c !in {'+', '-'}
    ensures NoneIn(s, chars)
  {
    hide IsNumber;
    NumberChars(s);
  }

  /** Three fields and nothing else. */
  lemma TripleExactly(s: string, sep: char, a: int, b: int, c: int)
    requires !IsDigit(sep)
    ensures ParseTriple(s, sep) == Some((a, b, c)) <==>
              exists x, y, z :: IsTriple(s, sep, x, y, z) && N(x) == a && N(y) == b && N(z) == c
  {
    hide ParseI64;
    if ParseTriple(s, sep).Some? {
      var p := Split(s, sep);
      JoinSplit(s, sep);
      Join3(p, sep);
      PartsHaveNoSep(s, sep);
      assert IsTriple(s, sep, p[0], p[1], p[2]);
    }
    if x, y, z :| IsTriple(s, sep, x, y, z) && N(x) == a && N(y) == b && N(z) == c {
      hide Split;
      SplitThree(x, y, z, sep);
    }
  }

  lemma TripleCuts(s: string, sep: char) returns (x: string, y: string, z: string)
    requires ParseTriple(s, sep).Some? && !IsDigit(sep)
    ensures IsTriple(s, sep, x, y, z) && ParseTriple(s, sep).value == (N(x), N(y), N(z))
  {
    var (a, b, c) := ParseTriple(s, sep).value;
    TripleExactly(s, sep, a, b, c);
    hide ParseTriple, IsTriple;
    x, y, z :| IsTriple(s, sep, x, y, z) && N(x) == a && N(y) == b && N(z) == c;
  }

  predicate IsTriple(s: string, sep: char, x: string, y: string, z: string) {
    && s == Joined(x, y, z, sep) && IsNumber(x) && IsNumber(y) && IsNumber(z)
    && sep !in x && sep !in y && sep !in z
  }

  lemma {:induction false} SplitOnceCuts(s: string, seps: set<char>) returns (c: char)
    requires SplitOnce(s, seps).Some?
    ensures var (a, b) := SplitOnce(s, seps).value; s == a + [c] + b && c in seps && NoneIn(a, seps)
  {
    if s[0] in seps {
      c := s[0];
      assert s == "" + [s[0]] + s[1..];
    } else {
      c := SplitOnceCuts(s[1..], seps);
      var (a, b) := SplitOnce(s[1..], seps).value;
      assert s == [s[0]] + s[1..];
      assert [s[0]] + (a + [c] + b) == ([s[0]] + a) + [c] + b;
    }
  }

  lemma {:induction false} SplitOnceNowhere(s: string, seps: set<char>)
    requires SplitOnce(s, seps).None?
    ensures NoneIn(s, seps)
  {
    if s != "" {
      SplitOnceNowhere(s[1..], seps);
      assert forall i :: 0 < i < |s| ==> s[i] == s[1..][i - 1];
    }
  }

  lemma {:induction false} RFindLast(s: string, seps: set<char>)
    ensures match RFind(s, seps)
            case None => NoneIn(s, seps)
            case Some(i) => NoneIn(s[i + 1..], seps)
  {
    if s != "" && s[|s| - 1] !in seps {
      var init := s[..|s| - 1];
      RFindLast(init, seps);
      match RFind(init, seps) {
        case None =>
          assert forall k :: 0 <= k < |s| - 1 ==> s[k] == init[k];
        case Some(i) =>
          var tail, shorter := s[i + 1..], init[i + 1..];
          assert forall k :: 0 <= k < |shorter| ==> tail[k] == shorter[k];
      }
    }
  }

  // ---- Offsets and zones ----

  predicate ProperPlace(place: Place) {
    match place
    case Offset(sign, hours, minutes) =>
      && sign in {'+', '-'} && IsNumber(hours) && Signless(hours)
      && (minutes.Some? ==> IsNumber(minutes.value) && Signless(minutes.value))
    case _ => true
  }

  lemma ZeroIsNumber()
    ensures ParseI64("0") == Some(0)
  {
    assert DigitsValue("0") == 0;
  }

  lemma PartsMakeBody(body: string)
    ensures var p := Split(body, ':');
            && (|p| == 1 ==> body == p[0])
            && (|p| == 2 ==> body == p[0] + ([':'] + p[1]))
  {
    var p := Split(body, ':');
    JoinSplit(body, ':');
    if |p| == 2 {
      Join2(p, ':');
      assert p[0] + [':'] + p[1] == p[0] + ([':'] + p[1]);
    }
  }

  lemma OffsetCuts(sign: char, body: string) returns (place: Place)
    requires sign in {'+', '-'} && Signless(body) && ParseOffsetSecs([sign] + body).Some?
    ensures place.Offset? && ProperPlace(place) && ShowPlace(place) == [sign] + body
    ensures PlaceSecs(place) == ParseOffsetSecs([sign] + body).value
  {
    hide ParseI64, Split, Signless;
    assert ([sign] + body)[1..] == body;
    var parts := Split(body, ':');
    PartsMakeBody(body);
    ZeroIsNumber();
    if |parts| == 2 {
      PartsSignless(parts[0], parts[1], body);
      place := Offset(sign, parts[0], Some(parts[1]));
    } else {
      assert parts[0] + "" == parts[0];
      place := Offset(sign, parts[0], None);
    }
  }

  lemma PartsSignless(a: string, b: string, body: string)
    requires Signless(body) && body == a + ([':'] + b)
    ensures Signless(a) && Signless(b)
  {
    assert forall i :: 0 <= i < |a| ==> a[i] == body[i];
    assert forall i :: 0 <= i < |b| ==> b[i] == body[|a| + 1 + i];
  }

  lemma HoursRead(sign: char, hours: string)
    requires sign in {'+', '-'} && IsNumber(hours)
    ensures ParseOffsetSecs([sign] + hours) == Some(PlaceSecs(Offset(sign, hours, None)))
  {
    assert ([sign] + hours)[1..] == hours;
    NumberIsFree(hours, {':'});
    ZeroIsNumber();
    SplitNone(hours, ':');
    hide ParseI64, Split, NoneIn;
  }

  lemma HoursMinutesRead(sign: char, hours: string, minutes: string)
    requires sign in {'+', '-'} && IsNumber(hours) && IsNumber(minutes)
    ensures ParseOffsetSecs([sign] + (hours + ([':'] + minutes))) == Some(PlaceSecs(Offset(sign, hours, Some(minutes))))
  {
    hide ParseI64, Split, NoneIn;
    var body := hours + [':'] + minutes;
    assert hours + ([':'] + minutes) == body;
    assert ([sign] + body)[1..] == body;
    NumberIsFree(hours, {':'});
    NumberIsFree(minutes, {':'});
    SplitTwo(hours, minutes, ':');
  }

  lemma SignlessBody(hours: string, minutes: string)
    requires Signless(hours) && Signless(minutes)
    ensures Signless(hours + ([':'] + minutes))
  {
  }

  lemma OffsetZoneReads(time: string, sign: char, hours: string, minutes: Option<string>)
    requires ProperPlace(Offset(sign, hours, minutes))
    ensures var place := Offset(sign, hours, minutes);
            SplitZone(time + ShowPlace(place)) == Some((time, PlaceSecs(place)))
  {
    NumberChars(hours);
    match minutes {
      case None =>
        HoursRead(sign, hours);
        hide ParseOffsetSecs, IsNumber, PlaceSecs;
        assert hours + "" == hours;
        SignedZone(time, sign, hours, PlaceSecs(Offset(sign, hours, minutes)));
      case Some(m) =>
        NumberChars(m);
        HoursMinutesRead(sign, hours, m);
        hide ParseOffsetSecs, IsNumber, PlaceSecs;
        SignlessBody(hours, m);
        SignedZone(time, sign, hours + ([':'] + m), PlaceSecs(Offset(sign, hours, minutes)));
    }
  }

  lemma ZoneCuts(rest: string) returns (place: Place)
    requires SplitZone(rest).Some?
    ensures var (time, secs) := SplitZone(rest).value;
            && rest == time + ShowPlace(place) && PlaceSecs(place) == secs && ProperPlace(place)
            && (place.Nowhere? ==> Signless(time))
  {
    hide ParseOffsetSecs, RFind, NoneIn, IsNumber;
    if rest != "" && rest[|rest| - 1] == 'Z' {
      place := AtZ;
      assert rest == rest[..|rest| - 1] + "Z";
    } else {
      RFindLast(rest, {'+', '-'});
      match RFind(rest, {'+', '-'}) {
        case None =>
          place := Nowhere;
          assert rest + "" == rest;
        case Some(i) =>
          var body := rest[i + 1..];
          assert rest[i..] == [rest[i]] + body;
          place := OffsetCuts(rest[i], body);
          hide ShowPlace, PlaceSecs, ProperPlace;
          assert rest == rest[..i] + rest[i..];
      }
    }
  }

  lemma ZoneReads(time: string, place: Place)
    requires ProperPlace(place) && (place.Nowhere? ==> Signless(time) && time != "" && time[|time| - 1] != 'Z')
    ensures SplitZone(time + ShowPlace(place)) == Some((time, PlaceSecs(place)))
  {
    hide ParseOffsetSecs;
    match place {
      case AtZ => assert (time + "Z")[..|time|] == time;
      case Nowhere =>
        assert time + "" == time;
        RFindNone(time, {'+', '-'});
      case Offset(sign, hours, minutes) => OffsetZoneReads(time, sign, hours, minutes);
    }
  }

  // ---- Whole texts ----

  lemma FractionExactly(frac: string)
    ensures FractionMicros(frac) == if AllDigits(frac) then Some(FloorMicros(frac)) else None
  {
    if AllDigits(frac) {
      FractionRoundsDown(frac);
    }
  }

  lemma JoinedIsFree(a: string, b: string, c: string, sep: char, chars: set<char>)
    requires NoneIn(a, chars) && NoneIn(b, chars) && NoneIn(c, chars) && sep !in chars
    ensures NoneIn(Joined(a, b, c, sep), chars)
  {
  }

  lemma DateReads(year: string, month: string, day: string)
    requires IsNumber(year) && IsNumber(month) && IsNumber(day) && '-' !in year && '-' !in month && '-' !in day
    ensures var date := Joined(year, month, day, '-');
            NoneIn(date, {'T', ' '}) && ParseTriple(date, '-') == Some((N(year), N(month), N(day)))
  {
    NumberIsFree(year, {'T', ' '});
    NumberIsFree(month, {'T', ' '});
    NumberIsFree(day, {'T', ' '});
    hide IsNumber, ParseTriple, NoneIn, N;
    JoinedIsFree(year, month, day, '-', {'T', ' '});
    assert IsTriple(Joined(year, month, day, '-'), '-', year, month, day);
    TripleExactly(Joined(year, month, day, '-'), '-', N(year), N(month), N(day));
  }

  lemma NoColon(s: string)
    requires IsNumber(s)
    ensures ':' !in s && NoneIn(s, {'.'})
  {
    NumberIsFree(s, {'.', ':'});
  }

  lemma HmsReads(hour: string, minute: string, second: string)
    requires IsNumber(hour) && IsNumber(minute) && IsNumber(second)
    ensures var hms := Joined(hour, minute, second, ':');
            NoneIn(hms, {'.'}) && ParseTriple(hms, ':') == Some((N(hour), N(minute), N(second)))
  {
    NoColon(hour);
    NoColon(minute);
    NoColon(second);
    hide IsNumber, ParseTriple, NoneIn, N;
    JoinedIsFree(hour, minute, second, ':', {'.'});
    assert IsTriple(Joined(hour, minute, second, ':'), ':', hour, minute, second);
    TripleExactly(Joined(hour, minute, second, ':'), ':', N(hour), N(minute), N(second));
  }

  lemma SignlessTime(hour: string, minute: string, second: string, fraction: Option<string>)
    requires IsNumber(second) && Signless(hour) && Signless(minute) && Signless(second)
    requires fraction.Some? ==> AllDigits(fraction.value)
    ensures var time := Joined(hour, minute, second, ':') + ShowFraction(fraction);
            Signless(time) && time != "" && time[|time| - 1] != 'Z'
  {
    NumberChars(second);
    hide IsNumber;
    var hms := Joined(hour, minute, second, ':');
    assert Signless(hms) && hms[|hms| - 1] == second[|second| - 1];
    match fraction {
      case None => assert hms + "" == hms;
      case Some(digits) => DigitsAreFree(digits, {'+', '-', 'Z'});
    }
  }

  /** A proper text is read as what it spells. */
  lemma SpelledReads(r: Reading)
    requires Proper(r)
    ensures ParseRfc3339Micros(Spell(r)) == Some(Micros(r))
  {
    hide DaysFromCivil, FloorMicros, SplitZone, FractionMicros, ParseTriple, IsNumber, N, Joined, ShowPlace, PlaceSecs;
    var date, hms := Joined(r.year, r.month, r.day, '-'), Joined(r.hour, r.minute, r.second, ':');
    DateReads(r.year, r.month, r.day);
    HmsReads(r.hour, r.minute, r.second);
    if r.place.Nowhere? {
      SignlessTime(r.hour, r.minute, r.second, r.fraction);
    }
    ZoneReads(ShowTime(r), r.place);
    SplitOnceAt(date, r.sep, ShowTime(r) + ShowPlace(r.place), {'T', ' '});
    match r.fraction {
      case None =>
        assert ShowTime(r) == hms;
        SplitOnceNone(hms, {'.'});
        FractionExactly("");
        NoFraction();
      case Some(digits) =>
        assert ShowTime(r) == hms + ['.'] + digits;
        SplitOnceAt(hms, '.', digits, {'.'});
        FractionExactly(digits);
    }
  }

  lemma NoFraction()
    ensures FloorMicros("") == 0
  {
  }

  lemma SignlessFields(hour: string, minute: string, second: string, hms: string, time: string)
    requires hms == Joined(hour, minute, second, ':') && hms <= time && Signless(time)
    ensures Signless(hour) && Signless(minute) && Signless(second)
  {
    assert forall i :: 0 <= i < |hour| ==> hour[i] == time[i];
    assert forall i :: 0 <= i < |minute| ==> minute[i] == time[|hour| + 1 + i];
    assert forall i :: 0 <= i < |second| ==> second[i] == time[|hour| + 1 + |minute| + 1 + i];
  }

  /** The parser's own cut at the dot. */
  function AtDot(time: string): (string, string) {
    match SplitOnce(time, {'.'})
    case Some((before, after)) => (before, after)
    case None => (time, "")
  }

  lemma TimeCuts(time: string) returns (hour: string, minute: string, second: string, fraction: Option<string>)
    requires ParseTriple(AtDot(time).0, ':').Some? && FractionMicros(AtDot(time).1).Some?
    ensures time == Joined(hour, minute, second, ':') + ShowFraction(fraction)
    ensures IsNumber(hour) && IsNumber(minute) && IsNumber(second)
    ensures ParseTriple(AtDot(time).0, ':').value == (N(hour), N(minute), N(second))
    ensures fraction.Some? ==> AllDigits(fraction.value)
    ensures Signless(time) ==> Signless(hour) && Signless(minute) && Signless(second)
  {
    hide FractionMicros, ParseTriple, FloorMicros, IsNumber, N, Joined, Signless;
    var (hms, frac) := AtDot(time);
    hour, minute, second := TripleCuts(hms, ':');
    FractionExactly(frac);
    if SplitOnce(time, {'.'}).Some? {
      var dot := SplitOnceCuts(time, {'.'});
      fraction := Some(frac);
      assert time == hms + (['.'] + frac);
    } else {
      fraction := None;
      assert time + "" == time;
    }
    if Signless(time) {
      SignlessFields(hour, minute, second, hms, time);
    }
  }

  /** And whatever is read has been spelled so. */
  lemma ReadIsSpelled(text: string) returns (r: Reading)
    requires ParseRfc3339Micros(text).Some?
    ensures Proper(r) && Spell(r) == text
  {
    hide DaysFromCivil, FractionMicros, ParseTriple, SplitZone, SplitOnce, IsNumber, N, Joined, Signless, ShowPlace;
    var (date, rest) := SplitOnce(text, {'T', ' '}).value;
    var sep := SplitOnceCuts(text, {'T', ' '});
    var year, month, day := TripleCuts(date, '-');
    var time := SplitZone(rest).value.0;
    var place := ZoneCuts(rest);
    var hour, minute, second, fraction := TimeCuts(time);
    r := Reading(year, month, day, sep, hour, minute, second, fraction, place);
    assert Spell(r) == date + [sep] + rest;
  }

  /** Exactly which texts are timestamps, and what each says: a text is read as a number of microseconds if
      and only if it is the spelling of a proper reading with that value. */
  lemma StampsExactly(text: string, micros: int)
    ensures ParseRfc3339Micros(text) == Some(micros) <==>
              exists r :: Spell(r) == text && Proper(r) && Micros(r) == micros
  {
    hide ParseRfc3339Micros, Proper, Spell, Micros;
    if ParseRfc3339Micros(text) == Some(micros) {
      var r := ReadIsSpelled(text);
      SpelledReads(r);
    }
    if r :| Spell(r) == text && Proper(r) && Micros(r) == micros {
      SpelledReads(r);
    }
  }

  // ---- Dates alone ----

  /** Exactly which texts are dates: three such fields, behind which anything may follow a `T` or a space;
      the month in 1-12, the day in 1-31, and the day count in 32 bits. */
  lemma DatesExactly(text: string, days: int)
    ensures ParseDateDays(text) == Some(days) <==> exists year, month, day :: SpellsDate(text, year, month, day, days)
  {
    hide ParseDateDays, SpellsDate;
    if ParseDateDays(text) == Some(days) {
      var year, month, day := DateIsSpelled(text);
    }
    if year, month, day :| SpellsDate(text, year, month, day, days) {
      SpelledDateReads(text, year, month, day, days);
    }
  }

  lemma DateIsSpelled(text: string) returns (year: string, month: string, day: string)
    requires ParseDateDays(text).Some?
    ensures SpellsDate(text, year, month, day, ParseDateDays(text).value)
  {
    hide DaysFromCivil, IsNumber, N, ParseTriple, SplitOnce, Joined, NoneIn;
    var cut := SplitOnce(text, {'T', ' '});
    var date := if cut.Some? then cut.value.0 else text;
    year, month, day := TripleCuts(date, '-');
    if cut.Some? {
      var sep := SplitOnceCuts(text, {'T', ' '});
      assert text[|date|] == sep;
    }
  }

  lemma SpelledDateReads(text: string, year: string, month: string, day: string, days: int)
    requires SpellsDate(text, year, month, day, days)
    ensures ParseDateDays(text) == Some(days)
  {
    hide DaysFromCivil, IsNumber, N, ParseTriple, SplitOnce, Joined, NoneIn;
    DateReads(year, month, day);
    DateIsCut(text, Joined(year, month, day, '-'));
  }

  predicate SpellsDate(text: string, year: string, month: string, day: string, days: int) {
    var date := Joined(year, month, day, '-');
    && IsNumber(year) && IsNumber(month) && IsNumber(day) && '-' !in year && '-' !in month && '-' !in day
    && date <= text && (|date| < |text| ==> text[|date|] in {'T', ' '})
    && 1 <= N(month) <= 12 && 1 <= N(day) <= 31
    && days == DaysFromCivil(N(year), N(month), N(day)) && -0x8000_0000 <= days <= 0x7fff_ffff
  }

  lemma DateIsCut(text: string, date: string)
    requires NoneIn(date, {'T', ' '}) && date <= text && (|date| < |text| ==> text[|date|] in {'T', ' '})
    ensures var cut := SplitOnce(text, {'T', ' '}); date == if cut.Some? then cut.value.0 else text
  {
    if |date| < |text| {
      assert text == date + [text[|date|]] + text[|date| + 1..];
      SplitOnceAt(date, text[|date|], text[|date| + 1..], {'T', ' '});
    } else {
      assert text == date;
      SplitOnceNone(date, {'T', ' '});
    }
  }
}
