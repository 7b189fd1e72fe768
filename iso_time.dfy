/**
 * Timestamp handling of the arrivals mapper: `parseIsoToMillis` (epoch milliseconds
 * of an ISO-8601 style `yyyy-MM-dd'T'HH:mm:ss` timestamp, 0 when it cannot be read)
 * and `formatToHm` (the "HH:mm" text of a timestamp).
 *
 * The parser follows the three `SimpleDateFormat` patterns tried in order and the
 * colon-stripping fallback. Each pattern reads the date-time fields, then its zone
 * designator, and (like `DateFormat.parse(String)`) ignores any text after what it
 * read. Field values are not range-checked: as in a lenient calendar, a month 13 or
 * an hour 25 rolls over into the next year or day.
 */
module IsoTime {
  import opened Wrappers
  import opened Text

  /** The wall-clock fields of `yyyy-MM-dd'T'HH:mm:ss`, as written. */
  datatype LocalDateTime = LocalDateTime(year: nat, month: nat, day: nat, hour: nat, minute: nat, second: nat)

  /** Length of the `yyyy-MM-dd'T'HH:mm:ss` part. */
  const DateTimeLength: nat := 19

  // ---- the proleptic Gregorian calendar ----

  predicate IsLeapYear(y: int) {
    y % 4 == 0 && (y % 100 != 0 || y % 400 == 0)
  }

  /** Leap years before year `y` (counted from an arbitrary origin). */
  function LeapsBefore(y: int): int {
    (y - 1) / 4 - (y - 1) / 100 + (y - 1) / 400
  }

  /** Days from 1970-01-01 to the first of January of year `y`. */
  function DaysBeforeYear(y: int): int {
    365 * (y - 1970) + LeapsBefore(y) - LeapsBefore(1970)
  }

  function DaysInMonth(y: int, m: int): int
    requires 1 <= m <= 12
  {
    if m == 2 then (if IsLeapYear(y) then 29 else 28)
    else if m == 4 || m == 6 || m == 9 || m == 11 then 30
    else 31
  }

  /** Days from the first of January of `y` to the first of month `m`. */
  function DaysBeforeMonth(y: int, m: int): int
    requires 1 <= m <= 12
  {
    var common := if m == 1 then 0 else if m == 2 then 31 else if m == 3 then 59 else if m == 4 then 90
      else if m == 5 then 120 else if m == 6 then 151 else if m == 7 then 181 else if m == 8 then 212
      else if m == 9 then 243 else if m == 10 then 273 else if m == 11 then 304 else 334;
    common + (if m > 2 && IsLeapYear(y) then 1 else 0)
  }

  /**
   * Days from 1970-01-01 to year `y`, month `m`, day `d`, with the lenient
   * calendar's rollover: month 13 is January of the next year, day 0 the last
   * day of the previous month.
   */
  function DaysFromCivil(y: int, m: int, d: int): int {
    var y' := y + (m - 1) / 12;
    var m' := (m - 1) % 12 + 1;
    DaysBeforeYear(y') + DaysBeforeMonth(y', m') + d - 1
  }

  /** Epoch milliseconds of wall-clock time `dt` in a zone `offset` minutes east of UTC. */
  function EpochMillis(dt: LocalDateTime, offset: int): int {
    var days := DaysFromCivil(dt.year, dt.month, dt.day);
    (((days * 24 + dt.hour) * 60 + dt.minute) * 60 + dt.second) * 1000 - offset * 60_000
  }

  lemma DivStep(y: int)
    ensures y / 4 - (y - 1) / 4 == (if y % 4 == 0 then 1 else 0)
    ensures y / 100 - (y - 1) / 100 == (if y % 100 == 0 then 1 else 0)
    ensures y / 400 - (y - 1) / 400 == (if y % 400 == 0 then 1 else 0)
  {
  }

  /** A year has 365 days, or 366 in a leap year. */
  lemma YearLength(y: int)
    ensures DaysBeforeYear(y + 1) - DaysBeforeYear(y) == if IsLeapYear(y) then 366 else 365
  {
    DivStep(y);
  }

  /**
   * The calendar has no gaps or overlaps: the day after the last day of a month
   * is the first of the next one (for December, the first of January of the
   * next year).
   */
  lemma MonthRollover(y: int, m: int)
    requires 1 <= m <= 12
    ensures DaysFromCivil(y, m, DaysInMonth(y, m) + 1) == DaysFromCivil(y, m + 1, 1)
  {
    assert (m - 1) / 12 == 0 && (m - 1) % 12 + 1 == m;
    if m == 12 {
      assert m / 12 == 1 && m % 12 + 1 == 1;
      YearLength(y);
    } else {
      assert m / 12 == 0 && m % 12 + 1 == m + 1;
    }
  }

  // ---- reading the text ----

  /** `w` ASCII digits at index `i`, as a number. */
  function DigitsAt(s: string, i: nat, w: nat): (r: Option<nat>)
    ensures r.Some? <==> i + w <= |s| && AllDigits(s[i..i + w])
    ensures r.Some? ==> r.value == DecimalValue(s[i..i + w])
  {
    if i + w <= |s| && AllDigits(s[i..i + w]) then Some(DecimalValue(s[i..i + w])) else None
  }

  /** The fields of a 19-character `yyyy-MM-dd'T'HH:mm:ss` text. */
  function ParseDateTimeText(d: string): Option<LocalDateTime>
    requires |d| == DateTimeLength
  {
    var y, mo, dd := DigitsAt(d, 0, 4), DigitsAt(d, 5, 2), DigitsAt(d, 8, 2);
    var h, mi, s := DigitsAt(d, 11, 2), DigitsAt(d, 14, 2), DigitsAt(d, 17, 2);
    if d[4] == '-' && d[7] == '-' && d[10] == 'T' && d[13] == ':' && d[16] == ':'
       && y.Some? && mo.Some? && dd.Some? && h.Some? && mi.Some? && s.Some?
    then Some(LocalDateTime(y.value, mo.value, dd.value, h.value, mi.value, s.value))
    else None
  }

  /** The date-time fields every pattern starts with. */
  function ParseDateTime(ts: string): Option<LocalDateTime> {
    if |ts| < DateTimeLength then None else ParseDateTimeText(ts[..DateTimeLength])
  }

  function SignOf(c: char): int {
    if c == '+' then 1 else if c == '-' then -1 else 0
  }

  /** The three patterns, in the order they are tried. */
  datatype ZonePattern =
    | IsoOffsetWithColon  // "yyyy-MM-dd'T'HH:mm:ssXXX": Z or +hh:mm
    | IsoHourOffset       // "yyyy-MM-dd'T'HH:mm:ssX": Z or +hh
    | NoOffset            // "yyyy-MM-dd'T'HH:mm:ss": the device's zone

  const Patterns: seq<ZonePattern> := [IsoOffsetWithColon, IsoHourOffset, NoOffset]

  /**
   * The zone offset, in minutes east of UTC, that pattern `p` reads from the text
   * `rest` after the date-time. An ISO zone is `Z` or a sign and two hour digits
   * (at most 23); `XXX` also needs a colon and two minute digits (at most 59),
   * while `X` reads no minutes at all.
   */
  function ParseZone(rest: string, p: ZonePattern, localOffset: int): Option<int> {
    if p == NoOffset then Some(localOffset)
    else if rest == [] then None
    else if rest[0] == 'Z' then Some(0)
    else if SignOf(rest[0]) == 0 then None
    else
      var hh := DigitsAt(rest, 1, 2);
      if hh.None? || hh.value > 23 then None
      else if p == IsoHourOffset then Some(SignOf(rest[0]) * hh.value * 60)
      else if |rest| < 4 || rest[3] != ':' then None
      else
        var mm := DigitsAt(rest, 4, 2);
        if mm.None? || mm.value > 59 then None
        else Some(SignOf(rest[0]) * (hh.value * 60 + mm.value))
  }

  /** Epoch milliseconds that one pattern reads from `ts`, if it accepts it. */
  function PatternMillis(ts: string, p: ZonePattern, localOffset: int): Option<int> {
    match ParseDateTime(ts)
    case None => None
    case Some(dt) =>
      match ParseZone(ts[DateTimeLength..], p, localOffset)
      case None => None
      case Some(offset) => Some(EpochMillis(dt, offset))
  }

  /** The first of the patterns `ps` that accepts `ts`. */
  function FirstAccepted(ts: string, ps: seq<ZonePattern>, localOffset: int): Option<int> {
    if ps == [] then None
    else PatternMillis(ts, ps[0], localOffset).OrElse(FirstAccepted(ts, ps[1..], localOffset))
  }

  /** `ts.replace(Regex("([+-]\\d{2}):(\\d{2})$"), "$1$2")`: drop the colon of a final `+hh:mm`. */
  function DropOffsetColon(ts: string): string {
    var n := |ts|;
    if n >= 6 && SignOf(ts[n - 6]) != 0 && IsDigit(ts[n - 5]) && IsDigit(ts[n - 4])
       && ts[n - 3] == ':' && IsDigit(ts[n - 2]) && IsDigit(ts[n - 1])
    then ts[..n - 3] + ts[n - 2..]
    else ts
  }

  /** An RFC 822 zone (`Z` pattern letter): a sign, two hour digits, two minute digits. */
  function Rfc822Zone(rest: string): Option<int> {
    if rest == [] || SignOf(rest[0]) == 0 then None
    else
      var hh, mm := DigitsAt(rest, 1, 2), DigitsAt(rest, 3, 2);
      if hh.None? || hh.value > 23 || mm.None? || mm.value > 59 then None
      else Some(SignOf(rest[0]) * (hh.value * 60 + mm.value))
  }

  /** The fallback: pattern "yyyy-MM-dd'T'HH:mm:ssZ" on the text without the offset colon. */
  function FallbackMillis(ts: string): Option<int> {
    var alt := DropOffsetColon(ts);
    match ParseDateTime(alt)
    case None => None
    case Some(dt) =>
      match Rfc822Zone(alt[DateTimeLength..])
      case None => None
      case Some(offset) => Some(EpochMillis(dt, offset))
  }

  /** What `parseIsoToMillis` returns: the first accepting pattern's instant, else 0. */
  function IsoToMillis(ts: Option<string>, localOffset: int): int {
    if IsNullOrBlank(ts) then 0
    else FirstAccepted(ts.value, Patterns, localOffset).OrElse(FallbackMillis(ts.value)).GetOr(0)
  }

  /**
   * `parseIsoToMillis`: try the patterns in order and return on the first that
   * parses, then the fallback, then 0. The device's time zone is the parameter
   * `localOffset` (minutes east of UTC).
   */
  method ParseIsoToMillis(ts: Option<string>, localOffset: int) returns (millis: int)
    ensures millis == IsoToMillis(ts, localOffset)
    ensures IsNullOrBlank(ts) ==> millis == 0
  {
    if IsNullOrBlank(ts) {
      return 0;
    }
    var text := ts.value;
    var i := 0;
    while i < |Patterns|
      invariant 0 <= i <= |Patterns|
      invariant FirstAccepted(text, Patterns, localOffset) == FirstAccepted(text, Patterns[i..], localOffset)
    {
      var parsed := PatternMillis(text, Patterns[i], localOffset);
      if parsed.Some? {
        return parsed.value;
      }
      i := i + 1;
    }
    var parsed2 := FallbackMillis(text);
    if parsed2.Some? {
      return parsed2.value;
    }
    return 0;
  }

  /**
   * The colon-stripping fallback never decides a result: whenever it would
   * accept a text, the zone-less pattern has already accepted it.
   */
  lemma FallbackNeverDecides(ts: string, localOffset: int)
    requires FallbackMillis(ts).Some?
    ensures PatternMillis(ts, NoOffset, localOffset).Some?
    ensures IsoToMillis(Some(ts), localOffset) != 0 ==> FirstAccepted(ts, Patterns, localOffset).Some?
  {
    var n := |ts|;
    var alt := DropOffsetColon(ts);
    assert ParseDateTime(alt).Some?;
    if alt != ts {
      assert alt[..DateTimeLength] == ts[..DateTimeLength];
    }
    assert ParseDateTime(ts).Some?;
    assert ParseZone(ts[DateTimeLength..], NoOffset, localOffset).Some?;
    FirstAcceptedTail(ts, localOffset);
  }

  /** The three patterns are tried in order. */
  lemma FirstAcceptedTail(ts: string, localOffset: int)
    ensures FirstAccepted(ts, Patterns, localOffset)
         == PatternMillis(ts, IsoOffsetWithColon, localOffset).OrElse(
              PatternMillis(ts, IsoHourOffset, localOffset).OrElse(
                PatternMillis(ts, NoOffset, localOffset)))
  {
    assert Patterns[1..] == [IsoHourOffset, NoOffset];
    assert Patterns[1..][1..] == [NoOffset];
    assert Patterns[1..][1..][1..] == [];
    assert FirstAccepted(ts, [NoOffset], localOffset) == PatternMillis(ts, NoOffset, localOffset);
  }

  // ---- writing timestamps, to state what the parser reads back ----

  /** A zone designator as a timestamp may carry it. */
  datatype Zone =
    | Utc                                                    // "Z"
    | ColonOffset(east: bool, hours: nat, minutes: nat)      // "+hh:mm"
    | HourOffset(east: bool, hours: nat)                     // "+hh"
    | CompactOffset(east: bool, hours: nat, minutes: nat)    // "+hhmm"
    | Unzoned                                                // nothing

  predicate ValidZone(z: Zone) {
    match z
    case Utc => true
    case ColonOffset(_, h, m) => h <= 23 && m <= 59
    case HourOffset(_, h) => h <= 23
    case CompactOffset(_, h, m) => h <= 23 && m <= 59
    case Unzoned => true
  }

  function SignChar(east: bool): char {
    if east then '+' else '-'
  }

  function ZoneText(z: Zone): string
    requires ValidZone(z)
  {
    match z
    case Utc => "Z"
    case ColonOffset(e, h, m) => [SignChar(e)] + Padded(h, 2) + ":" + Padded(m, 2)
    case HourOffset(e, h) => [SignChar(e)] + Padded(h, 2)
    case CompactOffset(e, h, m) => [SignChar(e)] + Padded(h, 2) + Padded(m, 2)
    case Unzoned => ""
  }

  predicate Writable(dt: LocalDateTime) {
    dt.year < 10000 && dt.month < 100 && dt.day < 100 && dt.hour < 100 && dt.minute < 100 && dt.second < 100
  }

  /** `yyyy-MM-dd'T'HH:mm:ss` */
  function DateTimeText(dt: LocalDateTime): (d: string)
    requires Writable(dt)
    ensures |d| == DateTimeLength
  {
    Padded(dt.year, 4) + "-" + Padded(dt.month, 2) + "-" + Padded(dt.day, 2) + "T"
    + Padded(dt.hour, 2) + ":" + Padded(dt.minute, 2) + ":" + Padded(dt.second, 2)
  }

  function FormatIso(dt: LocalDateTime, z: Zone): string
    requires Writable(dt) && ValidZone(z)
  {
    DateTimeText(dt) + ZoneText(z)
  }

  lemma {:induction false} DateTimeRoundTrip(dt: LocalDateTime)
    requires Writable(dt)
    ensures ParseDateTimeText(DateTimeText(dt)) == Some(dt)
  {
    var d := DateTimeText(dt);
    assert d[0..4] == Padded(dt.year, 4);
    assert d[5..7] == Padded(dt.month, 2);
    assert d[8..10] == Padded(dt.day, 2);
    assert d[11..13] == Padded(dt.hour, 2);
    assert d[14..16] == Padded(dt.minute, 2);
    assert d[17..19] == Padded(dt.second, 2);
    assert Pow10(2) == 100 && Pow10(4) == 10000;
    PaddedRoundTrip(dt.year, 4);
    PaddedRoundTrip(dt.month, 2);
    PaddedRoundTrip(dt.day, 2);
    PaddedRoundTrip(dt.hour, 2);
    PaddedRoundTrip(dt.minute, 2);
    PaddedRoundTrip(dt.second, 2);
  }

  /** The offset, in minutes east of UTC, that the parser reads for each zone designator. */
  function ReadOffset(z: Zone, localOffset: int): int {
    match z
    case Utc => 0
    case ColonOffset(e, h, m) => (if e then 1 else -1) * (h * 60 + m)
    case HourOffset(e, h) => (if e then 1 else -1) * h * 60
    case CompactOffset(e, h, _) => (if e then 1 else -1) * h * 60  // the X pattern reads no minutes
    case Unzoned => localOffset
  }

  /**
   * Parsing a written timestamp gives back its instant: `Z` is UTC, `+hh:mm` and
   * `+hh` are read in full, a missing zone means the device's zone, and for
   * `+hhmm` the `X` pattern accepts first and keeps only the hours.
   */
  lemma ParseFormatted(dt: LocalDateTime, z: Zone, localOffset: int)
    requires Writable(dt) && ValidZone(z)
    ensures IsoToMillis(Some(FormatIso(dt, z)), localOffset) == EpochMillis(dt, ReadOffset(z, localOffset))
  {
    var ts := FormatIso(dt, z);
    assert !IsBlank(ts) by { assert !IsWhitespace(ts[0]); }
    FirstAcceptedTail(ts, localOffset);
    PatternOnFormatted(dt, z, IsoOffsetWithColon, localOffset);
    PatternOnFormatted(dt, z, IsoHourOffset, localOffset);
    PatternOnFormatted(dt, z, NoOffset, localOffset);
    ZoneTextRead(z, localOffset);
  }

  /** A pattern applied to a written timestamp reads back the date-time and its own reading of the zone. */
  lemma PatternOnFormatted(dt: LocalDateTime, z: Zone, p: ZonePattern, localOffset: int)
    requires Writable(dt) && ValidZone(z)
    ensures PatternMillis(FormatIso(dt, z), p, localOffset)
         == match ParseZone(ZoneText(z), p, localOffset)
            case None => None
            case Some(offset) => Some(EpochMillis(dt, offset))
  {
    var ts := FormatIso(dt, z);
    assert ts[..DateTimeLength] == DateTimeText(dt);
    assert ts[DateTimeLength..] == ZoneText(z);
    DateTimeRoundTrip(dt);
  }

  /** How each pattern reads each zone designator. */
  lemma ZoneTextRead(z: Zone, localOffset: int)
    requires ValidZone(z)
    ensures ParseZone(ZoneText(z), NoOffset, localOffset) == Some(localOffset)
    ensures z.Utc? || z.ColonOffset? ==> ParseZone(ZoneText(z), IsoOffsetWithColon, localOffset) == Some(ReadOffset(z, localOffset))
    ensures z.HourOffset? || z.CompactOffset? || z.Unzoned? ==> ParseZone(ZoneText(z), IsoOffsetWithColon, localOffset) == None
    ensures z.HourOffset? || z.CompactOffset? ==> ParseZone(ZoneText(z), IsoHourOffset, localOffset) == Some(ReadOffset(z, localOffset))
    ensures z.Unzoned? ==> ParseZone(ZoneText(z), IsoHourOffset, localOffset) == None
  {
    match z {
      case Utc =>
      case ColonOffset(e, h, m) => ColonZoneRead(e, h, m);
      case HourOffset(e, h) => HourZoneRead(e, h);
      case CompactOffset(e, h, m) => CompactZoneRead(e, h, m);
      case Unzoned =>
    }
  }

  lemma ColonZoneRead(e: bool, h: nat, m: nat)
    requires h <= 23 && m <= 59
    ensures var rest := ZoneText(ColonOffset(e, h, m));
      DigitsAt(rest, 1, 2) == Some(h) && |rest| == 6 && rest[3] == ':' && DigitsAt(rest, 4, 2) == Some(m)
  {
    var rest := ZoneText(ColonOffset(e, h, m));
    assert Pow10(2) == 100;
    assert rest[1..3] == Padded(h, 2) && rest[4..6] == Padded(m, 2);
    PaddedRoundTrip(h, 2);
    PaddedRoundTrip(m, 2);
  }

  lemma HourZoneRead(e: bool, h: nat)
    requires h <= 23
    ensures var rest := ZoneText(HourOffset(e, h));
      DigitsAt(rest, 1, 2) == Some(h) && |rest| == 3
  {
    var rest := ZoneText(HourOffset(e, h));
    assert Pow10(2) == 100;
    assert rest[1..3] == Padded(h, 2);
    PaddedRoundTrip(h, 2);
  }

  lemma CompactZoneRead(e: bool, h: nat, m: nat)
    requires h <= 23 && m <= 59
    ensures var rest := ZoneText(CompactOffset(e, h, m));
      DigitsAt(rest, 1, 2) == Some(h) && |rest| == 5 && IsDigit(rest[3])
  {
    var hh, mm := Padded(h, 2), Padded(m, 2);
    var rest := ZoneText(CompactOffset(e, h, m));
    assert rest == [SignChar(e)] + hh + mm;
    assert rest[1..3] == hh && rest[3] == mm[0];
    assert Pow10(2) == 100;
    PaddedRoundTrip(h, 2);
  }

  // ---- formatToHm ----

  /** `ts.substringAfter('T', ts)`: the text after the first 'T', or all of `ts` without one. */
  function AfterFirstT(ts: string): (r: string)
    ensures |r| <= |ts| && r == ts[|ts| - |r|..]
    ensures |r| < |ts| ==> ts[|ts| - |r| - 1] == 'T' && forall i | 0 <= i < |ts| - |r| - 1 :: ts[i] != 'T'
    ensures |r| == |ts| ==> forall i | 0 <= i < |ts| :: ts[i] != 'T'
  {
    if ts == [] then []
    else if ts[0] == 'T' then ts[1..]
    else
      var r := AfterFirstT(ts[1..]);
      if |r| == |ts| - 1 then ts else r
  }

  /**
   * `formatToHm`: absent for a missing or blank timestamp; otherwise the first
   * five characters after the first 'T' (fewer when the text is shorter).
   */
  function FormatToHm(ts: Option<string>): (r: Option<string>)
    ensures r.None? <==> IsNullOrBlank(ts)
    ensures r.Some? ==> |r.value| <= 5 && r.value <= AfterFirstT(ts.value)
    ensures r.Some? && |AfterFirstT(ts.value)| >= 5 ==> |r.value| == 5
    ensures r.Some? && |AfterFirstT(ts.value)| < 5 ==> r.value == AfterFirstT(ts.value)
  {
    if IsNullOrBlank(ts) then None
    else
      var timePart := AfterFirstT(ts.value);
      Some(if |timePart| >= 5 then timePart[..5] else timePart)
  }

  /** The short time of a written timestamp is its "HH:mm". */
  lemma FormatToHmOfFormatted(dt: LocalDateTime, z: Zone)
    requires Writable(dt) && ValidZone(z)
    ensures FormatToHm(Some(FormatIso(dt, z))) == Some(Padded(dt.hour, 2) + ":" + Padded(dt.minute, 2))
  {
    var ts := FormatIso(dt, z);
    assert !IsBlank(ts) by { assert !IsWhitespace(ts[0]); }
    assert ts[10] == 'T';
    assert forall i | 0 <= i < 10 :: ts[i] != 'T';
    var after := AfterFirstT(ts);
    assert |after| == |ts| - 11;
    assert after[..5] == Padded(dt.hour, 2) + ":" + Padded(dt.minute, 2);
  }

  /** 08:15 at UTC+2 on 2024-05-01. */
  lemma ExampleTimestamp(localOffset: int)
    ensures IsoToMillis(Some("2024-05-01T08:15:00+02:00"), localOffset) == 1_714_544_100_000
    ensures FormatToHm(Some("2024-05-01T08:15:00+02:00")) == Some("08:15")
  {
    var dt := LocalDateTime(2024, 5, 1, 8, 15, 0);
    var z := ColonOffset(true, 2, 0);
    ExampleText();
    ParseFormatted(dt, z, localOffset);
    FormatToHmOfFormatted(dt, z);
    ExampleInstant();
  }

  lemma ExampleText()
    ensures FormatIso(LocalDateTime(2024, 5, 1, 8, 15, 0), ColonOffset(true, 2, 0)) == "2024-05-01T08:15:00+02:00"
    ensures Padded(8, 2) + ":" + Padded(15, 2) == "08:15"
  {
    ExampleFields();
    ExampleDateTimeText();
    ExampleZoneText();
  }

  lemma ExampleDateTimeText()
    ensures DateTimeText(LocalDateTime(2024, 5, 1, 8, 15, 0)) == "2024-05-01T08:15:00"
  {
    ExampleFields();
  }

  lemma ExampleZoneText()
    ensures ZoneText(ColonOffset(true, 2, 0)) == "+02:00"
  {
    ExampleFields();
  }

  lemma ExampleFields()
    ensures Padded(2024, 4) == "2024" && Padded(5, 2) == "05" && Padded(1, 2) == "01"
    ensures Padded(8, 2) == "08" && Padded(15, 2) == "15" && Padded(0, 2) == "00" && Padded(2, 2) == "02"
  {
    ExampleYear();
    TwoDigits(5);
    TwoDigits(1);
    TwoDigits(8);
    TwoDigits(15);
    TwoDigits(0);
    TwoDigits(2);
  }

  lemma ExampleYear()
    ensures Padded(2024, 4) == "2024"
  {
    TwoDigits(20);
    assert Padded(20, 2) == "20";
    PaddedNext(202, 3, '2');
    PaddedNext(2024, 4, '4');
  }

  /** Writing one more digit appends the units digit of the number. */
  lemma PaddedNext(n: nat, w: nat, c: char)
    requires w > 0 && c as int - '0' as int == n % 10
    ensures Padded(n, w) == Padded(n / 10, w - 1) + [c]
  {
  }

  /** A number below 100 in two digits: tens, then units. */
  lemma TwoDigits(n: nat)
    requires n < 100
    ensures Padded(n, 2) == [DigitChar(n / 10), DigitChar(n % 10)]
  {
    var tens := n / 10;
    assert tens < 10 && tens / 10 == 0 && tens % 10 == tens;
    assert Padded(tens, 1) == Padded(0, 0) + [DigitChar(tens)];
    assert Padded(n, 2) == Padded(tens, 1) + [DigitChar(n % 10)];
  }

  lemma ExampleInstant()
    ensures EpochMillis(LocalDateTime(2024, 5, 1, 8, 15, 0), 120) == 1_714_544_100_000
  {
    assert DaysBeforeYear(2024) == 19723;
    assert DaysFromCivil(2024, 5, 1) == 19844;
  }
}
