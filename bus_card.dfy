/**
 * The values a bus card shows for one arrival: the badge text, whether
 * real-time data is available, the vehicle text, the delay label and the
 * countdown. All arithmetic is Kotlin's: 64-bit `Long` subtraction wraps,
 * `Long` division truncates toward zero, `toInt()` keeps the low 32 bits and
 * `abs` of the smallest `Int` is that same negative number.
 */
module BusCard {
  import opened Wrappers
  import opened Text
  import opened Dtos
  import opened LineKeys
  import opened LineIndexes
  import opened LineMatching
  import opened ArrivalsMapper
  import opened IsoTime

  const LongMin: int := -0x8000_0000_0000_0000
  const LongMax: int := 0x7FFF_FFFF_FFFF_FFFF
  const MillisPerMinute: int := 60_000

  predicate IsLong(x: int) {
    LongMin <= x <= LongMax
  }

  /** Two's-complement wrap-around to 64 bits. */
  function WrapLong(x: int): (r: int)
    ensures IsLong(r)
    ensures IsLong(x) ==> r == x
    ensures (r - x) % 0x1_0000_0000_0000_0000 == 0
  {
    (x - LongMin) % 0x1_0000_0000_0000_0000 + LongMin
  }

  /** Two's-complement wrap-around to 32 bits: `Long.toInt()`. */
  function WrapInt(x: int): (r: int)
    ensures Int32Min <= r <= Int32Max
    ensures Int32Min <= x <= Int32Max ==> r == x
    ensures (r - x) % 0x1_0000_0000 == 0
  {
    (x - Int32Min) % 0x1_0000_0000 + Int32Min
  }

  /** Division truncating toward zero, as on the JVM. */
  function TruncDiv(a: int, b: int): (q: int)
    requires b > 0
    ensures a >= 0 ==> q * b <= a < (q + 1) * b
    ensures a < 0 ==> (q - 1) * b < a <= q * b
  {
    if a >= 0 then a / b else -((-a) / b)
  }

  // ---- badge, real-time flag, vehicle and schedule texts ----

  /** The badge: the public label, else the line number, else "-". */
  function BadgeText(a: Arrival): string {
    if a.lijnNummerPubliek.Some? then a.lijnNummerPubliek.value
    else if a.lijnnummer.Some? then a.lijnnummer.value
    else "-"
  }

  /** Real-time data is shown exactly when a real arrival time is known. */
  predicate RealtimeAvailable(a: Arrival) {
    a.realArrivalMillis > 0
  }

  /** The vehicle number (or "-") with real-time data, "sched" without. */
  function VehicleText(a: Arrival): string {
    if RealtimeAvailable(a) then a.vrtnum.GetOr("-") else "sched"
  }

  /** The scheduled "HH:mm", or "--:--" when there is none. */
  function ScheduledText(a: Arrival): string {
    a.scheduledTimeFormatted.GetOr("--:--")
  }

  /**
   * On a card built from a passage, the badge shows the matched line's public
   * label when it has one, and otherwise the normalised line number or "-".
   */
  lemma BadgeOfMappedArrival(dto: DoorkomstDto, lines: Option<seq<LineDto>>, localOffset: int)
    ensures var m := MatchLine(dto, lines);
      BadgeText(ArrivalOf(dto, lines, localOffset))
      == if m.Some? && m.value.lijnNummerPubliek.Some? then m.value.lijnNummerPubliek.value
         else if dto.lijnnummer.Some? then NormalizeLijnnummer(dto.lijnnummer).value
         else "-"
  {
    var a := ArrivalOf(dto, lines, localOffset);
    assert a.lijnNummerPubliek == MetadataOfArrival(a).lijnNummerPubliek;
  }

  /**
   * A mapped arrival shows real-time data only when its real-time timestamp is
   * present and not blank.
   */
  lemma RealtimeNeedsTimestamp(dto: DoorkomstDto, lines: Option<seq<LineDto>>, localOffset: int)
    ensures RealtimeAvailable(ArrivalOf(dto, lines, localOffset)) ==> !IsNullOrBlank(RealTimeText(dto))
  {
  }

  /**
   * A mapped arrival without a real-time timestamp shows "sched"; with
   * real-time data it shows the vehicle of the first nested real-time entry,
   * else the passage's own, else "-".
   */
  lemma VehicleOfMappedArrival(dto: DoorkomstDto, lines: Option<seq<LineDto>>, localOffset: int)
    ensures var a := ArrivalOf(dto, lines, localOffset);
      IsNullOrBlank(RealTimeText(dto)) ==> VehicleText(a) == "sched"
    ensures var a := ArrivalOf(dto, lines, localOffset);
      RealtimeAvailable(a) ==> VehicleText(a) == VehicleOf(dto).GetOr("-")
  {
    var a := ArrivalOf(dto, lines, localOffset);
    assert a.vrtnum == VehicleOf(dto);
    RealtimeNeedsTimestamp(dto, lines, localOffset);
  }

  /**
   * A mapped arrival shows "--:--" exactly when its scheduled timestamp is
   * missing or blank, and otherwise the short time of that timestamp.
   */
  lemma ScheduledOfMappedArrival(dto: DoorkomstDto, lines: Option<seq<LineDto>>, localOffset: int)
    ensures IsNullOrBlank(dto.dienstregelingTijdstip) ==> ScheduledText(ArrivalOf(dto, lines, localOffset)) == "--:--"
    ensures !IsNullOrBlank(dto.dienstregelingTijdstip) ==>
      ScheduledText(ArrivalOf(dto, lines, localOffset)) == FormatToHm(dto.dienstregelingTijdstip).value
  {
  }

  // ---- delay ----

  /** `((actual - expected) / 60_000).toInt()` */
  function DelayMinutes(actual: int, expected: int): int {
    WrapInt(TruncDiv(WrapLong(actual - expected), MillisPerMinute))
  }

  /**
   * For times a few millennia apart or less, the delay is the difference in
   * whole minutes, truncated toward zero: late arrivals round down, early ones up.
   */
  lemma DelayTruncatesTowardZero(actual: int, expected: int)
    requires IsLong(actual) && IsLong(expected)
    requires -MillisPerMinute * 0x8000_0000 < actual - expected < MillisPerMinute * 0x8000_0000
    ensures var d := DelayMinutes(actual, expected);
      && (actual >= expected ==> 0 <= d && d * MillisPerMinute <= actual - expected < (d + 1) * MillisPerMinute)
      && (actual < expected ==> d <= 0 && (d - 1) * MillisPerMinute < actual - expected <= d * MillisPerMinute)
  {
    var diff := actual - expected;
    assert IsLong(diff);
    var q := TruncDiv(diff, MillisPerMinute);
    assert -0x8000_0000 <= q <= 0x7FFF_FFFF;
  }

  /** `abs` on an `Int`: the smallest `Int` has no positive counterpart and stays as it is. */
  function AbsInt32(d: int): (r: int)
    requires Int32Min <= d <= Int32Max
    ensures d != Int32Min ==> r >= 0 && (r == d || r == -d)
    ensures d == Int32Min ==> r == d
  {
    if d == Int32Min then d else if d < 0 then -d else d
  }

  /** The delay label: "on time", "+ n" for late, "- n" for early. */
  function DelayText(d: int): (s: string)
    requires Int32Min <= d <= Int32Max
    ensures s == "on time" <==> d == 0
    ensures d > 0 ==> s == "+ " + NatToDecimal(d)
    ensures d < 0 && d != Int32Min ==> s == "- " + NatToDecimal(-d)
    ensures |s| > 0 && s[0] in "o+-"
  {
    if d == 0 then "on time"
    else if d > 0 then
      var t := "+ " + IntToDecimal(d);
      assert t[0] == '+';
      t
    else
      var m := AbsInt32(d);
      assert d != Int32Min ==> m == -d;
      var t := "- " + IntToDecimal(m);
      assert t[0] == '-';
      t
  }

  /** The label an arrival shows under its scheduled time. */
  function StatusText(a: Arrival): (s: string)
    requires IsLong(a.realArrivalMillis) && IsLong(a.expectedArrivalMillis)
    ensures s == "schedule" <==> !RealtimeAvailable(a)
    ensures s == "on time" <==> RealtimeAvailable(a) && DelayMinutes(a.realArrivalMillis, a.expectedArrivalMillis) == 0
    ensures RealtimeAvailable(a) ==> s == DelayText(DelayMinutes(a.realArrivalMillis, a.expectedArrivalMillis))
  {
    if RealtimeAvailable(a) then DelayText(DelayMinutes(a.realArrivalMillis, a.expectedArrivalMillis))
    else "schedule"
  }

  /** Reads a delay label back into minutes. */
  function ReadDelay(s: string): Option<int> {
    if s == "on time" then Some(0)
    else if |s| >= 3 && s[..2] == "+ " && AllDigits(s[2..]) then Some(DecimalValue(s[2..]))
    else if |s| >= 3 && s[..2] == "- " && AllDigits(s[2..]) then
      var n: int := DecimalValue(s[2..]);
      Some(-n)
    else None
  }

  /** Every delay except the smallest `Int` can be read back from its label. */
  lemma DelayTextRoundTrip(d: int)
    requires Int32Min < d <= Int32Max
    ensures ReadDelay(DelayText(d)) == Some(d)
  {
    var s := DelayText(d);
    if d > 0 {
      assert s[2..] == NatToDecimal(d);
      DecimalRoundTrip(d);
    } else if d < 0 {
      assert s[2..] == NatToDecimal(-d);
      DecimalRoundTrip(-d);
    }
  }

  /** The smallest `Int` delay is written with two minus signs. */
  lemma SmallestDelayText()
    ensures DelayText(Int32Min)[..3] == "- -"
  {
  }

  // ---- countdown ----

  /**
   * The remaining time: to the real arrival if known, else to the scheduled
   * one if known, else the `Long.MIN_VALUE` sentinel.
   */
  function RemainingMillis(a: Arrival, now: int): (r: int)
    ensures IsLong(r)
    ensures a.realArrivalMillis > 0 && IsLong(a.realArrivalMillis - now) ==> r == a.realArrivalMillis - now
    ensures a.realArrivalMillis <= 0 && a.expectedArrivalMillis > 0 && IsLong(a.expectedArrivalMillis - now)
            ==> r == a.expectedArrivalMillis - now
    ensures a.realArrivalMillis <= 0 && a.expectedArrivalMillis <= 0 ==> r == LongMin
  {
    if a.realArrivalMillis > 0 then WrapLong(a.realArrivalMillis - now)
    else if a.expectedArrivalMillis > 0 then WrapLong(a.expectedArrivalMillis - now)
    else LongMin
  }

  /** `formatCountdownMillis` */
  function FormatCountdownMillis(r: int): (s: string)
    requires IsLong(r)
    ensures s == "" <==> r == LongMin
    ensures s == "departed" <==> LongMin < r < 0
    ensures s == "at stop" <==> 0 <= r < 20_000
    ensures s == "arriving" <==> 20_000 <= r < MillisPerMinute
    ensures r >= MillisPerMinute ==> |s| > 3 && s[..3] == "in " && s[3..] == MinutesText(r / MillisPerMinute)
  {
    if r == LongMin then ""
    else if r < 0 then "departed"
    else if r < 20_000 then "at stop"
    else if r < MillisPerMinute then "arriving"
    else
      var t := "in " + MinutesText(r / MillisPerMinute);
      assert t[0] == 'i' && t[..3] == "in ";
      t
  }

  /** The part after "in ": whole minutes below an hour, else hours and any leftover minutes. */
  function MinutesText(minutes: nat): string {
    if minutes < 60 then NatToDecimal(minutes) + " min"
    else
      var hours, mins := minutes / 60, minutes % 60;
      if mins == 0 then NatToDecimal(hours) + " h"
      else NatToDecimal(hours) + " h " + NatToDecimal(mins) + " min"
  }

  /** Reads a countdown of the form "in m min", "in h h" or "in h h m min" back into whole minutes. */
  function ReadCountdownMinutes(s: string): Option<nat> {
    if |s| < 3 || s[..3] != "in " then None else ReadAmount(s[3..])
  }

  /** A number, then its unit. */
  function ReadAmount(rest: string): Option<nat> {
    var d := DigitPrefix(rest);
    if d == [] then None else ReadUnit(DecimalValue(d), rest[|d|..])
  }

  /** " min" after minutes, " h" after hours, or " h " after hours and then minutes. */
  function ReadUnit(n: nat, tail: string): Option<nat> {
    if tail == " min" then Some(n)
    else if tail == " h" then Some(n * 60)
    else if |tail| > 3 && tail[..3] == " h " then
      var d := DigitPrefix(tail[3..]);
      if d != [] && tail[3..][|d|..] == " min" then Some(n * 60 + DecimalValue(d)) else None
    else None
  }

  /** A countdown of a minute or more reads back as the whole minutes remaining. */
  lemma CountdownRoundTrip(r: int)
    requires IsLong(r) && r >= MillisPerMinute
    ensures ReadCountdownMinutes(FormatCountdownMillis(r)) == Some(r / MillisPerMinute)
  {
    var minutes := r / MillisPerMinute;
    var s := FormatCountdownMillis(r);
    ReadAfterIn(s);
    assert s[3..] == MinutesText(minutes);
    AmountRoundTrip(minutes);
  }

  /** The part after "in " reads back as the minutes it was written from. */
  lemma AmountRoundTrip(minutes: nat)
    ensures ReadAmount(MinutesText(minutes)) == Some(minutes)
  {
    if minutes < 60 {
      MinutesAmount(minutes);
    } else if minutes % 60 == 0 {
      HoursAmount(minutes);
    } else {
      HoursAndMinutesAmount(minutes);
    }
  }

  lemma MinutesAmount(minutes: nat)
    requires minutes < 60
    ensures ReadAmount(MinutesText(minutes)) == Some(minutes)
  {
    NumberThen(minutes, " min");
  }

  lemma HoursAmount(minutes: nat)
    requires minutes >= 60 && minutes % 60 == 0
    ensures ReadAmount(MinutesText(minutes)) == Some(minutes)
  {
    NumberThen(minutes / 60, " h");
    HoursAndMinutes(minutes);
  }

  lemma HoursAndMinutesAmount(minutes: nat)
    requires minutes >= 60 && minutes % 60 != 0
    ensures ReadAmount(MinutesText(minutes)) == Some(minutes)
  {
    var h, m := minutes / 60, minutes % 60;
    HoursAndMinutesText(minutes, h, m);
    HoursThenMinutesAmount(h, m, minutes);
  }

  /** Above an hour, with minutes left over, the countdown writes hours and minutes. */
  lemma HoursAndMinutesText(minutes: nat, h: nat, m: nat)
    requires minutes >= 60 && m == minutes % 60 != 0 && h == minutes / 60
    ensures MinutesText(minutes) == NatToDecimal(h) + " h " + NatToDecimal(m) + " min"
    ensures h * 60 + m == minutes
  {
  }

  /** "h h m min" reads back as h hours and m minutes. */
  lemma HoursThenMinutesAmount(h: nat, m: nat, minutes: nat)
    requires minutes == h * 60 + m
    ensures ReadAmount(NatToDecimal(h) + " h " + NatToDecimal(m) + " min") == Some(minutes)
  {
    var tail := " h " + NatToDecimal(m) + " min";
    assert NatToDecimal(h) + " h " + NatToDecimal(m) + " min" == NatToDecimal(h) + tail;
    HoursTail(NatToDecimal(m));
    NumberThen(h, tail);
    HoursThenMinutes(h, m);
  }

  /** A number written out and followed by a non-digit reads back as that number. */
  lemma NumberThen(n: nat, tail: string)
    requires tail != [] && !IsDigit(tail[0])
    ensures ReadAmount(NatToDecimal(n) + tail) == ReadUnit(n, tail)
  {
    ReadAmountOf(NatToDecimal(n), tail);
    DecimalRoundTrip(n);
  }

  lemma HoursThenMinutes(h: nat, m: nat)
    ensures ReadUnit(h, " h " + NatToDecimal(m) + " min") == Some(h * 60 + m)
  {
    ReadHoursThenMinutes(h, NatToDecimal(m));
    DecimalRoundTrip(m);
  }

  lemma ReadAfterIn(s: string)
    requires |s| >= 3 && s[..3] == "in "
    ensures ReadCountdownMinutes(s) == ReadAmount(s[3..])
  {
  }

  /** The digits of a number followed by a non-digit are read off exactly. */
  lemma ReadAmountOf(d: string, tail: string)
    requires d != [] && AllDigits(d) && tail != [] && !IsDigit(tail[0])
    ensures ReadAmount(d + tail) == ReadUnit(DecimalValue(d), tail)
  {
    DigitPrefixOf(d, tail);
    assert (d + tail)[|d|..] == tail;
  }

  lemma ReadHoursThenMinutes(n: nat, dm: string)
    requires dm != [] && AllDigits(dm)
    ensures ReadUnit(n, " h " + dm + " min") == Some(n * 60 + DecimalValue(dm))
  {
    var tail := " h " + dm + " min";
    HoursTail(dm);
    DigitPrefixOf(dm, " min");
    assert (dm + " min")[|dm|..] == " min";
    ReadUnitHoursMinutes(n, tail, dm);
  }

  lemma HoursTail(dm: string)
    ensures var tail := " h " + dm + " min";
      |tail| > 3 && tail[..3] == " h " && tail[3..] == dm + " min" && tail != " min" && tail != " h"
      && !IsDigit(tail[0])
  {
    var tail := " h " + dm + " min";
    assert |tail| >= 7 && |" min"| == 4 && |" h"| == 2;
  }

  /** The third branch of `ReadUnit`. */
  lemma ReadUnitHoursMinutes(n: nat, tail: string, dm: string)
    requires tail != " min" && tail != " h" && |tail| > 3 && tail[..3] == " h "
    requires dm != [] && DigitPrefix(tail[3..]) == dm && tail[3..][|dm|..] == " min"
    ensures ReadUnit(n, tail) == Some(n * 60 + DecimalValue(dm))
  {
  }

  lemma HoursAndMinutes(minutes: nat)
    ensures minutes / 60 * 60 + minutes % 60 == minutes
  {
  }

  /**
   * At any time since the epoch, the countdown is blank exactly when the
   * arrival has neither a real nor a scheduled time.
   */
  lemma CountdownBlankIffNoTime(a: Arrival, now: int)
    requires IsLong(a.realArrivalMillis) && IsLong(a.expectedArrivalMillis)
    requires 0 <= now <= LongMax
    ensures FormatCountdownMillis(RemainingMillis(a, now)) == ""
        <==> a.realArrivalMillis <= 0 && a.expectedArrivalMillis <= 0
  {
  }

  /** Two hours and five minutes. */
  lemma CountdownExample()
    ensures FormatCountdownMillis(125 * MillisPerMinute) == "in 2 h 5 min"
  {
    assert NatToDecimal(2) == "2" && NatToDecimal(5) == "5";
  }
}
