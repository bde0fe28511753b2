/**
 Timestamps in the form of section 5.6 of RFC 3339, to and from seconds since the
 Unix epoch. Text is a sequence of characters, each standing for one byte.
 */
module Timestamps {
  import opened Wrappers
  import opened Names
  import opened Calendar

  // ------------------------------------------------------------------ writing

  function Two(n: nat): string {
    [Digit(n / 10 % 10), Digit(n % 10)]
  }

  function Four(n: nat): string {
    [Digit(n / 1000 % 10), Digit(n / 100 % 10), Digit(n / 10 % 10), Digit(n % 10)]
  }

  function Zeros(n: nat): string {
    if n == 0 then "" else "0" + Zeros(n - 1)
  }

  /** At least four characters, padded with zeros after the sign. */
  function YearText(year: int): string {
    if 0 <= year < 10000 then Four(year)
    else if year >= 10000 then Decimal(year)
    else "-" + Zeros(if |Decimal(-year)| < 3 then 3 - |Decimal(-year)| else 0) + Decimal(-year)
  }

  function FormatRfc3339(time: int): string {
    var d := CivilFromDays(time / 86400);
    DayRoundTrip(time / 86400);
    MonthsFit(d);
    var seconds := time % 86400;
    YearText(d.year) + "-" + Two(d.month) + "-" + Two(d.day) + "T" + Two(seconds / 3600) + ":" + Two(seconds / 60 % 60)
    + ":" + Two(seconds % 60) + "Z"
  }

  lemma MonthsFit(d: Date)
    requires IsDate(d)
    ensures 1 <= d.month <= 12 && 1 <= d.day <= 31
  {}

  // ------------------------------------------------------------------ reading

  predicate AllDigits(s: string) {
    forall c :: c in s ==> IsDigit(c)
  }

  function Number(s: string): Option<int> {
    if AllDigits(s) then Some(Value(s)) else None
  }

  /** A signed decimal, as the integer parser reads one. */
  function SignedNumber(s: string): Option<int> {
    var digits := if s != "" && (s[0] == '+' || s[0] == '-') then s[1..] else s;
    if digits == "" || !AllDigits(digits) then None
    else
      var v: int := Value(digits);
      Some(if s[0] == '-' then 0 - v else v)
  }

  function DigitRun(s: string): (n: nat)
    ensures n <= |s|
  {
    if s == "" || !IsDigit(s[0]) then 0 else 1 + DigitRun(s[1..])
  }

  /** A fractional second is dropped. */
  function AfterFraction(rest: string): Option<string> {
    if rest == "" || rest[0] != '.' then Some(rest)
    else if DigitRun(rest[1..]) == 0 then None
    else Some(rest[1..][DigitRun(rest[1..])..])
  }

  function ParseOffset(rest: string): Option<int> {
    if rest == "" then None
    else if (rest[0] == 'Z' || rest[0] == 'z') && |rest| == 1 then Some(0)
    else if (rest[0] == '+' || rest[0] == '-') && |rest| == 6 then
      var hours := SignedNumber(rest[1..3]);
      var minutes := SignedNumber(rest[4..6]);
      if hours.None? || minutes.None? || rest[3] != ':' || hours.value > 23 || minutes.value > 59 then None
      else Some((if rest[0] == '-' then -1 else 1) * (hours.value * 3600 + minutes.value * 60))
    else None
  }

  datatype Fields = Fields(date: Date, hour: int, minute: int, second: int)

  predicate ProperFields(f: Fields) {
    1 <= f.date.month <= 12 && f.date.day >= 1 && f.date.day <= DaysInMonth(f.date.year, f.date.month)
    && f.hour <= 23 && f.minute <= 59 && f.second <= 60
  }

  /** The first nineteen characters. */
  function ParseFields(text: string): Option<Fields>
    requires |text| >= 19
  {
    if text[4] != '-' || text[7] != '-' || (text[10] != 'T' && text[10] != 't') || text[13] != ':' || text[16] != ':' then None
    else
      match (Number(text[0..4]), Number(text[5..7]), Number(text[8..10]), Number(text[11..13]), Number(text[14..16]),
             Number(text[17..19]))
      case (Some(year), Some(month), Some(day), Some(hour), Some(minute), Some(second)) =>
        var f := Fields(Date(year, month, day), hour, minute, second);
        if ProperFields(f) then Some(f) else None
      case _ => None
  }

  function Seconds(f: Fields): int {
    DaysFromCivil(f.date) * 86400 + f.hour * 3600 + f.minute * 60 + f.second
  }

  function ParseRfc3339(text: string): Option<int> {
    if |text| < 20 then None
    else
      match ParseFields(text[..19])
      case None => None
      case Some(f) =>
        match AfterFraction(text[19..])
        case None => None
        case Some(rest) =>
          match ParseOffset(rest)
          case None => None
          case Some(offset) => Some(Seconds(f) - offset)
  }

  // ------------------------------------------------------------------ numbers

  lemma OneDigit(c: char, n: nat)
    requires n < 10 && c == Digit(n)
    ensures IsDigit(c) && c as int - '0' as int == n
  {}

  lemma {:induction false} ValueEnds(s: string, n: nat)
    requires AllDigits(s) && n < 10
    ensures AllDigits(s + [Digit(n)]) && Value(s + [Digit(n)]) == 10 * Value(s) + n
  {
    OneDigit(Digit(n), n);
    assert (s + [Digit(n)])[..|s|] == s;
  }

  lemma TwoIsRead(n: nat)
    requires n < 100
    ensures Number(Two(n)) == Some(n) && SignedNumber(Two(n)) == Some(n) && |Two(n)| == 2
  {
    ValueEnds("", n / 10);
    ValueEnds([Digit(n / 10)], n % 10);
    assert "" + [Digit(n / 10)] == [Digit(n / 10)];
    assert [Digit(n / 10)] + [Digit(n % 10)] == Two(n);
    assert IsDigit(Two(n)[0]);
  }

  lemma FourIsRead(n: nat)
    requires n < 10000
    ensures Number(Four(n)) == Some(n) && |Four(n)| == 4
  {
    var a, b, c, d := n / 1000 % 10, n / 100 % 10, n / 10 % 10, n % 10;
    ValueEnds("", a);
    ValueEnds([Digit(a)], b);
    ValueEnds([Digit(a), Digit(b)], c);
    ValueEnds([Digit(a), Digit(b), Digit(c)], d);
    assert "" + [Digit(a)] == [Digit(a)];
    assert [Digit(a)] + [Digit(b)] == [Digit(a), Digit(b)];
    assert [Digit(a), Digit(b)] + [Digit(c)] == [Digit(a), Digit(b), Digit(c)];
    assert [Digit(a), Digit(b), Digit(c)] + [Digit(d)] == Four(n);
    Places(n);
  }

  lemma Places(n: nat)
    requires n < 10000
    ensures 10 * (10 * (10 * (n / 1000 % 10) + n / 100 % 10) + n / 10 % 10) + n % 10 == n
  {
    var tens, hundreds, thousands := n / 10, n / 100, n / 1000;
    assert n == 10 * tens + n % 10;
    DivIs(tens, 10, hundreds);
    assert tens == 10 * hundreds + tens % 10;
    DivIs(hundreds, 10, thousands);
    assert hundreds == 10 * thousands + hundreds % 10;
    assert thousands % 10 == thousands;
  }

  // ----------------------------------------------------------------- the text

  /** A zone as it is written. */
  datatype Zone = Utc | Offset(negative: bool, hours: nat, minutes: nat)

  predicate ProperZone(z: Zone) {
    z.Offset? ==> z.hours <= 23 && z.minutes <= 59
  }

  function ZoneText(z: Zone): string {
    match z
    case Utc => "Z"
    case Offset(negative, hours, minutes) => (if negative then "-" else "+") + Two(hours) + ":" + Two(minutes)
  }

  function ZoneSeconds(z: Zone): int {
    match z
    case Utc => 0
    case Offset(negative, hours, minutes) => (if negative then -1 else 1) * (hours * 3600 + minutes * 60)
  }

  /** Fields that fit their places: a year of four digits, a time of day, perhaps a leap second. */
  predicate Writable(f: Fields) {
    IsDate(f.date) && 0 <= f.date.year < 10000 && 0 <= f.hour <= 23 && 0 <= f.minute <= 59 && 0 <= f.second <= 60
  }

  function FieldsText(f: Fields): string
    requires Writable(f)
  {
    MonthsFit(f.date);
    Four(f.date.year) + "-" + Two(f.date.month) + "-" + Two(f.date.day) + "T" + Two(f.hour) + ":" + Two(f.minute) + ":" + Two(f.second)
  }

  /** Where each part of the text is. */
  lemma Layout(y: string, m: string, d: string, h: string, i: string, s: string)
    requires |y| == 4 && |m| == 2 && |d| == 2 && |h| == 2 && |i| == 2 && |s| == 2
    ensures var t := y + "-" + m + "-" + d + "T" + h + ":" + i + ":" + s;
            && |t| == 19 && t[4] == '-' && t[7] == '-' && t[10] == 'T' && t[13] == ':' && t[16] == ':'
            && t[0..4] == y && t[5..7] == m && t[8..10] == d && t[11..13] == h && t[14..16] == i && t[17..19] == s
  {
    var toMonth := y + "-" + m;
    var toDay := toMonth + "-" + d;
    var toHour := toDay + "T" + h;
    var toMinute := toHour + ":" + i;
    var t := toMinute + ":" + s;
    assert t[..16] == toMinute && toMinute[..13] == toHour && toHour[..10] == toDay && toDay[..7] == toMonth;
    assert t[14..16] == toMinute[14..16] == i;
    assert t[11..13] == t[..16][..13][11..13] == h;
    assert t[8..10] == t[..16][..13][..10][8..10] == d;
    assert t[..16][..13][..10][..7] == toMonth;
    assert t[5..7] == t[..16][..13][..10][..7][5..7] == m;
    assert t[0..4] == t[..16][..13][..10][..7][0..4] == y;
  }

  lemma FieldsAreRead(f: Fields)
    requires Writable(f)
    ensures |FieldsText(f)| == 19 && ParseFields(FieldsText(f)) == Some(f)
  {
    MonthsFit(f.date);
    FourIsRead(f.date.year);
    TwoIsRead(f.date.month);
    TwoIsRead(f.date.day);
    TwoIsRead(f.hour);
    TwoIsRead(f.minute);
    TwoIsRead(f.second);
    hide Four, Two, Number, SignedNumber;
    Layout(Four(f.date.year), Two(f.date.month), Two(f.date.day), Two(f.hour), Two(f.minute), Two(f.second));
  }

  lemma ZoneIsRead(z: Zone)
    requires ProperZone(z)
    ensures ZoneText(z) != "" && !IsDigit(ZoneText(z)[0]) && ZoneText(z)[0] != '.' && ParseOffset(ZoneText(z)) == Some(ZoneSeconds(z))
  {
    if z.Offset? {
      TwoIsRead(z.hours);
      TwoIsRead(z.minutes);
      hide Two, SignedNumber;
      var t := ZoneText(z);
      assert t[1..3] == Two(z.hours) && t[4..6] == Two(z.minutes) && t[3] == ':';
    }
  }

  lemma {:induction false} RunStops(digits: string, rest: string)
    requires AllDigits(digits) && rest != "" && !IsDigit(rest[0])
    ensures DigitRun(digits + rest) == |digits|
  {
    if digits == "" {
      assert digits + rest == rest;
    } else {
      assert (digits + rest)[1..] == digits[1..] + rest;
      assert forall c :: c in digits[1..] ==> c in digits;
      RunStops(digits[1..], rest);
    }
  }

  lemma FractionIsDropped(fraction: string, zone: string)
    requires zone != "" && !IsDigit(zone[0]) && zone[0] != '.'
    requires fraction == "" || (|fraction| > 1 && fraction[0] == '.' && AllDigits(fraction[1..]))
    ensures AfterFraction(fraction + zone) == Some(zone)
  {
    if fraction == "" {
      assert fraction + zone == zone;
    } else {
      var t := fraction + zone;
      assert t[1..] == fraction[1..] + zone;
      RunStops(fraction[1..], zone);
      assert (fraction[1..] + zone)[|fraction[1..]|..] == zone;
    }
  }

  /** A text with proper fields, with or without a fraction, parses to the instant of the fields minus
      its zone's offset. */
  lemma TextIsRead(f: Fields, fraction: string, z: Zone)
    requires Writable(f) && ProperZone(z)
    requires fraction == "" || (|fraction| > 1 && fraction[0] == '.' && AllDigits(fraction[1..]))
    ensures ParseRfc3339(FieldsText(f) + fraction + ZoneText(z)) == Some(Seconds(f) - ZoneSeconds(z))
  {
    hide *;
    FieldsAreRead(f);
    ZoneIsRead(z);
    FractionIsDropped(fraction, ZoneText(z));
    Pieces(FieldsText(f), fraction, ZoneText(z), f, ZoneSeconds(z));
  }

  lemma Pieces(head: string, fraction: string, zone: string, f: Fields, offset: int)
    requires |head| == 19 && zone != "" && ParseFields(head) == Some(f)
    requires AfterFraction(fraction + zone) == Some(zone) && ParseOffset(zone) == Some(offset)
    ensures ParseRfc3339(head + fraction + zone) == Some(Seconds(f) - offset)
  {
    hide ParseFields, AfterFraction, ParseOffset, Seconds;
    var t := head + fraction + zone;
    assert t[..19] == head && t[19..] == fraction + zone;
  }

  /** Every second of the years 0 to 9999 survives being written and read. */
  lemma TimestampRoundTrip(time: int)
    requires 0 <= CivilFromDays(time / 86400).year < 10000
    ensures ParseRfc3339(FormatRfc3339(time)) == Some(time)
  {
    hide CivilFromDays, DaysFromCivil, ParseRfc3339, Two, Four;
    var days, seconds := time / 86400, time % 86400;
    DayRoundTrip(days);
    var f := Fields(CivilFromDays(days), seconds / 3600, seconds / 60 % 60, seconds % 60);
    TimeOfDay(seconds);
    TextIsRead(f, "", Utc);
    assert FieldsText(f) + "" + ZoneText(Utc) == FormatRfc3339(time);
  }

  lemma TimeOfDay(seconds: nat)
    requires seconds < 86400
    ensures seconds / 3600 <= 23 && seconds / 3600 * 3600 + seconds / 60 % 60 * 60 + seconds % 60 == seconds
  {}
}
