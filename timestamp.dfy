/**
 * The timestamps the task file stores: an RFC 3339 `date-time` (section 5.6 of
 * RFC 3339) at whole-second precision with a numeric offset, the shape chrono
 * writes for the pattern `%Y-%m-%dT%H:%M:%S%:z`, e.g. "2025-01-07T10:00:00+09:00".
 */
module Timestamps {
  import opened Wrappers
  import opened Digits
  import opened TextLines

  /** Calendar fields in the writer's offset, and that offset in minutes east of UTC. */
  datatype Timestamp = Timestamp(
    year: int, month: int, day: int,
    hour: int, minute: int, second: int,
    offsetMinutes: int)

  predicate IsLeapYear(y: int) {
    y % 4 == 0 && (y % 100 != 0 || y % 400 == 0)
  }

  function DaysInMonth(y: int, m: int): (n: int)
    requires 1 <= m <= 12
    ensures 28 <= n <= 31
  {
    if m == 2 then (if IsLeapYear(y) then 29 else 28)
    else if m == 4 || m == 6 || m == 9 || m == 11 then 30
    else 31
  }

  /** A proleptic Gregorian date with a four-digit year, a time of day, and an offset under a day. */
  predicate ValidTimestamp(t: Timestamp) {
    && 0 <= t.year <= 9999
    && 1 <= t.month <= 12
    && 1 <= t.day <= DaysInMonth(t.year, t.month)
    && 0 <= t.hour < 24 && 0 <= t.minute < 60 && 0 <= t.second < 60
    && -1440 < t.offsetMinutes < 1440
  }

  /** The points in time a task can carry (chrono's `DateTime<Local>` at whole seconds). */
  type DateTime = t: Timestamp | ValidTimestamp(t) witness Timestamp(1970, 1, 1, 0, 0, 0, 0)

  function FormatDate(t: DateTime): (s: string)
    ensures |s| == 10
  {
    Padded(t.year, 4) + "-" + Padded(t.month, 2) + "-" + Padded(t.day, 2)
  }

  function FormatTime(t: DateTime): (s: string)
    ensures |s| == 8
  {
    Padded(t.hour, 2) + ":" + Padded(t.minute, 2) + ":" + Padded(t.second, 2)
  }

  /** chrono's `%:z`: a sign (plus for a zero offset), hours, a colon, minutes. */
  function FormatOffset(offset: int): (s: string)
    requires -1440 < offset < 1440
    ensures |s| == 6
  {
    var a := if offset < 0 then -offset else offset;
    [if offset < 0 then '-' else '+'] + Padded(a / 60, 2) + ":" + Padded(a % 60, 2)
  }

  /** The timestamp as `format_task` writes it: always 25 characters. */
  function FormatTs(t: DateTime): (s: string)
    ensures |s| == 25
  {
    FormatDate(t) + "T" + FormatTime(t) + FormatOffset(t.offsetMinutes)
  }

  lemma DigitsNoSpace(s: string)
    requires AllDigits(s)
    ensures NoSpace(s)
  {
    forall i | 0 <= i < |s|
      ensures !IsWhitespace(s[i])
    {
      assert IsDigit(s[i]);
    }
  }

  /** Four pieces without whitespace, one after the other, have none. */
  lemma NoSpaceOfFour(a: string, b: string, c: string, d: string)
    requires NoSpace(a) && NoSpace(b) && NoSpace(c) && NoSpace(d)
    ensures NoSpace(a + b + c + d)
  {
    NoSpaceAppend(a, b);
    NoSpaceAppend(a + b, c);
    NoSpaceAppend(a + b + c, d);
  }

  /** Digit fields around one-character separators have no whitespace. */
  lemma FieldsNoSpace(a: string, sep: string, b: string, c: string)
    requires AllDigits(a) && AllDigits(b) && AllDigits(c) && NoSpace(sep)
    ensures NoSpace(a + sep + b + sep + c)
  {
    DigitsNoSpace(a);
    DigitsNoSpace(b);
    DigitsNoSpace(c);
    NoSpaceOfFour(a, sep, b, sep);
    NoSpaceAppend(a + sep + b + sep, c);
  }

  lemma FormatOffsetNoSpace(offset: int)
    requires -1440 < offset < 1440
    ensures NoSpace(FormatOffset(offset))
  {
    var a := if offset < 0 then -offset else offset;
    DigitsNoSpace(Padded(a / 60, 2));
    DigitsNoSpace(Padded(a % 60, 2));
    NoSpaceOfFour([if offset < 0 then '-' else '+'], Padded(a / 60, 2), ":", Padded(a % 60, 2));
  }

  /** A written timestamp holds digits and `-T:+` only, so it is one `\S+` run. */
  lemma FormatTsNoSpace(t: DateTime)
    ensures NoSpace(FormatTs(t))
  {
    FieldsNoSpace(Padded(t.year, 4), "-", Padded(t.month, 2), Padded(t.day, 2));
    FieldsNoSpace(Padded(t.hour, 2), ":", Padded(t.minute, 2), Padded(t.second, 2));
    FormatOffsetNoSpace(t.offsetMinutes);
    NoSpaceOfFour(FormatDate(t), "T", FormatTime(t), FormatOffset(t.offsetMinutes));
  }

  /** Reads `width` digits at `start`, if they are all digits. */
  function DigitsAt(s: string, start: nat, width: nat): Option<nat>
    requires start + width <= |s|
  {
    var p := s[start..start + width];
    if AllDigits(p) then Some(DecimalValue(p)) else None
  }

  function ParseDate(p: string): Option<(nat, nat, nat)>
    requires |p| == 10
  {
    if p[4] != '-' || p[7] != '-' then None
    else
      match (DigitsAt(p, 0, 4), DigitsAt(p, 5, 2), DigitsAt(p, 8, 2))
      case (Some(y), Some(m), Some(d)) => Some((y, m, d))
      case _ => None
  }

  function ParseTime(p: string): Option<(nat, nat, nat)>
    requires |p| == 8
  {
    if p[2] != ':' || p[5] != ':' then None
    else
      match (DigitsAt(p, 0, 2), DigitsAt(p, 3, 2), DigitsAt(p, 6, 2))
      case (Some(h), Some(m), Some(s)) => Some((h, m, s))
      case _ => None
  }

  /** Reads `+HH:MM` or `-HH:MM` as signed minutes; minutes must be below 60. */
  function ParseOffset(p: string): Option<int>
    requires |p| == 6
  {
    if (p[0] != '+' && p[0] != '-') || p[3] != ':' then None
    else
      match (DigitsAt(p, 1, 2), DigitsAt(p, 4, 2))
      case (Some(h), Some(m)) =>
        var magnitude: int := 60 * h + m;
        if m < 60 then Some(if p[0] == '-' then -magnitude else magnitude) else None
      case _ => None
  }

  /**
   * Reads back a timestamp in the canonical 25-character shape, rejecting field
   * values outside the calendar; any other text is unparsable here.
   */
  function ParseTs(s: string): (r: Option<DateTime>)
    ensures r.Some? ==> |s| == 25
  {
    if |s| != 25 || s[10] != 'T' then None
    else
      match (ParseDate(s[..10]), ParseTime(s[11..19]), ParseOffset(s[19..]))
      case (Some((y, mo, d)), Some((h, mi, se)), Some(offset)) =>
        var t := Timestamp(y, mo, d, h, mi, se, offset);
        if ValidTimestamp(t) then Some(t) else None
      case _ => None
  }

  lemma ParseFormatDate(t: DateTime)
    ensures ParseDate(FormatDate(t)) == Some((t.year as nat, t.month as nat, t.day as nat))
  {
    var p := FormatDate(t);
    assert p[0..4] == Padded(t.year, 4);
    assert p[5..7] == Padded(t.month, 2);
    assert p[8..10] == Padded(t.day, 2);
    PaddedRoundTrip(t.year, 4);
    PaddedRoundTrip(t.month, 2);
    PaddedRoundTrip(t.day, 2);
  }

  lemma ParseFormatTime(t: DateTime)
    ensures ParseTime(FormatTime(t)) == Some((t.hour as nat, t.minute as nat, t.second as nat))
  {
    var p := FormatTime(t);
    assert p[0..2] == Padded(t.hour, 2);
    assert p[3..5] == Padded(t.minute, 2);
    assert p[6..8] == Padded(t.second, 2);
    PaddedRoundTrip(t.hour, 2);
    PaddedRoundTrip(t.minute, 2);
    PaddedRoundTrip(t.second, 2);
  }

  /** Offset text with a sign, two digits, a colon and two digits reads as that many minutes. */
  lemma ReadOffset(p: string, sign: char, hh: string, mm: string, h: nat, m: nat, minutes: int)
    requires p == [sign] + hh + ":" + mm && (sign == '+' || sign == '-')
    requires |hh| == 2 && |mm| == 2 && AllDigits(hh) && AllDigits(mm)
    requires DecimalValue(hh) == h && DecimalValue(mm) == m && m < 60
    requires minutes == if sign == '-' then -(60 * h + m) else 60 * h + m
    ensures ParseOffset(p) == Some(minutes)
  {
    assert p[1..3] == hh;
    assert p[4..6] == mm;
  }

  lemma ParseFormatOffset(offset: int)
    requires -1440 < offset < 1440
    ensures ParseOffset(FormatOffset(offset)) == Some(offset)
  {
    var a := if offset < 0 then -offset else offset;
    var h, m := a / 60, a % 60;
    assert a == 60 * h + m && h < 24 && m < 60;
    PaddedRoundTrip(h, 2);
    PaddedRoundTrip(m, 2);
    ReadOffset(FormatOffset(offset), if offset < 0 then '-' else '+', Padded(h, 2), Padded(m, 2), h, m, offset);
  }

  /** `ParseTs` inverts `FormatTs`: the codec keeps every timestamp it writes. */
  lemma ParseFormatTs(t: DateTime)
    ensures ParseTs(FormatTs(t)) == Some(t)
  {
    var s := FormatTs(t);
    var date, time, off := FormatDate(t), FormatTime(t), FormatOffset(t.offsetMinutes);
    assert s == date + "T" + time + off;
    assert s[..10] == date;
    assert s[11..19] == time;
    assert s[19..] == off;
    ParseFormatDate(t);
    ParseFormatTime(t);
    ParseFormatOffset(t.offsetMinutes);
  }
}
