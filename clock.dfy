/**
 * The wall-clock reading the watcher stamps its output with, and the two
 * `strftime` renderings it uses: '%Y-%m-%d' for the log file's name and
 * '%Y-%m-%d %H:%M:%S' inside messages and log lines. The clock itself is
 * outside the model; an `Instant` is handed in by the caller.
 */
module Clock {
  import opened Options
  import opened Decimal

  datatype Instant = Instant(year: nat, month: nat, day: nat, hour: nat, minute: nat, second: nat)

  /** Leap years of the proleptic Gregorian calendar, which Python's `datetime` uses. */
  predicate IsLeapYear(y: nat) {
    y % 4 == 0 && (y % 100 != 0 || y % 400 == 0)
  }

  function DaysInMonth(y: nat, m: nat): nat {
    if m == 2 then (if IsLeapYear(y) then 29 else 28)
    else if m == 4 || m == 6 || m == 9 || m == 11 then 30
    else 31
  }

  /** A calendar date a Python `date` can hold: MINYEAR to MAXYEAR, and a day the month has. */
  predicate ValidDate(y: nat, m: nat, d: nat) {
    1 <= y <= 9999 && 1 <= m <= 12 && 1 <= d <= DaysInMonth(y, m)
  }

  /** The values a Python `datetime` can hold, to the second (there is no leap second). */
  predicate Valid(t: Instant) {
    ValidDate(t.year, t.month, t.day) && t.hour < 24 && t.minute < 60 && t.second < 60
  }

  /** `strftime('%Y-%m-%d')` */
  function DateStamp(t: Instant): string {
    ZeroPad(t.year, 4) + "-" + ZeroPad(t.month, 2) + "-" + ZeroPad(t.day, 2)
  }

  /** `strftime('%Y-%m-%d %H:%M:%S')` */
  function TimeStamp(t: Instant): string {
    DateStamp(t) + " " + ZeroPad(t.hour, 2) + ":" + ZeroPad(t.minute, 2) + ":" + ZeroPad(t.second, 2)
  }

  /** Reads 'YYYY-MM-DD' back; None for anything that is not a valid date of that shape. */
  function ParseDateStamp(s: string): Option<(nat, nat, nat)> {
    if |s| != 10 || s[4] != '-' || s[7] != '-' then None
    else
      match (ParseNat(s[0..4]), ParseNat(s[5..7]), ParseNat(s[8..10]))
      case (Some(y), Some(mo), Some(d)) =>
        if ValidDate(y, mo, d) then Some((y, mo, d)) else None
      case _ => None
  }

  /** Reads 'YYYY-MM-DD HH:MM:SS' back; None for anything that is not a valid instant of that shape. */
  function ParseTimeStamp(s: string): (r: Option<Instant>)
    ensures r.Some? ==> Valid(r.value)
  {
    if |s| != 19 || s[10] != ' ' || s[13] != ':' || s[16] != ':' then None
    else
      match (ParseDateStamp(s[..10]), ParseNat(s[11..13]), ParseNat(s[14..16]), ParseNat(s[17..19]))
      case (Some((y, mo, d)), Some(h), Some(mi), Some(se)) =>
        var t := Instant(y, mo, d, h, mi, se);
        if Valid(t) then Some(t) else None
      case _ => None
  }

  /** A valid date renders in exactly ten characters and reads back as itself. */
  lemma DateStampRoundTrip(t: Instant)
    requires Valid(t)
    ensures |DateStamp(t)| == 10
    ensures ParseDateStamp(DateStamp(t)) == Some((t.year, t.month, t.day))
  {
    ZeroPadRoundTrip(t.year, 4);
    ZeroPadRoundTrip(t.month, 2);
    ZeroPadRoundTrip(t.day, 2);
    var s := DateStamp(t);
    assert s[0..4] == ZeroPad(t.year, 4);
    assert s[5..7] == ZeroPad(t.month, 2);
    assert s[8..10] == ZeroPad(t.day, 2);
  }

  /**
   * A valid instant renders in exactly nineteen characters, begins with its
   * own date stamp, and reads back as itself.
   */
  lemma TimeStampRoundTrip(t: Instant)
    requires Valid(t)
    ensures |TimeStamp(t)| == 19
    ensures TimeStamp(t)[..10] == DateStamp(t)
    ensures ParseTimeStamp(TimeStamp(t)) == Some(t)
  {
    DateStampRoundTrip(t);
    ZeroPadRoundTrip(t.hour, 2);
    ZeroPadRoundTrip(t.minute, 2);
    ZeroPadRoundTrip(t.second, 2);
    var s := TimeStamp(t);
    assert s[..10] == DateStamp(t);
    assert s[11..13] == ZeroPad(t.hour, 2);
    assert s[14..16] == ZeroPad(t.minute, 2);
    assert s[17..19] == ZeroPad(t.second, 2);
  }
}
