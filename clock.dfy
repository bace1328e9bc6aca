/**
 * Times of day as `CurfewManager` reads and prints them
 * (core/curfew_manager.py): `datetime.strptime(s, "%H:%M").time()` on the
 * way in and `time.strftime('%H:%M')` in the announcements. A time of day is
 * a whole number of seconds after midnight.
 */
module Clock {
  import opened Wrappers

  const DaySeconds: int := 86400

  /** A time of day, in seconds after midnight. */
  type TimeOfDay = t: int | 0 <= t < 86400

  /** A time of day that falls on a whole minute, as every parsed `HH:MM` does. */
  predicate OnMinute(t: int)
  {
    0 <= t < DaySeconds && t % 60 == 0
  }

  function HourOf(t: TimeOfDay): nat { t / 3600 }
  function MinuteOf(t: TimeOfDay): nat { (t / 60) % 60 }

  predicate IsDigit(c: char) { '0' <= c <= '9' }

  function DigitValue(c: char): nat
    requires IsDigit(c)
  {
    c as int - '0' as int
  }

  function DigitChar(d: nat): (c: char)
    requires d < 10
    ensures IsDigit(c) && DigitValue(c) == d
  {
    ('0' as int + d) as char
  }

  /**
   * One `%H` or `%M` field: one or two ASCII digits. `%H` also allows
   * `2[0-3]`, `[0-1]\d` or a single digit, and `%M` `[0-5]\d` or a single
   * digit, which is the same as a one- or two-digit number within range.
   */
  function Field(s: string): Option<nat>
  {
    if |s| == 1 && IsDigit(s[0]) then Some(DigitValue(s[0]))
    else if |s| == 2 && IsDigit(s[0]) && IsDigit(s[1]) then Some(10 * DigitValue(s[0]) + DigitValue(s[1]))
    else None
  }

  function FromFields(hour: string, minute: string): Option<TimeOfDay>
  {
    match (Field(hour), Field(minute))
    case (Some(h), Some(m)) =>
      if h <= 23 && m <= 59 then Some((h * 60 + m) * 60) else None
    case _ => None
  }

  /**
   * `datetime.strptime(s, "%H:%M").time()`: `None` where Python raises
   * `ValueError`. The hour has one or two digits, so the separator stands at
   * index 1 or 2 and nothing may follow the minute.
   */
  function ParseClock(s: string): (r: Option<TimeOfDay>)
    ensures r.Some? ==> OnMinute(r.value)
  {
    if |s| >= 2 && s[1] == ':' then FromFields(s[..1], s[2..])
    else if |s| >= 3 && s[2] == ':' then FromFields(s[..2], s[3..])
    else None
  }

  /** A string that parses is made of ASCII digits and one colon, and starts and ends with a digit. */
  lemma ParsedShape(s: string)
    requires ParseClock(s).Some?
    ensures |s| >= 3 && IsDigit(s[0]) && IsDigit(s[|s| - 1])
    ensures forall k :: 0 <= k < |s| ==> IsDigit(s[k]) || s[k] == ':'
  {
    var i := if s[1] == ':' then 1 else 2;
    var a, b := s[..i], s[i + 1..];
    assert Field(a).Some? && Field(b).Some?;
    assert forall k :: 0 <= k < |a| ==> IsDigit(a[k]);
    assert forall k :: 0 <= k < |b| ==> IsDigit(b[k]);
    assert s == a + ":" + b;
  }

  /** Two digits, zero-padded, as `%H` and `%M` print them. */
  function Pad2(n: nat): (r: string)
    requires n < 100
    ensures |r| == 2
  {
    [DigitChar(n / 10), DigitChar(n % 10)]
  }

  /** `t.strftime('%H:%M')`. */
  function FormatClock(t: TimeOfDay): (r: string)
    ensures |r| == 5 && r[2] == ':'
  {
    Pad2(HourOf(t)) + ":" + Pad2(MinuteOf(t))
  }

  /** Every way of writing the number `n` that a field accepts: two digits, and one digit when `n < 10`. */
  function FieldSpellings(n: nat): set<string>
  {
    if n < 10 then {[DigitChar(n)], Pad2(n)}
    else if n < 100 then {Pad2(n)}
    else {}
  }

  /** Every string that parses to the time `h`:`m`. */
  function Spellings(h: nat, m: nat): set<string>
  {
    if h <= 23 && m <= 59 then
      set a, b | a in FieldSpellings(h) && b in FieldSpellings(m) :: a + ":" + b
    else {}
  }

  lemma FieldSpellingsExact(s: string, n: nat)
    ensures Field(s) == Some(n) <==> s in FieldSpellings(n)
  {
    if Field(s) == Some(n) {
      if |s| == 1 {
        assert s == [DigitChar(n)];
      } else {
        assert s == Pad2(n);
      }
    }
    if s in FieldSpellings(n) {
      if n < 10 && s == [DigitChar(n)] {
      } else {
        assert s == Pad2(n);
      }
    }
  }

  /** The hour and minute of `h`:`m` are `h` and `m`. */
  lemma ClockOfFields(h: nat, m: nat)
    requires h <= 23 && m <= 59
    ensures 0 <= (h * 60 + m) * 60 < DaySeconds
    ensures HourOf((h * 60 + m) * 60) == h && MinuteOf((h * 60 + m) * 60) == m
  {
    var t := (h * 60 + m) * 60;
    assert t == h * 3600 + m * 60;
    assert t / 60 == h * 60 + m;
    assert (t / 60) % 60 == m;
    assert t / 3600 == h;
  }

  /** A whole-minute time is `HourOf(t)`:`MinuteOf(t)`. */
  lemma FieldsOfClock(t: TimeOfDay)
    requires OnMinute(t)
    ensures HourOf(t) <= 23 && MinuteOf(t) <= 59
    ensures t == (HourOf(t) * 60 + MinuteOf(t)) * 60
  {
    var q := t / 60;
    assert t == q * 60;
    assert q == (q / 60) * 60 + q % 60;
    assert t / 3600 == q / 60;
  }

  lemma ParsedHasSpelling(s: string, t: TimeOfDay)
    requires ParseClock(s) == Some(t)
    ensures s in Spellings(HourOf(t), MinuteOf(t))
  {
    var i := if s[1] == ':' then 1 else 2;
    var a, b := s[..i], s[i + 1..];
    var hv, mv := Field(a).value, Field(b).value;
    assert hv <= 23 && mv <= 59 && t == (hv * 60 + mv) * 60;
    ClockOfFields(hv, mv);
    FieldSpellingsExact(a, hv);
    FieldSpellingsExact(b, mv);
    assert s == a + ":" + b;
  }

  lemma SpellingParses(s: string, t: TimeOfDay)
    requires OnMinute(t) && s in Spellings(HourOf(t), MinuteOf(t))
    ensures ParseClock(s) == Some(t)
  {
    var h, m := HourOf(t), MinuteOf(t);
    var a, b :| a in FieldSpellings(h) && b in FieldSpellings(m) && s == a + ":" + b;
    FieldSpellingsExact(a, h);
    FieldSpellingsExact(b, m);
    assert s[..|a|] == a && s[|a| + 1..] == b;
    FieldsOfClock(t);
  }

  /**
   * The parser accepts exactly the spellings of whole-minute times: one-
   * or two-digit hour 0-23, a colon, one- or two-digit minute 0-59, and
   * nothing else (so "6:00" means 06:00 and "24:00", "6:60", "06:000" and
   * " 6:00" are rejected).
   */
  lemma ParseClockExact(s: string, t: TimeOfDay)
    ensures ParseClock(s) == Some(t) <==> OnMinute(t) && s in Spellings(HourOf(t), MinuteOf(t))
  {
    if ParseClock(s) == Some(t) {
      ParsedHasSpelling(s, t);
    }
    if OnMinute(t) && s in Spellings(HourOf(t), MinuteOf(t)) {
      SpellingParses(s, t);
    }
  }

  /** What the announcements print parses back to the same time (core/curfew_manager.py:93, 109). */
  lemma FormatParses(t: TimeOfDay)
    requires OnMinute(t)
    ensures ParseClock(FormatClock(t)) == Some(t)
  {
    var h, m := HourOf(t), MinuteOf(t);
    assert Pad2(h) in FieldSpellings(h) && Pad2(m) in FieldSpellings(m);
    assert FormatClock(t) in Spellings(h, m);
    ParseClockExact(FormatClock(t), t);
  }
}
