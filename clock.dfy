/**
 * Clock times as the program stores them: five-character "HH:MM" strings
 * produced by `strftime("%H:%M")`, parsed back with `strptime(.., "%H:%M")`,
 * and the two digit-inspecting half-hour rounding routines of main.py.
 */
module ClockText {
  import opened Wrappers

  const MinutesPerDay: int := 24 * 60

  predicate IsDigit(c: char) {
    '0' <= c <= '9'
  }

  /** Python's `int(c)` on a one-character decimal digit. */
  function DigitValue(c: char): (n: nat)
    requires IsDigit(c)
    ensures n < 10
  {
    c as int - '0' as int
  }

  function DigitChar(n: nat): (c: char)
    requires n < 10
    ensures IsDigit(c) && DigitValue(c) == n
  {
    ('0' as int + n) as char
  }

  /** The zero-padded "DD:DD" shape. */
  predicate IsClockShaped(s: string) {
    |s| == 5 && IsDigit(s[0]) && IsDigit(s[1]) && s[2] == ':' && IsDigit(s[3]) && IsDigit(s[4])
  }

  function HourOf(s: string): nat
    requires IsClockShaped(s)
  {
    10 * DigitValue(s[0]) + DigitValue(s[1])
  }

  function MinuteOf(s: string): nat
    requires IsClockShaped(s)
  {
    10 * DigitValue(s[3]) + DigitValue(s[4])
  }

  /**
   * `strptime(s, "%H:%M")`: minutes since midnight, or None where Python
   * raises ValueError (an hour above 23, a minute above 59, anything that is
   * not two digits, a colon and two digits).
   */
  function ParseClock(s: string): (r: Option<int>)
    ensures r.Some? ==> 0 <= r.value < MinutesPerDay
    ensures r.Some? ==> IsClockShaped(s) && r.value / 60 == HourOf(s) && r.value % 60 == MinuteOf(s)
  {
    if IsClockShaped(s) && HourOf(s) <= 23 && MinuteOf(s) <= 59 then
      Some(60 * HourOf(s) + MinuteOf(s))
    else
      None
  }

  /** `strftime("%H:%M")` of a time of day given in minutes since midnight. */
  function Format(m: int): (s: string)
    requires 0 <= m < MinutesPerDay
    ensures ParseClock(s) == Some(m)
  {
    var h, mm := m / 60, m % 60;
    [DigitChar(h / 10), DigitChar(h % 10), ':', DigitChar(mm / 10), DigitChar(mm % 10)]
  }

  /** The other round trip: a parsed string formats back to itself. */
  lemma FormatParse(s: string)
    requires ParseClock(s).Some?
    ensures Format(ParseClock(s).value) == s
  {
  }

  /** Format is one-to-one, so distinct times have distinct labels. */
  lemma FormatInjective(a: int, b: int)
    requires 0 <= a < MinutesPerDay && 0 <= b < MinutesPerDay
    requires Format(a) == Format(b)
    ensures a == b
  {
  }

  /** `h * 60 + (m / 30) * 30`: the time floored to the half hour. */
  function FloorHalfHour(h: int, m: int): int {
    60 * h + (m / 30) * 30
  }

  /** `int(s[3])` succeeds: there is a fourth character and it is a digit. */
  predicate HasTensDigit(s: string) {
    |s| >= 4 && IsDigit(s[3])
  }

  /**
   * Rounding of a boundary event's time (main.py:111-117): tens digit of the
   * minutes 0-2 gives ":00", 3-5 gives ":30", and any larger digit only zeroes
   * the units digit.
   */
  function RoundBoundary(s: string): (r: string)
    requires HasTensDigit(s)
    ensures |r| == 5 && r[..3] == s[..3] && HasTensDigit(r)
  {
    var d := DigitValue(s[3]);
    if d < 3 then s[..3] + "00"
    else if d < 6 then s[..3] + "30"
    else s[..4] + "0"
  }

  /**
   * Rounding of a work entry's time on the input page (main.py:201-207):
   * tens digits other than 0 and 3 are rewritten to "00" or "30" (when below
   * 6), and then the units digit is always forced to 0.
   */
  function RoundInput(s: string): (r: string)
    requires HasTensDigit(s)
    ensures r == RoundBoundary(s)
  {
    var d := DigitValue(s[3]);
    var t := if d != 0 && d != 3 then
               (if d < 3 then s[..3] + "00" else if d < 6 then s[..3] + "30" else s)
             else s;
    t[..4] + "0"
  }

  /**
   * On every valid clock string the boundary rounding keeps the hour and
   * floors the minutes to the half hour: the result parses to
   * (h, (m / 30) * 30), it is a half-hour value, and it is the label of that
   * value.
   */
  lemma RoundBoundaryFloors(s: string)
    requires ParseClock(s).Some?
    ensures HasTensDigit(s)
    ensures ParseClock(RoundBoundary(s)) == Some(FloorHalfHour(HourOf(s), MinuteOf(s)))
    ensures ParseClock(RoundBoundary(s)).value % 30 == 0
    ensures HourOf(RoundBoundary(s)) == HourOf(s)
    ensures MinuteOf(RoundBoundary(s)) == (MinuteOf(s) / 30) * 30
    ensures RoundBoundary(s) == Format(FloorHalfHour(HourOf(s), MinuteOf(s)))
  {
  }

  /** Rounding an already rounded time changes nothing; this holds for every input the routine accepts. */
  lemma RoundBoundaryIdempotent(s: string)
    requires HasTensDigit(s)
    ensures RoundBoundary(RoundBoundary(s)) == RoundBoundary(s)
  {
  }

  /** A tens digit of 6 or more survives the rounding, and the rounded text no longer parses. */
  lemma RoundBoundaryRejectsLargeTens(s: string)
    requires HasTensDigit(s) && DigitValue(s[3]) >= 6
    ensures RoundBoundary(s) == s[..4] + "0"
    ensures ParseClock(RoundBoundary(s)) == None
  {
  }

  /**
   * The input-page rounding stores an "HH:00" or "HH:30" string of the same
   * hour: the label of the time floored to the half hour.
   */
  lemma RoundInputFloors(s: string)
    requires ParseClock(s).Some?
    ensures HasTensDigit(s)
    ensures RoundInput(s) == Format(FloorHalfHour(HourOf(s), MinuteOf(s)))
    ensures RoundInput(s)[..3] == s[..3]
    ensures RoundInput(s)[3..] == "00" || RoundInput(s)[3..] == "30"
  {
    RoundBoundaryFloors(s);
    var r := RoundInput(s);
    if DigitValue(s[3]) < 3 {
      assert r[3..] == "00";
    } else {
      assert r[3..] == "30";
    }
  }
}
