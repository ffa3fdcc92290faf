/** Times of day as the appointment code handles them: `HH:MM` strings accepted by the
    validator's pattern, turned into minutes since midnight by the controller, and compared
    as strings by the conflict query. */
module TimeOfDay {
  import opened Text

  /** The pattern `^([0-1]?[0-9]|2[0-3]):[0-5][0-9]$`: an hour of one digit, of two digits
      starting with 0 or 1, or 20 to 23; a colon; minutes 00 to 59. */
  predicate IsTime(s: string)
  {
    || (|s| == 4 && IsDigit(s[0]) && s[1] == ':' && '0' <= s[2] <= '5' && IsDigit(s[3]))
    || (|s| == 5 && IsTwoDigitHour(s[0], s[1]) && s[2] == ':' && '0' <= s[3] <= '5' && IsDigit(s[4]))
  }

  predicate IsTwoDigitHour(a: char, b: char)
  {
    ('0' <= a <= '1' && IsDigit(b)) || (a == '2' && '0' <= b <= '3')
  }

  /** The zero-padded spelling `HH:MM`, the one the schema comments show ("09:00"). */
  predicate IsPadded(s: string) { |s| == 5 }

  /** The text before and after the colon of a valid time. */
  function HourText(t: string): string requires IsTime(t) { t[..|t| - 3] }
  function MinuteText(t: string): string requires IsTime(t) { t[|t| - 2..] }

  lemma SplitTime(t: string)
    requires IsTime(t)
    ensures Split(t, ':') == [HourText(t), MinuteText(t)]
    ensures AllDigits(HourText(t)) && AllDigits(MinuteText(t))
  {
    var h, m := HourText(t), MinuteText(t);
    assert t == h + [':'] + m;
    assert ':' !in h;
    assert ':' !in m;
    SplitAfterFirst(h, m, ':');
    SplitWithoutSeparator(m, ':');
  }

  /** `parseInt(h) * 60 + parseInt(m)` on the two halves of `t.split(':')`, as the
      controller computes start and end minutes. */
  function TimeMinutes(t: string): int
    requires IsTime(t)
  {
    SplitTime(t);
    var parts := Split(t, ':');
    DecimalValue(parts[0]) * 60 + DecimalValue(parts[1])
  }

  /** The hour and minute a valid time spells, read digit by digit. */
  function Hour(t: string): nat
    requires IsTime(t)
  {
    if |t| == 4 then DigitValue(t[0]) else DigitValue(t[0]) * 10 + DigitValue(t[1])
  }

  function Minute(t: string): nat
    requires IsTime(t)
  {
    DigitValue(t[|t| - 2]) * 10 + DigitValue(t[|t| - 1])
  }

  lemma OneDigitValue(s: string)
    requires |s| == 1 && AllDigits(s)
    ensures DecimalValue(s) == DigitValue(s[0])
  {
    assert s[..0] == [];
  }

  lemma TwoDigitValue(s: string)
    requires |s| == 2 && AllDigits(s)
    ensures DecimalValue(s) == DigitValue(s[0]) * 10 + DigitValue(s[1])
  {
    OneDigitValue(s[..1]);
  }

  /** A valid time means hour 0-23 and minute 0-59, and the controller's arithmetic gives
      exactly the minutes since midnight. */
  lemma TimeMeaning(t: string)
    requires IsTime(t)
    ensures Hour(t) <= 23 && Minute(t) <= 59
    ensures TimeMinutes(t) == Hour(t) * 60 + Minute(t)
    ensures 0 <= TimeMinutes(t) < 24 * 60
  {
    SplitTime(t);
    var h, m := HourText(t), MinuteText(t);
    TwoDigitValue(m);
    if |t| == 4 {
      OneDigitValue(h);
    } else {
      TwoDigitValue(h);
    }
  }

  /** `HH:MM` with both fields zero-padded. */
  function Format(h: nat, m: nat): (t: string)
    requires h < 24 && m < 60
  {
    [DigitChar(h / 10), DigitChar(h % 10), ':', DigitChar(m / 10), DigitChar(m % 10)]
  }

  /** Every hour and minute has a padded spelling that the validator accepts and that the
      controller reads back as `h * 60 + m`. */
  lemma FormatRoundTrip(h: nat, m: nat)
    requires h < 24 && m < 60
    ensures IsTime(Format(h, m)) && IsPadded(Format(h, m))
    ensures Hour(Format(h, m)) == h && Minute(Format(h, m)) == m
    ensures TimeMinutes(Format(h, m)) == h * 60 + m
  {
    var t := Format(h, m);
    assert IsTwoDigitHour(t[0], t[1]);
    TimeMeaning(t);
  }

  /** A padded valid time is the padded spelling of its own hour and minute. */
  lemma PaddedIsFormat(t: string)
    requires IsTime(t) && IsPadded(t)
    ensures Hour(t) < 24 && Minute(t) < 60 && Format(Hour(t), Minute(t)) == t
  {
    TimeMeaning(t);
  }

  /** For zero-padded times the string order used by the conflict query coincides with the
      order of minutes since midnight. */
  lemma PaddedOrderIsClockOrder(a: string, b: string)
    requires IsTime(a) && IsPadded(a) && IsTime(b) && IsPadded(b)
    ensures LexLess(a, b) <==> TimeMinutes(a) < TimeMinutes(b)
  {
    TimeMeaning(a);
    TimeMeaning(b);
    PaddedLex(a, b);
    DigitOrder(DigitValue(a[0]), DigitValue(a[1]), DigitValue(a[3]), DigitValue(a[4]),
               DigitValue(b[0]), DigitValue(b[1]), DigitValue(b[3]), DigitValue(b[4]));
  }

  /** The string order of two padded times, spelled out digit by digit. */
  lemma PaddedLex(a: string, b: string)
    requires IsTime(a) && IsPadded(a) && IsTime(b) && IsPadded(b)
    ensures LexLess(a, b) <==>
      if a[0] != b[0] then DigitValue(a[0]) < DigitValue(b[0])
      else if a[1] != b[1] then DigitValue(a[1]) < DigitValue(b[1])
      else if a[3] != b[3] then DigitValue(a[3]) < DigitValue(b[3])
      else DigitValue(a[4]) < DigitValue(b[4])
  {
    assert LexLess(a, b) == if a[0] != b[0] then a[0] < b[0] else LexLess(a[1..], b[1..]);
    assert a[1..][1..] == a[2..] && b[1..][1..] == b[2..];
    assert LexLess(a[1..], b[1..]) == if a[1] != b[1] then a[1] < b[1] else LexLess(a[2..], b[2..]);
    assert a[2..][1..] == a[3..] && b[2..][1..] == b[3..];
    assert LexLess(a[2..], b[2..]) == LexLess(a[3..], b[3..]);
    assert a[3..][1..] == a[4..] && b[3..][1..] == b[4..];
    assert LexLess(a[3..], b[3..]) == if a[3] != b[3] then a[3] < b[3] else LexLess(a[4..], b[4..]);
    assert a[4..][1..] == [] && b[4..][1..] == [];
    assert LexLess(a[4..], b[4..]) == (a[4] < b[4]);
  }

  /** Comparing two clock readings digit by digit is comparing their minutes. */
  lemma DigitOrder(a0: nat, a1: nat, a3: nat, a4: nat, b0: nat, b1: nat, b3: nat, b4: nat)
    requires a0 < 10 && a1 < 10 && a3 < 6 && a4 < 10
    requires b0 < 10 && b1 < 10 && b3 < 6 && b4 < 10
    ensures (if a0 != b0 then a0 < b0
             else if a1 != b1 then a1 < b1
             else if a3 != b3 then a3 < b3
             else a4 < b4)
        <==> (a0 * 10 + a1) * 60 + a3 * 10 + a4 < (b0 * 10 + b1) * 60 + b3 * 10 + b4
  {
  }

  /** The validator also admits one-digit hours, and for them the string order is not the
      clock order: "9:00" comes after "10:00" as a string but before it on the clock. */
  lemma UnpaddedOrderDiffers()
    ensures IsTime("9:00") && IsTime("10:00")
    ensures TimeMinutes("9:00") < TimeMinutes("10:00")
    ensures LexLess("10:00", "9:00") && !LexLess("9:00", "10:00")
  {
    TimeMeaning("9:00");
    TimeMeaning("10:00");
  }
}
