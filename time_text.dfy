/**
 * The textual side of wall-clock time used by the alarm: the "HH:MM" head of
 * `Date.prototype.toTimeString()` that the tick compares, and the
 * `value.split(':').map(Number)` parse of an `<input type="time">` value.
 */
module TimeText {
  import opened Instants

  predicate IsDigit(c: char)
  {
    '0' <= c <= '9'
  }

  function DigitValue(c: char): (d: int)
    requires IsDigit(c)
    ensures 0 <= d < 10
  {
    c as int - '0' as int
  }

  function DigitChar(d: int): (c: char)
    requires 0 <= d < 10
    ensures IsDigit(c) && DigitValue(c) == d
  {
    ('0' as int + d) as char
  }

  predicate AllDigits(s: string)
  {
    forall i | 0 <= i < |s| :: IsDigit(s[i])
  }

  /** `Number(s)` for a string of decimal digits (the empty string gives 0). */
  function DecimalValue(s: string): (n: int)
    requires AllDigits(s)
    ensures 0 <= n
    decreases |s|
  {
    if s == [] then 0 else 10 * DecimalValue(s[..|s| - 1]) + DigitValue(s[|s| - 1])
  }

  /** A zero-padded two-digit field, as `toTimeString` prints hours, minutes and seconds. */
  function TwoDigits(n: int): (s: string)
    requires 0 <= n < 100
    ensures |s| == 2 && AllDigits(s)
    ensures DecimalValue(s) == n
  {
    var s := [DigitChar(n / 10), DigitChar(n % 10)];
    DecimalValueOfTwo(s);
    s
  }

  lemma DecimalValueOfTwo(s: string)
    requires |s| == 2 && AllDigits(s)
    ensures DecimalValue(s) == 10 * DigitValue(s[0]) + DigitValue(s[1])
  {
    var head := s[..1];
    assert head[..0] == [] && head[0] == s[0];
    assert DecimalValue(head) == DigitValue(s[0]);
    assert s[..|s| - 1] == head;
  }

  /** The "HH:MM:SS" head of `toTimeString()`, in local time. */
  function TimeString(t: Instant): (s: string)
    ensures |s| == 8
  {
    TwoDigits(HourOf(t)) + ":" + TwoDigits(MinuteOf(t)) + ":" + TwoDigits(SecondOf(t))
  }

  /** `toTimeString().slice(0, 5)`: the hour and the minute, without seconds or date. */
  function ShortTime(t: Instant): (s: string)
    ensures s == TwoDigits(HourOf(t)) + ":" + TwoDigits(MinuteOf(t))
  {
    TimeString(t)[..5]
  }

  /** `s.split(sep)`: the pieces between separators, in order, empty ones included. */
  function Split(s: string, sep: char): (parts: seq<string>)
    ensures |parts| >= 1
    ensures forall i | 0 <= i < |parts| :: sep !in parts[i]
    ensures Join(parts, sep) == s
    decreases |s|
  {
    if s == [] then [[]]
    else
      var rest := Split(s[1..], sep);
      if s[0] == sep then
        [[]] + rest
      else
        var parts := [[s[0]] + rest[0]] + rest[1..];
        assert parts[1..] == rest[1..];
        assert Join(rest, sep) == rest[0] + (if |rest| == 1 then [] else [sep] + Join(rest[1..], sep));
        parts
  }

  /** `parts.join(sep)`, the inverse of Split. */
  function Join(parts: seq<string>, sep: char): string
    requires |parts| >= 1
    decreases |parts|
  {
    if |parts| == 1 then parts[0] else parts[0] + [sep] + Join(parts[1..], sep)
  }

  /** A value as `<input type="time" required>` submits it: zero-padded "HH:MM", HH < 24, MM < 60. */
  predicate IsTimeInput(s: string)
  {
    |s| == 5 && s[2] == ':' &&
    AllDigits(s[..2]) && AllDigits(s[3..]) &&
    DecimalValue(s[..2]) < 24 && DecimalValue(s[3..]) < 60
  }

  datatype HourMinute = HourMinute(hours: int, minutes: int)
  {
    predicate Valid()
    {
      0 <= hours < 24 && 0 <= minutes < 60
    }
  }

  /** Splitting around the one separator of a time input yields its two fields. */
  lemma SplitTimeInput(s: string)
    requires IsTimeInput(s)
    ensures Split(s, ':') == [s[..2], s[3..]]
  {
    assert s == s[..2] + [':'] + s[3..];
    SplitAfterPrefix(s[..2], s[3..], ':');
    assert s[3..] == [s[3]] + [s[4]];
    assert Split(s[3..], ':') == [s[3..]] by {
      SplitNoSeparator(s[3..], ':');
    }
  }

  lemma {:induction false} SplitNoSeparator(s: string, sep: char)
    requires forall i | 0 <= i < |s| :: s[i] != sep
    ensures Split(s, sep) == [s]
    decreases |s|
  {
    if s != [] {
      SplitNoSeparator(s[1..], sep);
      assert [s[0]] + s[1..] == s;
    }
  }

  lemma {:induction false} SplitAfterPrefix(a: string, b: string, sep: char)
    requires forall i | 0 <= i < |a| :: a[i] != sep
    ensures Split(a + [sep] + b, sep) == [a] + Split(b, sep)
    decreases |a|
  {
    var s := a + [sep] + b;
    if a == [] {
      assert s[1..] == b;
    } else {
      assert s[1..] == a[1..] + [sep] + b;
      SplitAfterPrefix(a[1..], b, sep);
      assert [a[0]] + a[1..] == a;
    }
  }

  /** The `split(':')` and `Number` parse of a time-input value into hours and minutes. */
  function ParseTimeInput(s: string): (hm: HourMinute)
    requires IsTimeInput(s)
    ensures hm.Valid()
    ensures TwoDigits(hm.hours) + ":" + TwoDigits(hm.minutes) == s
  {
    SplitTimeInput(s);
    var parts := Split(s, ':');
    var hm := HourMinute(DecimalValue(parts[0]), DecimalValue(parts[1]));
    TwoDigitsOfDigits(s[..2]);
    TwoDigitsOfDigits(s[3..]);
    hm
  }

  /** Reading two digits back as a number and printing it zero-padded gives them back. */
  lemma TwoDigitsOfDigits(s: string)
    requires |s| == 2 && AllDigits(s)
    ensures DecimalValue(s) < 100 && TwoDigits(DecimalValue(s)) == s
  {
    DecimalValueOfTwo(s);
  }

  /** The short time of every instant is a well-formed time input that parses back to its hour and minute. */
  lemma ParseShortTime(t: Instant)
    ensures IsTimeInput(ShortTime(t))
    ensures ParseTimeInput(ShortTime(t)) == HourMinute(HourOf(t), MinuteOf(t))
  {
    var s := ShortTime(t);
    assert s[..2] == TwoDigits(HourOf(t));
    assert s[3..] == TwoDigits(MinuteOf(t));
    SplitTimeInput(s);
  }

  /** Two instants show the same "HH:MM" exactly when their hours and minutes agree. */
  lemma ShortTimeEqual(a: Instant, b: Instant)
    ensures ShortTime(a) == ShortTime(b) <==> HourOf(a) == HourOf(b) && MinuteOf(a) == MinuteOf(b)
  {
    if ShortTime(a) == ShortTime(b) {
      ParseShortTime(a);
      ParseShortTime(b);
    }
  }
}
