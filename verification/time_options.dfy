/**
 * The closed list of times offered by the trip form's "Out Time" and
 * "In Time" dropdowns: every quarter hour from 00:00 to 23:45, rendered
 * as zero-padded 24-hour `HH:MM` text.
 *
 * A time of day is a number of minutes since midnight; the calendar date
 * the source attaches to it plays no part in the list.
 */
module TimeOptions {

  /** Minutes between two consecutive options. */
  const Step: nat := 15
  /** 23:45, the last option, in minutes since midnight. */
  const LastOption: nat := 23 * 60 + 45
  /** Number of options in the list. */
  const OptionCount: nat := 96
  const MinutesPerDay: nat := 24 * 60

  /** The character of a decimal digit. */
  function DigitChar(n: nat): (c: char)
    requires n < 10
    ensures '0' <= c <= '9' && c as int - '0' as int == n
  {
    ('0' as int + n) as char
  }

  predicate IsDigit(c: char) {
    '0' <= c <= '9'
  }

  /** The number that two decimal digit characters denote. */
  function TwoDigitValue(hi: char, lo: char): int {
    10 * (hi as int - '0' as int) + (lo as int - '0' as int)
  }

  /** Text of the shape `DD:DD`. */
  predicate IsClockText(s: string) {
    |s| == 5 && IsDigit(s[0]) && IsDigit(s[1]) && s[2] == ':' && IsDigit(s[3]) && IsDigit(s[4])
  }

  /** The hour a clock text shows. */
  function HourOf(s: string): int
    requires IsClockText(s)
  {
    TwoDigitValue(s[0], s[1])
  }

  /** The minute a clock text shows. */
  function MinuteOf(s: string): int
    requires IsClockText(s)
  {
    TwoDigitValue(s[3], s[4])
  }

  /** The time of day a clock text shows, in minutes since midnight. */
  function MinutesShown(s: string): int
    requires IsClockText(s)
  {
    60 * HourOf(s) + MinuteOf(s)
  }

  /**
   * Renders a time of day the way `strftime("%H:%M")` does: two-digit hour
   * and two-digit minute, both zero-padded, separated by a colon. Reading
   * the digits back gives the hour and minute of `m`.
   */
  function Format(m: nat): (s: string)
    requires m < MinutesPerDay
    ensures IsClockText(s)
    ensures HourOf(s) == m / 60 && MinuteOf(s) == m % 60
    ensures MinutesShown(s) == m
  {
    var h, mm := m / 60, m % 60;
    [DigitChar(h / 10), DigitChar(h % 10), ':', DigitChar(mm / 10), DigitChar(mm % 10)]
  }

  /** Two different times never share a rendering. */
  lemma FormatInjective(a: nat, b: nat)
    requires a < MinutesPerDay && b < MinutesPerDay
    ensures Format(a) == Format(b) <==> a == b
  {
    if Format(a) == Format(b) {
      assert MinutesShown(Format(a)) == a;
      assert MinutesShown(Format(b)) == b;
    }
  }

  /** The i-th option of the dropdown. */
  function TimeOption(i: nat): string
    requires i < OptionCount
  {
    Format(Step * i)
  }

  /** Text that is one of the dropdown's entries. */
  ghost predicate IsTimeOption(s: string) {
    exists i :: 0 <= i < OptionCount && s == TimeOption(i)
  }

  /**
   * Builds the dropdown list by stepping a clock forward a quarter hour at
   * a time until it passes 23:45, appending each reading.
   */
  method GenerateTimeOptions() returns (times: seq<string>)
    ensures |times| == OptionCount
    ensures forall i :: 0 <= i < |times| ==> times[i] == TimeOption(i)
  {
    times := [];
    var current: nat := 0;
    while current <= LastOption
      invariant current == Step * |times| && current <= LastOption + Step
      invariant forall i :: 0 <= i < |times| ==> times[i] == TimeOption(i)
    {
      times := times + [Format(current)];
      current := current + Step;
    }
  }

  /** Each option is a valid 24-hour clock reading on a quarter hour, `Step * i` minutes after midnight. */
  lemma TimeOptionShape(i: nat)
    requires i < OptionCount
    ensures IsClockText(TimeOption(i))
    ensures 0 <= HourOf(TimeOption(i)) <= 23
    ensures MinuteOf(TimeOption(i)) in {0, 15, 30, 45}
    ensures MinutesShown(TimeOption(i)) == Step * i
  {
    var m := Step * i;
    assert m == 60 * (i / 4) + 15 * (i % 4);
    assert m / 60 == i / 4 && m % 60 == 15 * (i % 4);
  }

  /** Consecutive options are exactly one step apart, so the list strictly increases. */
  lemma ConsecutiveOptions(i: nat)
    requires i + 1 < OptionCount
    ensures MinutesShown(TimeOption(i + 1)) == MinutesShown(TimeOption(i)) + Step
    ensures MinutesShown(TimeOption(i)) < MinutesShown(TimeOption(i + 1))
  {
    TimeOptionShape(i);
    TimeOptionShape(i + 1);
  }

  /** Distinct positions hold distinct options. */
  lemma OptionsDistinct(i: nat, j: nat)
    requires i < j < OptionCount
    ensures TimeOption(i) != TimeOption(j)
  {
    FormatInjective(Step * i, Step * j);
  }

  /** The list opens at midnight and closes at a quarter to midnight. */
  lemma FirstAndLastOption()
    ensures TimeOption(0) == "00:00"
    ensures TimeOption(OptionCount - 1) == "23:45"
  {
    assert Step * (OptionCount - 1) == LastOption;
  }
}
