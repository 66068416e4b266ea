/**
 The regular expressions of the plugin's common module, written as
 predicates: the title ordinal, the timecode, the timing line and the
 language code. `\d` is read as an ASCII digit.
 */
module Patterns {
  import opened Base
  import opened Decimal

  /** `^[1-9]{1}\d*$`: a positive number without a leading zero. */
  predicate IsOrdinal(s: string) {
    |s| >= 1 && '1' <= s[0] <= '9' && AllDigits(s)
  }

  /** `\d{2}:\d{2}:\d{2},\d{3}` starting at position `k` of `s`. */
  predicate IsTimeCodeAt(s: string, k: nat)
    requires k + 12 <= |s|
  {
    && IsDigit(s[k]) && IsDigit(s[k + 1]) && s[k + 2] == ':'
    && IsDigit(s[k + 3]) && IsDigit(s[k + 4]) && s[k + 5] == ':'
    && IsDigit(s[k + 6]) && IsDigit(s[k + 7]) && s[k + 8] == ','
    && IsDigit(s[k + 9]) && IsDigit(s[k + 10]) && IsDigit(s[k + 11])
  }

  /** `^\d{2}:\d{2}:\d{2},\d{3}$`. */
  predicate IsTimeCode(s: string) {
    |s| == 12 && IsTimeCodeAt(s, 0)
  }

  /** The separator between the two timecodes of a timing line, spaces included. */
  const Arrow: string := " --> "

  predicate IsArrowAt(s: string, k: nat)
    requires k + 5 <= |s|
  {
    s[k] == ' ' && s[k + 1] == '-' && s[k + 2] == '-' && s[k + 3] == '>' && s[k + 4] == ' '
  }

  /** `^(timecode) (-->) (timecode)$` matched against the whole string. */
  predicate IsTimingLine(s: string) {
    |s| == 29 && IsTimeCodeAt(s, 0) && IsArrowAt(s, 12) && IsTimeCodeAt(s, 17)
  }

  /** Groups 1 and 3 of a timing-line match: the start and end timecode texts. */
  datatype TimingText = TimingText(startCode: string, endCode: string)

  /** The timing line made of two timecode texts. */
  function TimingLine(startCode: string, endCode: string): string {
    startCode + Arrow + endCode
  }

  lemma TimeCodeSlice(s: string, k: nat)
    requires k + 12 <= |s| && IsTimeCodeAt(s, k)
    ensures IsTimeCode(s[k..k + 12])
  {
  }

  /**
   `regexSrtTiming.match(s)`: like a full match, except that `$` also
   matches just before one final '\n'.
   */
  function MatchTiming(s: string): (r: Option<TimingText>)
    ensures r.Some? ==> IsTimeCode(r.value.startCode) && IsTimeCode(r.value.endCode)
    ensures IsTimingLine(s) ==> r == Some(TimingText(s[..12], s[17..]))
    ensures r.Some? <==> IsTimingLine(s) || (|s| == 30 && s[29] == '\n' && IsTimingLine(s[..29]))
  {
    if IsTimingLine(s) then
      TimeCodeSlice(s, 0);
      TimeCodeSlice(s, 17);
      Some(TimingText(s[..12], s[17..]))
    else if |s| == 30 && s[29] == '\n' && IsTimingLine(s[..29]) then
      TimeCodeSlice(s, 0);
      TimeCodeSlice(s, 17);
      Some(TimingText(s[..12], s[17..29]))
    else None
  }

  lemma TimingLineEnds(a: string, b: string)
    ensures |TimingLine(a, b)| == |a| + 5 + |b|
    ensures TimingLine(a, b)[..|a| + 5] == a + Arrow
    ensures TimingLine(a, b)[|a| + 5..] == b
  {
  }

  /** A timing line is exactly two timecodes around the arrow. */
  lemma TimingLineParts(a: string, b: string)
    requires IsTimeCode(a) && IsTimeCode(b)
    ensures IsTimingLine(TimingLine(a, b))
    ensures MatchTiming(TimingLine(a, b)) == Some(TimingText(a, b))
  {
    var s := TimingLine(a, b);
    assert s[..12] == a && s[17..] == b;
  }

  /** Every timing line is the timing line of its own two timecodes. */
  lemma TimingLineOfMatch(s: string)
    requires IsTimingLine(s)
    ensures TimingLine(s[..12], s[17..]) == s
  {
    assert s[12..17] == Arrow;
    assert s == s[..12] + s[12..17] + s[17..];
  }

  /** `str(n)` of a positive number is an ordinal that reads back as `n`. */
  lemma DigitsIsOrdinal(n: nat)
    requires n >= 1
    ensures IsOrdinal(Digits(n)) && Value(Digits(n)) == n
  {
    DigitsValue(n);
  }
}
