/**
 Timing-line arithmetic of the timing module: splitting one timing in two,
 joining two timings, shifting a timing, and the shift-all command with
 its guards.
 */
module Timing {
  import opened Base
  import opened Patterns
  import opened TimeCode

  datatype TimingError = WrongTimingFormat

  /** Decoded start of a matched timing line. */
  function StartOf(m: TimingText): nat
    requires IsTimeCode(m.startCode)
  {
    CodeValue(m.startCode)
  }

  function EndOf(m: TimingText): nat
    requires IsTimeCode(m.endCode)
  {
    CodeValue(m.endCode)
  }

  /** A well-formed timing line's decoded bounds. */
  predicate Denotes(line: string, start: int, end: int) {
    && MatchTiming(line).Some?
    && StartOf(MatchTiming(line).value) == start
    && EndOf(MatchTiming(line).value) == end
  }

  /** The canonical timing line for two millisecond values. */
  function Canonical(start: int, end: int): string {
    TimingLine(Encode(start), Encode(end))
  }

  /** A canonical timing line of in-range values denotes exactly those values. */
  lemma CanonicalDenotes(start: int, end: int)
    requires 0 <= start < Limit && 0 <= end < Limit
    ensures IsTimingLine(Canonical(start, end))
    ensures MatchTiming(Canonical(start, end)) == Some(TimingText(Encode(start), Encode(end)))
    ensures Denotes(Canonical(start, end), start, end)
  {
    ValueEncode(start);
    ValueEncode(end);
    TimingLineParts(Encode(start), Encode(end));
  }

  /** A value outside `[0, Limit)` never prints into a timing line. */
  lemma CanonicalOutOfRange(start: int, end: int)
    requires !(0 <= start < Limit && 0 <= end < Limit)
    ensures !IsTimingLine(Canonical(start, end))
  {
    var a, b := Encode(start), Encode(end);
    EncodeTimeCode(start);
    EncodeTimeCode(end);
    var r := Canonical(start, end);
    if |r| == 29 {
      assert |a| == 12 && |b| == 12;
      assert r[..12] == a && r[17..] == b;
    }
  }

  /**
   `splitTimingInTwo`: with `half` the floor of half the duration, the
   first part runs from the original start text to `start + half` and
   the second from `end - half + 1` to the original end text.
   */
  function SplitTimingInTwo(t: string): (r: Result<(string, string), TimingError>)
    ensures r.Ok? <==> MatchTiming(t).Some?
    ensures r.Ok? ==> var m := MatchTiming(t).value;
                      && |r.value.0| >= 17 && r.value.0[..17] == m.startCode + Arrow
                      && |r.value.1| >= 12 && r.value.1[|r.value.1| - 12..] == m.endCode
  {
    match MatchTiming(t)
    case None => Err(WrongTimingFormat)
    case Some(m) =>
      var start := StartOf(m);
      var end := EndOf(m);
      var half := (end - start) / 2;
      var first := TimingLine(m.startCode, Encode(start + half));
      var second := TimingLine(Encode(end - half + 1), m.endCode);
      TimingLineEnds(m.startCode, Encode(start + half));
      TimingLineEnds(Encode(end - half + 1), m.endCode);
      Ok((first, second))
  }

  /**
   For a timing of at least 2 ms below one hundred hours, the two parts
   are well-formed timings that keep the outer bounds, the first lasting
   `half` ms and the second `half - 1` ms, separated by a gap of 1 ms
   when the duration is even and 2 ms when it is odd.
   */
  lemma SplitTimingHalves(t: string)
    requires IsTimingLine(t)
    requires var m := MatchTiming(t).value;
             && StartOf(m) <= EndOf(m) < Limit
             && (EndOf(m) - StartOf(m) < 2 ==> EndOf(m) + 1 < Limit)
    ensures var m := MatchTiming(t).value;
            var start, end := StartOf(m), EndOf(m);
            var half := (end - start) / 2;
            var parts := SplitTimingInTwo(t).value;
            && Denotes(parts.0, start, start + half)
            && Denotes(parts.1, end - half + 1, end)
            && IsTimingLine(parts.0) && IsTimingLine(parts.1)
            && (end - half + 1) - (start + half) == (if (end - start) % 2 == 0 then 1 else 2)
            && start <= start + half < end - half + 1
            && (end - start >= 2 ==> end - half + 1 <= end)
            && (end - start < 2 ==> end - half + 1 == end + 1)
  {
    hide Encode, IsTimingLine, MatchTiming, CodeValue;
    var m := MatchTiming(t).value;
    var start, end := StartOf(m), EndOf(m);
    var half := (end - start) / 2;
    HalfGap(start, end);
    var a := Encode(start + half);
    var b := Encode(end - half + 1);
    ValueEncode(start + half);
    ValueEncode(end - half + 1);
    TimingLineParts(m.startCode, a);
    TimingLineParts(b, m.endCode);
    var parts := SplitTimingInTwo(t).value;
    assert parts == (TimingLine(m.startCode, a), TimingLine(b, m.endCode));
  }

  lemma HalfGap(start: int, end: int)
    requires start <= end
    ensures var half := (end - start) / 2;
            && (end - half + 1) - (start + half) == (if (end - start) % 2 == 0 then 1 else 2)
            && start <= start + half < end - half + 1
            && (end - start >= 2 ==> end - half + 1 <= end)
            && (end - start < 2 ==> end - half + 1 == end + 1)
  {
  }

  /**
   `joinTimings(a, b)`: the earliest sensible span, taking the start text
   of `a` and the end text of `b` when `b` ends after `a` starts, and
   otherwise the start of `b` and the end of `a`. Every timecode text is
   taken verbatim from the inputs.
   */
  function JoinTimings(a: string, b: string): (r: Result<string, TimingError>)
    ensures r.Ok? <==> MatchTiming(a).Some? && MatchTiming(b).Some?
    ensures r.Ok? ==>
              var ma, mb := MatchTiming(a).value, MatchTiming(b).value;
              MatchTiming(r.value) == Some(
                if EndOf(mb) > StartOf(ma) then TimingText(ma.startCode, mb.endCode)
                else TimingText(mb.startCode, ma.endCode))
    ensures r.Ok? ==> IsTimingLine(r.value)
  {
    match (MatchTiming(a), MatchTiming(b))
    case (Some(ma), Some(mb)) =>
      if EndOf(mb) > StartOf(ma) then
        TimingLineParts(ma.startCode, mb.endCode);
        Ok(TimingLine(ma.startCode, mb.endCode))
      else
        TimingLineParts(mb.startCode, ma.endCode);
        Ok(TimingLine(mb.startCode, ma.endCode))
    case _ => Err(WrongTimingFormat)
  }

  /**
   For two consecutive, non-overlapping titles, joining in either order
   yields the span from the earlier start to the later end.
   */
  lemma JoinOrderIndependent(a: string, b: string)
    requires IsTimingLine(a) && IsTimingLine(b)
    requires var ma, mb := MatchTiming(a).value, MatchTiming(b).value;
             StartOf(ma) <= EndOf(ma) < StartOf(mb) <= EndOf(mb)
    ensures JoinTimings(a, b) == JoinTimings(b, a) == Ok(TimingLine(a[..12], b[17..]))
  {
    TimingLineOfMatch(a);
    TimingLineOfMatch(b);
  }

  /**
   `shiftTiming`: both bounds move by `delta` and are printed again, so
   the text comes out canonical; only a line that is not a timing fails.
   */
  function ShiftTiming(t: string, delta: int): (r: Result<string, TimingError>)
    ensures r.Ok? <==> MatchTiming(t).Some?
  {
    match MatchTiming(t)
    case None => Err(WrongTimingFormat)
    case Some(m) => Ok(Canonical(StartOf(m) + delta, EndOf(m) + delta))
  }

  /** A shifted timing whose moved bounds stay in `[0, Limit)` denotes them. */
  lemma ShiftInRange(t: string, delta: int)
    requires MatchTiming(t).Some?
    requires var m := MatchTiming(t).value;
             0 <= StartOf(m) + delta < Limit && 0 <= EndOf(m) + delta < Limit
    ensures ShiftTiming(t, delta).Ok?
    ensures var m := MatchTiming(t).value;
            && IsTimingLine(ShiftTiming(t, delta).value)
            && Denotes(ShiftTiming(t, delta).value, StartOf(m) + delta, EndOf(m) + delta)
  {
    hide Encode;
    var m := MatchTiming(t).value;
    ShiftValue(t, delta);
    CanonicalDenotes(StartOf(m) + delta, EndOf(m) + delta);
  }

  /** A shift that moves a bound outside `[0, Limit)` produces a line that is no timing. */
  lemma ShiftOutOfRange(t: string, delta: int)
    requires MatchTiming(t).Some?
    requires var m := MatchTiming(t).value;
             !(0 <= StartOf(m) + delta < Limit && 0 <= EndOf(m) + delta < Limit)
    ensures ShiftTiming(t, delta).Ok? && !IsTimingLine(ShiftTiming(t, delta).value)
  {
    hide Encode;
    var m := MatchTiming(t).value;
    ShiftValue(t, delta);
    CanonicalOutOfRange(StartOf(m) + delta, EndOf(m) + delta);
  }

  /** A matched timing line shifts to the canonical line of its moved bounds. */
  lemma ShiftValue(t: string, delta: int)
    requires MatchTiming(t).Some?
    ensures var m := MatchTiming(t).value;
            ShiftTiming(t, delta) == Ok(Canonical(StartOf(m) + delta, EndOf(m) + delta))
  {
  }

  /** A shift keeps the duration of every timing whose bounds stay in range. */
  lemma ShiftKeepsDuration(t: string, delta: int)
    requires MatchTiming(t).Some?
    requires var m := MatchTiming(t).value;
             0 <= StartOf(m) + delta < Limit && 0 <= EndOf(m) + delta < Limit
    ensures MatchTiming(ShiftTiming(t, delta).value).Some?
    ensures var m := MatchTiming(t).value;
            var m' := MatchTiming(ShiftTiming(t, delta).value).value;
            EndOf(m') - StartOf(m') == EndOf(m) - StartOf(m)
  {
    ShiftInRange(t, delta);
  }

  /** Shifting a line that denotes `(start, end)` prints the moved values. */
  lemma ShiftDenoted(s: string, start: int, end: int, delta: int)
    requires Denotes(s, start, end)
    ensures ShiftTiming(s, delta) == Ok(Canonical(start + delta, end + delta))
  {
    hide Encode;
    ShiftValue(s, delta);
  }

  /**
   Shifting by `delta` and back by `-delta` gives the canonical text of
   the original timing, as long as the shifted bounds stay in range.
   */
  lemma ShiftBack(t: string, delta: int)
    requires MatchTiming(t).Some?
    requires var m := MatchTiming(t).value;
             0 <= StartOf(m) + delta < Limit && 0 <= EndOf(m) + delta < Limit
    ensures ShiftTiming(t, delta).Ok?
    ensures var m := MatchTiming(t).value;
            ShiftTiming(ShiftTiming(t, delta).value, -delta) == Ok(Canonical(StartOf(m), EndOf(m)))
  {
    hide Encode;
    var m := MatchTiming(t).value;
    var start, end := StartOf(m) + delta, EndOf(m) + delta;
    ShiftInRange(t, delta);
    ShiftDenoted(ShiftTiming(t, delta).value, start, end, -delta);
    assert start + -delta == StartOf(m) && end + -delta == EndOf(m);
  }

  /** Shifting by zero leaves a canonical timing line as it is. */
  lemma ShiftZeroCanonical(t: string)
    requires IsTimingLine(t)
    ensures var m := MatchTiming(t).value;
            ShiftTiming(t, 0) == Ok(t) <==>
              && Minutes(m.startCode) < 60 && Seconds(m.startCode) < 60
              && Minutes(m.endCode) < 60 && Seconds(m.endCode) < 60
  {
    hide ShiftTiming, IsTimingLine, MatchTiming, CodeValue, Minutes, Seconds, Encode;
    var m := MatchTiming(t).value;
    var a, b := Encode(StartOf(m)), Encode(EndOf(m));
    ShiftValue(t, 0);
    TimingLineOfMatch(t);
    EncodeTimeCode(StartOf(m));
    EncodeTimeCode(EndOf(m));
    DecodeValue(m.startCode);
    DecodeValue(m.endCode);
    EncodeDecode(m.startCode);
    EncodeDecode(m.endCode);
    if TimingLine(a, b) == t {
      TimingLineSame(a, b, t);
    }
  }

  /** A 29-character timing line has only one reading as two texts of at least 12 characters around the arrow. */
  lemma TimingLineSame(a: string, b: string, t: string)
    requires |a| >= 12 && |b| >= 12 && |t| == 29 && TimingLine(a, b) == t
    ensures a == t[..12] && b == t[17..]
  {
    TimingLineEnds(a, b);
  }

  datatype ShiftError = ShiftTooLarge | NoTimings | BelowZero

  /** The first timing line at or after position `i`, if any. */
  function FindTiming(lines: seq<string>, i: nat): (r: Option<nat>)
    requires i <= |lines|
    ensures r.Some? ==> && i <= r.value < |lines| && IsTimingLine(lines[r.value])
                        && forall j :: i <= j < r.value ==> !IsTimingLine(lines[j])
    ensures r.None? <==> forall j :: i <= j < |lines| ==> !IsTimingLine(lines[j])
    decreases |lines| - i
  {
    if i == |lines| then None
    else if IsTimingLine(lines[i]) then Some(i)
    else FindTiming(lines, i + 1)
  }

  /** One line after the shift: timing lines are shifted, every other line is kept. */
  function ShiftLine(line: string, delta: int): string {
    if IsTimingLine(line) then ShiftTiming(line, delta).value else line
  }

  function ShiftAll(lines: seq<string>, delta: int): seq<string> {
    seq(|lines|, i requires 0 <= i < |lines| => ShiftLine(lines[i], delta))
  }

  /**
   The shift-all-timings command: a zero shift does nothing, a shift of
   more than an hour either way is refused, so is a document without a
   timing line, and a backward shift is refused when it would take the
   FIRST timing's start below zero. Otherwise every timing line is shifted.
   */
  function ShiftTimings(lines: seq<string>, delta: int): (r: Result<seq<string>, ShiftError>)
    ensures delta == 0 ==> r == Ok(lines)
    ensures delta != 0 && (delta > 3600000 || delta < -3600000) ==> r == Err(ShiftTooLarge)
    ensures delta != 0 && -3600000 <= delta <= 3600000 ==>
              match FindTiming(lines, 0)
              case None => r == Err(NoTimings)
              case Some(k) =>
                if delta < 0 && StartOf(MatchTiming(lines[k]).value) < -delta then r == Err(BelowZero)
                else r.Ok? && |r.value| == |lines|
  {
    if delta == 0 then Ok(lines)
    else if delta > 3600000 || delta < -3600000 then Err(ShiftTooLarge)
    else
      match FindTiming(lines, 0)
      case None => Err(NoTimings)
      case Some(k) =>
        if delta < 0 && StartOf(MatchTiming(lines[k]).value) < -delta then Err(BelowZero)
        else Ok(ShiftAll(lines, delta))
  }

  /**
   An accepted non-zero shift rewrites each timing line by `shiftTiming`
   and leaves every other line as it was.
   */
  lemma ShiftTimingsLines(lines: seq<string>, delta: int, i: nat)
    requires delta != 0 && ShiftTimings(lines, delta).Ok? && i < |lines|
    ensures |ShiftTimings(lines, delta).value| == |lines|
    ensures !IsTimingLine(lines[i]) ==> ShiftTimings(lines, delta).value[i] == lines[i]
    ensures IsTimingLine(lines[i]) ==> Ok(ShiftTimings(lines, delta).value[i]) == ShiftTiming(lines[i], delta)
  {
    hide Encode;
    assert ShiftTimings(lines, delta).value == ShiftAll(lines, delta);
  }

  /**
   Only the first timing is checked against going below zero: a later
   timing whose start the shift takes below zero is still rewritten, into
   a line that is no longer a timing line.
   */
  lemma LaterTimingUnguarded(lines: seq<string>, delta: int, i: nat)
    requires delta != 0 && ShiftTimings(lines, delta).Ok? && i < |lines| && IsTimingLine(lines[i])
    requires StartOf(MatchTiming(lines[i]).value) + delta < 0
    ensures !IsTimingLine(ShiftTimings(lines, delta).value[i])
  {
    hide Encode;
    ShiftTimingsLines(lines, delta, i);
    ShiftOutOfRange(lines[i], delta);
  }

  /**
   The command's loop: the timing lines are replaced one by one from the
   last to the first, so a replacement never disturbs a line still to be
   visited.
   */
  method ReplaceTimings(lines: seq<string>, delta: int) returns (out: seq<string>)
    ensures |out| == |lines|
    ensures forall i :: 0 <= i < |lines| ==> out[i] == ShiftLine(lines[i], delta)
  {
    out := lines;
    var k := |lines|;
    while k > 0
      invariant 0 <= k <= |lines| && |out| == |lines|
      invariant forall j :: 0 <= j < k ==> out[j] == lines[j]
      invariant forall j :: k <= j < |lines| ==> out[j] == ShiftLine(lines[j], delta)
    {
      k := k - 1;
      if IsTimingLine(lines[k]) {
        out := out[k := ShiftTiming(lines[k], delta).value];
      }
    }
  }

  /** The command with its guards, replacing from the last timing to the first. */
  method ShiftTimingsCommand(lines: seq<string>, delta: int) returns (r: Result<seq<string>, ShiftError>)
    ensures r == ShiftTimings(lines, delta)
  {
    hide Encode, ShiftTiming, IsTimingLine, MatchTiming, CodeValue;
    if delta == 0 {
      return Ok(lines);
    }
    if delta > 3600000 || delta < -3600000 {
      return Err(ShiftTooLarge);
    }
    var first := FindTiming(lines, 0);
    if first.None? {
      return Err(NoTimings);
    }
    if delta < 0 && StartOf(MatchTiming(lines[first.value]).value) < -delta {
      return Err(BelowZero);
    }
    var out := ReplaceTimings(lines, delta);
    hide ShiftLine;
    assert out == ShiftAll(lines, delta);
    return Ok(out);
  }
}
