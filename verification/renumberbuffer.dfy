/**
 The renumber pass as the editor runs it: on the buffer text, through the
 line regions taken from the buffer before the first edit. Each ordinal
 replacement changes the length of the buffer, so the pass moves every
 later region back by an accumulated adjustment. The code computes that
 adjustment from the STRIPPED ordinal, while the text it replaces is the
 whole line; the two disagree as soon as an ordinal line carries
 surrounding whitespace. `StrippedLength` is the rule as written,
 `RegionSize` the rule that keeps the regions aligned.
 */
module RenumberBuffer {
  import opened Base
  import opened Strings
  import opened Decimal
  import opened Patterns
  import opened Renumber
  import Validation

  /** Lines, each followed by '\n'. */
  function Terminated(xs: seq<string>): string {
    if |xs| == 0 then "" else xs[0] + "\n" + Terminated(xs[1..])
  }

  /** The offset at which line `i` starts in the buffer the regions were taken from. */
  function LineStart(lines: seq<string>, i: nat): nat
    requires i <= |lines|
  {
    |Terminated(lines[..i])|
  }

  function Clamp(x: int, n: nat): (r: nat)
    ensures r <= n
    ensures 0 <= x <= n ==> r == x
  {
    if x < 0 then 0 else if x > n then n else x
  }

  /** The text of a region, its two ends held within the buffer. */
  function Substr(buf: string, a: int, b: int): string {
    var lo, hi := Clamp(a, |buf|), Clamp(b, |buf|);
    if lo <= hi then buf[lo..hi] else buf[hi..lo]
  }

  /** The buffer with the text of a region replaced. */
  function Replace(buf: string, a: int, b: int, text: string): string {
    var lo, hi := Clamp(a, |buf|), Clamp(b, |buf|);
    if lo <= hi then buf[..lo] + text + buf[hi..] else buf[..hi] + text + buf[lo..]
  }

  /** How far later regions move once an ordinal line has been replaced by `num`. */
  datatype Adjustment = StrippedLength | RegionSize

  function Moved(rule: Adjustment, line: string, regionSize: nat, num: string): int {
    match rule
    case StrippedLength => |line| - |num|
    case RegionSize => regionSize - |num|
  }

  /** The loop's variables: the line-level state, the buffer and the accumulated adjustment. */
  datatype Cursor = Cursor(st: Pass, buf: string, adj: int)

  datatype BufferOutcome = BufferOutcome(buffer: string, fault: Option<Fault>)

  /** One turn at line `i`: the region of the line, moved back by the adjustment, is read and stripped. */
  function Turn(rule: Adjustment, lines: seq<string>, i: nat, c: Cursor): Result<Cursor, Fault>
    requires i < |lines|
  {
    var a := LineStart(lines, i) - c.adj;
    var b := a + |lines[i]|;
    var line := Strip(Substr(c.buf, a, b));
    if line == "" then
      if c.st.hadEmpty || i == 0 then Err(Fault(i, EmptyLine))
      else Ok(Cursor(Pass(true, 0, c.st.next), c.buf, c.adj))
    else if c.st.lineInTitle == 0 then
      if IsOrdinal(line) then
        var num := Digits(c.st.next);
        Ok(Cursor(Pass(false, 1, c.st.next + 1), Replace(c.buf, a, b, num),
                  c.adj + Moved(rule, line, |lines[i]|, num)))
      else Err(Fault(i, NoOrdinal))
    else Ok(Cursor(Pass(false, c.st.lineInTitle + 1, c.st.next), c.buf, c.adj))
  }

  function Walk(rule: Adjustment, lines: seq<string>, i: nat, c: Cursor): BufferOutcome
    requires i <= |lines|
    decreases |lines| - i
  {
    if i == |lines| then BufferOutcome(c.buf, None)
    else match Turn(rule, lines, i, c)
      case Err(f) => BufferOutcome(c.buf, Some(f))
      case Ok(c') => Walk(rule, lines, i + 1, c')
  }

  /** The pass over a buffer: regions from its lines, the buffer edited in place. */
  function RenumberInBuffer(rule: Adjustment, content: string): BufferOutcome {
    Walk(rule, BufferLines(content), 0, Cursor(Pass(false, 0, 1), content, 0))
  }

  // Facts about terminated lines.

  lemma {:induction false} TerminatedAppend(a: seq<string>, b: seq<string>)
    ensures Terminated(a + b) == Terminated(a) + Terminated(b)
  {
    if |a| > 0 {
      assert (a + b)[1..] == a[1..] + b;
      TerminatedAppend(a[1..], b);
    } else {
      assert a + b == b;
    }
  }

  lemma TerminatedCons(xs: seq<string>)
    requires |xs| > 0
    ensures Terminated(xs) == xs[0] + "\n" + Terminated(xs[1..])
    ensures |xs| == 1 ==> Terminated(xs) == xs[0] + "\n"
  {
  }

  /** The buffer up to and including line `i`. */
  lemma UpTo(xs: seq<string>, i: nat)
    requires i < |xs|
    ensures Terminated(xs[..i + 1]) == Terminated(xs[..i]) + xs[i] + "\n"
  {
    hide Terminated;
    assert xs[..i + 1] == xs[..i] + [xs[i]];
    TerminatedAppend(xs[..i], [xs[i]]);
    TerminatedCons([xs[i]]);
  }

  /** The buffer around line `i`: the lines before it, the line, its '\n', and the lines after it. */
  lemma Around(xs: seq<string>, i: nat)
    requires i < |xs|
    ensures Terminated(xs) == Terminated(xs[..i]) + xs[i] + "\n" + Terminated(xs[i + 1..])
    ensures Terminated(xs[..i + 1]) == Terminated(xs[..i]) + xs[i] + "\n"
  {
    hide Terminated;
    assert xs == xs[..i] + xs[i..];
    TerminatedAppend(xs[..i], xs[i..]);
    TerminatedCons(xs[i..]);
    assert xs[i..][1..] == xs[i + 1..];
    UpTo(xs, i);
  }

  lemma {:induction false} TerminatedContent(xs: seq<string>)
    ensures Terminated(xs) == Content(xs)
  {
    if |xs| > 1 {
      TerminatedContent(xs[1..]);
    } else if |xs| == 1 {
      assert xs[1..] == [];
    }
  }

  // The corrected rule keeps every region on its line.

  /**
   What holds before line `i` under the region-size rule: the buffer is the
   line-level document `out` rendered, the lines from `i` on are still the
   original ones, and the adjustment is how much shorter the rendered
   prefix has become.
   */
  predicate Aligned(lines: seq<string>, i: nat, c: Cursor, st: Pass, out: seq<string>) {
    && i <= |lines| && |out| == |lines|
    && c.st == st
    && (forall j :: i <= j < |lines| ==> out[j] == lines[j])
    && c.buf == Terminated(out)
    && c.adj == |Terminated(lines[..i])| - |Terminated(out[..i])|
  }

  /** Under the aligned state the region of line `i` holds exactly the original line. */
  lemma ReadLine(lines: seq<string>, i: nat, c: Cursor, st: Pass, out: seq<string>)
    requires i < |lines| && Aligned(lines, i, c, st, out)
    ensures var a := LineStart(lines, i) - c.adj;
            Substr(c.buf, a, a + |lines[i]|) == lines[i]
    ensures |Terminated(lines[..i + 1])| - |Terminated(out[..i + 1])| == c.adj
  {
    Around(out, i);
    Around(lines, i);
  }

  /** Replacing the region of line `i` renders the document with that line replaced, and moves later regions by the size difference. */
  lemma WriteLine(lines: seq<string>, i: nat, c: Cursor, st: Pass, out: seq<string>, num: string)
    requires i < |lines| && Aligned(lines, i, c, st, out)
    ensures var a := LineStart(lines, i) - c.adj;
            Replace(c.buf, a, a + |lines[i]|, num) == Terminated(out[i := num])
    ensures |Terminated(lines[..i + 1])| - |Terminated(out[i := num][..i + 1])| == c.adj + |lines[i]| - |num|
  {
    Around(out, i);
    Around(lines, i);
    Around(out[i := num], i);
    assert out[i := num][..i] == out[..i] && out[i := num][i + 1..] == out[i + 1..];
  }

  /** Under the region-size rule a turn reads the original line and does what the line-level turn does. */
  lemma TurnAligned(lines: seq<string>, i: nat, c: Cursor, st: Pass, out: seq<string>)
    requires i < |lines| && Aligned(lines, i, c, st, out)
    ensures Turn(RegionSize, lines, i, c).Err? <==> Advance(lines, i, st, out).Err?
    ensures Turn(RegionSize, lines, i, c).Err? ==>
              Turn(RegionSize, lines, i, c).error == Advance(lines, i, st, out).error
    ensures Turn(RegionSize, lines, i, c).Ok? ==>
              var (st', out') := Advance(lines, i, st, out).value;
              Aligned(lines, i + 1, Turn(RegionSize, lines, i, c).value, st', out')
  {
    hide Strip, IsOrdinal, Digits, Terminated, Substr, Replace;
    ReadLine(lines, i, c, st, out);
    var line := Strip(lines[i]);
    if line != "" && st.lineInTitle == 0 && IsOrdinal(line) {
      WriteLine(lines, i, c, st, out, Digits(st.next));
    }
  }

  lemma {:induction false} WalkAligned(lines: seq<string>, i: nat, c: Cursor, st: Pass, out: seq<string>)
    requires Aligned(lines, i, c, st, out)
    ensures var o := Loop(lines, i, st, out);
            Walk(RegionSize, lines, i, c) == BufferOutcome(Terminated(o.lines), o.fault)
    decreases |lines| - i
  {
    if i < |lines| {
      TurnAligned(lines, i, c, st, out);
      match Advance(lines, i, st, out)
      case Err(f) =>
      case Ok((st', out')) =>
        WalkAligned(lines, i + 1, Turn(RegionSize, lines, i, c).value, st', out');
    }
  }

  /**
   With the region-size rule the pass over a buffer of terminated lines
   leaves exactly the rendering of the line-level renumbered document,
   with the same fault.
   */
  lemma RegionSizeFollowsLines(content: string)
    requires |content| == 0 || content[|content| - 1] == '\n'
    ensures var o := Renumber.Renumber(BufferLines(content));
            RenumberInBuffer(RegionSize, content) == BufferOutcome(Content(o.lines), o.fault)
  {
    var lines := BufferLines(content);
    if |content| > 0 {
      Validation.RenderBufferLines(content);
    }
    TerminatedContent(lines);
    assert lines[..0] == [];
    WalkAligned(lines, 0, Cursor(Pass(false, 0, 1), content, 0), Pass(false, 0, 1), lines);
    var o := Renumber.Renumber(lines);
    TerminatedContent(o.lines);
  }

  // The rule as written.

  /** One title whose ordinal line carries a trailing space, then a second title. */
  const Sample: seq<string> := ["5 ", "x", "", "2", "y"]

  lemma SampleBuffer()
    ensures Content(Sample) == "5 \nx\n\n2\ny\n"
    ensures BufferLines(Content(Sample)) == Sample
  {
    TerminatedContent(Sample);
    assert Sample[1..] == ["x", "", "2", "y"];
    assert Terminated(Sample) == "5 \n" + Terminated(["x", "", "2", "y"]);
    assert Terminated(["x", "", "2", "y"]) == "x\n\n2\ny\n";
    assert NoNewlines(Sample);
    RenderedLines(Sample);
  }

  lemma SampleStrips()
    ensures Strip("5 ") == "5" && Strip("\n") == "" && Strip("") == ""
    ensures Strip("x") == "x" && Strip("2") == "2" && Strip("y") == "y"
  {
    assert SkipSpaces("5 ", 0) == 0;
    assert TrimSpaces("5 ", 0, 1) == 1;
    assert TrimSpaces("5 ", 0, 2) == 1;
    assert "5 "[0..1] == "5";
    BlankIffAllSpace("\n");
    BlankIffAllSpace("");
    StripOfStripped("x");
    StripOfStripped("2");
    StripOfStripped("y");
  }

  /** The line-level pass renumbers the sample without complaint. */
  lemma SampleRenumbered()
    ensures Renumber.Renumber(Sample) == Outcome(["1", "x", "", "2", "y"], None)
  {
    SampleStrips();
    assert Digits(1) == "1" && Digits(2) == "2";
    var out := ["1", "x", "", "2", "y"];
    assert Sample[0 := "1"] == out && out[3 := "2"] == out;
    assert Advance(Sample, 0, Pass(false, 0, 1), Sample) == Ok((Pass(false, 1, 2), out));
    assert Advance(Sample, 1, Pass(false, 1, 2), out) == Ok((Pass(false, 2, 2), out));
    assert Advance(Sample, 2, Pass(false, 2, 2), out) == Ok((Pass(true, 0, 2), out));
    assert Advance(Sample, 3, Pass(true, 0, 2), out) == Ok((Pass(false, 1, 3), out));
    assert Advance(Sample, 4, Pass(false, 1, 3), out) == Ok((Pass(false, 2, 3), out));
  }

  /** The first turn of the as-written pass replaces the two-character region "5 " and adds nothing to the adjustment. */
  lemma SampleFirstTurn()
    ensures Turn(StrippedLength, Sample, 0, Cursor(Pass(false, 0, 1), "5 \nx\n\n2\ny\n", 0))
            == Ok(Cursor(Pass(false, 1, 2), "1\nx\n\n2\ny\n", 0))
  {
    SampleStrips();
    assert Digits(1) == "1";
    assert Sample[..0] == [];
    assert LineStart(Sample, 0) == 0;
    assert Substr("5 \nx\n\n2\ny\n", 0, 2) == "5 ";
    assert Replace("5 \nx\n\n2\ny\n", 0, 2, "1") == "1\nx\n\n2\ny\n";
  }

  /** The second turn reads the '\n' after "x" instead of "x", and takes it for the separator. */
  lemma SampleSecondTurn()
    ensures Turn(StrippedLength, Sample, 1, Cursor(Pass(false, 1, 2), "1\nx\n\n2\ny\n", 0))
            == Ok(Cursor(Pass(true, 0, 2), "1\nx\n\n2\ny\n", 0))
  {
    SampleStrips();
    assert Sample[..1] == ["5 "];
    assert LineStart(Sample, 1) == 3;
    assert Substr("1\nx\n\n2\ny\n", 3, 4) == "\n";
  }

  /** The third turn reads an empty region right after a blank one. */
  lemma SampleThirdTurn()
    ensures Turn(StrippedLength, Sample, 2, Cursor(Pass(true, 0, 2), "1\nx\n\n2\ny\n", 0))
            == Err(Fault(2, EmptyLine))
  {
    SampleStrips();
    assert Sample[..2] == ["5 ", "x"];
    assert LineStart(Sample, 2) == 5;
    assert Substr("1\nx\n\n2\ny\n", 5, 5) == "";
  }

  /**
   With the rule as written, the sample's ordinal line "5 " is replaced by
   "1" (a two-character region) but the adjustment counts one character, so
   the next region is read one character late: the pass meets the title
   separator where the text line was and then an empty region, and it
   stops with an unexpected empty line on a document the line-level pass
   renumbers without complaint. The region-size rule renumbers it.
   */
  lemma StrippedLengthMisreads()
    ensures && BufferLines(Content(Sample)) == Sample
            && Renumber.Renumber(Sample) == Outcome(["1", "x", "", "2", "y"], None)
            && RenumberInBuffer(StrippedLength, Content(Sample)).fault == Some(Fault(2, EmptyLine))
            && RenumberInBuffer(RegionSize, Content(Sample)).fault == None
  {
    SampleBuffer();
    SampleRenumbered();
    RegionSizeFollowsLines(Content(Sample));
    SampleFirstTurn();
    SampleSecondTurn();
    SampleThirdTurn();
  }
}
