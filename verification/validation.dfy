/**
 The validate-all-titles command: three checks on the whole buffer, then
 one fail-fast pass over its lines that keeps an explicit state record,
 then the checks on the last title. The first problem found is reported
 with the 0-based index of the line it concerns.
 */
module Validation {
  import opened Base
  import opened Strings
  import opened Decimal
  import opened Patterns
  import opened TimeCode
  import opened Timing
  import opened Settings
  import opened Tags

  datatype Problem =
    | NoTitles
    | NoFinalNewline
    | RedundantEmptyLine
    | UnexpectedEmptyLine
    | UnmatchedOpenTags(open: seq<string>)
    | UnmatchedCloseTags(close: seq<string>)
    | TrailingSpace
    | LeadingSpace
    | NotOrdinal
    | OrdinalNotNext(found: nat, previous: nat)
    | NotTiming
    | StartAfterEnd
    | TooShort
    | TooLong
    | Overlap
    | TooManyLines
    | LineTooLong
    | TimingInText
    | NoText

  /** A problem found during the pass, at a line index. */
  datatype Fault = Fault(line: nat, problem: Problem)

  /** The outcome shown to the user: success, or the first problem and the line to scroll to. */
  datatype Verdict = Passed | Failed(line: Option<nat>, problem: Problem)

  /**
   The state the pass carries from line to line: whether the previous
   line was blank, the position of the line within its title (1 for the
   ordinal), the current title's number, the end of the last checked
   timing, and the tags collected in the current title.
   */
  datatype Scan = Scan(
    afterBlank: bool,
    lineInTitle: nat,
    ordinal: nat,
    previousEnd: nat,
    opens: seq<string>,
    closes: seq<string>)

  const Initial: Scan := Scan(false, 0, 0, 0, [], [])

  /** A blank line: the end of a title, unless it comes first, doubled or right after a title's second line. */
  function BlankStep(st: Scan, index: nat): (r: Result<Scan, Fault>)
    ensures r.Ok? ==> r.value == Scan(true, 0, st.ordinal, st.previousEnd, [], [])
    ensures r.Ok? <==> && index > 0 && !st.afterBlank && st.lineInTitle != 2
                       && multiset(st.opens) == multiset(st.closes)
  {
    if st.afterBlank || index == 0 then Err(Fault(index, UnexpectedEmptyLine))
    else if st.lineInTitle == 2 then Err(Fault(index, UnexpectedEmptyLine))
    else
      var (uo, uc) := Unmatched(st.opens, st.closes);
      UnmatchedEmptyIff(st.opens, st.closes);
      if |uo| > 0 then Err(Fault(index - 1, UnmatchedOpenTags(uo)))
      else if |uc| > 0 then Err(Fault(index - 1, UnmatchedCloseTags(uc)))
      else Ok(Scan(true, 0, st.ordinal, st.previousEnd, [], []))
  }

  /** The second line of a title that is not excluded: the timing checks. */
  function TimingStep(cfg: Config, st: Scan, index: nat, line: string): (r: Result<Scan, Fault>)
    ensures r.Ok? <==> && IsTimingLine(line)
                       && var m := MatchTiming(line).value;
                          && StartOf(m) <= EndOf(m)
                          && cfg.minDuration <= EndOf(m) - StartOf(m) <= cfg.maxDuration
                          && (st.ordinal > 1 ==> StartOf(m) > st.previousEnd)
    ensures r.Ok? ==> r.value == st.(afterBlank := false, lineInTitle := 2,
                                     previousEnd := EndOf(MatchTiming(line).value))
  {
    if !IsTimingLine(line) then Err(Fault(index, NotTiming))
    else
      var m := MatchTiming(line).value;
      var start, end := StartOf(m), EndOf(m);
      if start > end then Err(Fault(index, StartAfterEnd))
      else if end - start < cfg.minDuration then Err(Fault(index, TooShort))
      else if end - start > cfg.maxDuration then Err(Fault(index, TooLong))
      else if st.ordinal > 1 && start <= st.previousEnd then Err(Fault(index, Overlap))
      else Ok(st.(afterBlank := false, lineInTitle := 2, previousEnd := end))
  }

  /** A text line of a title that is not excluded: tags, line count, length, stray timing. */
  function TextStep(cfg: Config, st: Scan, index: nat, line: string): (r: Result<Scan, Fault>)
    ensures r.Ok? <==> && st.lineInTitle + 1 <= 2 + cfg.maxLines
                       && |line| - ScanLine(line, cfg.tags).length <= cfg.maxLineLength
                       && !IsTimingLine(line)
    ensures r.Ok? ==> && r.value.lineInTitle == st.lineInTitle + 1
                      && !r.value.afterBlank && r.value.ordinal == st.ordinal
                      && r.value.previousEnd == st.previousEnd
                      && r.value.opens == st.opens + ScanLine(line, cfg.tags).opens
                      && r.value.closes == st.closes + ScanLine(line, cfg.tags).closes
  {
    var n := st.lineInTitle + 1;
    var tags := ScanLine(line, cfg.tags);
    if n > 2 + cfg.maxLines then Err(Fault(index, TooManyLines))
    else if |line| - tags.length > cfg.maxLineLength then Err(Fault(index, LineTooLong))
    else if IsTimingLine(line) then Err(Fault(index, TimingInText))
    else Ok(Scan(false, n, st.ordinal, st.previousEnd, st.opens + tags.opens, st.closes + tags.closes))
  }

  /** One iteration of the pass over the buffer's lines. */
  function Step(cfg: Config, excluded: set<int>, st: Scan, index: nat, line: string): (r: Result<Scan, Fault>)
    ensures r.Err? ==> r.error.line == index || (line == "" && r.error.line + 1 == index)
    ensures r.Ok? ==> && (r.value.afterBlank <==> line == "")
                      && r.value.lineInTitle == (if line == "" then 0 else st.lineInTitle + 1)
                      && r.value.ordinal == (if line != "" && st.lineInTitle == 0 then st.ordinal + 1 else st.ordinal)
    ensures r.Ok? && line != "" ==> !StartsWithSpaceChar(line) && !EndsWithSpaceChar(line)
    ensures r.Ok? && line != "" && st.lineInTitle == 0 ==> IsOrdinal(line) && Value(line) == st.ordinal + 1
  {
    if line == "" then BlankStep(st, index)
    else
      var n := st.lineInTitle + 1;
      if EndsWithSpaceChar(line) then Err(Fault(index, TrailingSpace))
      else if StartsWithSpaceChar(line) then Err(Fault(index, LeadingSpace))
      else if n == 1 then
        if !IsOrdinal(line) then Err(Fault(index, NotOrdinal))
        else if Value(line) - st.ordinal != 1 then Err(Fault(index, OrdinalNotNext(Value(line), st.ordinal)))
        else Ok(st.(afterBlank := false, lineInTitle := 1, ordinal := Value(line)))
      else if st.ordinal in excluded then Ok(st.(afterBlank := false, lineInTitle := n))
      else if n == 2 then TimingStep(cfg, st, index, line)
      else TextStep(cfg, st, index, line)
  }

  /** The state after the first `n` lines, or the first fault among them. */
  function Run(cfg: Config, excluded: set<int>, lines: seq<string>, n: nat): (r: Result<Scan, Fault>)
    requires n <= |lines|
    ensures r.Err? ==> r.error.line < n
    ensures r.Ok? ==> && (r.value.afterBlank <==> n > 0 && lines[n - 1] == "")
                      && r.value.lineInTitle == TitleLine(lines, n)
                      && r.value.ordinal == TitlesBegun(lines, n)
  {
    if n == 0 then Ok(Initial)
    else
      match Run(cfg, excluded, lines, n - 1)
      case Err(f) => Err(f)
      case Ok(st) => Step(cfg, excluded, st, n - 1, lines[n - 1])
  }

  /**
   The whole command: at least three lines, a final '\n', no empty last
   line; then the pass; then the last title must have a text line and
   balanced tags.
   */
  function Validate(content: string, cfg: Config, excluded: set<int>): (v: Verdict)
    ensures |BufferLines(content)| < 3 ==> v == Failed(None, NoTitles)
    ensures |BufferLines(content)| >= 3 && content[|content| - 1] != '\n' ==> v == Failed(None, NoFinalNewline)
    ensures v == Passed ==> && content[|content| - 1] == '\n'
                            && Content(BufferLines(content)) == content
                            && Run(cfg, excluded, BufferLines(content), |BufferLines(content)|).Ok?
    ensures var lines := BufferLines(content);
            |lines| >= 3 && content[|content| - 1] == '\n' && lines[|lines| - 1] == ""
            ==> v == Failed(Some(|lines|), RedundantEmptyLine)
    ensures var lines := BufferLines(content);
            |lines| >= 3 && content[|content| - 1] == '\n' && lines[|lines| - 1] != ""
            ==> var run := Run(cfg, excluded, lines, |lines|);
                && (run.Err? ==> v == Failed(Some(run.error.line), run.error.problem))
                && (run.Ok? && run.value.lineInTitle < 3 ==> v == Failed(Some(|lines|), NoText))
                && (run.Ok? && run.value.lineInTitle >= 3 ==>
                      var (uo, uc) := Unmatched(run.value.opens, run.value.closes);
                      && (|uo| > 0 ==> v == Failed(Some(|lines| - 1), UnmatchedOpenTags(uo)))
                      && (|uo| == 0 && |uc| > 0 ==> v == Failed(Some(|lines| - 1), UnmatchedCloseTags(uc)))
                      && (v == Passed <==> multiset(run.value.opens) == multiset(run.value.closes)))
  {
    var lines := BufferLines(content);
    if |lines| < 3 then Failed(None, NoTitles)
    else if content[|content| - 1] != '\n' then Failed(None, NoFinalNewline)
    else if lines[|lines| - 1] == "" then Failed(Some(|lines|), RedundantEmptyLine)
    else
      match Run(cfg, excluded, lines, |lines|)
      case Err(f) => Failed(Some(f.line), f.problem)
      case Ok(st) =>
        if st.lineInTitle < 3 then Failed(Some(|lines|), NoText)
        else
          var (uo, uc) := Unmatched(st.opens, st.closes);
          UnmatchedEmptyIff(st.opens, st.closes);
          if |uo| > 0 then Failed(Some(|lines| - 1), UnmatchedOpenTags(uo))
          else if |uc| > 0 then Failed(Some(|lines| - 1), UnmatchedCloseTags(uc))
          else
            RenderBufferLines(content);
            Passed
  }

  /** A buffer ending in '\n' is the rendering of its own lines. */
  lemma RenderBufferLines(content: string)
    requires |content| > 0 && content[|content| - 1] == '\n'
    ensures Content(BufferLines(content)) == content
  {
    var body := content[..|content| - 1];
    JoinSplit(body, '\n');
    assert content == body + "\n";
  }
  /** Position of line `n - 1` within its title, counted from 1; 0 for a blank line. */
  function TitleLine(lines: seq<string>, n: nat): nat
    requires n <= |lines|
  {
    if n == 0 || lines[n - 1] == "" then 0 else TitleLine(lines, n - 1) + 1
  }

  /** How many titles have begun within the first `n` lines. */
  function TitlesBegun(lines: seq<string>, n: nat): nat
    requires n <= |lines|
  {
    if n == 0 then 0 else TitlesBegun(lines, n - 1) + (if TitleLine(lines, n) == 1 then 1 else 0)
  }

  /**
   The end of the last timing checked within the first `n` lines: the
   second line of every title that is not excluded.
   */
  function LastCheckedEnd(excluded: set<int>, lines: seq<string>, n: nat): nat
    requires n <= |lines|
  {
    if n == 0 then 0
    else if TitleLine(lines, n) == 2 && TitlesBegun(lines, n) !in excluded && IsTimingLine(lines[n - 1])
    then EndOf(MatchTiming(lines[n - 1]).value)
    else LastCheckedEnd(excluded, lines, n - 1)
  }

  /**
   The opening and closing tags found so far in the text lines of the
   title that line `n - 1` belongs to; empty when that title is excluded
   or line `n - 1` is blank.
   */
  function TitleTags(cfg: Config, excluded: set<int>, lines: seq<string>, n: nat): (seq<string>, seq<string>)
    requires n <= |lines|
  {
    if n == 0 || lines[n - 1] == "" then ([], [])
    else
      var prev := TitleTags(cfg, excluded, lines, n - 1);
      if TitleLine(lines, n) >= 3 && TitlesBegun(lines, n) !in excluded then
        var t := ScanLine(lines[n - 1], cfg.tags);
        (prev.0 + t.opens, prev.1 + t.closes)
      else prev
  }

  /** A pass that got through `n` lines got through every shorter prefix. */
  lemma {:induction false} RunPrefix(cfg: Config, excluded: set<int>, lines: seq<string>, n: nat, m: nat)
    requires m <= n <= |lines| && Run(cfg, excluded, lines, n).Ok?
    ensures Run(cfg, excluded, lines, m).Ok?
  {
    hide Step, TitleLine, TitlesBegun;
    if m < n {
      RunPrefix(cfg, excluded, lines, n - 1, m);
    }
  }

  /** The state record agrees with the first `n` lines. */
  predicate Tracks(cfg: Config, excluded: set<int>, lines: seq<string>, n: nat, st: Scan)
    requires n <= |lines|
  {
    && (st.afterBlank <==> n > 0 && lines[n - 1] == "")
    && st.lineInTitle == TitleLine(lines, n)
    && st.ordinal == TitlesBegun(lines, n)
    && st.previousEnd == LastCheckedEnd(excluded, lines, n)
    && (st.opens, st.closes) == TitleTags(cfg, excluded, lines, n)
  }

  /** A successful step on line `n - 1` keeps the state in agreement with the lines. */
  lemma StepTracks(cfg: Config, excluded: set<int>, lines: seq<string>, n: nat, st: Scan)
    requires 0 < n <= |lines| && Tracks(cfg, excluded, lines, n - 1, st)
    requires Step(cfg, excluded, st, n - 1, lines[n - 1]).Ok?
    ensures Tracks(cfg, excluded, lines, n, Step(cfg, excluded, st, n - 1, lines[n - 1]).value)
  {
    var line := lines[n - 1];
    var r := Step(cfg, excluded, st, n - 1, line).value;
    if line == "" {
      assert r == Scan(true, 0, st.ordinal, st.previousEnd, [], []);
    } else if st.lineInTitle == 0 {
      assert TitleLine(lines, n) == 1;
      assert r.ordinal == Value(line) == st.ordinal + 1;
    } else if st.ordinal in excluded {
      assert r == st.(afterBlank := false, lineInTitle := st.lineInTitle + 1);
    } else if st.lineInTitle == 1 {
      assert r == TimingStep(cfg, st, n - 1, line).value;
    } else {
      assert r == TextStep(cfg, st, n - 1, line).value;
    }
  }

  /**
   What the state record holds after `n` lines: whether the last line was
   blank, the position within the current title, the number of titles
   begun, the last checked end, and the tags of the current title's text.
   */
  lemma {:induction false} RunState(cfg: Config, excluded: set<int>, lines: seq<string>, n: nat)
    requires n <= |lines| && Run(cfg, excluded, lines, n).Ok?
    ensures Tracks(cfg, excluded, lines, n, Run(cfg, excluded, lines, n).value)
  {
    if n > 0 {
      RunPrefix(cfg, excluded, lines, n, n - 1);
      RunState(cfg, excluded, lines, n - 1);
      StepTracks(cfg, excluded, lines, n, Run(cfg, excluded, lines, n - 1).value);
    }
  }

  /** Line `i` of a passing document went through its step. */
  lemma PassedStep(content: string, cfg: Config, excluded: set<int>, i: nat)
    requires Validate(content, cfg, excluded) == Passed && i < |BufferLines(content)|
    ensures var lines := BufferLines(content);
            && Run(cfg, excluded, lines, i).Ok?
            && Step(cfg, excluded, Run(cfg, excluded, lines, i).value, i, lines[i]).Ok?
  {
    var lines := BufferLines(content);
    RunPrefix(cfg, excluded, lines, |lines|, i + 1);
  }

  /**
   In a passing document the first and last lines are not blank, no two
   blank lines are adjacent, no blank line follows a title's second line,
   and no other line starts or ends with a space.
   */
  lemma PassedLayout(content: string, cfg: Config, excluded: set<int>, i: nat)
    requires Validate(content, cfg, excluded) == Passed && i < |BufferLines(content)|
    ensures var lines := BufferLines(content);
            && lines[0] != "" && lines[|lines| - 1] != ""
            && (lines[i] == "" ==> i > 0 && lines[i - 1] != "" && TitleLine(lines, i) != 2)
            && (lines[i] != "" ==> !StartsWithSpaceChar(lines[i]) && !EndsWithSpaceChar(lines[i]))
  {
    var lines := BufferLines(content);
    PassedStep(content, cfg, excluded, i);
    PassedStep(content, cfg, excluded, 0);
    RunState(cfg, excluded, lines, i);
  }

  /** In a passing document the k-th title's first line is the ordinal `k`. */
  lemma PassedOrdinals(content: string, cfg: Config, excluded: set<int>, i: nat)
    requires Validate(content, cfg, excluded) == Passed && i < |BufferLines(content)|
    requires TitleLine(BufferLines(content), i + 1) == 1
    ensures var lines := BufferLines(content);
            IsOrdinal(lines[i]) && Value(lines[i]) == TitlesBegun(lines, i + 1)
  {
    var lines := BufferLines(content);
    PassedStep(content, cfg, excluded, i);
    RunState(cfg, excluded, lines, i);
  }

  /**
   In a passing document the second line of every title that is not
   excluded is a timing whose duration lies within the configured bounds
   and that starts after the last checked timing ended, the first title
   excepted.
   */
  lemma PassedTimings(content: string, cfg: Config, excluded: set<int>, i: nat)
    requires Validate(content, cfg, excluded) == Passed && i < |BufferLines(content)|
    requires TitleLine(BufferLines(content), i + 1) == 2
    requires TitlesBegun(BufferLines(content), i + 1) !in excluded
    ensures var lines := BufferLines(content);
            && IsTimingLine(lines[i])
            && var m := MatchTiming(lines[i]).value;
               && StartOf(m) <= EndOf(m)
               && cfg.minDuration <= EndOf(m) - StartOf(m) <= cfg.maxDuration
               && (TitlesBegun(lines, i + 1) > 1 ==> StartOf(m) > LastCheckedEnd(excluded, lines, i))
  {
    var lines := BufferLines(content);
    PassedStep(content, cfg, excluded, i);
    RunState(cfg, excluded, lines, i);
    var st := Run(cfg, excluded, lines, i).value;
    assert lines[i] != "" && TitleLine(lines, i) == 1 && TitlesBegun(lines, i + 1) == TitlesBegun(lines, i);
    StepAtTiming(cfg, excluded, st, i, lines[i]);
  }

  /** A step that succeeds on the second line of a title that is not excluded passed the timing checks. */
  lemma StepAtTiming(cfg: Config, excluded: set<int>, st: Scan, index: nat, line: string)
    requires line != "" && st.lineInTitle == 1 && st.ordinal !in excluded
    requires Step(cfg, excluded, st, index, line).Ok?
    ensures TimingStep(cfg, st, index, line).Ok?
  {
  }

  /**
   In a passing document every text line of a title that is not excluded
   is within the line budget, is not a timing line, and is at most the
   maximum length once the text of its tags is discounted.
   */
  lemma PassedTexts(content: string, cfg: Config, excluded: set<int>, i: nat)
    requires Validate(content, cfg, excluded) == Passed && i < |BufferLines(content)|
    requires TitleLine(BufferLines(content), i + 1) >= 3
    requires TitlesBegun(BufferLines(content), i + 1) !in excluded
    ensures var lines := BufferLines(content);
            && TitleLine(lines, i + 1) <= 2 + cfg.maxLines
            && !IsTimingLine(lines[i])
            && |lines[i]| - ScanLine(lines[i], cfg.tags).length <= cfg.maxLineLength
  {
    var lines := BufferLines(content);
    PassedStep(content, cfg, excluded, i);
    RunState(cfg, excluded, lines, i);
    var st := Run(cfg, excluded, lines, i).value;
    assert lines[i] != "" && TitleLine(lines, i + 1) == TitleLine(lines, i) + 1;
    assert TitlesBegun(lines, i + 1) == TitlesBegun(lines, i);
    StepAtText(cfg, excluded, st, i, lines[i]);
  }

  /** A step that succeeds on a later line of a title that is not excluded passed the text checks. */
  lemma StepAtText(cfg: Config, excluded: set<int>, st: Scan, index: nat, line: string)
    requires line != "" && st.lineInTitle >= 2 && st.ordinal !in excluded
    requires Step(cfg, excluded, st, index, line).Ok?
    ensures TextStep(cfg, st, index, line).Ok?
  {
  }

  /**
   In a passing document every title's text has balanced tags: before
   each blank line and at the end, the opening tags collected in the
   title that ends there and the closing ones are the same multiset.
   */
  lemma PassedTagsBalanced(content: string, cfg: Config, excluded: set<int>, i: nat)
    requires Validate(content, cfg, excluded) == Passed && i <= |BufferLines(content)|
    requires i == |BufferLines(content)| || BufferLines(content)[i] == ""
    ensures var tags := TitleTags(cfg, excluded, BufferLines(content), i);
            multiset(tags.0) == multiset(tags.1)
  {
    var lines := BufferLines(content);
    if i < |lines| {
      PassedStep(content, cfg, excluded, i);
    }
    RunState(cfg, excluded, lines, i);
  }

  /** In a passing document the last title has at least one text line. */
  lemma PassedLastTitle(content: string, cfg: Config, excluded: set<int>)
    requires Validate(content, cfg, excluded) == Passed
    ensures TitleLine(BufferLines(content), |BufferLines(content)|) >= 3
  {
    var lines := BufferLines(content);
    RunState(cfg, excluded, lines, |lines|);
  }
  /**
   A blank line is refused as such in exactly three cases: as the first
   line, after another blank line, and right after a title's second line,
   whatever that line holds. After an ordinal line it is accepted.
   */
  lemma BlankLineRule(cfg: Config, excluded: set<int>, st: Scan, index: nat)
    ensures Step(cfg, excluded, st, index, "") == Err(Fault(index, UnexpectedEmptyLine))
            <==> index == 0 || st.afterBlank || st.lineInTitle == 2
  {
  }

  /**
   Once the ordinal line of an excluded title has been read, every later
   line of that title is only checked for surrounding spaces: no timing,
   length or tag check runs, and neither the last end nor the collected
   tags change.
   */
  lemma ExcludedTitleSkips(cfg: Config, excluded: set<int>, st: Scan, index: nat, line: string)
    requires st.ordinal in excluded && st.lineInTitle >= 1
    requires line != "" && !StartsWithSpaceChar(line) && !EndsWithSpaceChar(line)
    ensures Step(cfg, excluded, st, index, line) == Ok(st.(afterBlank := false, lineInTitle := st.lineInTitle + 1))
  {
  }

  /** A line without '<' holds no tag. */
  lemma {:induction false} NoTagsWithoutBracket(s: string, p: nat, alts: seq<string>)
    requires forall j :: p <= j < |s| ==> s[j] != '<'
    ensures OpenTags(s, p, alts) == [] && CloseTags(s, p, alts) == []
    decreases |s| - p
  {
    if p < |s| {
      NoTagsWithoutBracket(s, p + 1, alts);
    }
  }

  /**
   With the fallback settings, a first text line without tags, spaces at
   its ends or timing shape passes exactly when it has at most 41
   characters: 41 are accepted, 42 refused.
   */
  lemma LineLengthBoundary(excluded: set<int>, st: Scan, index: nat, line: string)
    requires st.ordinal !in excluded && st.lineInTitle == 2
    requires line != "" && !StartsWithSpaceChar(line) && !EndsWithSpaceChar(line)
    requires !IsTimingLine(line) && '<' !in line
    ensures Step(Defaults, excluded, st, index, line).Ok? <==> |line| <= 41
  {
    NoTagsWithoutBracket(line, 0, Alternatives(Defaults.tags));
    assert ScanLine(line, Defaults.tags).length == 0;
  }

  /**
   The pass is fail-fast: a fault after `n` lines is the fault of the
   first line whose step failed, all lines before it having passed.
   */
  lemma {:induction false} FirstFault(cfg: Config, excluded: set<int>, lines: seq<string>, n: nat)
    requires n <= |lines| && Run(cfg, excluded, lines, n).Err?
    ensures exists m: nat :: && m < n && Run(cfg, excluded, lines, m).Ok?
                        && Step(cfg, excluded, Run(cfg, excluded, lines, m).value, m, lines[m])
                           == Run(cfg, excluded, lines, n)
  {
    if Run(cfg, excluded, lines, n - 1).Err? {
      FirstFault(cfg, excluded, lines, n - 1);
    } else {
      assert Run(cfg, excluded, lines, n - 1).Ok?;
    }
  }

  /** The command as the source runs it: one loop over the lines, leaving at the first fault. */
  method ValidateAll(content: string, cfg: Config, excluded: set<int>) returns (v: Verdict)
    ensures v == Validate(content, cfg, excluded)
  {
    hide Validate, Unmatched, Content;
    var lines := BufferLines(content);
    if |lines| < 3 {
      return Failed(None, NoTitles);
    }
    if content[|content| - 1] != '\n' {
      return Failed(None, NoFinalNewline);
    }
    if lines[|lines| - 1] == "" {
      return Failed(Some(|lines|), RedundantEmptyLine);
    }
    var st := Initial;
    var index := 0;
    while index < |lines|
      invariant 0 <= index <= |lines|
      invariant Run(cfg, excluded, lines, index) == Ok(st)
    {
      var next := Step(cfg, excluded, st, index, lines[index]);
      if next.Err? {
        assert Run(cfg, excluded, lines, |lines|) == next by {
          RunStopsAtFault(cfg, excluded, lines, index + 1, |lines|);
        }
        return Failed(Some(next.error.line), next.error.problem);
      }
      st := next.value;
      index := index + 1;
    }
    if st.lineInTitle < 3 {
      return Failed(Some(|lines|), NoText);
    }
    var (uo, uc) := Unmatched(st.opens, st.closes);
    if |uo| > 0 {
      return Failed(Some(|lines| - 1), UnmatchedOpenTags(uo));
    }
    if |uc| > 0 {
      return Failed(Some(|lines| - 1), UnmatchedCloseTags(uc));
    }
    UnmatchedEmptyIff(st.opens, st.closes);
    return Passed;
  }

  /** Once a fault is found, every longer prefix reports that same fault. */
  lemma {:induction false} RunStopsAtFault(cfg: Config, excluded: set<int>, lines: seq<string>, m: nat, n: nat)
    requires m <= n <= |lines| && Run(cfg, excluded, lines, m).Err?
    ensures Run(cfg, excluded, lines, n) == Run(cfg, excluded, lines, m)
    decreases n - m
  {
    if m < n {
      RunStopsAtFault(cfg, excluded, lines, m, n - 1);
    }
  }
}
