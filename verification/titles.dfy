/**
 The editing commands of the titles module over a document held as lines:
 finding the title around the cursor, inserting a new title before or
 after it, splitting it in two, and joining it with a neighbour. Each
 command ends by running the renumber command.
 */
module Titles {
  import opened Base
  import opened Strings
  import opened Decimal
  import opened Patterns
  import opened TimeCode
  import opened Timing
  import opened Settings
  import opened TitleBlock
  import opened Renumber

  datatype EditError =
    | CursorOnBlank              // the cursor line holds only whitespace
    | NothingBefore              // joining before the first title
    | NothingAfter               // joining after the last title
    | BadTitle(title: ParseError)
    | BadNeighbour(neighbour: ParseError)
    | EmptyText                  // splitting a title whose only text line is blank

  /** The cursor's line holds only whitespace; past the last line there is only the empty last line. */
  predicate CursorOnBlankLine(lines: seq<string>, c: nat) {
    c >= |lines| || Strip(lines[c]) == ""
  }

  /** The last empty line before line `c` (the editor's empty-line class: a line with no character at all). */
  function EmptyBefore(lines: seq<string>, c: nat): (r: Option<nat>)
    requires c <= |lines|
    ensures r.Some? ==> r.value < c && lines[r.value] == ""
    ensures r.Some? ==> forall j :: r.value < j < c ==> lines[j] != ""
    ensures r.None? ==> forall j :: 0 <= j < c ==> lines[j] != ""
  {
    if c == 0 then None
    else if lines[c - 1] == "" then Some(c - 1)
    else EmptyBefore(lines, c - 1)
  }

  /** The first empty line after line `c`, or the end of the document. */
  function EmptyAfter(lines: seq<string>, c: nat): (r: nat)
    requires c < |lines|
    ensures c < r <= |lines|
    ensures r < |lines| ==> lines[r] == ""
    ensures forall j :: c < j < r ==> lines[j] != ""
    decreases |lines| - c
  {
    if c + 1 == |lines| then |lines|
    else if lines[c + 1] == "" then c + 1
    else EmptyAfter(lines, c + 1)
  }

  /**
   The search backwards reports position 0 both when there is no empty
   line before the cursor and when the first line is the empty one: the
   commands then take the title to start at the top of the document.
   */
  predicate AtTop(lines: seq<string>, c: nat)
    requires c <= |lines|
  {
    EmptyBefore(lines, c).None? || EmptyBefore(lines, c) == Some(0)
  }

  /** The first line of the title around line `c`. */
  function TitleStart(lines: seq<string>, c: nat): (a: nat)
    requires c < |lines|
    ensures a <= c
    ensures AtTop(lines, c) <==> a == 0
    ensures !AtTop(lines, c) ==> a >= 2 && lines[a - 1] == "" && forall j :: a <= j < c ==> lines[j] != ""
  {
    match EmptyBefore(lines, c)
    case None => 0
    case Some(p) => if p == 0 then 0 else p + 1
  }

  /** `str.strip` applied to every line. */
  function StripAll(lines: seq<string>): (r: seq<string>)
    ensures |r| == |lines| && forall i :: 0 <= i < |lines| ==> r[i] == Strip(lines[i])
  {
    seq(|lines|, i requires 0 <= i < |lines| => Strip(lines[i]))
  }

  /** The placeholder text an edition writes. */
  function PlaceholderOf(edition: Edition, cfg: Config): string {
    if edition == Plugin then cfg.placeholder else LegacyPlaceholder
  }

  // Inserting a title.

  /** The number the new title is first given; renumbering fixes it up afterwards. */
  function InsertedOrdinal(ordinal: nat, after: bool): (n: nat)
    requires ordinal >= 1
    ensures n >= 1
    ensures after ==> n == ordinal + 1
    ensures !after ==> n == if ordinal == 1 then 1 else ordinal - 1
  {
    var n := if after then ordinal + 1 else ordinal - 1;
    if n == 0 then 1 else n
  }

  /**
   The bounds of the new title: it lasts 1000 ms and starts 1 ms after the
   current title ends, or ends 1 ms before it starts; when there is no
   room before, it is put at the very beginning.
   */
  function InsertedBounds(start: nat, end: nat, after: bool): (r: (nat, nat))
    ensures r.1 == r.0 + 1000
    ensures after ==> r.0 == end + 1
    ensures !after && start >= 1001 ==> r.1 + 1 == start
    ensures !after && start < 1001 ==> r == (0, 1000)
  {
    if after then (end + 1, end + 1001)
    else if start - 1001 < 0 then (0, 1000)
    else (start - 1001, start - 1)
  }

  /** The new title: its provisional number, its timing and the placeholder as its text. */
  function NewTitle(edition: Edition, cfg: Config, t: Title, after: bool): (r: Title)
    requires t.ordinal >= 1 && IsTimingLine(t.timing)
    ensures r.ordinal >= 1 && r.text == [PlaceholderOf(edition, cfg)]
  {
    var m := MatchTiming(t.timing).value;
    var (s, e) := InsertedBounds(StartOf(m), EndOf(m), after);
    Title(InsertedOrdinal(t.ordinal, after), Canonical(s, e), [PlaceholderOf(edition, cfg)])
  }

  /** The four lines the insert command adds: the new title, with the blank line on the side of the current one. */
  function InsertedLines(edition: Edition, cfg: Config, t: Title, after: bool): (r: seq<string>)
    requires t.ordinal >= 1 && IsTimingLine(t.timing)
    ensures |r| == 4
    ensures after ==> r[0] == "" && r[1..] == FormatTitle(NewTitle(edition, cfg, t, after))
    ensures !after ==> r[3] == "" && r[..3] == FormatTitle(NewTitle(edition, cfg, t, after))
  {
    var title := FormatTitle(NewTitle(edition, cfg, t, after));
    if after then [""] + title else title + [""]
  }

  /** The lines of the title around the cursor line: from its start up to the next empty line. */
  function CurrentBlock(lines: seq<string>, c: nat): seq<string>
    requires c < |lines|
  {
    lines[TitleStart(lines, c)..EmptyAfter(lines, c)]
  }

  /**
   The document after the insert command's edit, before renumbering: the
   new title goes after the current title's following empty line, or in
   front of the current title; every original line is kept, in order.
   */
  function InsertLines(edition: Edition, cfg: Config, lines: seq<string>, c: nat, after: bool): (r: Result<seq<string>, EditError>)
    ensures CursorOnBlankLine(lines, c) ==> r == Err(CursorOnBlank)
    ensures !CursorOnBlankLine(lines, c) && ParseTitle(CurrentBlock(lines, c)).Err? ==>
              r == Err(BadTitle(ParseTitle(CurrentBlock(lines, c)).error))
    ensures r.Ok? <==> !CursorOnBlankLine(lines, c) && ParseTitle(CurrentBlock(lines, c)).Ok?
    ensures r.Ok? ==>
              var at := if after then EmptyAfter(lines, c) else TitleStart(lines, c);
              r.value == lines[..at] + InsertedLines(edition, cfg, ParseTitle(CurrentBlock(lines, c)).value, after) + lines[at..]
  {
    if CursorOnBlankLine(lines, c) then Err(CursorOnBlank)
    else
      match ParseTitle(CurrentBlock(lines, c))
      case Err(e) => Err(BadTitle(e))
      case Ok(t) =>
        var at := if after then EmptyAfter(lines, c) else TitleStart(lines, c);
        Ok(lines[..at] + InsertedLines(edition, cfg, t, after) + lines[at..])
  }

  /**
   What the insert leaves in the document: every original line, in order,
   with four lines put in after the current title's closing empty line or
   in front of the current title: an empty line facing the current title
   and a new title that parses back to its number, its timing and the
   placeholder.
   */
  lemma InsertDocument(edition: Edition, cfg: Config, lines: seq<string>, c: nat, after: bool)
    requires InsertLines(edition, cfg, lines, c, after).Ok?
    requires var m := MatchTiming(ParseTitle(CurrentBlock(lines, c)).value.timing).value;
             StartOf(m) <= Limit && EndOf(m) + 1001 < Limit
    ensures var r := InsertLines(edition, cfg, lines, c, after).value;
            var nt := NewTitle(edition, cfg, ParseTitle(CurrentBlock(lines, c)).value, after);
            var at := if after then EmptyAfter(lines, c) else TitleStart(lines, c);
            var first := if after then at + 1 else at;
            && |r| == |lines| + 4
            && r[..at] == lines[..at]
            && r[at + 4..] == lines[at..]
            && ParseTitle(r[first..first + 3]) == Ok(nt)
            && r[if after then at else at + 3] == ""
  {
    hide *;
    InsertLinesOk(edition, cfg, lines, c, after);
    var r := InsertLines(edition, cfg, lines, c, after).value;
    var t := ParseTitle(CurrentBlock(lines, c)).value;
    var nt := NewTitle(edition, cfg, t, after);
    var at := if after then EmptyAfter(lines, c) else TitleStart(lines, c);
    var ins := InsertedLines(edition, cfg, t, after);
    InsertedTitle(edition, cfg, t, after);
    OneTitle(r, lines, at, ins, nt, after);
  }

  /** An insert that succeeds had a title on a non-blank cursor line, and put four lines in. */
  lemma InsertLinesOk(edition: Edition, cfg: Config, lines: seq<string>, c: nat, after: bool)
    requires InsertLines(edition, cfg, lines, c, after).Ok?
    ensures c < |lines| && ParseTitle(CurrentBlock(lines, c)).Ok?
    ensures var at := if after then EmptyAfter(lines, c) else TitleStart(lines, c);
            && at <= |lines|
            && InsertLines(edition, cfg, lines, c, after).value
               == lines[..at] + InsertedLines(edition, cfg, ParseTitle(CurrentBlock(lines, c)).value, after) + lines[at..]
  {
    hide InsertedLines, ParseTitle, EmptyAfter, TitleStart, CurrentBlock;
  }

  /** The four lines put into `lines[..at] + ins + lines[at..]`: an empty line and a title that parses back. */
  lemma OneTitle(r: seq<string>, lines: seq<string>, at: nat, ins: seq<string>, nt: Title, after: bool)
    requires at <= |lines| && r == lines[..at] + ins + lines[at..]
    requires ParseTitle(FormatTitle(nt)) == Ok(nt)
    requires |ins| == 4
    requires after ==> ins[0] == "" && ins[1..] == FormatTitle(nt)
    requires !after ==> ins[3] == "" && ins[..3] == FormatTitle(nt)
    ensures var first := if after then at + 1 else at;
            && |r| == |lines| + 4
            && r[..at] == lines[..at]
            && r[at + 4..] == lines[at..]
            && ParseTitle(r[first..first + 3]) == Ok(nt)
            && r[if after then at else at + 3] == ""
  {
    hide *;
    assert r[at..at + 4] == ins;
    if after {
      assert r[at + 1..at + 4] == ins[1..];
    } else {
      assert r[at..at + 3] == ins[..3];
    }
  }


  /** The insert command: the edit, then the renumber command. */
  function InsertTitle(edition: Edition, cfg: Config, lines: seq<string>, c: nat, after: bool, excluded: set<int>): (r: Result<RenumberRun, EditError>)
    ensures r.Err? <==> InsertLines(edition, cfg, lines, c, after).Err?
    ensures r.Err? ==> r.error == InsertLines(edition, cfg, lines, c, after).error
    ensures r.Ok? ==> Meets(InsertLines(edition, cfg, lines, c, after).value, r.value.outcome)
  {
    match InsertLines(edition, cfg, lines, c, after)
    case Err(e) => Err(e)
    case Ok(edited) => Ok(RenumberCommand(edition, edited, excluded))
  }

  /**
   The inserted title is a title: its lines parse back to its number, its
   timing and the placeholder; the timing lasts exactly 1000 ms and never
   overlaps the current title (after it, or before it when there is room).
   */
  lemma InsertedTitle(edition: Edition, cfg: Config, t: Title, after: bool)
    requires t.ordinal >= 1 && IsTimingLine(t.timing)
    requires StartOf(MatchTiming(t.timing).value) <= Limit && EndOf(MatchTiming(t.timing).value) + 1001 < Limit
    ensures var nt := NewTitle(edition, cfg, t, after);
            ParseTitle(FormatTitle(nt)) == Ok(nt)
    ensures var nt := NewTitle(edition, cfg, t, after);
            var m := MatchTiming(t.timing).value;
            var (s, e) := InsertedBounds(StartOf(m), EndOf(m), after);
            && Denotes(nt.timing, s, e) && e - s == 1000
            && (after ==> s > EndOf(m))
            && (!after && StartOf(m) >= 1001 ==> e < StartOf(m))
  {
    var m := MatchTiming(t.timing).value;
    var (s, e) := InsertedBounds(StartOf(m), EndOf(m), after);
    CanonicalDenotes(s, e);
    ParseFormat(NewTitle(edition, cfg, t, after));
  }

  // Splitting a title.

  /**
   The texts of the two halves: with several text lines, the first line
   and the rest joined by line breaks; with one, that line cut in two.
   A leading dash and the whitespace after it are dropped from either
   half. A single text line that is blank cannot be cut.
   */
  function SplitTexts(text: seq<string>, placeholder: string): (r: Result<(string, string), EditError>)
    requires |text| >= 1
    ensures r.Err? <==> |text| == 1 && Strip(text[0]) == ""
    ensures r.Ok? && |text| > 1 ==>
              r.value == (DropDash(Strip(text[0])), DropDash(Join(StripAll(text[1..]), "\n")))
    ensures r.Ok? && |text| == 1 ==>
              var halves := SplitStringInTwo(Strip(text[0]), placeholder);
              r.value == (DropDash(halves.0), halves.1)
  {
    var first := Strip(text[0]);
    if |text| > 1 then Ok((DropDash(first), DropDash(Join(StripAll(text[1..]), "\n"))))
    else if first == "" then Err(EmptyText)
    else
      var halves := SplitStringInTwo(first, placeholder);
      Ok((DropDash(halves.0), halves.1))
  }

  /** The lines that replace the title: two titles with the same number, one blank line between them. */
  function SplitBlock(t: Title, timings: (string, string), texts: (string, string)): (r: seq<string>)
  {
    var n := Digits(t.ordinal);
    Split(Join([n, timings.0, texts.0, "", n, timings.1, texts.1], "\n"), '\n')
  }

  /** The document after the split command's edit, before renumbering. */
  function SplitLines(edition: Edition, cfg: Config, lines: seq<string>, c: nat): (r: Result<seq<string>, EditError>)
    ensures CursorOnBlankLine(lines, c) ==> r == Err(CursorOnBlank)
    ensures !CursorOnBlankLine(lines, c) ==>
              var a, b := TitleStart(lines, c), EmptyAfter(lines, c);
              var p := ParseTitle(CurrentBlock(lines, c));
              && (p.Err? ==> r == Err(BadTitle(p.error)))
              && (p.Ok? ==>
                    var texts := SplitTexts(p.value.text, PlaceholderOf(edition, cfg));
                    && (texts.Err? ==> r == Err(texts.error))
                    && (texts.Ok? ==>
                          && SplitTimingInTwo(p.value.timing).Ok?
                          && r == Ok(lines[..a] + SplitBlock(p.value, SplitTimingInTwo(p.value.timing).value, texts.value) + lines[b..])))
  {
    if CursorOnBlankLine(lines, c) then Err(CursorOnBlank)
    else
      var a, b := TitleStart(lines, c), EmptyAfter(lines, c);
      match ParseTitle(CurrentBlock(lines, c))
      case Err(e) => Err(BadTitle(e))
      case Ok(t) =>
        match SplitTexts(t.text, PlaceholderOf(edition, cfg))
        case Err(e) => Err(e)
        case Ok(texts) =>
          var timings := SplitTimingInTwo(t.timing).value;
          Ok(lines[..a] + SplitBlock(t, timings, texts) + lines[b..])
  }

  /** The split command: the edit, then the renumber command. */
  function SplitTitle(edition: Edition, cfg: Config, lines: seq<string>, c: nat, excluded: set<int>): (r: Result<RenumberRun, EditError>)
    ensures r.Err? <==> SplitLines(edition, cfg, lines, c).Err?
    ensures r.Err? ==> r.error == SplitLines(edition, cfg, lines, c).error
    ensures r.Ok? ==> Meets(SplitLines(edition, cfg, lines, c).value, r.value.outcome)
  {
    match SplitLines(edition, cfg, lines, c)
    case Err(e) => Err(e)
    case Ok(edited) => Ok(RenumberCommand(edition, edited, excluded))
  }

  /**
   The replacement block is the first title (number, first timing, first
   text's lines), a blank line, and the second title (the same number,
   second timing, second text's lines).
   */
  lemma SplitBlockShape(t: Title, timings: (string, string), texts: (string, string))
    requires '\n' !in timings.0 && '\n' !in timings.1
    ensures var n := Digits(t.ordinal);
            SplitBlock(t, timings, texts)
            == [n, timings.0] + Split(texts.0, '\n') + ["", n, timings.1] + Split(texts.1, '\n')
  {
    var n := Digits(t.ordinal);
    DigitsNoNewline(t.ordinal);
    JoinBlock(n, timings.0, texts.0, timings.1, texts.1);
    SplitBlockPieces(n, timings.0, texts.0, timings.1, texts.1);
  }

  /**
   What the split leaves in the document: the lines before and after the
   title unchanged, and in between two titles separated by an empty line,
   both with the title's number, which parse back to the two timing
   halves and the lines of the two text halves. The halves are timing
   lines when the title's timing lies below one hundred hours.
   */
  lemma SplitDocument(edition: Edition, cfg: Config, lines: seq<string>, c: nat)
    requires SplitLines(edition, cfg, lines, c).Ok?
    requires var m := MatchTiming(ParseTitle(CurrentBlock(lines, c)).value.timing).value;
             && StartOf(m) <= EndOf(m) < Limit
             && (EndOf(m) - StartOf(m) < 2 ==> EndOf(m) + 1 < Limit)
    ensures var r := SplitLines(edition, cfg, lines, c).value;
            var a, b := TitleStart(lines, c), EmptyAfter(lines, c);
            var t := ParseTitle(CurrentBlock(lines, c)).value;
            var timings := SplitTimingInTwo(t.timing).value;
            var texts := SplitTexts(t.text, PlaceholderOf(edition, cfg)).value;
            var first := Title(t.ordinal, timings.0, Split(texts.0, '\n'));
            var second := Title(t.ordinal, timings.1, Split(texts.1, '\n'));
            var k0, k1 := |FormatTitle(first)|, |FormatTitle(second)|;
            && |r| == a + k0 + 1 + k1 + (|lines| - b)
            && r[..a] == lines[..a]
            && ParseTitle(r[a..a + k0]) == Ok(first)
            && r[a + k0] == ""
            && ParseTitle(r[a + k0 + 1..a + k0 + 1 + k1]) == Ok(second)
            && r[a + k0 + 1 + k1..] == lines[b..]
  {
    hide *;
    SplitLinesOk(edition, cfg, lines, c);
    var a, b := TitleStart(lines, c), EmptyAfter(lines, c);
    var t := ParseTitle(CurrentBlock(lines, c)).value;
    var timings := SplitTimingInTwo(t.timing).value;
    var texts := SplitTexts(t.text, PlaceholderOf(edition, cfg)).value;
    var first := Title(t.ordinal, timings.0, Split(texts.0, '\n'));
    var second := Title(t.ordinal, timings.1, Split(texts.1, '\n'));
    SplitTimingHalves(t.timing);
    SplitHalves(t, timings, texts);
    TwoTitles(SplitLines(edition, cfg, lines, c).value, lines, a, b, SplitBlock(t, timings, texts), first, second);
  }

  /** The two titles of `lines[..a] + block + lines[b..]` parse back from their places. */
  lemma TwoTitles(r: seq<string>, lines: seq<string>, a: nat, b: nat, block: seq<string>, first: Title, second: Title)
    requires a <= b <= |lines|
    requires ParseTitle(FormatTitle(first)) == Ok(first) && ParseTitle(FormatTitle(second)) == Ok(second)
    requires block == FormatTitle(first) + [""] + FormatTitle(second)
    requires r == lines[..a] + block + lines[b..]
    ensures var k0, k1 := |FormatTitle(first)|, |FormatTitle(second)|;
            && |r| == a + k0 + 1 + k1 + (|lines| - b)
            && r[..a] == lines[..a]
            && ParseTitle(r[a..a + k0]) == Ok(first)
            && r[a + k0] == ""
            && ParseTitle(r[a + k0 + 1..a + k0 + 1 + k1]) == Ok(second)
            && r[a + k0 + 1 + k1..] == lines[b..]
  {
    hide *;
    Around(lines[..a], FormatTitle(first), "", FormatTitle(second), lines[b..]);
  }


  /** Both halves of a split block are formatted titles that parse back. */
  lemma SplitHalves(t: Title, timings: (string, string), texts: (string, string))
    requires t.ordinal >= 1 && IsTimingLine(timings.0) && IsTimingLine(timings.1)
    ensures var first := Title(t.ordinal, timings.0, Split(texts.0, '\n'));
            var second := Title(t.ordinal, timings.1, Split(texts.1, '\n'));
            && SplitBlock(t, timings, texts) == FormatTitle(first) + [""] + FormatTitle(second)
            && ParseTitle(FormatTitle(first)) == Ok(first)
            && ParseTitle(FormatTitle(second)) == Ok(second)
  {
    hide ParseTitle, Strip, IsOrdinal, IsTimingLine, MatchTiming;
    TimingNoNewline(timings.0);
    TimingNoNewline(timings.1);
    SplitBlockShape(t, timings, texts);
    ParseFormat(Title(t.ordinal, timings.0, Split(texts.0, '\n')));
    ParseFormat(Title(t.ordinal, timings.1, Split(texts.1, '\n')));
  }

  /** Where the parts of `pre + (x + [sep] + y) + post` sit. */
  lemma Around<T>(pre: seq<T>, x: seq<T>, sep: T, y: seq<T>, post: seq<T>)
    ensures var r := pre + (x + [sep] + y) + post;
            var i, j := |pre| + |x|, |pre| + |x| + 1 + |y|;
            && |r| == j + |post|
            && r[..|pre|] == pre && r[|pre|..i] == x && r[i] == sep
            && r[i + 1..j] == y && r[j..] == post
  {
    var r := pre + (x + [sep] + y) + post;
    assert r[..|pre|] == pre;
    assert r[|pre|..|pre| + |x|] == x;
    assert r[|pre| + |x| + 1..|pre| + |x| + 1 + |y|] == y;
    assert r[|pre| + |x| + 1 + |y|..] == post;
  }


  /** A split that succeeds had a title on a non-blank cursor line whose text could be cut. */
  lemma SplitLinesOk(edition: Edition, cfg: Config, lines: seq<string>, c: nat)
    requires SplitLines(edition, cfg, lines, c).Ok?
    ensures c < |lines| && ParseTitle(CurrentBlock(lines, c)).Ok?
    ensures var t := ParseTitle(CurrentBlock(lines, c)).value;
            && SplitTexts(t.text, PlaceholderOf(edition, cfg)).Ok?
            && SplitTimingInTwo(t.timing).Ok?
            && SplitLines(edition, cfg, lines, c).value
               == lines[..TitleStart(lines, c)]
                  + SplitBlock(t, SplitTimingInTwo(t.timing).value, SplitTexts(t.text, PlaceholderOf(edition, cfg)).value)
                  + lines[EmptyAfter(lines, c)..]
  {
    hide SplitBlock, ParseTitle, SplitTexts, SplitTimingInTwo;
  }

  /** The seven parts of a split title, joined by line breaks. */
  lemma JoinBlock(n: string, t0: string, x0: string, t1: string, x1: string)
    ensures Join([n, t0, x0, "", n, t1, x1], "\n")
            == n + "\n" + (t0 + "\n" + (x0 + "\n" + ("\n" + (n + "\n" + (t1 + "\n" + x1)))))
  {
    var p5 := [t1, x1];
    assert p5[1..] == [x1];
    assert Join(p5, "\n") == t1 + "\n" + x1;
    var p4 := [n] + p5;
    assert p4[1..] == p5;
    assert Join(p4, "\n") == n + "\n" + Join(p5, "\n");
    var p3 := [""] + p4;
    assert p3[1..] == p4;
    assert Join(p3, "\n") == "" + "\n" + Join(p4, "\n");
    var p2 := [x0] + p3;
    assert p2[1..] == p3;
    assert Join(p2, "\n") == x0 + "\n" + Join(p3, "\n");
    var p1 := [t0] + p2;
    assert p1[1..] == p2;
    assert Join(p1, "\n") == t0 + "\n" + Join(p2, "\n");
    var p0 := [n] + p1;
    assert p0[1..] == p1;
    assert Join(p0, "\n") == n + "\n" + Join(p1, "\n");
    assert p0 == [n, t0, x0, "", n, t1, x1];
    assert "" + "\n" + Join(p4, "\n") == "\n" + Join(p4, "\n");
  }

  /** Splitting the joined parts back at line breaks: the texts may split further, the other parts do not. */
  lemma SplitBlockPieces(n: string, t0: string, x0: string, t1: string, x1: string)
    requires '\n' !in n && '\n' !in t0 && '\n' !in t1
    ensures Split(n + "\n" + (t0 + "\n" + (x0 + "\n" + ("\n" + (n + "\n" + (t1 + "\n" + x1))))), '\n')
            == [n, t0] + Split(x0, '\n') + ["", n, t1] + Split(x1, '\n')
  {
    hide Split;
    var s5 := t1 + "\n" + x1;
    SplitAround(t1, x1, '\n');
    var s4 := n + "\n" + s5;
    SplitAround(n, s5, '\n');
    var s3 := "\n" + s4;
    assert s3 == "" + "\n" + s4;
    SplitAround("", s4, '\n');
    var s2 := x0 + "\n" + s3;
    SplitJoinedOnce(x0, s3);
    var s1 := t0 + "\n" + s2;
    SplitAround(t0, s2, '\n');
    SplitAround(n, s1, '\n');
  }

  /** A number's digits hold no line break. */
  lemma DigitsNoNewline(n: nat)
    ensures '\n' !in Digits(n)
  {
    if '\n' in Digits(n) {
      var i :| 0 <= i < |Digits(n)| && Digits(n)[i] == '\n';
      if n >= 1 {
        DigitsIsOrdinal(n);
      }
    }
  }

  /** Splitting `a + "\n" + b` splits `a` and `b` apart, whatever `a` holds. */
  lemma {:induction false} SplitJoinedOnce(a: string, b: string)
    ensures Split(a + "\n" + b, '\n') == Split(a, '\n') + Split(b, '\n')
    decreases |a|
  {
    if |a| == 0 {
      assert a + "\n" + b == "\n" + b;
      assert ("\n" + b)[1..] == b;
    } else {
      assert (a + "\n" + b)[1..] == a[1..] + "\n" + b;
      SplitJoinedOnce(a[1..], b);
    }
  }

  /**
   With several text lines none of which starts the rest with a dash, the
   second title gets the remaining lines stripped, one per line, and the
   first title the first line stripped (less a leading dash).
   */
  lemma SplitKeepsLines(text: seq<string>, placeholder: string)
    requires |text| > 1 && NoNewlines(text)
    requires |Strip(text[1])| == 0 || Strip(text[1])[0] != '-'
    ensures SplitTexts(text, placeholder).Ok?
    ensures Split(SplitTexts(text, placeholder).value.1, '\n') == StripAll(text[1..])
  {
    var rest := StripAll(text[1..]);
    forall i | 0 <= i < |rest|
      ensures '\n' !in rest[i]
    {
      StripInside(text[1..][i]);
    }
    var joined := Join(rest, "\n");
    if |joined| > 0 && joined[0] == '-' {
      JoinHead(rest);
    }
    SplitJoin(rest, '\n');
  }

  /** The first character of a join is the first piece's, when that piece is not empty. */
  lemma JoinHead(parts: seq<string>)
    requires |parts| >= 1 && |Join(parts, "\n")| > 0
    ensures |parts[0]| > 0 ==> Join(parts, "\n")[0] == parts[0][0]
    ensures |parts[0]| == 0 && |parts| > 1 ==> Join(parts, "\n")[0] == '\n'
    ensures |parts[0]| == 0 && |parts| == 1 ==> false
  {
  }

  /** Stripping takes characters out and never puts one in. */
  lemma StripInside(s: string)
    ensures forall x :: x in Strip(s) ==> x in s
  {
    var k :| StripsAt(s, Strip(s), k);
    forall x | x in Strip(s) ensures x in s {
      var i :| 0 <= i < |Strip(s)| && Strip(s)[i] == x;
      assert s[k + i] == x;
    }
  }

  // Joining two titles.

  /** Total length of the raw text lines. */
  function TextLength(texts: seq<string>): nat {
    if |texts| == 0 then 0 else |texts[0]| + TextLength(texts[1..])
  }

  /**
   The separator of the joined text: the plugin keeps the texts on one
   line when their raw lengths add up to at most the maximum line length;
   the older edition always keeps them on separate lines.
   */
  function JoinSeparator(edition: Edition, cfg: Config, texts: seq<string>): (sep: string)
    ensures sep == " " || sep == "\n"
    ensures sep == " " <==> edition == Plugin && TextLength(texts) <= cfg.maxLineLength
  {
    if edition == Plugin && TextLength(texts) <= cfg.maxLineLength then " " else "\n"
  }

  /** The joined text: the stripped text lines, in order, around the separator. */
  function JoinedText(edition: Edition, cfg: Config, texts: seq<string>): string {
    Join(StripAll(texts), JoinSeparator(edition, cfg, texts))
  }

  /** The neighbour after: the lines between the empty line that ends the title and the next empty line. */
  function NextTitleEnd(lines: seq<string>, b: nat): (e: nat)
    requires b < |lines|
    ensures b < e <= |lines|
  {
    EmptyAfter(lines, b)
  }

  /**
   The neighbour before: from just after the previous empty line, or from
   the top when that empty line is the first line or there is none, up to
   the empty line before the title.
   */
  function PreviousTitleStart(lines: seq<string>, p: nat): (s: nat)
    requires p <= |lines|
    ensures s <= p
  {
    match EmptyBefore(lines, p)
    case None => 0
    case Some(q) => if q == 0 then 0 else q + 1
  }

  /** Whether there is a title on the side to join with, as far as the command can tell. */
  predicate HasNeighbour(lines: seq<string>, c: nat, after: bool)
    requires c < |lines|
  {
    if after then EmptyAfter(lines, c) + 1 < |lines| else !AtTop(lines, c)
  }

  /** The lines of the neighbour to join with: the title after the empty line that ends the current one, or before the one that starts it. */
  function NeighbourRange(lines: seq<string>, c: nat, after: bool): (r: (nat, nat))
    requires c < |lines| && HasNeighbour(lines, c, after)
    ensures r.0 <= r.1 <= |lines|
    ensures after ==> r.0 == EmptyAfter(lines, c) + 1
    ensures !after ==> r.1 + 1 == TitleStart(lines, c)
  {
    if after then (EmptyAfter(lines, c) + 1, NextTitleEnd(lines, EmptyAfter(lines, c)))
    else (PreviousTitleStart(lines, TitleStart(lines, c) - 1), TitleStart(lines, c) - 1)
  }

  /**
   The joined title's lines: the current title's number, the timing of
   `joinTimings(current, neighbour)`, and the texts in reading order.
   */
  function JoinedBlock(edition: Edition, cfg: Config, cur: Title, nb: Title, after: bool): (r: seq<string>)
    requires IsTimingLine(cur.timing) && IsTimingLine(nb.timing)
  {
    var texts := if after then cur.text + nb.text else nb.text + cur.text;
    var timing := JoinTimings(cur.timing, nb.timing).value;
    Split(Join([Digits(cur.ordinal), timing, JoinedText(edition, cfg, texts)], "\n"), '\n')
  }

  /** The title the join builds: the current number, the joined timing and the joined text's lines. */
  function JoinedTitle(edition: Edition, cfg: Config, cur: Title, nb: Title, after: bool): (r: Title)
    requires IsTimingLine(cur.timing) && IsTimingLine(nb.timing)
    ensures r.ordinal == cur.ordinal && IsTimingLine(r.timing) && |r.text| >= 1
  {
    var texts := if after then cur.text + nb.text else nb.text + cur.text;
    Title(cur.ordinal, JoinTimings(cur.timing, nb.timing).value, Split(JoinedText(edition, cfg, texts), '\n'))
  }

  /** The first character of `s`, as a string; the empty string has none. */
  function FirstChar(s: string): string {
    if |s| == 0 then "" else s[..1]
  }

  /**
   Where the join puts its block. After: in place of the current title,
   the empty line and the neighbour, the empty line that followed the
   neighbour staying; when the neighbour was the last title, the erase
   stops short of the empty line before it, so an empty last line is
   left. Before: in place of the neighbour, the empty line and the
   current title; when the neighbour starts the document, the erase
   begins one character late, so the document's first character stays
   in front of the block's first line.
   */
  function JoinedDocument(lines: seq<string>, c: nat, after: bool, block: seq<string>): seq<string>
    requires c < |lines| && HasNeighbour(lines, c, after) && |block| >= 1
  {
    var (from, to) := NeighbourRange(lines, c, after);
    if after then lines[..TitleStart(lines, c)] + block + (if to == |lines| then [""] else lines[to..])
    else if from == 0 then [FirstChar(lines[0]) + block[0]] + block[1..] + lines[EmptyAfter(lines, c)..]
    else lines[..from] + block + lines[EmptyAfter(lines, c)..]
  }

  /**
   The document after the join command's edit, before renumbering: the
   joined title replaces both titles and the empty line between them.
   */
  function JoinLines(edition: Edition, cfg: Config, lines: seq<string>, c: nat, after: bool): (r: Result<seq<string>, EditError>)
    ensures CursorOnBlankLine(lines, c) ==> r == Err(CursorOnBlank)
    ensures !CursorOnBlankLine(lines, c) && !after && AtTop(lines, c) ==> r == Err(NothingBefore)
    ensures !CursorOnBlankLine(lines, c) && after && !HasNeighbour(lines, c, after) ==> r == Err(NothingAfter)
    ensures !CursorOnBlankLine(lines, c) && HasNeighbour(lines, c, after) ==>
              var cur := ParseTitle(CurrentBlock(lines, c));
              var (from, to) := NeighbourRange(lines, c, after);
              var nb := ParseTitle(lines[from..to]);
              && (cur.Err? ==> r == Err(BadTitle(cur.error)))
              && (cur.Ok? && nb.Err? ==> r == Err(BadNeighbour(nb.error)))
              && (cur.Ok? && nb.Ok? ==>
                    r == Ok(JoinedDocument(lines, c, after, JoinedBlock(edition, cfg, cur.value, nb.value, after))))
  {
    if CursorOnBlankLine(lines, c) then Err(CursorOnBlank)
    else if !after && AtTop(lines, c) then Err(NothingBefore)
    else if after && !HasNeighbour(lines, c, after) then Err(NothingAfter)
    else
      match ParseTitle(CurrentBlock(lines, c))
      case Err(e) => Err(BadTitle(e))
      case Ok(cur) =>
        var (from, to) := NeighbourRange(lines, c, after);
        match ParseTitle(lines[from..to])
        case Err(e) => Err(BadNeighbour(e))
        case Ok(nb) =>
          Ok(JoinedDocument(lines, c, after, JoinedBlock(edition, cfg, cur, nb, after)))
  }

  /** The join command: the edit, then the renumber command. */
  function JoinTitles(edition: Edition, cfg: Config, lines: seq<string>, c: nat, after: bool, excluded: set<int>): (r: Result<RenumberRun, EditError>)
    ensures r.Err? <==> JoinLines(edition, cfg, lines, c, after).Err?
    ensures r.Err? ==> r.error == JoinLines(edition, cfg, lines, c, after).error
    ensures r.Ok? ==> Meets(JoinLines(edition, cfg, lines, c, after).value, r.value.outcome)
  {
    match JoinLines(edition, cfg, lines, c, after)
    case Err(e) => Err(e)
    case Ok(edited) => Ok(RenumberCommand(edition, edited, excluded))
  }

  /** A timing line holds no line break. */
  lemma TimingNoNewline(s: string)
    requires IsTimingLine(s)
    ensures '\n' !in s
  {
    forall i | 0 <= i < |s|
      ensures s[i] != '\n'
    {
    }
  }

  /** The joined block is the joined title, formatted. */
  lemma JoinedBlockShape(edition: Edition, cfg: Config, cur: Title, nb: Title, after: bool)
    requires IsTimingLine(cur.timing) && IsTimingLine(nb.timing)
    ensures JoinedBlock(edition, cfg, cur, nb, after) == FormatTitle(JoinedTitle(edition, cfg, cur, nb, after))
  {
    hide Split, Join, JoinedText, JoinTimings, MatchTiming, Digits, IsTimingLine;
    var t := JoinedTitle(edition, cfg, cur, nb, after);
    var x := JoinedText(edition, cfg, if after then cur.text + nb.text else nb.text + cur.text);
    DigitsNoNewline(cur.ordinal);
    TimingNoNewline(t.timing);
    ThreeLines(Digits(cur.ordinal), t.timing, x);
  }

  /** Three parts joined by line breaks split back into the first two and the third's own lines. */
  lemma ThreeLines(n: string, timing: string, x: string)
    requires '\n' !in n && '\n' !in timing
    ensures Split(Join([n, timing, x], "\n"), '\n') == [n, timing] + Split(x, '\n')
  {
    var tail := [timing, x];
    assert tail[1..] == [x];
    assert Join(tail, "\n") == timing + "\n" + x;
    var parts := [n] + tail;
    assert parts[1..] == tail;
    assert Join(parts, "\n") == n + "\n" + Join(tail, "\n");
    SplitAround(timing, x, '\n');
    SplitAround(n, timing + "\n" + x, '\n');
  }

  /**
   Where a block lands in the joined document: after the unchanged lines
   before the two titles and before the unchanged lines after them.
   */
  lemma JoinedDocumentShape(lines: seq<string>, c: nat, after: bool, block: seq<string>)
    requires c < |lines| && HasNeighbour(lines, c, after) && |block| >= 1
    ensures var r := JoinedDocument(lines, c, after, block);
            var (from, to) := NeighbourRange(lines, c, after);
            var at := if after then TitleStart(lines, c) else from;
            var rest := if !after then lines[EmptyAfter(lines, c)..] else if to == |lines| then [""] else lines[to..];
            && |r| == at + |block| + |rest|
            && r[..at] == lines[..at]
            && r[at + |block|..] == rest
            && (after || from > 0 ==> r[at..at + |block|] == block)
            && (!after && from == 0 ==> r[0] == FirstChar(lines[0]) + block[0] && r[1..|block|] == block[1..])
  {
    var r := JoinedDocument(lines, c, after, block);
    var (from, to) := NeighbourRange(lines, c, after);
    var at := if after then TitleStart(lines, c) else from;
    var rest := if !after then lines[EmptyAfter(lines, c)..] else if to == |lines| then [""] else lines[to..];
    if after || from > 0 {
      assert r == lines[..at] + block + rest;
    } else {
      assert r == [FirstChar(lines[0]) + block[0]] + block[1..] + rest;
    }
  }

  /**
   What the join leaves in the document: the lines before the two titles
   and those after them unchanged, and in between the joined title, which
   parses back to the current number, the joined timing and the joined
   text. The two ends differ from a clean replacement: joining after the
   last title leaves an empty last line, and joining before a title that
   starts the document keeps that document's first character in front of
   the number.
   */
  lemma JoinDocument(edition: Edition, cfg: Config, lines: seq<string>, c: nat, after: bool)
    requires JoinLines(edition, cfg, lines, c, after).Ok?
    ensures var r := JoinLines(edition, cfg, lines, c, after).value;
            var cur := ParseTitle(CurrentBlock(lines, c)).value;
            var (from, to) := NeighbourRange(lines, c, after);
            var nb := ParseTitle(lines[from..to]).value;
            var title := JoinedTitle(edition, cfg, cur, nb, after);
            var joined := FormatTitle(title);
            var at := if after then TitleStart(lines, c) else from;
            var rest := if !after then lines[EmptyAfter(lines, c)..] else if to == |lines| then [""] else lines[to..];
            && |r| == at + |joined| + |rest|
            && r[..at] == lines[..at]
            && r[at + |joined|..] == rest
            && (after || from > 0 ==> ParseTitle(r[at..at + |joined|]) == Ok(title))
            && (!after && from == 0 ==> r[0] == FirstChar(lines[0]) + Digits(cur.ordinal) && r[1..|joined|] == joined[1..])
  {
    hide *;
    JoinLinesOk(edition, cfg, lines, c, after);
    var cur := ParseTitle(CurrentBlock(lines, c)).value;
    var (from, to) := NeighbourRange(lines, c, after);
    var nb := ParseTitle(lines[from..to]).value;
    var title := JoinedTitle(edition, cfg, cur, nb, after);
    var block := JoinedBlock(edition, cfg, cur, nb, after);
    JoinedBlockShape(edition, cfg, cur, nb, after);
    assert block == FormatTitle(title);
    ParseFormat(title);
    JoinedDocumentShape(lines, c, after, block);
  }

  /** A join that succeeds had a title on a non-blank cursor line, a neighbour, and both parsed. */
  lemma JoinLinesOk(edition: Edition, cfg: Config, lines: seq<string>, c: nat, after: bool)
    requires JoinLines(edition, cfg, lines, c, after).Ok?
    ensures c < |lines| && HasNeighbour(lines, c, after)
    ensures ParseTitle(CurrentBlock(lines, c)).Ok?
    ensures ParseTitle(lines[NeighbourRange(lines, c, after).0..NeighbourRange(lines, c, after).1]).Ok?
    ensures var cur := ParseTitle(CurrentBlock(lines, c)).value;
            var nb := ParseTitle(lines[NeighbourRange(lines, c, after).0..NeighbourRange(lines, c, after).1]).value;
            JoinLines(edition, cfg, lines, c, after).value
            == JoinedDocument(lines, c, after, JoinedBlock(edition, cfg, cur, nb, after))
  {
    hide JoinedDocument, JoinedBlock, ParseTitle, JoinTimings, JoinedText;
  }

  /**
   On separate lines, the joined text gives back every text line stripped,
   in order; on one line it is a single line whose length exceeds the
   summed raw lengths only by the separating spaces.
   */
  lemma JoinedTextLines(edition: Edition, cfg: Config, texts: seq<string>)
    requires |texts| >= 1 && NoNewlines(texts)
    ensures JoinSeparator(edition, cfg, texts) == "\n" ==>
              Split(JoinedText(edition, cfg, texts), '\n') == StripAll(texts)
    ensures JoinSeparator(edition, cfg, texts) == " " ==>
              && '\n' !in JoinedText(edition, cfg, texts)
              && |JoinedText(edition, cfg, texts)| <= cfg.maxLineLength + |texts| - 1
  {
    var parts := StripAll(texts);
    forall i | 0 <= i < |parts|
      ensures '\n' !in parts[i]
    {
      StripInside(texts[i]);
    }
    if JoinSeparator(edition, cfg, texts) == "\n" {
      SplitJoin(parts, '\n');
    } else {
      SpaceJoin(texts);
    }
  }

  /** Joining stripped lines with spaces adds no line break, and one character per gap. */
  lemma {:induction false} SpaceJoin(texts: seq<string>)
    requires |texts| >= 1 && NoNewlines(texts)
    ensures '\n' !in Join(StripAll(texts), " ")
    ensures |Join(StripAll(texts), " ")| <= TextLength(texts) + |texts| - 1
  {
    StripInside(texts[0]);
    StripShorter(texts[0]);
    if |texts| > 1 {
      SpaceJoin(texts[1..]);
      assert StripAll(texts) == [Strip(texts[0])] + StripAll(texts[1..]);
      assert StripAll(texts)[1..] == StripAll(texts[1..]);
    }
  }

  lemma StripShorter(s: string)
    ensures |Strip(s)| <= |s|
  {
    var k :| StripsAt(s, Strip(s), k);
  }

  /**
   The plugin joins two one-line texts of 20 and 21 characters with a
   space into a 42-character line, one more than the default maximum
   that the length rule means to respect.
   */
  lemma JoinOverlongWitness()
    ensures var texts := [seq(20, _ => 'a'), seq(21, _ => 'b')];
            && JoinSeparator(Plugin, Defaults, texts) == " "
            && |JoinedText(Plugin, Defaults, texts)| == 42 > Defaults.maxLineLength
  {
    var texts := [seq(20, _ => 'a'), seq(21, _ => 'b')];
    assert texts[1..] == [texts[1]] && texts[1..][1..] == [];
    assert TextLength([texts[1]]) == 21;
    assert TextLength(texts) == 41;
    StripOfStripped(texts[0]);
    StripOfStripped(texts[1]);
    assert StripAll(texts) == texts;
    assert Join(texts, " ") == texts[0] + " " + texts[1];
  }
}
