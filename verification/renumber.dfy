/**
 The renumber command of the titles module: one forward pass over the
 document's lines that rewrites the ordinal line of the k-th title to
 `k`, stopping at the first line that breaks the layout, together with
 the plugin's clearing of the file's exclusion list.
 */
module Renumber {
  import opened Base
  import opened Strings
  import opened Decimal
  import opened Patterns
  import opened Settings

  /** The two messages of the pass: a line that should not be empty, and one that should hold a title number. */
  datatype RenumberError = EmptyLine | NoOrdinal

  datatype Fault = Fault(line: nat, error: RenumberError)

  /**
   What the pass leaves behind: the document with the replacements made so
   far (they stay applied when a later line fails), and the fault that
   stopped it, if any.
   */
  datatype Outcome = Outcome(lines: seq<string>, fault: Option<Fault>)

  /** The loop's variables: whether the previous line was blank, the place of the line in its title, and the next number to hand out. */
  datatype Pass = Pass(hadEmpty: bool, lineInTitle: nat, next: nat)

  /** One turn of the loop at line `i`: the fault it reports, or the next state and document. */
  function Advance(src: seq<string>, i: nat, st: Pass, out: seq<string>): (r: Result<(Pass, seq<string>), Fault>)
    requires i < |src| && |out| == |src|
    ensures r.Ok? ==> |r.value.1| == |src|
    ensures r.Err? ==> r.error.line == i
  {
    var line := Strip(src[i]);
    if line == "" then
      if st.hadEmpty || i == 0 then Err(Fault(i, EmptyLine))
      else Ok((Pass(true, 0, st.next), out))
    else if st.lineInTitle == 0 then
      if IsOrdinal(line) then Ok((Pass(false, 1, st.next + 1), out[i := Digits(st.next)]))
      else Err(Fault(i, NoOrdinal))
    else Ok((Pass(false, st.lineInTitle + 1, st.next), out))
  }

  /** The loop from line `i` on, `out` being the document as edited so far. */
  function Loop(src: seq<string>, i: nat, st: Pass, out: seq<string>): (r: Outcome)
    requires i <= |src| && |out| == |src|
    ensures |r.lines| == |src|
    decreases |src| - i
  {
    if i == |src| then Outcome(out, None)
    else match Advance(src, i, st, out)
      case Err(f) => Outcome(out, Some(f))
      case Ok((st', out')) => Loop(src, i + 1, st', out')
  }

  /**
   The pass succeeds exactly on a document with no faulty line; otherwise
   it reports the first faulty line. Every line before the stop is
   renumbered (the k-th title's first line becomes `k`, nothing else
   changes) and every line from the stop on is left as it was.
   */
  function Renumber(lines: seq<string>): (r: Outcome)
    ensures Meets(lines, r)
  {
    LoopMeets(lines, 0, Pass(false, 0, 1), lines);
    Loop(lines, 0, Pass(false, 0, 1), lines)
  }

  // An independent description of the pass, in terms of the document alone.

  /** Line `i` holds only whitespace. */
  predicate BlankAt(lines: seq<string>, i: nat)
    requires i < |lines|
  {
    Strip(lines[i]) == ""
  }

  /** Line `i` is the first line of a title: not blank, and first or after a blank. */
  predicate OpensTitle(lines: seq<string>, i: nat)
    requires i < |lines|
  {
    !BlankAt(lines, i) && (i == 0 || BlankAt(lines, i - 1))
  }

  /** Line `i` breaks the layout: a leading or doubled blank, or a title that does not start with an ordinal. */
  predicate FaultyAt(lines: seq<string>, i: nat)
    requires i < |lines|
  {
    || (BlankAt(lines, i) && (i == 0 || BlankAt(lines, i - 1)))
    || (OpensTitle(lines, i) && !IsOrdinal(Strip(lines[i])))
  }

  /** How many titles open among the first `n` lines. */
  function TitlesBefore(lines: seq<string>, n: nat): nat
    requires n <= |lines|
  {
    if n == 0 then 0
    else TitlesBefore(lines, n - 1) + (if OpensTitle(lines, n - 1) then 1 else 0)
  }

  /** Line `i` once renumbered: the k-th title's first line becomes `k`, every other line stays. */
  function Numbered(lines: seq<string>, i: nat): string
    requires i < |lines|
  {
    if OpensTitle(lines, i) then Digits(TitlesBefore(lines, i + 1)) else lines[i]
  }

  /** The line the pass stops at: its fault's line, or the end of the document. */
  function StopOf(r: Outcome, n: nat): nat {
    if r.fault.Some? then r.fault.value.line else n
  }

  /** The result of the pass over `src`, as the independent description puts it. */
  predicate Meets(src: seq<string>, r: Outcome) {
    && |r.lines| == |src|
    && (r.fault.None? <==> forall i :: 0 <= i < |src| ==> !FaultyAt(src, i))
    && (r.fault.Some? ==>
          var f := r.fault.value.line;
          && f < |src| && FaultyAt(src, f)
          && (forall i :: 0 <= i < f ==> !FaultyAt(src, i))
          && r.fault.value.error == (if BlankAt(src, f) then EmptyLine else NoOrdinal))
    && StopOf(r, |src|) <= |src|
    && (forall i :: 0 <= i < StopOf(r, |src|) ==> r.lines[i] == Numbered(src, i))
    && (forall i :: StopOf(r, |src|) <= i < |src| ==> r.lines[i] == src[i])
  }

  /** What holds at the head of the loop for line `i`. */
  predicate LoopInvariant(src: seq<string>, i: nat, st: Pass, out: seq<string>) {
    && i <= |src| && |out| == |src|
    && (forall j :: 0 <= j < i ==> !FaultyAt(src, j))
    && (forall j :: 0 <= j < i ==> out[j] == Numbered(src, j))
    && (forall j :: i <= j < |src| ==> out[j] == src[j])
    && st.next == TitlesBefore(src, i) + 1
    && (i == 0 ==> !st.hadEmpty && st.lineInTitle == 0)
    && (i > 0 ==> (st.hadEmpty <==> BlankAt(src, i - 1)))
    && (i > 0 ==> (st.lineInTitle == 0 <==> BlankAt(src, i - 1)))
  }

  /** One turn of the loop fails exactly at a faulty line, and otherwise keeps the invariant. */
  lemma AdvanceKeeps(src: seq<string>, i: nat, st: Pass, out: seq<string>)
    requires i < |src| && |out| == |src| && LoopInvariant(src, i, st, out)
    ensures Advance(src, i, st, out).Err? <==> FaultyAt(src, i)
    ensures Advance(src, i, st, out).Err? ==>
              Advance(src, i, st, out).error.error == (if BlankAt(src, i) then EmptyLine else NoOrdinal)
    ensures Advance(src, i, st, out).Ok? ==>
              var (st', out') := Advance(src, i, st, out).value; LoopInvariant(src, i + 1, st', out')
  {
    var line := Strip(src[i]);
    if line == "" {
      if !(st.hadEmpty || i == 0) {
        BlankTurn(src, i, st, out);
      }
    } else if st.lineInTitle == 0 {
      if IsOrdinal(line) {
        OrdinalTurn(src, i, st, out);
      }
    } else {
      TextTurn(src, i, st, out);
    }
  }

  lemma BlankTurn(src: seq<string>, i: nat, st: Pass, out: seq<string>)
    requires i < |src| && |out| == |src| && LoopInvariant(src, i, st, out)
    requires BlankAt(src, i) && i > 0 && !st.hadEmpty
    ensures !FaultyAt(src, i)
    ensures LoopInvariant(src, i + 1, Pass(true, 0, st.next), out)
  {
    assert !FaultyAt(src, i) && Numbered(src, i) == src[i];
    Extend(src, i, st, out, Pass(true, 0, st.next), out);
  }

  lemma OrdinalTurn(src: seq<string>, i: nat, st: Pass, out: seq<string>)
    requires i < |src| && |out| == |src| && LoopInvariant(src, i, st, out)
    requires !BlankAt(src, i) && st.lineInTitle == 0 && IsOrdinal(Strip(src[i]))
    ensures OpensTitle(src, i) && !FaultyAt(src, i)
    ensures LoopInvariant(src, i + 1, Pass(false, 1, st.next + 1), out[i := Digits(st.next)])
  {
    assert OpensTitle(src, i) && !FaultyAt(src, i);
    var out' := out[i := Digits(st.next)];
    assert out'[i] == Numbered(src, i);
    Extend(src, i, st, out, Pass(false, 1, st.next + 1), out');
  }

  lemma TextTurn(src: seq<string>, i: nat, st: Pass, out: seq<string>)
    requires i < |src| && |out| == |src| && LoopInvariant(src, i, st, out)
    requires !BlankAt(src, i) && st.lineInTitle != 0
    ensures !OpensTitle(src, i) && !FaultyAt(src, i)
    ensures LoopInvariant(src, i + 1, Pass(false, st.lineInTitle + 1, st.next), out)
  {
    assert !OpensTitle(src, i) && !FaultyAt(src, i);
    assert Numbered(src, i) == src[i];
    Extend(src, i, st, out, Pass(false, st.lineInTitle + 1, st.next), out);
  }

  /** The invariant moves past a line that is not faulty once that line is renumbered and the state updated. */
  lemma Extend(src: seq<string>, i: nat, st: Pass, out: seq<string>, st': Pass, out': seq<string>)
    requires i < |src| && LoopInvariant(src, i, st, out)
    requires !FaultyAt(src, i) && |out'| == |src| && out'[i] == Numbered(src, i)
    requires forall j :: 0 <= j < |src| && j != i ==> out'[j] == out[j]
    requires st'.next == TitlesBefore(src, i + 1) + 1
    requires st'.hadEmpty <==> BlankAt(src, i)
    requires st'.lineInTitle == 0 <==> BlankAt(src, i)
    ensures LoopInvariant(src, i + 1, st', out')
  {
    hide FaultyAt, Numbered, TitlesBefore, BlankAt;
    forall j | 0 <= j < i + 1 ensures out'[j] == Numbered(src, j) {
      if j < i {
        assert out'[j] == out[j];
      }
    }
    forall j | i + 1 <= j < |src| ensures out'[j] == src[j] {
      assert out'[j] == out[j];
    }
  }

  /** Where the loop stops, what it has done so far is what the description asks for. */
  lemma StopMeets(src: seq<string>, i: nat, st: Pass, out: seq<string>, fault: Option<Fault>)
    requires LoopInvariant(src, i, st, out)
    requires fault.None? ==> i == |src|
    requires fault.Some? ==> && i < |src| && fault.value.line == i && FaultyAt(src, i)
                             && fault.value.error == (if BlankAt(src, i) then EmptyLine else NoOrdinal)
    ensures Meets(src, Outcome(out, fault))
  {
  }

  lemma {:induction false} LoopMeets(src: seq<string>, i: nat, st: Pass, out: seq<string>)
    requires i <= |src| && |out| == |src| && LoopInvariant(src, i, st, out)
    ensures Meets(src, Loop(src, i, st, out))
    decreases |src| - i
  {
    hide Meets, LoopInvariant;
    if i == |src| {
      StopMeets(src, i, st, out, None);
    } else {
      AdvanceKeeps(src, i, st, out);
      match Advance(src, i, st, out)
      case Err(f) => StopMeets(src, i, st, out, Some(f));
      case Ok((st', out')) => LoopMeets(src, i + 1, st', out');
    }
  }

  /** Renumbering keeps blank lines blank and non-blank lines non-blank. */
  lemma NumberedBlank(lines: seq<string>, i: nat)
    requires i < |lines|
    ensures Strip(Numbered(lines, i)) == "" <==> BlankAt(lines, i)
    ensures OpensTitle(lines, i) ==> IsOrdinal(Strip(Numbered(lines, i)))
  {
    if OpensTitle(lines, i) {
      var k := TitlesBefore(lines, i + 1);
      DigitsIsOrdinal(k);
      StripOfStripped(Digits(k));
    }
  }

  /** A renumbered document is renumbered again into itself, without fault. */
  lemma RenumberIdempotent(lines: seq<string>)
    requires Renumber(lines).fault.None?
    ensures Renumber(Renumber(lines).lines) == Outcome(Renumber(lines).lines, None)
  {
    var out := Renumber(lines).lines;
    RenumberedShape(lines, out);
    RenumberKeepsNumbered(out);
  }

  /** The lines of a renumbered document are blank, and open titles, where the original's do. */
  lemma RenumberedShape(lines: seq<string>, out: seq<string>)
    requires |out| == |lines|
    requires forall i :: 0 <= i < |lines| ==> !FaultyAt(lines, i) && out[i] == Numbered(lines, i)
    ensures forall i :: 0 <= i < |out| ==> !FaultyAt(out, i)
    ensures forall i :: 0 <= i < |out| && OpensTitle(out, i) ==> out[i] == Digits(TitlesBefore(out, i + 1))
  {
    forall i | 0 <= i < |lines|
      ensures OpensTitle(out, i) <==> OpensTitle(lines, i)
    {
      NumberedOpens(lines, out, i);
    }
    SameTitles(lines, out, |lines|);
    forall i | 0 <= i < |lines|
      ensures !FaultyAt(out, i)
      ensures OpensTitle(out, i) ==> out[i] == Digits(TitlesBefore(out, i + 1))
    {
      NumberedOpens(lines, out, i);
      NumberedLine(lines, out, i);
    }
  }

  /** One renumbered line is faulty, or opens a title, exactly where the original's is and does. */
  lemma NumberedLine(lines: seq<string>, out: seq<string>, i: nat)
    requires i < |out| == |lines|
    requires out[i] == Numbered(lines, i) && !FaultyAt(lines, i)
    requires BlankAt(out, i) <==> BlankAt(lines, i)
    requires i > 0 ==> (BlankAt(out, i - 1) <==> BlankAt(lines, i - 1))
    requires OpensTitle(out, i) <==> OpensTitle(lines, i)
    requires TitlesBefore(out, i + 1) == TitlesBefore(lines, i + 1)
    ensures !FaultyAt(out, i)
    ensures OpensTitle(out, i) ==> out[i] == Digits(TitlesBefore(out, i + 1))
  {
    NumberedBlank(lines, i);
    hide TitlesBefore, Digits;
  }

  lemma NumberedOpens(lines: seq<string>, out: seq<string>, i: nat)
    requires i < |out| == |lines|
    requires out[i] == Numbered(lines, i)
    requires i > 0 ==> out[i - 1] == Numbered(lines, i - 1)
    ensures BlankAt(out, i) <==> BlankAt(lines, i)
    ensures i > 0 ==> (BlankAt(out, i - 1) <==> BlankAt(lines, i - 1))
    ensures OpensTitle(out, i) <==> OpensTitle(lines, i)
  {
    hide Numbered, Strip;
    NumberedBlank(lines, i);
    if i > 0 {
      NumberedBlank(lines, i - 1);
    }
  }

  /** Two documents whose titles open on the same lines count the same titles. */
  lemma {:induction false} SameTitles(a: seq<string>, b: seq<string>, n: nat)
    requires n <= |a| == |b|
    requires forall i :: 0 <= i < |a| ==> (OpensTitle(a, i) <==> OpensTitle(b, i))
    ensures forall m :: 0 <= m <= n ==> TitlesBefore(a, m) == TitlesBefore(b, m)
  {
    if n > 0 {
      SameTitles(a, b, n - 1);
      assert OpensTitle(a, n - 1) <==> OpensTitle(b, n - 1);
    }
  }

  /** A document already numbered 1..N, with no faulty line, is left unchanged. */
  lemma RenumberKeepsNumbered(lines: seq<string>)
    requires forall i :: 0 <= i < |lines| ==> !FaultyAt(lines, i)
    requires forall i :: 0 <= i < |lines| && OpensTitle(lines, i) ==> lines[i] == Digits(TitlesBefore(lines, i + 1))
    ensures Renumber(lines) == Outcome(lines, None)
  {
    assert Renumber(lines).lines == lines;
  }

  /** The renumber command's effect on the document and on the file's exclusion list. */
  datatype RenumberRun = RenumberRun(outcome: Outcome, excluded: set<int>, notice: bool)

  /** `any(excludedTitles)`: some listed number is non-zero. */
  predicate AnyExcluded(excluded: set<int>) {
    exists x :: x in excluded && x != 0
  }

  /**
   The command: the plugin first clears a list of excluded titles holding
   some non-zero number, before the pass, and tells the user so only when
   the pass succeeds; the older edition never touches the list.
   */
  function RenumberCommand(edition: Edition, lines: seq<string>, excluded: set<int>): (r: RenumberRun)
    ensures Meets(lines, r.outcome)
    ensures edition == Legacy ==> r.excluded == excluded && !r.notice
    ensures edition == Plugin && AnyExcluded(excluded) ==> r.excluded == {}
    ensures !AnyExcluded(excluded) ==> r.excluded == excluded && !r.notice
    ensures r.notice <==> edition == Plugin && AnyExcluded(excluded) && r.outcome.fault.None?
  {
    var cleared := edition == Plugin && AnyExcluded(excluded);
    var outcome := Renumber(lines);
    RenumberRun(outcome, if cleared then {} else excluded, cleared && outcome.fault.None?)
  }
}
