/**
 The translation-file command of the files module: the name of the
 generated file, and the pass that copies the document's layout line by
 line (blank lines, ordinals and timings) while every text line becomes a
 placeholder or an empty line.
 */
module Translation {
  import opened Base
  import opened Strings
  import opened Decimal
  import opened Patterns
  import opened Settings
  import Renumber

  /** A file's directory and its name (the last path component). */
  datatype FilePath = FilePath(dir: string, name: string)

  datatype NameError = NoFile | NotSrt

  /** The last position of '.' among the first `n` characters of `name`. */
  function LastDot(name: string, n: nat): (r: Option<nat>)
    requires n <= |name|
    ensures r.Some? ==> r.value < n && name[r.value] == '.'
    ensures r.Some? ==> forall j :: r.value < j < n ==> name[j] != '.'
    ensures r.None? ==> forall j :: 0 <= j < n ==> name[j] != '.'
  {
    if n == 0 then None
    else if name[n - 1] == '.' then Some(n - 1)
    else LastDot(name, n - 1)
  }

  /** Where `pathlib` cuts a name into stem and suffix: a last dot that is neither first nor last. */
  function SuffixStart(name: string): (r: Option<nat>)
    ensures r.Some? ==> 0 < r.value < |name| - 1 && name[r.value] == '.'
    ensures r.Some? ==> forall j :: r.value < j < |name| ==> name[j] != '.'
  {
    match LastDot(name, |name|)
    case Some(i) => if 0 < i < |name| - 1 then Some(i) else None
    case None => None
  }

  function Suffix(name: string): string {
    match SuffixStart(name)
    case Some(i) => name[i..]
    case None => ""
  }

  function Stem(name: string): string {
    match SuffixStart(name)
    case Some(i) => name[..i]
    case None => name
  }

  /** A name is its stem followed by its suffix. */
  lemma StemSuffix(name: string)
    ensures Stem(name) + Suffix(name) == name
  {
  }

  /**
   The generated file: `<stem>-<language><suffix>` next to the original,
   the language stripped of surrounding whitespace. There must be a file,
   of suffix `.srt`; the language itself is never refused here.
   */
  function GeneratedPath(file: Option<FilePath>, language: string): (r: Result<FilePath, NameError>)
    ensures file.None? ==> r == Err(NoFile)
    ensures file.Some? && Suffix(file.value.name) != ".srt" ==> r == Err(NotSrt)
    ensures r.Ok? <==> file.Some? && Suffix(file.value.name) == ".srt"
    ensures r.Ok? ==> r.value.dir == file.value.dir
  {
    match file
    case None => Err(NoFile)
    case Some(f) =>
      if Suffix(f.name) != ".srt" then Err(NotSrt)
      else Ok(FilePath(f.dir, Stem(f.name) + "-" + Strip(language) + Suffix(f.name)))
  }

  /**
   The generated name reads back as the original stem with `-language`
   added, the language stripped, and keeps the `.srt` suffix: it is the
   original name with the language inserted before the suffix.
   */
  lemma GeneratedName(file: Option<FilePath>, language: string)
    requires GeneratedPath(file, language).Ok?
    ensures var name := GeneratedPath(file, language).value.name;
            && Suffix(name) == ".srt"
            && Stem(name) == Stem(file.value.name) + "-" + Strip(language)
            && name == file.value.name[..|file.value.name| - 4] + "-" + Strip(language) + ".srt"
  {
    var original := file.value.name;
    var stem := Stem(original);
    var lang := Strip(language);
    var name := stem + "-" + lang + ".srt";
    assert |name| >= 5 && name[|name| - 4] == '.';
    var i := |name| - 4;
    assert forall j :: i < j < |name| ==> name[j] != '.';
    LastDotIs(name, i);
    assert SuffixStart(name) == Some(i);
    assert name[..i] == stem + "-" + lang;
    StemSuffix(original);
  }

  lemma LastDotIs(name: string, i: nat)
    requires i < |name| && name[i] == '.'
    requires forall j :: i < j < |name| ==> name[j] != '.'
    ensures LastDot(name, |name|) == Some(i)
  {
  }

  /** What a text line is written as. */
  function Replacement(edition: Edition, cfg: Config): string {
    if edition == Plugin && cfg.placeholdersInsteadOfEmptyLines then cfg.placeholder else ""
  }

  datatype TranslationError = EmptyLine | NoOrdinal | NotNext(found: nat, previous: nat) | NoTiming

  datatype Fault = Fault(line: nat, error: TranslationError)

  /** The lines written so far (each ends with '\n' in the file) and the fault that stopped the pass, if any. */
  datatype Written = Written(lines: seq<string>, fault: Option<Fault>)

  /** The loop's variables: the previous line was blank, the place of the line in its title, the last title number. */
  datatype Copy = Copy(hadEmpty: bool, lineInTitle: nat, count: nat)

  /** One turn of the loop at line `i`: the fault, or the next state and the line written. */
  function Turn(edition: Edition, cfg: Config, st: Copy, i: nat, raw: string): (r: Result<(Copy, string), Fault>)
    ensures r.Err? ==> r.error.line == i
  {
    var line := Strip(raw);
    if line == "" then
      if st.hadEmpty || i == 0 then Err(Fault(i, EmptyLine))
      else Ok((Copy(true, 0, st.count), ""))
    else
      var n := st.lineInTitle + 1;
      if n == 1 then
        if !IsOrdinal(line) then Err(Fault(i, NoOrdinal))
        else if Value(line) - st.count != 1 then Err(Fault(i, NotNext(Value(line), st.count)))
        else Ok((Copy(false, n, Value(line)), line))
      else if n == 2 then
        if IsTimingLine(line) then Ok((Copy(false, n, st.count), line))
        else Err(Fault(i, NoTiming))
      else Ok((Copy(false, n, st.count), Replacement(edition, cfg)))
  }

  function CopyFrom(edition: Edition, cfg: Config, src: seq<string>, i: nat, st: Copy, out: seq<string>): (r: Written)
    requires i <= |src|
    decreases |src| - i
  {
    if i == |src| then Written(out, None)
    else match Turn(edition, cfg, st, i, src[i])
      case Err(f) => Written(out, Some(f))
      case Ok((st', line)) => CopyFrom(edition, cfg, src, i + 1, st', out + [line])
  }

  /**
   The pass over the document, from the first line, with the title number
   at 0. It writes one line per line read, up to the first stopping line:
   blank lines stay empty, ordinal and timing lines are copied stripped,
   every other line becomes the replacement; it finishes exactly when no
   line stops it, and otherwise reports the first one.
   */
  function Translate(edition: Edition, cfg: Config, lines: seq<string>): (r: Written)
    ensures Describes(edition, cfg, lines, r)
  {
    CopyDescribes(edition, cfg, lines, 0, Copy(false, 0, 0), []);
    CopyFrom(edition, cfg, lines, 0, Copy(false, 0, 0), [])
  }

  // The independent description of the pass.

  /** Line `i` is the second line of a title, where the timing belongs. */
  predicate TimingSlot(lines: seq<string>, i: nat)
    requires i < |lines|
  {
    i >= 1 && !Renumber.BlankAt(lines, i) && Renumber.OpensTitle(lines, i - 1)
  }

  /** What line `i` is written as. */
  function Written1(edition: Edition, cfg: Config, lines: seq<string>, i: nat): string
    requires i < |lines|
  {
    if Renumber.BlankAt(lines, i) then ""
    else if Renumber.OpensTitle(lines, i) || TimingSlot(lines, i) then Strip(lines[i])
    else Replacement(edition, cfg)
  }

  /**
   Line `i` stops the pass: a leading or doubled blank, a title that does
   not start with the next number (the first being 1), or a second line
   that is not a timing. Durations, overlaps, tags and a blank right after
   the timing are never looked at.
   */
  predicate StopsAt(lines: seq<string>, i: nat)
    requires i < |lines|
  {
    || (Renumber.BlankAt(lines, i) && (i == 0 || Renumber.BlankAt(lines, i - 1)))
    || (Renumber.OpensTitle(lines, i) && !(IsOrdinal(Strip(lines[i])) && Value(Strip(lines[i])) == Renumber.TitlesBefore(lines, i) + 1))
    || (TimingSlot(lines, i) && !IsTimingLine(Strip(lines[i])))
  }

  /** The fault reported at a stopping line. */
  function FaultAt(lines: seq<string>, i: nat): TranslationError
    requires i < |lines|
  {
    if Renumber.BlankAt(lines, i) then EmptyLine
    else if Renumber.OpensTitle(lines, i) then
      if !IsOrdinal(Strip(lines[i])) then NoOrdinal else NotNext(Value(Strip(lines[i])), Renumber.TitlesBefore(lines, i))
    else NoTiming
  }

  predicate Describes(edition: Edition, cfg: Config, src: seq<string>, r: Written) {
    && |r.lines| <= |src|
    && (r.fault.None? <==> |r.lines| == |src|)
    && (r.fault.None? <==> forall i :: 0 <= i < |src| ==> !StopsAt(src, i))
    && (r.fault.Some? ==>
          && r.fault.value.line == |r.lines| && StopsAt(src, |r.lines|)
          && r.fault.value.error == FaultAt(src, |r.lines|))
    && (forall i :: 0 <= i < |r.lines| ==> !StopsAt(src, i))
    && (forall i :: 0 <= i < |r.lines| ==> r.lines[i] == Written1(edition, cfg, src, i))
  }

  predicate CopyInvariant(edition: Edition, cfg: Config, src: seq<string>, i: nat, st: Copy, out: seq<string>) {
    && i <= |src| && |out| == i
    && (forall j :: 0 <= j < i ==> !StopsAt(src, j))
    && (forall j :: 0 <= j < i ==> out[j] == Written1(edition, cfg, src, j))
    && st.count == Renumber.TitlesBefore(src, i)
    && (i == 0 ==> !st.hadEmpty && st.lineInTitle == 0)
    && (i > 0 ==> (st.hadEmpty <==> Renumber.BlankAt(src, i - 1)))
    && (i > 0 ==> (st.lineInTitle == 0 <==> Renumber.BlankAt(src, i - 1)))
    && (i > 0 ==> (st.lineInTitle == 1 <==> Renumber.OpensTitle(src, i - 1)))
  }

  /** One turn fails exactly at a stopping line, and otherwise writes the described line and keeps the invariant. */
  predicate TurnMeets(edition: Edition, cfg: Config, src: seq<string>, i: nat, st: Copy, out: seq<string>)
    requires i < |src|
  {
    var r := Turn(edition, cfg, st, i, src[i]);
    && (r.Err? <==> StopsAt(src, i))
    && (r.Err? ==> r.error.error == FaultAt(src, i))
    && (r.Ok? ==> CopyInvariant(edition, cfg, src, i + 1, r.value.0, out + [r.value.1]))
  }

  lemma TurnKeeps(edition: Edition, cfg: Config, src: seq<string>, i: nat, st: Copy, out: seq<string>)
    requires i < |src| && CopyInvariant(edition, cfg, src, i, st, out)
    ensures TurnMeets(edition, cfg, src, i, st, out)
  {
    var line := Strip(src[i]);
    if line == "" {
      BlankCopy(edition, cfg, src, i, st, out);
    } else if st.lineInTitle == 0 {
      OrdinalCopy(edition, cfg, src, i, st, out);
    } else if st.lineInTitle == 1 {
      TimingCopy(edition, cfg, src, i, st, out);
    } else {
      TextCopy(edition, cfg, src, i, st, out);
    }
  }

  /** The invariant moves past a line that does not stop the pass once its line is written and the state updated. */
  lemma CopyExtend(edition: Edition, cfg: Config, src: seq<string>, i: nat, st: Copy, out: seq<string>, st': Copy, w: string)
    requires i < |src| && CopyInvariant(edition, cfg, src, i, st, out)
    requires !StopsAt(src, i) && w == Written1(edition, cfg, src, i)
    requires st'.count == Renumber.TitlesBefore(src, i + 1)
    requires st'.hadEmpty <==> Renumber.BlankAt(src, i)
    requires st'.lineInTitle == 0 <==> Renumber.BlankAt(src, i)
    requires st'.lineInTitle == 1 <==> Renumber.OpensTitle(src, i)
    ensures CopyInvariant(edition, cfg, src, i + 1, st', out + [w])
  {
    hide StopsAt, Written1, Renumber.TitlesBefore, Renumber.BlankAt, Renumber.OpensTitle;
    forall j | 0 <= j < i + 1 ensures (out + [w])[j] == Written1(edition, cfg, src, j) {
      if j < i {
        assert (out + [w])[j] == out[j];
      }
    }
  }

  lemma BlankCopy(edition: Edition, cfg: Config, src: seq<string>, i: nat, st: Copy, out: seq<string>)
    requires i < |src| && CopyInvariant(edition, cfg, src, i, st, out) && Renumber.BlankAt(src, i)
    ensures TurnMeets(edition, cfg, src, i, st, out)
  {
    if !(st.hadEmpty || i == 0) {
      assert !StopsAt(src, i) && Written1(edition, cfg, src, i) == "";
      assert !Renumber.OpensTitle(src, i);
      CopyExtend(edition, cfg, src, i, st, out, Copy(true, 0, st.count), "");
    }
  }

  lemma OrdinalCopy(edition: Edition, cfg: Config, src: seq<string>, i: nat, st: Copy, out: seq<string>)
    requires i < |src| && CopyInvariant(edition, cfg, src, i, st, out)
    requires !Renumber.BlankAt(src, i) && st.lineInTitle == 0
    ensures TurnMeets(edition, cfg, src, i, st, out)
  {
    assert Renumber.OpensTitle(src, i) && !TimingSlot(src, i);
    var r := Turn(edition, cfg, st, i, src[i]);
    if r.Ok? {
      var line := Strip(src[i]);
      assert !StopsAt(src, i) && r.value == (Copy(false, 1, Value(line)), line);
      assert Written1(edition, cfg, src, i) == line;
      CopyExtend(edition, cfg, src, i, st, out, r.value.0, r.value.1);
    }
  }

  lemma TimingCopy(edition: Edition, cfg: Config, src: seq<string>, i: nat, st: Copy, out: seq<string>)
    requires i < |src| && CopyInvariant(edition, cfg, src, i, st, out)
    requires !Renumber.BlankAt(src, i) && st.lineInTitle == 1
    ensures TurnMeets(edition, cfg, src, i, st, out)
  {
    hide IsTimingLine, IsOrdinal;
    assert !Renumber.OpensTitle(src, i) && TimingSlot(src, i);
    var r := Turn(edition, cfg, st, i, src[i]);
    if r.Ok? {
      var line := Strip(src[i]);
      assert !StopsAt(src, i) && r.value == (Copy(false, 2, st.count), line);
      assert Written1(edition, cfg, src, i) == line;
      CopyExtend(edition, cfg, src, i, st, out, r.value.0, r.value.1);
    }
  }

  lemma TextCopy(edition: Edition, cfg: Config, src: seq<string>, i: nat, st: Copy, out: seq<string>)
    requires i < |src| && CopyInvariant(edition, cfg, src, i, st, out)
    requires !Renumber.BlankAt(src, i) && st.lineInTitle >= 2
    ensures TurnMeets(edition, cfg, src, i, st, out)
  {
    assert !Renumber.OpensTitle(src, i) && !TimingSlot(src, i);
    assert !StopsAt(src, i) && Written1(edition, cfg, src, i) == Replacement(edition, cfg);
    CopyExtend(edition, cfg, src, i, st, out, Copy(false, st.lineInTitle + 1, st.count), Replacement(edition, cfg));
  }

  lemma {:induction false} CopyDescribes(edition: Edition, cfg: Config, src: seq<string>, i: nat, st: Copy, out: seq<string>)
    requires i <= |src| && CopyInvariant(edition, cfg, src, i, st, out)
    ensures Describes(edition, cfg, src, CopyFrom(edition, cfg, src, i, st, out))
    decreases |src| - i
  {
    if i == |src| {
      CopyStops(edition, cfg, src, i, st, out, None);
    } else {
      TurnKeeps(edition, cfg, src, i, st, out);
      hide Describes, CopyInvariant;
      match Turn(edition, cfg, st, i, src[i])
      case Err(f) => CopyStops(edition, cfg, src, i, st, out, Some(f));
      case Ok((st', line)) => CopyDescribes(edition, cfg, src, i + 1, st', out + [line]);
    }
  }

  /** Where the pass stops, what it has written so far is what the description asks for. */
  lemma CopyStops(edition: Edition, cfg: Config, src: seq<string>, i: nat, st: Copy, out: seq<string>, fault: Option<Fault>)
    requires CopyInvariant(edition, cfg, src, i, st, out)
    requires fault.None? ==> i == |src|
    requires fault.Some? ==> && i < |src| && fault.value.line == i && StopsAt(src, i)
                             && fault.value.error == FaultAt(src, i)
    ensures Describes(edition, cfg, src, Written(out, fault))
  {
  }

  /** The older edition writes every text line as an empty line; the plugin as the placeholder unless told otherwise. */
  lemma ReplacementByEdition(cfg: Config)
    ensures Replacement(Legacy, cfg) == ""
    ensures Replacement(Plugin, cfg) == if cfg.placeholdersInsteadOfEmptyLines then cfg.placeholder else ""
    ensures Replacement(Plugin, Defaults) == "[ ... ]"
  {
  }

  /** The whole command: the generated file's path, and what is written into it. */
  datatype Generated = Generated(path: FilePath, written: Written)

  function CreateTranslationFile(edition: Edition, cfg: Config, file: Option<FilePath>, language: string, lines: seq<string>): (r: Result<Generated, NameError>)
    ensures r.Err? <==> GeneratedPath(file, language).Err?
    ensures r.Err? ==> r.error == GeneratedPath(file, language).error
    ensures r.Ok? ==> r.value.path == GeneratedPath(file, language).value
    ensures r.Ok? ==> Describes(edition, cfg, lines, r.value.written)
  {
    match GeneratedPath(file, language)
    case Err(e) => Err(e)
    case Ok(path) => Ok(Generated(path, Translate(edition, cfg, lines)))
  }
}
