# marlant — a verified model of the SubRip editing core

marlant is a Sublime Text plugin for editing SubRip (`.srt`) subtitle files. A
file is a sequence of titles. Each title has the following lines, in order:

- an ordinal line, such as `12`;
- a timing line, `HH:MM:SS,mmm --> HH:MM:SS,mmm`;
- one or more text lines.

An empty line separates one title from the next.

This project models the plugin's editing and checking core in Dafny and proves
properties about it. The core covers:

- the timecode codec and timing arithmetic (split, join, shift);
- the title parser and the string bisection used when a title is split;
- the validator, a fail-fast pass over the lines of the file;
- renumbering, inserting, splitting and joining titles;
- excluding a title from validation;
- creating a translation file.

A document is a `seq<string>` of lines without their terminators. The validator
is the one operation that works on the raw buffer text. The raw text becomes
lines through `Strings.BufferLines`, which mirrors how the editor splits a
buffer at newlines.

Two editions of the code exist:

- the plugin package under `plugins/`;
- the older single-file `marlant.py`.

The model does not duplicate definitions for the older file. Instead, every
operation whose behaviour differs takes an `Edition` parameter:

- `Settings.Plugin` stands for the plugin package;
- `Settings.Legacy` stands for `marlant.py`.

Modules, each in its own file:

- `Base`: `Option` and `Result`.
- `Strings`: Python's `str.strip` and its whitespace set, splitting and joining at `'\n'`, and buffer lines.
- `Decimal`: digit strings, `int()` and `str()`, and zero-padded `%02d` / `%03d` formatting.
- `Patterns`: the regular expressions for ordinals, timecodes and timing lines, written as predicates.
- `TimeCode`: the codec between `HH:MM:SS,mmm` and milliseconds.
- `Settings`: the configuration record, its fallback values, and the edition flag.
- `Timing`: splitting, joining and shifting timing lines, and the shift-all-timings command.
- `TitleBlock`: parsing a title block, formatting a title, and `splitStringInTwo`.
- `Tags`: the HTML-tag scanner and the unmatched-tag report.
- `Validation`: the validator as a fold over the lines, with an explicit state record.
- `Renumber`: the renumber pass and the renumber command.
- `RenumberBuffer`: the renumber pass as the editor runs it, on the buffer text through line regions, with the adjustment rule as written and the corrected rule.
- `Titles`: insert, split and join, each at the level of whole lines.
- `Exclusion`: the command that excludes the current title from validation.
- `Translation`: the generated file name and the line-by-line translation-file transducer.

Every pass has a partner: an independent description, given line by line, and a
lemma proving that the pass meets it. The partners are:

- `Renumber.Meets` for the renumber pass;
- `Translation.Describes` for the translation transducer;
- `Validation.Tracks` for the validator.

Behaviours of the code worth knowing:

- Splitting a timing leaves a gap of 1 ms between the two halves when the
  duration is even, and 2 ms when it is odd.
- `millisecondsToTimeCode` is modelled for every integer. Python's floor
  division and `%02d` apply to negative values, so the result is a well-formed
  timecode exactly when the value lies in `[0, 360000000)`.
- The join command's length rule adds up the raw lengths of the text lines. It
  ignores both the separators and the stripping, so a joined line can exceed
  the maximum line length (`Titles.JoinOverlongWitness`).
- A blank line directly after an ordinal line is not rejected by the validator.
  Only a blank line directly after a title's second line is rejected. That
  second line is normally the timing, but in an excluded title it can hold
  anything.
- The timing-line pattern uses `re.match`, where `$` also matches before one
  final `'\n'`. `Patterns.MatchTiming` therefore also accepts a timing line
  followed by a single newline.
- Joining with the last title keeps the empty line that followed the current
  title. The erased range ends two characters past the neighbour, but at the
  end of the buffer nothing follows it, so the document ends with an empty
  line (`Titles.JoinDocument`). The validator then reports that line as
  redundant.
- Joining with the title before the current one, when that title is at the
  top of the document, erases from the neighbour's second character on. The
  first character of the document therefore stays in front of the new
  ordinal line (`Titles.FirstChar` in `Titles.JoinDocument`). The renumber
  pass that follows rewrites that line when it reads as an ordinal and stops
  there otherwise.
- Splitting a title whose only text line is blank makes `splitStringInTwo`
  index an empty string, so the source aborts with an uncaught exception. The
  model reports this case as the error `Titles.EmptyText`.

## Model

| member | source | states |
|---|---|---|
| Settings.DefaultsAgree | plugins/_common.py:9-16 | the fallback tunables: line length 41, three lines, durations 500 to 6000 ms, tags b, i, u, font, placeholder `[ ... ]` used instead of empty lines; the older edition's fixed placeholder is the same text |
| Strings.Strip | plugins/_common.py:69-77 | the result has no whitespace at either end and is the input less only whitespace at its two ends |
| Patterns.MatchTiming | plugins/_common.py:21-22 | a match succeeds exactly on a well-formed timing line, or one followed by a single final newline, and yields the two timecode texts verbatim |
| Patterns.TimingLineParts | plugins/_common.py:21-22 | two timecodes around ` --> ` form a timing line whose match gives back exactly those two timecodes |
| Patterns.DigitsIsOrdinal | plugins/_common.py:19 | the decimal form of every positive number is an ordinal line (no leading zero) and reads back as that number |
| TimeCode.Decode | plugins/timing.py:10-25 | decoding fails unless the text is exactly `DD:DD:DD,DDD`, and otherwise yields hours·3600000 + minutes·60000 + seconds·1000 + milliseconds |
| TimeCode.CodeValueBound | plugins/timing.py:13-25 | minutes and seconds may go up to 99, so a decoded value is at most 362439999 ms |
| TimeCode.EncodeTimeCode | plugins/timing.py:28-35 | the printed text is a well-formed timecode if and only if 0 ≤ ms < 360000000; it is never shorter than 12 characters |
| TimeCode.EncodeInRange | plugins/timing.py:28-35 | for in-range values the printed fields are the hour, minute, second and millisecond components of the value |
| TimeCode.DecodeEncode | plugins/timing.py:10-35 | decoding the printed form of any 0 ≤ x < 360000000 gives x back |
| TimeCode.EncodeDecode | plugins/timing.py:13-35 | printing a decoded timecode gives the same text back if and only if its minutes and seconds are below 60 |
| TimeCode.EncodeNormal | plugins/timing.py:13-35 | a timecode with minutes and seconds below 60 is the printed form of its own value |
| Timing.CanonicalDenotes | plugins/timing.py:99-103 | the timing line printed from two in-range values is well formed and denotes exactly those values |
| Timing.CanonicalOutOfRange | plugins/timing.py:99-103 | the timing line printed from a value outside the range is not a well-formed timing line |
| Timing.SplitTimingInTwo | plugins/timing.py:38-58 | the split fails exactly when the input is not a timing line; the first half keeps the original start text and the second half keeps the original end text |
| Timing.SplitTimingHalves | plugins/timing.py:46-58 | the halves denote (start, start+half) and (end−half+1, end) with half = (end−start) div 2, and the gap between them is 1 ms for an even duration and 2 ms for an odd one |
| Timing.JoinTimings | plugins/timing.py:61-86 | the join fails exactly when either input is not a timing line; otherwise it spans from a's start to b's end when b ends after a starts, and from b's start to a's end otherwise, with the timecode texts taken verbatim |
| Timing.JoinOrderIndependent | plugins/timing.py:61-86 | for two consecutive, non-overlapping timings, joining them in either order gives the span from the first start to the last end |
| Timing.ShiftTiming | plugins/timing.py:89-103 | shifting fails exactly when the input is not a timing line |
| Timing.ShiftInRange | plugins/timing.py:89-103 | when both shifted bounds stay in range, the result is a timing line that denotes the shifted bounds |
| Timing.ShiftOutOfRange | plugins/timing.py:89-103 | when a shifted bound leaves the range, the result is text that is not a timing line |
| Timing.ShiftKeepsDuration | plugins/timing.py:97-103 | shifting within range preserves end − start |
| Timing.ShiftBack | plugins/timing.py:89-103 | shifting by d and then by −d gives the canonical form of the original timing |
| Timing.ShiftZeroCanonical | plugins/timing.py:89-103 | a zero shift leaves a timing line unchanged if and only if the minutes and seconds of both its timecodes are below 60, since out-of-range fields are normalised |
| Timing.FindTiming | plugins/timing.py:161-166 | the first timing line at or after a position, or none when there is no timing line from there on |
| Timing.ShiftTimings | plugins/timing.py:147-198 | a zero delta is a no-op; a delta of more than an hour either way is refused; a document without a timing line is refused; a backward shift that takes the first timing's start below zero is refused; otherwise the result has the same number of lines |
| Timing.ShiftTimingsLines | plugins/timing.py:188-198 | after a successful shift every timing line is the shifted timing and every other line is unchanged |
| Timing.LaterTimingUnguarded | plugins/timing.py:168-186 | only the first timing is guarded: a later timing that the shift takes below zero is written out as text that is not a timing line |
| Timing.ReplaceTimings | plugins/timing.py:188-198 | replacing from the last timing line back to the first rewrites every timing line with its shift and leaves every other line as it was |
| Timing.ShiftTimingsCommand | plugins/timing.py:147-198 | the command, with its reversed replacement loop, produces exactly the outcome of the guarded shift |
| TitleBlock.ParseTitle | plugins/_common.py:54-85 | errors are reported in the source's order: fewer than three lines, then no ordinal on the stripped first line, then no timing on the stripped second line; a parse succeeds exactly when none of these apply, giving the ordinal's value, the stripped timing and the remaining lines |
| TitleBlock.OrdinalDigits | plugins/_common.py:69-85 | an ordinal line is the decimal form of its value, so `int()` loses nothing |
| TitleBlock.ParseFormat | plugins/_common.py:54-85 | parsing a formatted title gives the title back |
| TitleBlock.FormatParse | plugins/_common.py:54-85 | formatting a parsed block whose first two lines are already stripped gives the block back |
| TitleBlock.Cut | plugins/_common.py:93-98 | the split index starts at len div 2 and stops at the first space from there, or at the last index |
| TitleBlock.SplitStringInTwo | plugins/_common.py:88-107 | when the cut is the last index, the whole string is the first half and the placeholder is the second; otherwise the first half is the text before the cut and the second half is the stripped rest |
| TitleBlock.SplitStringLosesOnlySpaces | plugins/_common.py:99-107 | for a stripped input cut before its end, the first half is a non-empty prefix, the second half is a suffix, and only whitespace lies between them |
| TitleBlock.SplitStringNoSpace | plugins/_common.py:93-103 | a string with no space in its second half is not split: it comes back whole, with the placeholder as the second half |
| TitleBlock.DropDash | plugins/titles.py:340-352 | removing a leading `-\s*` keeps a string without a leading dash; otherwise it drops the dash and the whitespace after it, and nothing else |
| Tags.Alternatives | plugins/validation.py:111-117 | the alternatives of the tag patterns are the watched tag names; an empty list yields one empty alternative, which matches every tag |
| Tags.OpenTags | plugins/validation.py:111-113 | every open-tag match names a watched tag and is at least two characters long, and the matches together cover no more than the rest of the line |
| Tags.CloseTags | plugins/validation.py:115-117 | every close-tag match names a watched tag and is exactly that name plus three characters long, and the matches together cover no more than the rest of the line |
| Tags.TagsFindAll | plugins/validation.py:383-384 | the scan's matches are what `findall` returns: each is a match of the pattern at its recorded position, they come left to right without overlapping, and no match of the pattern starts in a gap between them |
| Tags.FindAllUnique | plugins/validation.py:383-384 | any list of matches and positions with those three properties is exactly the scan's, so the scan is the one leftmost, non-overlapping result |
| Tags.Unmatched | plugins/validation.py:27-47 | the reported open tags are exactly the names opened more often than closed, and the reported closing tags are exactly the names closed more often than opened |
| Tags.UnmatchedEmptyIff | plugins/validation.py:27-47 | both reports are empty if and only if the open and close lists are equal as multisets |
| Validation.BlankStep | plugins/validation.py:164-218 | a blank line is accepted exactly when it is not the first line, does not follow another blank, does not follow a title's second line, and the closing title's tags balance; the state is then reset |
| Validation.TimingStep | plugins/validation.py:291-377 | a timing line is accepted exactly when it is well formed, start ≤ end, the duration lies within the configured bounds and, after the first title, it starts after the previous checked end; the new end is then recorded |
| Validation.TextStep | plugins/validation.py:379-428 | a text line is accepted if and only if it lies within the title's line limit, its length minus the length of its matched tags is within the maximum, and it is not a timing line; an accepted line adds its open and close tags to the title's lists and changes nothing else but the position in the title |
| Validation.Step | plugins/validation.py:162-428 | a fault is reported at the current line, or, for a title's unmatched tags, at the line before the blank line that closes it; after an accepted line the state records whether that line was blank, restarts the position in the title at a blank line and otherwise advances it, and counts one more title at a title's first line; an accepted first line is the ordinal one past the previous title's, and no accepted non-blank line starts or ends with a space |
| Validation.Run | plugins/validation.py:156-428 | a fault among the first n lines lies among them; a successful prefix leaves the state blank-after exactly when its last line is empty, at the position of that line in its title, and with the number of titles begun |
| Validation.BlankLineRule | plugins/validation.py:164-185 | a blank line fails with an unexpected-empty-line error if and only if it is the first line, follows a blank, or follows a title's second line (whatever that line holds) |
| Validation.ExcludedTitleSkips | plugins/validation.py:276-289 | in an excluded title every line after the ordinal skips the timing and text checks and leaves the recorded end unchanged |
| Validation.LineLengthBoundary | plugins/validation.py:407-417 | with the default settings a tag-free text line is accepted exactly when it has at most 41 characters |
| Validation.NoTagsWithoutBracket | plugins/validation.py:111-117 | a line without `<` has no tag matches |
| Validation.Validate | plugins/validation.py:119-469 | fewer than three lines fails first and a missing final newline second, then a final empty line; after those, a fault of the line pass is reported as it stands, a last title without text fails at the end, and unmatched open tags, then unmatched closing tags, of the last title fail at its last line; the file passes if and only if the last title's open and close tags are equal as multisets, and then the content is exactly the rendering of its lines |
| Validation.ValidateAll | plugins/validation.py:119-469 | the loop over the lines computes the validator's verdict |
| Validation.RunState | plugins/validation.py:156-221 | after any successful prefix, the state records the position in the current title, the number of titles begun, the last checked end, whether the last line was blank, and the open and close tags of the current title's text lines, skipping excluded titles |
| Validation.PassedLayout | plugins/validation.py:145-242 | in a passing file the first and last lines are non-blank, every blank line follows a non-blank line that is not its title's second line, and no non-blank line starts or ends with the space character `' '` (a tab is not checked) |
| Validation.PassedOrdinals | plugins/validation.py:244-274 | in a passing file the first line of the k-th title is the ordinal k, in every title, excluded or not |
| Validation.PassedTimings | plugins/validation.py:291-377 | in a passing file every non-excluded title's timing is well formed, ordered, within the duration bounds, and starts after the end of the previous checked title |
| Validation.PassedTexts | plugins/validation.py:379-428 | in a passing file every text line of a non-excluded title is within the line limit, is not a timing line, and is within the length limit |
| Validation.PassedLastTitle | plugins/validation.py:432-441 | in a passing file the last title has at least one text line |
| Validation.PassedTagsBalanced | plugins/validation.py:186-211 | in a passing file every title, not only the last, has balanced tags: where it ends, at a blank line or the end of the file, its text's open and close tags are equal as multisets |
| Validation.FirstFault | plugins/validation.py:162-428 | a failing pass fails at the first line whose step fails, with all the steps before it succeeding |
| Validation.RunStopsAtFault | plugins/validation.py:162-428 | once the pass has failed, later lines do not change the reported fault |
| Renumber.Renumber | plugins/titles.py:49-99 | the pass meets the line-by-line description: it fails at the first blank-at-start, doubled blank or non-ordinal in ordinal position; every line before that point is numbered, with the k-th ordinal line becoming k; every later line is untouched |
| Renumber.AdvanceKeeps | plugins/titles.py:58-99 | one turn of the loop fails exactly at a faulty line, and otherwise keeps the loop invariant |
| Renumber.RenumberIdempotent | plugins/titles.py:49-99 | renumbering an already renumbered document changes nothing and succeeds |
| Renumber.RenumberKeepsNumbered | plugins/titles.py:49-99 | a well-formed document whose ordinals are already 1..N is left as it is |
| Renumber.RenumberCommand | plugins/titles.py:12-108 | the plugin clears an exclusion list holding a non-zero number before the pass, whatever the pass's outcome, and notifies the user only when the pass succeeds; the older edition never touches the list |
| RenumberBuffer.ReadLine | plugins/titles.py:58-63 | while the buffer is aligned with the partly renumbered lines, the region of line `i`, moved back by the accumulated adjustment, holds exactly the original line |
| RenumberBuffer.WriteLine | plugins/titles.py:84-89 | replacing that region by the new ordinal renders the lines with that one line replaced, and later regions move by the region's size minus the ordinal's length |
| RenumberBuffer.TurnAligned | plugins/titles.py:58-99 | with the corrected adjustment, one turn on the buffer fails exactly when the line-level turn fails, with the same error, and otherwise keeps the buffer aligned with the line-level state |
| RenumberBuffer.WalkAligned | plugins/titles.py:58-99 | with the corrected adjustment, the rest of the buffer pass ends with the rendering of the line-level pass's lines and with its fault |
| RenumberBuffer.RegionSizeFollowsLines | plugins/titles.py:49-99 | with the corrected adjustment, renumbering a newline-terminated buffer gives the rendering of the line-level renumbering of its lines, and the same fault |
| RenumberBuffer.StrippedLengthMisreads | plugins/titles.py:87-89 | with the adjustment as written, the document "5 ", "x", "", "2", "y" is refused at its third line as an unexpected empty line, although the line-level pass and the corrected rule renumber it without fault |
| Titles.EmptyBefore | plugins/titles.py:154-158 | the last empty line before the cursor, or none |
| Titles.EmptyAfter | plugins/titles.py:159-163 | the first empty line after the cursor, or the end of the document |
| Titles.TitleStart | plugins/titles.py:165-168 | the current title starts at the top of the document, or right after the empty line before the cursor |
| Titles.InsertedOrdinal | plugins/titles.py:184-189 | the new title is numbered ref+1 when inserted after and ref−1 when inserted before, with 0 becoming 1 |
| Titles.InsertedBounds | plugins/titles.py:212-221 | after: (refEnd+1, refEnd+1001); before: (refStart−1001, refStart−1), or (0, 1000) when that would go below zero; the duration is always 1000 ms |
| Titles.InsertedTitle | plugins/titles.py:184-240 | the new title, formatted, parses back to itself, and its timing denotes the synthesised bounds, which lie after the reference title or before it |
| Titles.InsertLines | plugins/titles.py:141-182 | a cursor on a blank line and an unparsable current title are refused, each with its own error, and every other insert succeeds |
| Titles.InsertDocument | plugins/titles.py:228-245 | after an insert the document is four lines longer; the lines before the insertion point and from it on are the original ones; the new lines are an empty line on the side facing the current title and a title that parses back to the new ordinal, the synthesised timing and the placeholder |
| Titles.InsertTitle | plugins/titles.py:131-266 | inserting and then renumbering fails exactly when the insertion fails, and otherwise the renumbered result meets the renumber description of the inserted document |
| Titles.SplitTexts | plugins/titles.py:330-352 | multi-line text splits into the first line and the rest joined with `\n`; single-line text uses `splitStringInTwo`; a leading dash is dropped from the first half and, for multi-line text, from the second; a blank single line is refused |
| Titles.SplitKeepsLines | plugins/titles.py:330-346 | for multi-line text the second half, split back at newlines, is exactly the stripped remaining lines |
| Titles.SplitLines | plugins/titles.py:283-352 | a cursor on a blank line, an unparsable title and an unsplittable text are refused, each with its own error, and every other split succeeds |
| Titles.SplitDocument | plugins/titles.py:354-374 | after a split the lines before and after the current title are the original ones; in its place are two titles separated by an empty line, both with the current ordinal, which parse back to the two timing halves and to the lines of the two text halves |
| Titles.SplitBlockShape | plugins/titles.py:354-374 | the replacement text is, line by line, ordinal, first timing half, first text, an empty line, ordinal, second timing half, second text |
| Titles.SplitTitle | plugins/titles.py:282-376 | splitting and then renumbering fails exactly when the split fails, and otherwise meets the renumber description of the split document |
| Titles.JoinSeparator | plugins/titles.py:512-523 | the plugin joins texts with a space when their raw lengths add up to at most the maximum line length, and with a newline otherwise; the older edition always uses a newline |
| Titles.JoinedTextLines | plugins/titles.py:507-523 | a newline join splits back into the stripped text lines; a space join is a single line no longer than the maximum plus the number of separators |
| Titles.JoinOverlongWitness | plugins/titles.py:512-523 | lines of 20 and 21 characters are joined with a space into a 42-character line, one more than the default maximum |
| Titles.NeighbourRange | plugins/titles.py:465-486 | the neighbour after starts right after the current title's closing empty line, and the neighbour before ends at the empty line before the current title |
| Titles.JoinLines | plugins/titles.py:386-523 | a cursor on a blank line, joining before the first title, joining after the last, an unparsable current title and an unparsable neighbour are each refused with their own error |
| Titles.JoinedBlockShape | plugins/titles.py:544-558 | the replacement text, cut at newlines, is the formatted joined title: the current ordinal, the joined timing and the lines of the joined text |
| Titles.JoinDocument | plugins/titles.py:535-558 | after a join the lines before both titles and after both are the original ones, except that joining with the last title leaves one empty line at the end; in between is one title that parses back to the current ordinal, the joined timing and the joined text; joining with a title at the top of the document glues the first character of the top line to the ordinal line |
| Titles.JoinTitles | plugins/titles.py:385-560 | joining and then renumbering fails exactly when the join fails, and otherwise meets the renumber description of the joined document |
| Exclusion.AddIfAbsent | plugins/validation.py:592-605 | the ordinal is appended when missing and the list is kept otherwise, so membership grows by exactly that ordinal and the list stays free of repeats |
| Exclusion.AddIfAbsentIdempotent | plugins/validation.py:592-605 | excluding the same title twice has the effect of excluding it once; the list is unchanged exactly when it already holds the ordinal |
| Exclusion.ExcludeTitle | plugins/validation.py:536-605 | a cursor on a blank line and an unparsable current title are refused; otherwise the list afterwards holds exactly the old numbers and the current title's ordinal, keeps the old list as its prefix, grows by at most one, and stays free of repeats |
| Exclusion.ExcludeTwice | plugins/validation.py:592-605 | excluding the same title a second time leaves the list as the first exclusion made it |
| Translation.SuffixStart | plugins/files.py:127-130 | a name's suffix starts at its last dot, which is neither the first nor the last character |
| Translation.StemSuffix | plugins/files.py:150-153 | a file name is its stem followed by its suffix |
| Translation.GeneratedPath | plugins/files.py:119-153 | a missing file, then a suffix other than `.srt`, are refused, in that order, and nothing else is; the generated file is in the same directory |
| Translation.GeneratedName | plugins/files.py:148-153 | the generated name is `<stem>-<language>.srt` with the language stripped of surrounding whitespace: it reads back as that stem and the `.srt` suffix |
| Translation.ReplacementByEdition | plugins/files.py:141-144 | the plugin writes the placeholder for each text line when placeholders replace empty lines, and an empty line otherwise; the older edition always writes an empty line |
| Translation.TurnKeeps | plugins/files.py:180-247 | one turn of the loop fails exactly at a stopping line, with the described error, and otherwise writes the described line and keeps the invariant |
| Translation.Translate | plugins/files.py:180-247 | every input line yields one output line until the first fault: blank, ordinal and timing lines are copied stripped and text lines become the replacement; the pass stops at a blank first line, a doubled blank, a missing or non-consecutive ordinal, or a malformed timing line, and at nothing else |
| Translation.CreateTranslationFile | plugins/files.py:118-247 | the command fails exactly when the name is refused; otherwise it names the generated file and writes the described lines |

## Left out

- Decimal digits: Python's `\d` and `int()` accept every Unicode decimal digit, but the model accepts only ASCII `0`-`9`.
- Tag names are taken literally. A regular-expression metacharacter in a configured tag name would change the source's pattern, and the model does not model that.
- Character-offset bookkeeping is not modelled: regions, the `+1`/`−2` arithmetic of insert and join, and the cursor selection after an edit. Edits are whole-line replacements of a line sequence.
- Renumber.Renumber: states the renumbered lines as a pure line replacement. `RenumberBuffer` connects it to the buffer edits with the corrected adjustment (see Findings).
- RenumberBuffer.RegionSizeFollowsLines: stated for buffers that are empty or end with '\n'. For a buffer without a final newline the last region has no '\n' after it, and no property is stated about that case.
- Titles.JoinLines: the "last title" guard is modelled as "no title follows the closing empty line". The source instead compares offsets with `size() - 30`, a buffer heuristic. The two edge behaviours of the join's erase, the trailing empty line and the glued first character, are modelled as written and not corrected.
- Titles.SplitLines: the current title is the lines between the empty lines around the cursor. The editor region's trailing-newline details are not modelled.
- Timing.SplitTimingHalves: stated for timings with start ≤ end and the second half in range. For start > end the source's floor division gives halves outside the original span; the function is modelled for those inputs, but no property is stated about them.
- File I/O: reading and writing files, the overwrite prompt, opening the new tab and `openTranslationFile`. The written lines are the model's output.
- Project-data persistence: reading and writing the settings dictionary, and the exclude command's errors for a missing project file or missing project data. The exclusion list is a parameter and a result. The validator reads it as a set. The exclude command keeps it as a list.
- Status-bar messages, dialogs and scrolling. Errors are datatypes that carry the 0-based line index.
- Settings loading and type checks. A configuration record is passed in.
- Input handlers and their previews. This includes the language handler's letters-only check; the command itself accepts any text and only strips it.
- Translation.GeneratedPath: a language holding a path separator would make `pathlib` put the file in another directory. The model keeps the whole text in the file name.
- The dictionary commands. They only store and look up project data.
- The clear-excluded-titles command, for the same reason.

## Findings

| source | as written | input that shows it | evidently intended | confidence | as-written member | corrected member |
|---|---|---|---|---|---|---|
| plugins/titles.py:87-89 | after replacing an ordinal line's whole region, later regions are moved by the length of the STRIPPED ordinal minus the new number's length; `marlant.py` line 549 does the same | the buffer "5 \nx\n\n2\ny\n": the region "5 " becomes "1", but the adjustment is 0, so the next region reads "\n" and the pass stops at line 3 with "should not be empty" | later regions move by the replaced region's size minus the new number's length, so every line is read where it now is | not executed | RenumberBuffer.StrippedLengthMisreads | RenumberBuffer.RegionSizeFollowsLines |
