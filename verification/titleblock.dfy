/**
 The title helpers of the common module: reading one title block into
 its ordinal, timing and text lines, cutting a text line in two for the
 split command, and removing a leading dialogue dash.
 */
module TitleBlock {
  import opened Base
  import opened Strings
  import opened Decimal
  import opened Patterns

  datatype ParseError = TooFewLines | NoOrdinal | NoTiming

  /** A parsed title: its number, its (stripped) timing line and its raw text lines. */
  datatype Title = Title(ordinal: nat, timing: string, text: seq<string>)

  /**
   `parseTitleString`: fewer than three lines fail; otherwise the first
   line, stripped, must be an ordinal and the second, stripped, a timing
   line. The text lines are handed back as they are.
   */
  function ParseTitle(block: seq<string>): (r: Result<Title, ParseError>)
    ensures |block| < 3 ==> r == Err(TooFewLines)
    ensures |block| >= 3 && !IsOrdinal(Strip(block[0])) ==> r == Err(NoOrdinal)
    ensures |block| >= 3 && IsOrdinal(Strip(block[0])) && !IsTimingLine(Strip(block[1])) ==> r == Err(NoTiming)
    ensures r.Ok? <==> |block| >= 3 && IsOrdinal(Strip(block[0])) && IsTimingLine(Strip(block[1]))
    ensures r.Ok? ==> && r.value.ordinal >= 1 && Digits(r.value.ordinal) == Strip(block[0])
                      && r.value.timing == Strip(block[1]) && IsTimingLine(r.value.timing)
                      && r.value.text == block[2..] && |r.value.text| >= 1
  {
    if |block| < 3 then Err(TooFewLines)
    else
      var ordinal := Strip(block[0]);
      var timing := Strip(block[1]);
      if !IsOrdinal(ordinal) then Err(NoOrdinal)
      else if !IsTimingLine(timing) then Err(NoTiming)
      else
        OrdinalDigits(ordinal);
        Ok(Title(Value(ordinal), timing, block[2..]))
  }

  /** An ordinal's digits denote a positive number. */
  lemma {:induction false} OrdinalPositive(s: string)
    requires IsOrdinal(s)
    ensures Value(s) >= 1
    ensures |s| >= 2 ==> Value(s) >= 10
  {
    if |s| >= 2 {
      var p := s[..|s| - 1];
      assert IsOrdinal(p) by {
        assert p[0] == s[0];
        assert forall i :: 0 <= i < |p| ==> p[i] == s[i];
      }
      OrdinalPositive(p);
    }
  }

  /** `str(int(s))` gives an ordinal back unchanged. */
  lemma {:induction false} OrdinalDigits(s: string)
    requires IsOrdinal(s)
    ensures Digits(Value(s)) == s
  {
    if |s| >= 2 {
      var p := s[..|s| - 1];
      assert IsOrdinal(p) by {
        assert p[0] == s[0];
        assert forall i :: 0 <= i < |p| ==> p[i] == s[i];
      }
      OrdinalDigits(p);
      OrdinalPositive(s);
      var v := Value(s);
      assert v / 10 == Value(p) && v % 10 == DigitValue(s[|s| - 1]);
      assert Digits(v) == Digits(v / 10) + [DigitChar(v % 10)];
      assert s == p + [s[|s| - 1]];
    }
  }

  /** The lines of a title as it is written into the document. */
  function FormatTitle(t: Title): (r: seq<string>)
    ensures |r| == 2 + |t.text| && r[0] == Digits(t.ordinal) && r[2..] == t.text
  {
    [Digits(t.ordinal), t.timing] + t.text
  }

  /** A title with a positive number, a timing line and some text parses back to itself. */
  lemma ParseFormat(t: Title)
    requires t.ordinal >= 1 && IsTimingLine(t.timing) && |t.text| >= 1
    ensures ParseTitle(FormatTitle(t)) == Ok(t)
  {
    var r := FormatTitle(t);
    DigitsIsOrdinal(t.ordinal);
    StripOfStripped(Digits(t.ordinal));
    StripOfStripped(t.timing);
    assert r[0] == Digits(t.ordinal) && r[1] == t.timing;
  }

  /** A block whose first two lines carry no surrounding whitespace is rebuilt by formatting its parse. */
  lemma FormatParse(block: seq<string>)
    requires ParseTitle(block).Ok?
    requires IsStripped(block[0]) && IsStripped(block[1])
    ensures FormatTitle(ParseTitle(block).value) == block
  {
    StripOfStripped(block[0]);
    StripOfStripped(block[1]);
    assert block == [block[0], block[1]] + block[2..];
  }

  /**
   The index `splitStringInTwo` cuts at: from position `i` onwards, the
   first space, or the last position if no space comes first.
   */
  function CutFrom(s: string, i: nat): (k: nat)
    requires i < |s|
    ensures i <= k < |s|
    ensures s[k] == ' ' || k == |s| - 1
    ensures forall j :: i <= j < k ==> s[j] != ' '
    decreases |s| - i
  {
    if s[i] == ' ' || i == |s| - 1 then i else CutFrom(s, i + 1)
  }

  /** The cut of `splitStringInTwo`, starting from the middle. */
  function Cut(s: string): (k: nat)
    requires |s| > 0
    ensures |s| / 2 <= k < |s|
    ensures s[k] == ' ' || k == |s| - 1
    ensures forall j :: |s| / 2 <= j < k ==> s[j] != ' '
  {
    CutFrom(s, |s| / 2)
  }

  /**
   `splitStringInTwo(s)`: the text before the cut, and the text from the
   cut on, stripped. When only the last character would be left for the
   second half, the whole string is the first half and the second half is
   the placeholder. An empty first half would become the placeholder too.
   */
  function SplitStringInTwo(s: string, placeholder: string): (r: (string, string))
    requires |s| > 0
    ensures Cut(s) == |s| - 1 ==> r == (s, placeholder)
    ensures Cut(s) < |s| - 1 ==> r.0 == s[..Cut(s)] && r.1 == Strip(s[Cut(s)..])
  {
    var mid := Cut(s);
    var first := s[..mid];
    var second := s[mid..];
    var (first', second') := if |second| == 1 then (s, "") else (first, second);
    (if first' == "" then placeholder else first', if second' == "" then placeholder else Strip(second'))
  }

  /**
   For a text line without surrounding whitespace whose cut falls before
   its last character, the two halves are the line with only the
   whitespace at the cut taken out, and the first half is never empty.
   */
  lemma SplitStringLosesOnlySpaces(s: string, placeholder: string)
    requires |s| > 0 && IsStripped(s) && Cut(s) < |s| - 1
    ensures var r := SplitStringInTwo(s, placeholder);
            && 1 <= |r.0| < |s| - |r.1|
            && r.0 == s[..|r.0|] && r.1 == s[|s| - |r.1|..]
            && AllSpace(s[|r.0|..|s| - |r.1|])
  {
    hide SplitStringInTwo, Strip, CutFrom;
    var mid := Cut(s);
    var rest := s[mid..];
    var r2 := Strip(rest);
    assert IsSpace(rest[0]) && !IsSpace(rest[|rest| - 1]);
    var k :| StripsAt(rest, r2, k);
    LeadingGap(rest, r2, k);
    assert s[mid..|s| - |r2|] == rest[..k];
  }

  /** Stripping a string that ends in a non-space but starts with a space removes only a leading gap. */
  lemma LeadingGap(rest: string, r: string, k: int)
    requires |rest| > 0 && IsSpace(rest[0]) && !IsSpace(rest[|rest| - 1])
    requires StripsAt(rest, r, k) && IsStripped(r)
    ensures 1 <= k <= |rest| && AllSpace(rest[..k]) && rest == rest[..k] + r
  {
    assert k + |r| == |rest|;
    assert k >= 1;
    assert AllSpace(rest[..k]) by {
      forall j | 0 <= j < k ensures IsSpace(rest[..k][j]) {
        assert rest[..k][j] == rest[j];
      }
    }
    assert rest == rest[..k] + rest[k..k + |r|];
  }

  /** A one-word line keeps the whole line in the first half. */
  lemma SplitStringNoSpace(s: string, placeholder: string)
    requires |s| > 0 && ' ' !in s[|s| / 2..]
    ensures SplitStringInTwo(s, placeholder) == (s, placeholder)
  {
    var mid := Cut(s);
    assert s[mid] in s[|s| / 2..];
  }

  /**
   `re.sub(r"^-\s*", "", s)` applied when `s` starts with '-': the dash and
   the whitespace after it are removed.
   */
  function DropDash(s: string): (r: string)
    ensures |s| == 0 || s[0] != '-' ==> r == s
    ensures |s| > 0 && s[0] == '-' ==>
              && |r| < |s| && r == s[|s| - |r|..]
              && AllSpace(s[1..|s| - |r|])
              && (|r| > 0 ==> !IsSpace(r[0]))
  {
    if |s| > 0 && s[0] == '-' then
      var k := SkipSpaces(s, 1);
      assert AllSpace(s[1..k]) by {
        forall j | 0 <= j < k - 1 ensures IsSpace(s[1..k][j]) {
          assert s[1..k][j] == s[j + 1];
        }
      }
      s[k..]
    else s
  }
}
