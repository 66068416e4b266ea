/**
 Python string built-ins the source relies on: `str.isspace`, `str.strip`,
 `str.join`, `str.split` and the way the editor buffer is cut into lines.
 */
module Strings {

  /** The characters Python's `str.isspace()` (and the regex class `\s`) accept. */
  predicate IsSpace(c: char) {
    var n := c as int;
    || (9 <= n <= 13) || (28 <= n <= 32) || n == 0x85 || n == 0xA0 || n == 0x1680
    || (0x2000 <= n <= 0x200A) || n == 0x2028 || n == 0x2029 || n == 0x202F
    || n == 0x205F || n == 0x3000
  }

  predicate AllSpace(s: string) {
    forall i :: 0 <= i < |s| ==> IsSpace(s[i])
  }

  /** Neither end of `s` is a whitespace character. */
  predicate IsStripped(s: string) {
    |s| == 0 || (!IsSpace(s[0]) && !IsSpace(s[|s| - 1]))
  }

  /** The first position at or after `i` that holds no whitespace (`|s|` if none). */
  function SkipSpaces(s: string, i: nat): (k: nat)
    requires i <= |s|
    ensures i <= k <= |s|
    ensures forall j :: i <= j < k ==> IsSpace(s[j])
    ensures k < |s| ==> !IsSpace(s[k])
    decreases |s| - i
  {
    if i < |s| && IsSpace(s[i]) then SkipSpaces(s, i + 1) else i
  }

  /** One past the last position before `e` that holds no whitespace, but not below `lo`. */
  function TrimSpaces(s: string, lo: nat, e: nat): (k: nat)
    requires lo <= e <= |s|
    ensures lo <= k <= e
    ensures forall j :: k <= j < e ==> IsSpace(s[j])
    ensures k > lo ==> !IsSpace(s[k - 1])
    decreases e - lo
  {
    if e > lo && IsSpace(s[e - 1]) then TrimSpaces(s, lo, e - 1) else e
  }

  /**
   `s.strip()`: `s` without its leading and trailing whitespace, that is
   `lstrip` followed by `rstrip`.
   */
  function Strip(s: string): (r: string)
    ensures IsStripped(r)
    ensures exists k :: StripsAt(s, r, k)
  {
    var k := SkipSpaces(s, 0);
    var e := TrimSpaces(s, k, |s|);
    var r := s[k..e];
    assert k + |r| == e && StripsAt(s, r, k);
    r
  }

  /** `r` is `s` from position `k` on, less only whitespace at either end. */
  predicate StripsAt(s: string, r: string, k: int) {
    && 0 <= k <= |s| - |r| && r == s[k..k + |r|]
    && (forall j :: 0 <= j < k ==> IsSpace(s[j]))
    && (forall j :: k + |r| <= j < |s| ==> IsSpace(s[j]))
  }

  lemma StripOfStripped(s: string)
    requires IsStripped(s)
    ensures Strip(s) == s
  {
    assert SkipSpaces(s, 0) == 0;
    assert TrimSpaces(s, 0, |s|) == |s|;
  }

  /** A line that `str.strip()` turns into the empty string. */
  predicate IsBlank(s: string) {
    Strip(s) == ""
  }

  lemma BlankIffAllSpace(s: string)
    ensures IsBlank(s) <==> AllSpace(s)
  {
  }

  predicate StartsWithSpaceChar(s: string) {
    |s| > 0 && s[0] == ' '
  }

  predicate EndsWithSpaceChar(s: string) {
    |s| > 0 && s[|s| - 1] == ' '
  }

  /** `sep.join(parts)`. */
  function Join(parts: seq<string>, sep: string): string
  {
    if |parts| == 0 then ""
    else if |parts| == 1 then parts[0]
    else parts[0] + sep + Join(parts[1..], sep)
  }

  /** `s.split(c)` for a one-character separator: always at least one piece. */
  function Split(s: string, c: char): (r: seq<string>)
    ensures |r| >= 1
    ensures forall i :: 0 <= i < |r| ==> c !in r[i]
  {
    if |s| == 0 then [""]
    else
      var rest := Split(s[1..], c);
      if s[0] == c then [""] + rest
      else [[s[0]] + rest[0]] + rest[1..]
  }

  lemma {:induction false} SplitNoSeparator(s: string, c: char)
    requires c !in s
    ensures Split(s, c) == [s]
  {
    if |s| > 0 {
      assert s[0] in s;
      assert c !in s[1..] by {
        forall i | 0 <= i < |s| - 1 ensures s[1..][i] != c {
          assert s[1..][i] == s[i + 1];
        }
      }
      SplitNoSeparator(s[1..], c);
      assert [s[0]] + s[1..] == s;
    }
  }

  lemma {:induction false} SplitAround(a: string, b: string, c: char)
    requires c !in a
    ensures Split(a + [c] + b, c) == [a] + Split(b, c)
  {
    if |a| == 0 {
      assert a + [c] + b == [c] + b;
      assert ([c] + b)[1..] == b;
    } else {
      assert (a + [c] + b)[1..] == a[1..] + [c] + b;
      SplitAround(a[1..], b, c);
      assert [a[0]] + a[1..] == a;
    }
  }

  /** Splitting a joined list gives the list back when no piece holds the separator. */
  lemma {:induction false} SplitJoin(parts: seq<string>, c: char)
    requires |parts| >= 1
    requires forall i :: 0 <= i < |parts| ==> c !in parts[i]
    ensures Split(Join(parts, [c]), c) == parts
  {
    if |parts| == 1 {
      SplitNoSeparator(parts[0], c);
    } else {
      SplitJoin(parts[1..], c);
      SplitAround(parts[0], Join(parts[1..], [c]), c);
      assert [parts[0]] + parts[1..] == parts;
    }
  }

  /** Joining the pieces of a split gives the string back. */
  lemma {:induction false} JoinSplit(s: string, c: char)
    ensures Join(Split(s, c), [c]) == s
  {
    if |s| > 0 {
      JoinSplit(s[1..], c);
      var rest := Split(s[1..], c);
      if s[0] == c {
        assert Join([""] + rest, [c]) == "" + [c] + Join(rest, [c]);
      } else {
        var r := [[s[0]] + rest[0]] + rest[1..];
        if |rest| == 1 {
          assert Join(r, [c]) == [s[0]] + rest[0];
        } else {
          assert r[1..] == rest[1..];
          assert Join(rest, [c]) == rest[0] + [c] + Join(rest[1..], [c]);
          assert Join(r, [c]) == [s[0]] + rest[0] + [c] + Join(rest[1..], [c]);
        }
        assert [s[0]] + s[1..] == s;
      }
    }
  }

  /**
   How the editor cuts its buffer into lines (`split_by_newlines` over the
   whole buffer): split at every '\n', with no piece after a final '\n'.
   */
  function BufferLines(content: string): seq<string>
  {
    if |content| == 0 then []
    else if content[|content| - 1] == '\n' then Split(content[..|content| - 1], '\n')
    else Split(content, '\n')
  }

  predicate NoNewlines(lines: seq<string>) {
    forall i :: 0 <= i < |lines| ==> '\n' !in lines[i]
  }

  /** The buffer content of a document held as lines: every line ends with '\n'. */
  function Content(lines: seq<string>): string
  {
    if |lines| == 0 then "" else Join(lines, "\n") + "\n"
  }

  /** Rendering then cutting into lines is the identity on documents. */
  lemma RenderedLines(lines: seq<string>)
    requires NoNewlines(lines)
    ensures BufferLines(Content(lines)) == lines
  {
    if |lines| > 0 {
      var c := Content(lines);
      assert c[..|c| - 1] == Join(lines, "\n");
      SplitJoin(lines, '\n');
    }
  }
}
