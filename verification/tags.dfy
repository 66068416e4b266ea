/**
 The validator's HTML-tag bookkeeping: the open-tag pattern
 `(<(t1|t2|...)[^>]*>)`, the close-tag pattern `(<\/(t1|t2|...)>)`, both
 scanned left to right without overlap as `re.findall` does, and the
 comparison of the collected tags as multisets.
 */
module Tags {
  import opened Base

  /** One `findall` hit: the tag name (group 2) and the length of the whole match (group 1). */
  datatype TagMatch = TagMatch(name: string, length: nat)

  /**
   The alternatives of `"|".join(tags)`: an empty list leaves a single
   empty alternative, which matches at every '<'.
   */
  function Alternatives(tags: seq<string>): (alts: seq<string>)
    ensures |alts| >= 1
    ensures forall t :: t in alts <==> t in tags || (|tags| == 0 && t == "")
  {
    if |tags| == 0 then [""] else tags
  }

  /** `t` occurs in `s` at position `p`. */
  predicate OccursAt(s: string, p: nat, t: string) {
    p + |t| <= |s| && forall j :: 0 <= j < |t| ==> s[p + j] == t[j]
  }

  /** The first '>' at or after position `q`. */
  function NextClose(s: string, q: nat): (r: Option<nat>)
    ensures r.Some? ==> q <= r.value < |s| && s[r.value] == '>'
    ensures r.Some? ==> forall j :: q <= j < r.value ==> s[j] != '>'
    ensures r.None? ==> forall j :: q <= j < |s| ==> s[j] != '>'
    decreases |s| - q
  {
    if q >= |s| then None
    else if s[q] == '>' then Some(q)
    else NextClose(s, q + 1)
  }

  /**
   The open pattern at position `p` (which holds '<'), trying the
   alternatives from index `i` in order, as the regex engine's
   backtracking does: the first alternative that occurs right after the
   '<' and is followed, somewhere, by a '>' wins, and `[^>]*>` then ends
   the match at the first such '>'.
   */
  function OpenFrom(s: string, p: nat, alts: seq<string>, i: nat): (r: Option<TagMatch>)
    requires i <= |alts|
    ensures r.Some? ==> && r.value.name in alts[i..] && OccursAt(s, p + 1, r.value.name)
                        && p + 2 + |r.value.name| <= p + r.value.length <= |s|
                        && s[p + r.value.length - 1] == '>'
    decreases |alts| - i
  {
    if i == |alts| then None
    else
      var t := alts[i];
      if OccursAt(s, p + 1, t) then
        match NextClose(s, p + 1 + |t|)
        case Some(q) => Some(TagMatch(t, q + 1 - p))
        case None => OpenFrom(s, p, alts, i + 1)
      else OpenFrom(s, p, alts, i + 1)
  }

  function OpenAt(s: string, p: nat, alts: seq<string>): (r: Option<TagMatch>)
    requires p < |s|
    ensures r.Some? ==> && s[p] == '<' && r.value.name in alts && OccursAt(s, p + 1, r.value.name)
                        && 2 + |r.value.name| <= r.value.length <= |s| - p
                        && s[p + r.value.length - 1] == '>'
  {
    if s[p] == '<' then OpenFrom(s, p, alts, 0) else None
  }

  /** The close pattern at `p`: `</`, the first alternative that is directly followed by `>`. */
  function CloseFrom(s: string, p: nat, alts: seq<string>, i: nat): (r: Option<TagMatch>)
    requires i <= |alts|
    ensures r.Some? ==> && r.value.name in alts[i..] && OccursAt(s, p + 2, r.value.name)
                        && r.value.length == |r.value.name| + 3 && p + r.value.length <= |s|
                        && s[p + r.value.length - 1] == '>'
    decreases |alts| - i
  {
    if i == |alts| then None
    else
      var t := alts[i];
      if OccursAt(s, p + 2, t) && p + 2 + |t| < |s| && s[p + 2 + |t|] == '>' then Some(TagMatch(t, |t| + 3))
      else CloseFrom(s, p, alts, i + 1)
  }

  function CloseAt(s: string, p: nat, alts: seq<string>): (r: Option<TagMatch>)
    requires p < |s|
    ensures r.Some? ==> && p + 1 < |s| && s[p] == '<' && s[p + 1] == '/' && r.value.name in alts
                        && r.value.length == |r.value.name| + 3 && r.value.length <= |s| - p
                        && OccursAt(s, p + 2, r.value.name) && s[p + r.value.length - 1] == '>'
  {
    if p + 1 < |s| && s[p] == '<' && s[p + 1] == '/' then CloseFrom(s, p, alts, 0) else None
  }

  /** Total length of a list of matches. */
  function Covered(ms: seq<TagMatch>): nat {
    if |ms| == 0 then 0 else ms[0].length + Covered(ms[1..])
  }

  /**
   `findall` of the open pattern from position `p`: a hit resumes the
   search right after itself, a miss one character further on. The hits
   never overlap, so together they cover at most the rest of the line.
   */
  function OpenTags(s: string, p: nat, alts: seq<string>): (r: seq<TagMatch>)
    ensures Covered(r) <= |s| - p || p >= |s|
    ensures forall m :: m in r ==> m.name in alts && m.length >= 2
    decreases |s| - p
  {
    if p >= |s| then []
    else match OpenAt(s, p, alts)
      case Some(m) => [m] + OpenTags(s, p + m.length, alts)
      case None => OpenTags(s, p + 1, alts)
  }

  /** `findall` of the close pattern from position `p`. */
  function CloseTags(s: string, p: nat, alts: seq<string>): (r: seq<TagMatch>)
    ensures Covered(r) <= |s| - p || p >= |s|
    ensures forall m :: m in r ==> m.name in alts && m.length == |m.name| + 3
    decreases |s| - p
  {
    if p >= |s| then []
    else match CloseAt(s, p, alts)
      case Some(m) => [m] + CloseTags(s, p + m.length, alts)
      case None => CloseTags(s, p + 1, alts)
  }

  /** The match of the open pattern, or of the close pattern, at position `q`. */
  function HitAt(s: string, q: nat, alts: seq<string>, closing: bool): (r: Option<TagMatch>)
    requires q < |s|
    ensures r.Some? ==> r.value.length >= 2
  {
    if closing then CloseAt(s, q, alts) else OpenAt(s, q, alts)
  }

  /** The matches the scan of one pattern collects from position `p`. */
  function Hits(s: string, p: nat, alts: seq<string>, closing: bool): seq<TagMatch> {
    if closing then CloseTags(s, p, alts) else OpenTags(s, p, alts)
  }

  /** Where the hits of that scan start. */
  function HitPositions(s: string, p: nat, alts: seq<string>, closing: bool): seq<nat>
    decreases |s| - p
  {
    if p >= |s| then []
    else match HitAt(s, p, alts, closing)
      case Some(m) => [p] + HitPositions(s, p + m.length, alts, closing)
      case None => HitPositions(s, p + 1, alts, closing)
  }

  /** Neither pattern's match, whichever is scanned, starts anywhere in `[lo, hi)`. */
  predicate NoHit(s: string, lo: nat, hi: nat, alts: seq<string>, closing: bool) {
    forall q :: lo <= q < hi && q < |s| ==> HitAt(s, q, alts, closing).None?
  }

  /** Each match of `ms` is the pattern's match at the matching position of `ps`, from `p` on. */
  predicate Placed(s: string, p: nat, alts: seq<string>, closing: bool, ms: seq<TagMatch>, ps: seq<nat>) {
    && |ms| == |ps|
    && forall k :: 0 <= k < |ps| ==> p <= ps[k] < |s| && HitAt(s, ps[k], alts, closing) == Some(ms[k])
  }

  /** The matches come in order and none overlaps a later one. */
  predicate Ordered(ms: seq<TagMatch>, ps: seq<nat>)
    requires |ms| == |ps|
  {
    forall j, k :: 0 <= j < k < |ps| ==> ps[j] + ms[j].length <= ps[k]
  }

  /** The pattern matches nowhere before the first match, between two consecutive ones, or after the last. */
  predicate Gaps(s: string, p: nat, alts: seq<string>, closing: bool, ms: seq<TagMatch>, ps: seq<nat>)
    requires |ms| == |ps|
  {
    && NoHit(s, p, if |ps| == 0 then |s| else ps[0], alts, closing)
    && (forall j, k :: 0 <= j && k == j + 1 < |ps| ==> NoHit(s, ps[j] + ms[j].length, ps[k], alts, closing))
    && (|ps| > 0 ==> NoHit(s, ps[|ps| - 1] + ms[|ps| - 1].length, |s|, alts, closing))
  }

  /**
   What `findall` promises, stated without the scan: the matches `ms`
   sit at the positions `ps` in `s[p..]`, each one being the pattern's
   match there; they come in order and do not overlap; and the pattern
   matches nowhere in the gaps before, between and after them, so no
   match was skipped.
   */
  predicate FindAll(s: string, p: nat, alts: seq<string>, closing: bool, ms: seq<TagMatch>, ps: seq<nat>) {
    Placed(s, p, alts, closing, ms, ps) && Ordered(ms, ps) && Gaps(s, p, alts, closing, ms, ps)
  }

  /** One step of either scan. */
  lemma HitsStep(s: string, p: nat, alts: seq<string>, closing: bool)
    ensures p >= |s| ==> Hits(s, p, alts, closing) == [] && HitPositions(s, p, alts, closing) == []
    ensures p < |s| && HitAt(s, p, alts, closing).None? ==>
              && Hits(s, p, alts, closing) == Hits(s, p + 1, alts, closing)
              && HitPositions(s, p, alts, closing) == HitPositions(s, p + 1, alts, closing)
    ensures p < |s| && HitAt(s, p, alts, closing).Some? ==>
              var m := HitAt(s, p, alts, closing).value;
              && Hits(s, p, alts, closing) == [m] + Hits(s, p + m.length, alts, closing)
              && HitPositions(s, p, alts, closing) == [p] + HitPositions(s, p + m.length, alts, closing)
  {
    hide OpenFrom, CloseFrom, NextClose, OccursAt, Covered;
    if closing {
      assert Hits(s, p, alts, closing) == CloseTags(s, p, alts);
    } else {
      assert Hits(s, p, alts, closing) == OpenTags(s, p, alts);
    }
  }

  /** A position without a hit adds nothing to the description. */
  lemma FindAllSkip(s: string, p: nat, alts: seq<string>, closing: bool, ms: seq<TagMatch>, ps: seq<nat>)
    requires p < |s| && HitAt(s, p, alts, closing).None?
    requires FindAll(s, p + 1, alts, closing, ms, ps)
    ensures FindAll(s, p, alts, closing, ms, ps)
  {
    hide HitAt;
  }

  /** A hit at `p` followed by a description of the rest after it describes the whole. */
  lemma FindAllCons(s: string, p: nat, alts: seq<string>, closing: bool, m: TagMatch, ms: seq<TagMatch>, ps: seq<nat>)
    requires p < |s| && HitAt(s, p, alts, closing) == Some(m)
    requires FindAll(s, p + m.length, alts, closing, ms, ps)
    ensures FindAll(s, p, alts, closing, [m] + ms, [p] + ps)
  {
    hide HitAt, Placed, Ordered, Gaps;
    ConsPlaced(s, p, alts, closing, m, ms, ps);
    ConsOrdered(s, p, alts, closing, m, ms, ps);
    ConsGaps(s, p, alts, closing, m, ms, ps);
  }

  lemma ConsPlaced(s: string, p: nat, alts: seq<string>, closing: bool, m: TagMatch, ms: seq<TagMatch>, ps: seq<nat>)
    requires p < |s| && HitAt(s, p, alts, closing) == Some(m)
    requires Placed(s, p + m.length, alts, closing, ms, ps)
    ensures Placed(s, p, alts, closing, [m] + ms, [p] + ps)
  {
    hide HitAt;
    var ms', ps' := [m] + ms, [p] + ps;
    forall k | 0 < k < |ps'|
      ensures ps'[k] == ps[k - 1] && ms'[k] == ms[k - 1]
    {
    }
  }

  lemma ConsOrdered(s: string, p: nat, alts: seq<string>, closing: bool, m: TagMatch, ms: seq<TagMatch>, ps: seq<nat>)
    requires Placed(s, p + m.length, alts, closing, ms, ps) && Ordered(ms, ps)
    ensures Ordered([m] + ms, [p] + ps)
  {
    hide HitAt;
    var ms', ps' := [m] + ms, [p] + ps;
    forall j, k | 0 <= j < k < |ps'|
      ensures ps'[j] + ms'[j].length <= ps'[k]
    {
      assert ps'[k] == ps[k - 1];
      if j > 0 {
        assert ps'[j] == ps[j - 1] && ms'[j] == ms[j - 1];
      }
    }
  }

  lemma ConsGaps(s: string, p: nat, alts: seq<string>, closing: bool, m: TagMatch, ms: seq<TagMatch>, ps: seq<nat>)
    requires Placed(s, p + m.length, alts, closing, ms, ps) && Gaps(s, p + m.length, alts, closing, ms, ps)
    ensures Gaps(s, p, alts, closing, [m] + ms, [p] + ps)
  {
    hide HitAt;
    var ms', ps' := [m] + ms, [p] + ps;
    assert NoHit(s, p, ps'[0], alts, closing);
    forall j, k | 0 <= j && k == j + 1 < |ps'|
      ensures NoHit(s, ps'[j] + ms'[j].length, ps'[k], alts, closing)
    {
      assert ps'[k] == ps[j];
      if j > 0 {
        assert ps'[j] == ps[j - 1] && ms'[j] == ms[j - 1];
        assert NoHit(s, ps[j - 1] + ms[j - 1].length, ps[j], alts, closing);
      }
    }
    if |ps| > 0 {
      assert ps'[|ps'| - 1] == ps[|ps| - 1] && ms'[|ps'| - 1] == ms[|ps| - 1];
    }
  }

  /** The open and close scans are `findall`: their matches meet the description above. */
  lemma {:induction false} TagsFindAll(s: string, p: nat, alts: seq<string>, closing: bool)
    ensures FindAll(s, p, alts, closing, Hits(s, p, alts, closing), HitPositions(s, p, alts, closing))
    decreases |s| - p
  {
    hide HitAt, Hits, HitPositions;
    HitsStep(s, p, alts, closing);
    if p < |s| {
      match HitAt(s, p, alts, closing)
      case None =>
        TagsFindAll(s, p + 1, alts, closing);
        FindAllSkip(s, p, alts, closing, Hits(s, p + 1, alts, closing), HitPositions(s, p + 1, alts, closing));
      case Some(m) =>
        TagsFindAll(s, p + m.length, alts, closing);
        FindAllCons(s, p, alts, closing, m, Hits(s, p + m.length, alts, closing),
                    HitPositions(s, p + m.length, alts, closing));
    }
  }

  /** Only one list of matches meets the `findall` description: the one the scan collects. */
  lemma {:induction false} FindAllUnique(s: string, p: nat, alts: seq<string>, closing: bool,
                                         ms: seq<TagMatch>, ps: seq<nat>)
    requires FindAll(s, p, alts, closing, ms, ps)
    ensures ms == Hits(s, p, alts, closing) && ps == HitPositions(s, p, alts, closing)
    decreases |s| - p
  {
    hide HitAt, Hits, HitPositions, FindAll;
    HitsStep(s, p, alts, closing);
    if p >= |s| {
      FindAllEnd(s, p, alts, closing, ms, ps);
    } else if HitAt(s, p, alts, closing).None? {
      FindAllTail(s, p, alts, closing, ms, ps);
      FindAllUnique(s, p + 1, alts, closing, ms, ps);
    } else {
      var m := HitAt(s, p, alts, closing).value;
      FindAllHead(s, p, alts, closing, ms, ps);
      FindAllUnique(s, p + m.length, alts, closing, ms[1..], ps[1..]);
      assert ms == [m] + ms[1..] && ps == [p] + ps[1..];
    }
  }

  /** Past the end of the line a description is empty. */
  lemma FindAllEnd(s: string, p: nat, alts: seq<string>, closing: bool, ms: seq<TagMatch>, ps: seq<nat>)
    requires p >= |s| && FindAll(s, p, alts, closing, ms, ps)
    ensures ms == [] && ps == []
  {
    hide HitAt, NoHit, Ordered, Gaps;
    if |ps| > 0 {
      PlacedWithin(s, p, alts, closing, ms, ps, 0);
      assert false;
    }
  }

  /** Every placed match lies in the line, at or after the start. */
  lemma PlacedWithin(s: string, p: nat, alts: seq<string>, closing: bool, ms: seq<TagMatch>, ps: seq<nat>, k: nat)
    requires Placed(s, p, alts, closing, ms, ps) && k < |ps|
    ensures p <= ps[k] < |s|
  {
  }

  /** Without a hit at `p`, a description from `p` is one from `p + 1`. */
  lemma FindAllTail(s: string, p: nat, alts: seq<string>, closing: bool, ms: seq<TagMatch>, ps: seq<nat>)
    requires p < |s| && HitAt(s, p, alts, closing).None?
    requires FindAll(s, p, alts, closing, ms, ps)
    ensures FindAll(s, p + 1, alts, closing, ms, ps)
  {
    hide HitAt;
    forall k | 0 <= k < |ps|
      ensures p + 1 <= ps[k]
    {
      assert HitAt(s, ps[k], alts, closing).Some?;
    }
  }

  /** With a hit at `p`, a description from `p` starts with that hit and goes on from its end. */
  lemma FindAllHead(s: string, p: nat, alts: seq<string>, closing: bool, ms: seq<TagMatch>, ps: seq<nat>)
    requires p < |s| && HitAt(s, p, alts, closing).Some?
    requires FindAll(s, p, alts, closing, ms, ps)
    ensures |ms| == |ps| > 0 && ps[0] == p && ms[0] == HitAt(s, p, alts, closing).value
    ensures FindAll(s, p + ms[0].length, alts, closing, ms[1..], ps[1..])
  {
    hide HitAt, Placed, Ordered, Gaps;
    HeadFirst(s, p, alts, closing, ms, ps);
    HeadPlaced(s, p, alts, closing, ms, ps);
    HeadOrdered(ms, ps);
    HeadGaps(s, p, alts, closing, ms, ps);
  }

  lemma HeadFirst(s: string, p: nat, alts: seq<string>, closing: bool, ms: seq<TagMatch>, ps: seq<nat>)
    requires p < |s| && HitAt(s, p, alts, closing).Some?
    requires Placed(s, p, alts, closing, ms, ps) && Gaps(s, p, alts, closing, ms, ps)
    ensures |ms| == |ps| > 0 && ps[0] == p && ms[0] == HitAt(s, p, alts, closing).value
  {
    hide HitAt;
    assert |ps| > 0 && ps[0] <= p;
  }

  lemma HeadPlaced(s: string, p: nat, alts: seq<string>, closing: bool, ms: seq<TagMatch>, ps: seq<nat>)
    requires Placed(s, p, alts, closing, ms, ps) && Ordered(ms, ps) && |ps| > 0
    ensures Placed(s, ps[0] + ms[0].length, alts, closing, ms[1..], ps[1..])
  {
    hide HitAt;
    var ms', ps' := ms[1..], ps[1..];
    forall k | 0 <= k < |ps'|
      ensures ps[0] + ms[0].length <= ps'[k] < |s| && HitAt(s, ps'[k], alts, closing) == Some(ms'[k])
    {
      assert ps'[k] == ps[k + 1] && ms'[k] == ms[k + 1];
      assert ps[0] + ms[0].length <= ps[k + 1];
    }
  }

  lemma HeadOrdered(ms: seq<TagMatch>, ps: seq<nat>)
    requires |ms| == |ps| > 0 && Ordered(ms, ps)
    ensures Ordered(ms[1..], ps[1..])
  {
    var ms', ps' := ms[1..], ps[1..];
    forall j, k | 0 <= j < k < |ps'|
      ensures ps'[j] + ms'[j].length <= ps'[k]
    {
      assert ps'[k] == ps[k + 1] && ps'[j] == ps[j + 1] && ms'[j] == ms[j + 1];
    }
  }

  lemma HeadGaps(s: string, p: nat, alts: seq<string>, closing: bool, ms: seq<TagMatch>, ps: seq<nat>)
    requires |ms| == |ps| > 0 && Gaps(s, p, alts, closing, ms, ps)
    ensures Gaps(s, ps[0] + ms[0].length, alts, closing, ms[1..], ps[1..])
  {
    hide HitAt;
    var ms', ps' := ms[1..], ps[1..];
    if |ps| > 1 {
      assert ps'[0] == ps[1];
      assert NoHit(s, ps[0] + ms[0].length, ps[1], alts, closing);
    }
    forall j, k | 0 <= j && k == j + 1 < |ps'|
      ensures NoHit(s, ps'[j] + ms'[j].length, ps'[k], alts, closing)
    {
      assert ps'[k] == ps[k + 1] && ps'[j] == ps[j + 1] && ms'[j] == ms[j + 1];
      assert NoHit(s, ps[j + 1] + ms[j + 1].length, ps[k + 1], alts, closing);
    }
    if |ps'| > 0 {
      assert ps'[|ps'| - 1] == ps[|ps| - 1] && ms'[|ps'| - 1] == ms[|ps| - 1];
    }
  }

  /** The collected form of a hit, `<name>`, used for open and close tags alike. */
  function Bracketed(ms: seq<TagMatch>): (r: seq<string>)
    ensures |r| == |ms|
    ensures forall i :: 0 <= i < |ms| ==> r[i] == "<" + ms[i].name + ">"
  {
    if |ms| == 0 then [] else ["<" + ms[0].name + ">"] + Bracketed(ms[1..])
  }

  /** The tags of one text line, and how many characters their texts take. */
  datatype LineTags = LineTags(opens: seq<string>, closes: seq<string>, length: nat)

  function ScanLine(line: string, tags: seq<string>): (r: LineTags)
    ensures r.length <= 2 * |line|
  {
    var alts := Alternatives(tags);
    var o := OpenTags(line, 0, alts);
    var c := CloseTags(line, 0, alts);
    LineTags(Bracketed(o), Bracketed(c), Covered(o) + Covered(c))
  }

  /**
   The distinct elements among the first `n` of `a` that occur more often
   in `a` than in `b`, in the order of their first occurrence: the keys of
   `Counter(a) - Counter(b)`.
   */
  function Excess(a: seq<string>, b: seq<string>, n: nat): (r: seq<string>)
    requires n <= |a|
    ensures forall x :: x in r <==> x in a[..n] && multiset(a)[x] > multiset(b)[x]
    ensures forall i, j :: 0 <= i < j < |r| ==> r[i] != r[j]
  {
    if n == 0 then []
    else
      var r := Excess(a, b, n - 1);
      var x := a[n - 1];
      assert a[..n] == a[..n - 1] + [x];
      if x !in a[..n - 1] && multiset(a)[x] > multiset(b)[x] then r + [x] else r
  }

  /** `checkForUnmatchedHtmlTags`: the surplus open tags and the surplus close tags. */
  function Unmatched(opens: seq<string>, closes: seq<string>): (r: (seq<string>, seq<string>))
    ensures forall x :: x in r.0 <==> multiset(opens)[x] > multiset(closes)[x]
    ensures forall x :: x in r.1 <==> multiset(closes)[x] > multiset(opens)[x]
  {
    assert opens[..|opens|] == opens;
    assert closes[..|closes|] == closes;
    (Excess(opens, closes, |opens|), Excess(closes, opens, |closes|))
  }

  /** Both lists of unmatched tags are empty exactly when the tags balance as multisets. */
  lemma UnmatchedEmptyIff(opens: seq<string>, closes: seq<string>)
    ensures Unmatched(opens, closes) == ([], []) <==> multiset(opens) == multiset(closes)
  {
    var r := Unmatched(opens, closes);
    if r == ([], []) {
      forall x ensures multiset(opens)[x] == multiset(closes)[x] {
        assert x !in r.0 && x !in r.1;
      }
    } else {
      var x := if |r.0| > 0 then r.0[0] else r.1[0];
      assert x in r.0 || x in r.1;
      assert multiset(opens)[x] != multiset(closes)[x];
    }
  }
}
