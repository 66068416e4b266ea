/**
 The validator's command that excludes the title around the cursor from
 the timing and text checks: the title's number is added to the file's
 list of excluded titles, unless it is already there.
 */
module Exclusion {
  import opened Base
  import opened TitleBlock
  import Titles

  /** No number occurs twice in the list. */
  predicate Distinct(xs: seq<int>) {
    forall i, j :: 0 <= i < j < |xs| ==> xs[i] != xs[j]
  }

  /** The list with `x` appended when it is missing; a list already holding `x` is kept as it is. */
  function AddIfAbsent(xs: seq<int>, x: int): (r: seq<int>)
    ensures |xs| <= |r| <= |xs| + 1 && r[..|xs|] == xs
    ensures forall y :: y in r <==> y in xs || y == x
    ensures Distinct(xs) ==> Distinct(r)
  {
    if x in xs then xs else xs + [x]
  }

  /** Adding a number that the list already holds changes nothing, so a second exclusion of the same title is a no-op. */
  lemma AddIfAbsentIdempotent(xs: seq<int>, x: int)
    ensures AddIfAbsent(AddIfAbsent(xs, x), x) == AddIfAbsent(xs, x)
    ensures x in xs <==> AddIfAbsent(xs, x) == xs
  {
    if x !in xs {
      assert AddIfAbsent(xs, x)[|xs|] == x;
    }
  }

  /**
   The command: a cursor on a blank line and a title that does not parse
   are refused; otherwise the title's number joins the list.
   */
  function ExcludeTitle(lines: seq<string>, c: nat, excluded: seq<int>): (r: Result<seq<int>, Titles.EditError>)
    ensures Titles.CursorOnBlankLine(lines, c) ==> r == Err(Titles.CursorOnBlank)
    ensures !Titles.CursorOnBlankLine(lines, c) ==>
              var p := ParseTitle(Titles.CurrentBlock(lines, c));
              && (p.Err? ==> r == Err(Titles.BadTitle(p.error)))
              && (p.Ok? ==> r.Ok?)
    ensures r.Ok? ==>
              var n := ParseTitle(Titles.CurrentBlock(lines, c)).value.ordinal;
              && n in r.value
              && (forall y :: y in r.value <==> y in excluded || y == n)
              && |excluded| <= |r.value| <= |excluded| + 1 && r.value[..|excluded|] == excluded
              && (Distinct(excluded) ==> Distinct(r.value))
  {
    if Titles.CursorOnBlankLine(lines, c) then Err(Titles.CursorOnBlank)
    else
      match ParseTitle(Titles.CurrentBlock(lines, c))
      case Err(e) => Err(Titles.BadTitle(e))
      case Ok(t) => Ok(AddIfAbsent(excluded, t.ordinal))
  }

  /** Excluding the same title twice leaves the list as the first exclusion made it. */
  lemma ExcludeTwice(lines: seq<string>, c: nat, excluded: seq<int>)
    requires ExcludeTitle(lines, c, excluded).Ok?
    ensures ExcludeTitle(lines, c, ExcludeTitle(lines, c, excluded).value) == ExcludeTitle(lines, c, excluded)
  {
    var n := ParseTitle(Titles.CurrentBlock(lines, c)).value.ordinal;
    AddIfAbsentIdempotent(excluded, n);
  }
}
