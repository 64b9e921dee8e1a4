/** First-match selection over an ordered layer of records.

    A geopandas boolean-mask filter `frame.loc[mask]` keeps the rows whose
    mask entry is true, in stored order; `rows.iloc[0]` then takes the first
    of them, and the lookups log a warning when more than one row is left.
    This module states that policy once, generically over the element type,
    and proves it equal to an independent, index-based description. */
module Selection {
  import opened Wrappers

  /** `s.loc[keep(s)]`: the elements of `s` that satisfy `keep`, in order. */
  function Filter<T>(s: seq<T>, keep: T -> bool): (r: seq<T>)
    ensures |r| <= |s|
    ensures forall k :: 0 <= k < |r| ==> keep(r[k]) && r[k] in s
  {
    if s == [] then []
    else (if keep(s[0]) then [s[0]] else []) + Filter(s[1..], keep)
  }

  /** One unfolding step of `Filter`, for a layer written out element by element. */
  lemma FilterCons<T>(x: T, s: seq<T>, keep: T -> bool)
    ensures Filter([x] + s, keep) == (if keep(x) then [x] else []) + Filter(s, keep)
  {
    assert ([x] + s)[1..] == s;
  }

  /** No element of `s` satisfies `keep`. */
  ghost predicate NoMatch<T>(s: seq<T>, keep: T -> bool) {
    forall i :: 0 <= i < |s| ==> !keep(s[i])
  }

  /** Index `i` is the first position of `s` whose element satisfies `keep`. */
  ghost predicate FirstMatchAt<T>(s: seq<T>, keep: T -> bool, i: int) {
    && 0 <= i < |s|
    && keep(s[i])
    && forall j :: 0 <= j < i ==> !keep(s[j])
  }

  /** At least two distinct positions of `s` satisfy `keep`. */
  ghost predicate SeveralMatches<T>(s: seq<T>, keep: T -> bool) {
    exists i, j :: 0 <= i < j < |s| && keep(s[i]) && keep(s[j])
  }

  /** `pick` is what first-match selection must produce: nothing when no
      element matches, otherwise the element at the first matching position. */
  ghost predicate ChosenFirst<T>(pick: Option<T>, s: seq<T>, keep: T -> bool) {
    match pick
    case None => NoMatch(s, keep)
    case Some(x) => exists i :: FirstMatchAt(s, keep, i) && x == s[i]
  }

  /** The outcome of selecting in one layer: the record chosen (if any) and
      whether the ambiguity warning is logged. */
  datatype Choice<T> = Choice(pick: Option<T>, warned: bool)

  /** `if len(c) > 1: warn`, `if len(c): pick = c.iloc[0]`. */
  function Pick<T>(candidates: seq<T>): (c: Choice<T>)
    ensures c.pick.None? <==> candidates == []
    ensures c.pick.Some? ==> c.pick.value == candidates[0]
    ensures c.warned <==> |candidates| > 1
    ensures c.warned ==> c.pick.Some?
  {
    Choice(if candidates == [] then None else Some(candidates[0]), |candidates| > 1)
  }

  /** Selection by one predicate: the first element satisfying it. */
  function SelectFirst<T>(s: seq<T>, keep: T -> bool): (c: Choice<T>) {
    Pick(Filter(s, keep))
  }

  /** Selection by `primary`, falling back to `fallback` only when no element
      satisfies `primary`. */
  function SelectWithFallback<T>(s: seq<T>, primary: T -> bool, fallback: T -> bool): (c: Choice<T>) {
    var contained := Filter(s, primary);
    Pick(if |contained| == 0 then Filter(s, fallback) else contained)
  }

  lemma {:induction false} FilterEmpty<T>(s: seq<T>, keep: T -> bool)
    ensures Filter(s, keep) == [] <==> NoMatch(s, keep)
  {
    if s != [] {
      FilterEmpty(s[1..], keep);
      assert forall i :: 1 <= i < |s| ==> s[i] == s[1..][i - 1];
    }
  }

  lemma {:induction false} FilterHead<T>(s: seq<T>, keep: T -> bool, i: int)
    requires FirstMatchAt(s, keep, i)
    ensures Filter(s, keep) != [] && Filter(s, keep)[0] == s[i]
  {
    if i > 0 {
      assert !keep(s[0]);
      assert FirstMatchAt(s[1..], keep, i - 1) by {
        assert forall j :: 0 <= j < i - 1 ==> s[1..][j] == s[j + 1];
      }
      FilterHead(s[1..], keep, i - 1);
    }
  }

  lemma {:induction false} FirstMatchExists<T>(s: seq<T>, keep: T -> bool)
    requires !NoMatch(s, keep)
    ensures exists i :: FirstMatchAt(s, keep, i)
  {
    if !keep(s[0]) {
      assert !NoMatch(s[1..], keep) by {
        var i :| 0 <= i < |s| && keep(s[i]);
        assert s[1..][i - 1] == s[i];
      }
      FirstMatchExists(s[1..], keep);
      var i :| FirstMatchAt(s[1..], keep, i);
      assert forall j :: 1 <= j < i + 1 ==> s[j] == s[1..][j - 1];
      assert FirstMatchAt(s, keep, i + 1);
    } else {
      assert FirstMatchAt(s, keep, 0);
    }
  }

  /** The first matching position is unique. */
  lemma FirstMatchUnique<T>(s: seq<T>, keep: T -> bool, i: int, j: int)
    requires FirstMatchAt(s, keep, i) && FirstMatchAt(s, keep, j)
    ensures i == j
  {
  }

  lemma {:induction false} FilterSeveral<T>(s: seq<T>, keep: T -> bool)
    ensures |Filter(s, keep)| > 1 <==> SeveralMatches(s, keep)
  {
    if s != [] {
      var t := s[1..];
      FilterSeveral(t, keep);
      FilterEmpty(t, keep);
      assert forall i :: 1 <= i < |s| ==> s[i] == t[i - 1];
      if keep(s[0]) {
        assert |Filter(s, keep)| == 1 + |Filter(t, keep)|;
        if SeveralMatches(s, keep) {
          var i, j :| 0 <= i < j < |s| && keep(s[i]) && keep(s[j]);
          assert keep(t[j - 1]);
        }
        if !NoMatch(t, keep) {
          var j :| 0 <= j < |t| && keep(t[j]);
          assert keep(s[0]) && keep(s[j + 1]);
        }
      } else {
        assert Filter(s, keep) == Filter(t, keep);
        if SeveralMatches(s, keep) {
          var i, j :| 0 <= i < j < |s| && keep(s[i]) && keep(s[j]);
          assert i > 0;
          assert keep(t[i - 1]) && keep(t[j - 1]);
        }
        if SeveralMatches(t, keep) {
          var i, j :| 0 <= i < j < |t| && keep(t[i]) && keep(t[j]);
          assert keep(s[i + 1]) && keep(s[j + 1]);
        }
      }
    }
  }

  /** Selection by one predicate is first-match selection, and the warning
      fires exactly when two or more elements match. */
  lemma SelectFirstSpec<T>(s: seq<T>, keep: T -> bool)
    ensures ChosenFirst(SelectFirst(s, keep).pick, s, keep)
    ensures SelectFirst(s, keep).warned <==> SeveralMatches(s, keep)
  {
    FilterEmpty(s, keep);
    FilterSeveral(s, keep);
    if !NoMatch(s, keep) {
      FirstMatchExists(s, keep);
      var i :| FirstMatchAt(s, keep, i);
      FilterHead(s, keep, i);
    }
  }

  /** Selection with fallback: first match of `primary` when there is one;
      otherwise first match of `fallback` (or nothing). The warning fires
      exactly when the candidate set finally used has two or more members. */
  lemma SelectWithFallbackSpec<T>(s: seq<T>, primary: T -> bool, fallback: T -> bool)
    ensures !NoMatch(s, primary) ==>
      && ChosenFirst(SelectWithFallback(s, primary, fallback).pick, s, primary)
      && (SelectWithFallback(s, primary, fallback).warned <==> SeveralMatches(s, primary))
    ensures NoMatch(s, primary) ==>
      && ChosenFirst(SelectWithFallback(s, primary, fallback).pick, s, fallback)
      && (SelectWithFallback(s, primary, fallback).warned <==> SeveralMatches(s, fallback))
  {
    FilterEmpty(s, primary);
    SelectFirstSpec(s, primary);
    SelectFirstSpec(s, fallback);
  }

  /** The chosen record is always an element of the layer it was chosen from. */
  lemma ChosenIsMember<T>(pick: Option<T>, s: seq<T>, keep: T -> bool)
    requires ChosenFirst(pick, s, keep)
    ensures pick.Some? ==> pick.value in s && keep(pick.value)
  {
  }
}
