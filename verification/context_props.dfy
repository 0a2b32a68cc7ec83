/** What follows from the contract of `ExtractWithContext`: windows are
    non-empty, ordered and disjoint, every matching unit lies in exactly one
    window, the context around each window is bounded, and the contract
    determines the result completely. */
module ContextProperties {
  import opened Context

  /** Windows are non-empty, contain a match, and come in increasing order
      without overlapping. */
  lemma WindowsOrdered<T>(lst: seq<T>, pred: T -> bool, before: nat, after: nat,
                          rval: seq<Window<T>>, spans: seq<Bounds>)
    requires Extraction(lst, pred, before, after, rval, spans)
    ensures forall k :: 0 <= k < |spans| ==> |rval[k].group| > 0
    ensures forall k :: 0 <= k < |spans| ==> spans[k].lo <= spans[k].first < spans[k].hi && pred(lst[spans[k].first])
    ensures forall k :: 0 <= k < |spans| - 1 ==> spans[k].hi <= spans[k + 1].lo
  {
    forall k | 0 <= k < |spans| - 1
      ensures spans[k].hi <= spans[k + 1].lo
    {
      assert Placed(lst, pred, before, after, spans[k]);
      assert Placed(lst, pred, before, after, spans[k + 1]);
      assert Separated(lst, pred, before, after, spans[k], spans[k + 1]);
    }
    forall k | 0 <= k < |spans|
      ensures |rval[k].group| > 0
    {
      assert Placed(lst, pred, before, after, spans[k]);
    }
  }

  /** Window `j` lies wholly before window `k` when `j < k`. */
  lemma {:induction false} WindowsBefore<T>(lst: seq<T>, pred: T -> bool, before: nat, after: nat,
                                           rval: seq<Window<T>>, spans: seq<Bounds>, j: nat, k: nat)
    requires Extraction(lst, pred, before, after, rval, spans)
    requires j < k < |spans|
    ensures spans[j].hi <= spans[k].lo
    decreases k - j
  {
    WindowsOrdered(lst, pred, before, after, rval, spans);
    if j + 1 < k {
      WindowsBefore(lst, pred, before, after, rval, spans, j + 1, k);
    }
  }

  /** Every matching unit lies between the first and last match of exactly
      one window, and in no other window at all. */
  lemma MatchInOneWindow<T>(lst: seq<T>, pred: T -> bool, before: nat, after: nat,
                            rval: seq<Window<T>>, spans: seq<Bounds>, i: nat)
    returns (k: nat)
    requires Extraction(lst, pred, before, after, rval, spans)
    requires i < |lst| && pred(lst[i])
    ensures k < |spans| && spans[k].first <= i <= spans[k].last
    ensures forall j :: 0 <= j < |spans| && j != k ==> !(spans[j].lo <= i < spans[j].hi)
  {
    k := FindWindow(lst, pred, before, after, rval, spans, i, 0);
    forall j | 0 <= j < |spans| && j != k
      ensures !(spans[j].lo <= i < spans[j].hi)
    {
      assert Placed(lst, pred, before, after, spans[k]);
      if j < k {
        WindowsBefore(lst, pred, before, after, rval, spans, j, k);
      } else {
        WindowsBefore(lst, pred, before, after, rval, spans, k, j);
      }
    }
  }

  /** The search behind `MatchInOneWindow`: a match at or after window
      `k`'s first match lies in window `k` or a later one. */
  lemma {:induction false} FindWindow<T>(lst: seq<T>, pred: T -> bool, before: nat, after: nat,
                                        rval: seq<Window<T>>, spans: seq<Bounds>, i: nat, k: nat)
    returns (w: nat)
    requires Extraction(lst, pred, before, after, rval, spans)
    requires i < |lst| && pred(lst[i])
    requires k < |spans| || (k == 0 && spans == [])
    requires k < |spans| ==> spans[k].first <= i
    ensures w < |spans| && spans[w].first <= i <= spans[w].last
    decreases |spans| - k
  {
    if spans == [] {
      assert false;
    } else if k == 0 && i < spans[0].first {
      assert false;
    } else if i <= spans[k].last {
      w := k;
    } else if k + 1 < |spans| {
      assert Separated(lst, pred, before, after, spans[k], spans[k + 1]);
      w := FindWindow(lst, pred, before, after, rval, spans, i, k + 1);
    } else {
      assert false;
    }
  }

  /** The before-context holds at most `before + 1` units and the
      after-context at most `after`; each is cut short only by the ends of
      the list. */
  lemma ContextBounds<T>(lst: seq<T>, pred: T -> bool, before: nat, after: nat,
                         rval: seq<Window<T>>, spans: seq<Bounds>, k: nat)
    requires Extraction(lst, pred, before, after, rval, spans)
    requires k < |spans|
    ensures spans[k].first - spans[k].lo <= before + 1
    ensures spans[k].first - spans[k].lo < before + 1 ==> spans[k].lo == 0
    ensures spans[k].hi - spans[k].last - 1 <= after
    ensures spans[k].hi - spans[k].last - 1 < after ==> spans[k].hi == |lst|
    ensures rval[k].usedFirst <==> spans[k].lo == 0
    ensures rval[k].usedLast <==> spans[k].hi == |lst|
  {
    assert Placed(lst, pred, before, after, spans[k]);
  }

  // ---------------------------------------------------------------------
  // The contract has one solution

  /** Two matches with no match between a common lower bound and either of
      them are the same match. */
  lemma FirstsAgree<T>(lst: seq<T>, pred: T -> bool, lo: int, f1: nat, f2: nat)
    requires f1 < |lst| && f2 < |lst| && lo <= f1 && lo <= f2
    requires pred(lst[f1]) && pred(lst[f2])
    requires NoMatchIn(lst, pred, lo, f1) && NoMatchIn(lst, pred, lo, f2)
    ensures f1 == f2
  {
  }

  /** A dense stretch of matches from `f` cannot reach past a match `a`
      that is followed by more than `t` non-matching units. */
  lemma DenseBlocks<T>(lst: seq<T>, pred: T -> bool, f: nat, l: nat, a: nat, t: nat)
    requires Dense(lst, pred, f, l, t) && f <= a && l < |lst| && pred(lst[l])
    requires NoMatchIn(lst, pred, a + 1, a + t + 2)
    ensures l <= a
  {
    var x := a + 1;
    assert x + t < l ==> !Run(lst, pred, x, t);
  }

  /** Windows that start at the same match end at the same match. */
  lemma LastNotBeyond<T>(lst: seq<T>, pred: T -> bool, before: nat, after: nat,
                         r1: seq<Window<T>>, s1: seq<Bounds>, r2: seq<Window<T>>, s2: seq<Bounds>, k: nat)
    requires Extraction(lst, pred, before, after, r1, s1)
    requires Extraction(lst, pred, before, after, r2, s2)
    requires k < |s1| && k < |s2| && s1[k].first == s2[k].first
    ensures s1[k].last <= s2[k].last
  {
    var a := s2[k].last;
    assert Placed(lst, pred, before, after, s1[k]);
    assert Placed(lst, pred, before, after, s2[k]);
    if k + 1 < |s2| {
      assert Separated(lst, pred, before, after, s2[k], s2[k + 1]);
      DenseBlocks(lst, pred, s1[k].first, s1[k].last, a, Reach(before, after));
    }
  }

  lemma {:induction false} WindowsAgree<T>(lst: seq<T>, pred: T -> bool, before: nat, after: nat,
                                          r1: seq<Window<T>>, s1: seq<Bounds>, r2: seq<Window<T>>, s2: seq<Bounds>, k: nat)
    requires Extraction(lst, pred, before, after, r1, s1)
    requires Extraction(lst, pred, before, after, r2, s2)
    requires k < |s1| && k < |s2|
    ensures s1[k] == s2[k]
    decreases k
  {
    if k > 0 {
      WindowsAgree(lst, pred, before, after, r1, s1, r2, s2, k - 1);
    }
    FirstAgrees(lst, pred, before, after, r1, s1, r2, s2, k);
    LastNotBeyond(lst, pred, before, after, r1, s1, r2, s2, k);
    LastNotBeyond(lst, pred, before, after, r2, s2, r1, s1, k);
    assert Placed(lst, pred, before, after, s1[k]);
    assert Placed(lst, pred, before, after, s2[k]);
    PlacedByMatches(lst, pred, before, after, s1[k], s2[k]);
  }

  /** A placed window is fixed by its first and last match. */
  lemma PlacedByMatches<T>(lst: seq<T>, pred: T -> bool, before: nat, after: nat, x: Bounds, y: Bounds)
    requires Placed(lst, pred, before, after, x) && Placed(lst, pred, before, after, y)
    requires x.first == y.first && x.last == y.last
    ensures x == y
  {
  }

  /** Windows that follow the same window start at the same match. */
  lemma FirstAgrees<T>(lst: seq<T>, pred: T -> bool, before: nat, after: nat,
                       r1: seq<Window<T>>, s1: seq<Bounds>, r2: seq<Window<T>>, s2: seq<Bounds>, k: nat)
    requires Extraction(lst, pred, before, after, r1, s1)
    requires Extraction(lst, pred, before, after, r2, s2)
    requires k < |s1| && k < |s2|
    requires k > 0 ==> s1[k - 1] == s2[k - 1]
    ensures s1[k].first == s2[k].first
  {
    assert Placed(lst, pred, before, after, s1[k]);
    assert Placed(lst, pred, before, after, s2[k]);
    if k == 0 {
      FirstsAgree(lst, pred, 0, s1[0].first, s2[0].first);
    } else {
      assert Separated(lst, pred, before, after, s1[k - 1], s1[k]);
      assert Separated(lst, pred, before, after, s2[k - 1], s2[k]);
      FirstsAgree(lst, pred, s1[k - 1].last + 1, s1[k].first, s2[k].first);
    }
  }

  lemma NotMoreWindows<T>(lst: seq<T>, pred: T -> bool, before: nat, after: nat,
                          r1: seq<Window<T>>, s1: seq<Bounds>, r2: seq<Window<T>>, s2: seq<Bounds>)
    requires Extraction(lst, pred, before, after, r1, s1)
    requires Extraction(lst, pred, before, after, r2, s2)
    ensures |s1| <= |s2|
  {
    if |s2| < |s1| {
      assert Placed(lst, pred, before, after, s1[|s2|]);
      if |s2| > 0 {
        var k := |s2| - 1;
        assert Separated(lst, pred, before, after, s1[k], s1[k + 1]);
        WindowsAgree(lst, pred, before, after, r1, s1, r2, s2, k);
      }
      assert false;
    }
  }

  /** The contract of `ExtractWithContext` has exactly one solution: it
      says everything about the result. */
  lemma ExtractionUnique<T>(lst: seq<T>, pred: T -> bool, before: nat, after: nat,
                            r1: seq<Window<T>>, s1: seq<Bounds>, r2: seq<Window<T>>, s2: seq<Bounds>)
    requires Extraction(lst, pred, before, after, r1, s1)
    requires Extraction(lst, pred, before, after, r2, s2)
    ensures s1 == s2 && r1 == r2
  {
    NotMoreWindows(lst, pred, before, after, r1, s1, r2, s2);
    NotMoreWindows(lst, pred, before, after, r2, s2, r1, s1);
    forall k | 0 <= k < |s1|
      ensures s1[k] == s2[k] && r1[k] == r2[k]
    {
      WindowsAgree(lst, pred, before, after, r1, s1, r2, s2, k);
    }
  }

  /** Five units of which only the third matches, with one unit of context
      on each side: the code's single window holds the first four units,
      because it reads `before + 1` units ahead of a match. */
  lemma OneMatchInFive<T>(lst: seq<T>, pred: T -> bool, rval: seq<Window<T>>, spans: seq<Bounds>)
    requires |lst| == 5 && forall i :: 0 <= i < 5 ==> (pred(lst[i]) <==> i == 2)
    requires Extraction(lst, pred, 1, 1, rval, spans)
    ensures rval == [Window(lst[0..4], true, false)]
  {
    var s' := [Bounds(0, 2, 2, 4)];
    var r' := [Window(lst[0..4], true, false)];
    assert Placed(lst, pred, 1, 1, s'[0]);
    assert !NoMatchIn(lst, pred, 0, |lst|) by {
      assert pred(lst[2]);
    }
    assert Extraction(lst, pred, 1, 1, r', s');
    ExtractionUnique(lst, pred, 1, 1, rval, spans, r', s');
  }
}
