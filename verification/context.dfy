/** `extract_with_context` (urlscan/urlscan.py:318-374): one pass over a
    sequence of units (lines or paragraphs) that cuts out windows around the
    units that satisfy a predicate, with some units of context on each side.
    Windows whose matches lie close together are merged into one.

    The code reads `before + 1` units of context ahead of a window's first
    match, `after` units behind its last match, and merges two matches when
    at most `after + max(before, 1)` non-matching units separate them. The
    method returns, as a ghost companion, where each window lies; the
    contract pins every window down by the positions of the matches alone. */
module Context {

  /** One result triple `(lst[start:start + length], usedfirst, usedlast)`. */
  datatype Window<T> = Window(group: seq<T>, usedFirst: bool, usedLast: bool)

  /** Where a window lies: it is `lst[lo..hi]`, and `first` and `last` are
      the indices of its first and last matching units. */
  datatype Bounds = Bounds(lo: nat, first: nat, last: nat, hi: nat)

  function Max(x: int, y: int): int {
    if x < y then y else x
  }

  function Min(x: int, y: int): int {
    if x < y then x else y
  }

  /** The longest run of non-matching units a window can hold between two
      of its matches. */
  function Reach(before: nat, after: nat): nat {
    after + Max(before, 1)
  }

  /** No unit of `lst` with an index in `[lo, hi)` satisfies `pred`. */
  predicate NoMatchIn<T>(lst: seq<T>, pred: T -> bool, lo: int, hi: int) {
    forall i :: lo <= i < hi && 0 <= i < |lst| ==> !pred(lst[i])
  }

  /** The `t + 1` units from `x` on are all non-matching. */
  predicate Run<T>(lst: seq<T>, pred: T -> bool, x: int, t: nat) {
    NoMatchIn(lst, pred, x, x + t + 1)
  }

  /** Strictly between `first` and `last`, no run of more than `t`
      non-matching units. */
  predicate Dense<T>(lst: seq<T>, pred: T -> bool, first: nat, last: nat, t: nat) {
    forall x :: first < x && x + t < last ==> !Run(lst, pred, x, t)
  }

  /** A window in its place: the before-context is the `before + 1` units
      ahead of the first match (cut at the start of `lst`), the
      after-context the `after` units behind the last match (cut at the end
      of `lst`), neither context holds a match, and no gap between matches
      inside the window exceeds `Reach`. */
  predicate Placed<T>(lst: seq<T>, pred: T -> bool, before: nat, after: nat, b: Bounds) {
    && b.lo <= b.first <= b.last < b.hi <= |lst|
    && pred(lst[b.first]) && pred(lst[b.last])
    && b.lo == Max(0, b.first - before - 1)
    && b.hi == Min(|lst|, b.last + after + 1)
    && NoMatchIn(lst, pred, b.lo, b.first)
    && NoMatchIn(lst, pred, b.last + 1, b.hi)
    && Dense(lst, pred, b.first, b.last, Reach(before, after))
  }

  /** Two consecutive windows: nothing matches between them, and the gap
      between their matches is too wide to merge. */
  predicate Separated<T>(lst: seq<T>, pred: T -> bool, before: nat, after: nat, x: Bounds, y: Bounds) {
    && x.last < y.first
    && NoMatchIn(lst, pred, x.last + 1, y.first)
    && y.first - x.last - 1 > Reach(before, after)
  }

  /** The triple emitted for a window. */
  function WindowAt<T>(lst: seq<T>, b: Bounds): Window<T>
    requires b.lo <= b.hi <= |lst|
  {
    Window(lst[b.lo..b.hi], b.lo == 0, b.hi == |lst|)
  }

  /** The whole contract of `extract_with_context`. */
  ghost predicate Extraction<T>(lst: seq<T>, pred: T -> bool, before: nat, after: nat,
                                rval: seq<Window<T>>, spans: seq<Bounds>)
  {
    && |rval| == |spans|
    && (forall k :: 0 <= k < |spans| ==> Placed(lst, pred, before, after, spans[k]))
    && (forall k :: 0 <= k < |spans| ==>
          spans[k].lo <= spans[k].hi <= |lst| && rval[k] == WindowAt(lst, spans[k]))
    && (forall k :: 0 <= k < |spans| - 1 ==> Separated(lst, pred, before, after, spans[k], spans[k + 1]))
    && (spans == [] <==> NoMatchIn(lst, pred, 0, |lst|))
    && (spans != [] ==> NoMatchIn(lst, pred, 0, spans[0].first))
    && (spans != [] ==> NoMatchIn(lst, pred, spans[|spans| - 1].last + 1, |lst|))
  }

  // ---------------------------------------------------------------------
  // The scan, one phase per inner loop of the source

  /** The first two inner loops (urlscan/urlscan.py:327-334): take up to
      `before + 1` non-matching units as context, then slide the window
      forward until the unit after it matches or the list ends. */
  method ReadBefore<T>(lst: seq<T>, pred: T -> bool, before: nat, start0: nat)
    returns (start: nat, length: nat)
    requires start0 <= |lst|
    ensures start0 <= start && start + length <= |lst|
    ensures length <= before + 1
    ensures NoMatchIn(lst, pred, start0, start + length)
    ensures start + length < |lst| ==> pred(lst[start + length])
    ensures start > start0 ==> length == before + 1
  {
    start, length := start0, 0;
    while start + length < |lst| && length < before + 1 && !pred(lst[start + length])
      invariant start == start0 && start + length <= |lst| && length <= before + 1
      invariant NoMatchIn(lst, pred, start0, start + length)
      decreases |lst| - length
    {
      length := length + 1;
    }
    while start + length < |lst| && !pred(lst[start + length])
      invariant start0 <= start && start + length <= |lst| && length <= before + 1
      invariant start > start0 ==> length == before + 1
      invariant NoMatchIn(lst, pred, start0, start + length)
      decreases |lst| - start
    {
      start := start + 1;
    }
  }

  /** The after-context loop (urlscan/urlscan.py:340-344): from the match at
      `pos`, read up to `after` further units, stopping early at a match or
      at the end. */
  method ReadAfter<T>(lst: seq<T>, pred: T -> bool, after: nat, pos: nat)
    returns (extendLength: nat)
    requires pos < |lst|
    ensures 1 <= extendLength <= after + 1 && pos + extendLength <= |lst|
    ensures NoMatchIn(lst, pred, pos + 1, pos + extendLength)
    ensures pos + extendLength < |lst| && !pred(lst[pos + extendLength]) ==> extendLength == after + 1
  {
    extendLength := 1;
    while extendLength < after + 1 && pos + extendLength < |lst| && !pred(lst[pos + extendLength])
      invariant 1 <= extendLength <= after + 1 && pos + extendLength <= |lst|
      invariant NoMatchIn(lst, pred, pos + 1, pos + extendLength)
      decreases after + 1 - extendLength
    {
      extendLength := extendLength + 1;
    }
  }

  /** The look-ahead loop (urlscan/urlscan.py:353-357): from the
      non-matching unit at `pos`, look at most `max(before, 1)` units ahead
      for the next match. */
  method LookAhead<T>(lst: seq<T>, pred: T -> bool, before: nat, pos: nat)
    returns (extendLength: nat)
    requires pos < |lst|
    ensures 1 <= extendLength <= Max(before, 1) && pos + extendLength <= |lst|
    ensures NoMatchIn(lst, pred, pos + 1, pos + extendLength)
    ensures pos + extendLength < |lst| && !pred(lst[pos + extendLength]) ==> extendLength == Max(before, 1)
  {
    extendLength := 1;
    while extendLength < before && pos + extendLength < |lst| && !pred(lst[pos + extendLength])
      invariant 1 <= extendLength <= Max(before, 1) && pos + extendLength <= |lst|
      invariant NoMatchIn(lst, pred, pos + 1, pos + extendLength)
      decreases before - extendLength
    {
      extendLength := extendLength + 1;
    }
  }

  /** A match separated from the window's last match by at most `Reach`
      non-matching units keeps the window dense. */
  lemma DenseExtend<T>(lst: seq<T>, pred: T -> bool, first: nat, last: nat, next: nat, t: nat)
    requires first <= last < next < |lst| && pred(lst[last])
    requires Dense(lst, pred, first, last, t)
    requires NoMatchIn(lst, pred, last + 1, next) && next - last - 1 <= t
    ensures Dense(lst, pred, first, next, t)
  {
    forall x | first < x && x + t < next
      ensures !Run(lst, pred, x, t)
    {
      if x + t >= last && x <= last {
        assert x <= last < x + t + 1;
      }
    }
  }

  /** The merging loop (urlscan/urlscan.py:337-362): starting at the match
      at `first`, absorb after-context and every further match that lies
      within reach, and stop at the first gap too wide to bridge. */
  method ExtendWindow<T>(lst: seq<T>, pred: T -> bool, before: nat, after: nat, first: nat)
    returns (pos: nat, ghost last: nat)
    requires first < |lst| && pred(lst[first])
    ensures first <= last < pos <= |lst| && pred(lst[last])
    ensures pos == Min(|lst|, last + after + 1)
    ensures NoMatchIn(lst, pred, last + 1, pos)
    ensures Dense(lst, pred, first, last, Reach(before, after))
    ensures pos < |lst| ==> NoMatchIn(lst, pred, pos, pos + Max(before, 1) + 1)
  {
    pos, last := first, first;
    while pos < |lst| && pred(lst[pos])
      invariant first <= last <= pos <= |lst| && last < |lst| && pred(lst[last])
      invariant Dense(lst, pred, first, last, Reach(before, after))
      invariant pos < |lst| && pred(lst[pos]) ==> last == pos
      invariant !(pos < |lst| && pred(lst[pos])) ==>
        && last < pos == Min(|lst|, last + after + 1)
        && NoMatchIn(lst, pred, last + 1, pos)
        && (pos < |lst| ==> NoMatchIn(lst, pred, pos, pos + Max(before, 1) + 1))
      decreases |lst| - pos
    {
      var extendLength := ReadAfter(lst, pred, after, pos);
      pos := pos + extendLength;
      if pos < |lst| && !pred(lst[pos]) {
        extendLength := LookAhead(lst, pred, before, pos);
        if pos + extendLength < |lst| && pred(lst[pos + extendLength]) {
          pos := pos + extendLength;
          DenseExtend(lst, pred, first, last, pos, Reach(before, after));
          last := pos;
        }
      } else if pos < |lst| {
        DenseExtend(lst, pred, first, last, pos, Reach(before, after));
        last := pos;
      }
    }
  }

  /** One round of the outer loop (urlscan/urlscan.py:324-362): read the
      before-context from `start0`, slide to the next match and merge what
      lies within reach. `length == 0` reports that no match is left, where
      the source leaves the loop. */
  method NextWindow<T>(lst: seq<T>, pred: T -> bool, before: nat, after: nat, start0: nat)
    returns (start: nat, length: nat, ghost b: Bounds)
    requires start0 <= |lst|
    ensures start + length <= |lst|
    ensures length == 0 ==> NoMatchIn(lst, pred, start0, |lst|)
    ensures length > 0 ==> b.lo == start && b.hi == start + length && Found(lst, pred, before, after, start0, b)
  {
    start, length := ReadBefore(lst, pred, before, start0);
    if start + length == |lst| {
      return start, 0, Bounds(0, 0, 0, 0);
    }
    var first := start + length;
    var pos;
    ghost var last;
    pos, last := ExtendWindow(lst, pred, before, after, first);
    length := pos - start;
    b := Bounds(start, first, last, pos);
  }

  /** What one round establishes about the window it found. */
  ghost predicate Found<T>(lst: seq<T>, pred: T -> bool, before: nat, after: nat, start0: nat, b: Bounds) {
    && start0 <= b.lo <= b.first <= b.last < b.hi <= |lst|
    && pred(lst[b.first]) && pred(lst[b.last])
    && b.first - b.lo <= before + 1 && (b.lo > start0 ==> b.first - b.lo == before + 1)
    && NoMatchIn(lst, pred, start0, b.first)
    && b.hi == Min(|lst|, b.last + after + 1) && NoMatchIn(lst, pred, b.last + 1, b.hi)
    && Dense(lst, pred, b.first, b.last, Reach(before, after))
    && (b.hi < |lst| ==> NoMatchIn(lst, pred, b.hi, b.hi + Max(before, 1) + 1))
  }

  /** `extract_with_context(lst, pred, before, after)`. */
  method ExtractWithContext<T>(lst: seq<T>, pred: T -> bool, before: nat, after: nat)
    returns (rval: seq<Window<T>>, ghost spans: seq<Bounds>)
    ensures Extraction(lst, pred, before, after, rval, spans)
    ensures WindowsShaped(lst, pred, rval)
  {
    rval, spans := [], [];
    var start: nat := 0;
    while start < |lst|
      invariant Scanned(lst, pred, before, after, rval, spans, start)
      decreases |lst| - start
    {
      var start0 := start;
      var length;
      ghost var b;
      start, length, b := NextWindow(lst, pred, before, after, start0);
      if length == 0 {
        Finish(lst, pred, before, after, rval, spans, start0);
        return;
      }
      var window := Window(lst[start..start + length], start == 0, start + length == |lst|);
      assert window == WindowAt(lst, b);
      Admit(lst, pred, before, after, rval, spans, start0, b);
      rval, spans := rval + [window], spans + [b];
      start := start + length;
    }
    Finish(lst, pred, before, after, rval, spans, start);
  }

  /** What the scan has established when it is about to look for a window
      from `start`. */
  ghost predicate Scanned<T>(lst: seq<T>, pred: T -> bool, before: nat, after: nat,
                             rval: seq<Window<T>>, spans: seq<Bounds>, start: nat)
  {
    && start <= |lst| && |rval| == |spans|
    && (forall k :: 0 <= k < |spans| ==> Placed(lst, pred, before, after, spans[k]))
    && (forall k :: 0 <= k < |spans| ==>
          spans[k].lo <= spans[k].hi <= |lst| && rval[k] == WindowAt(lst, spans[k]))
    && (forall k :: 0 <= k < |spans| - 1 ==> Separated(lst, pred, before, after, spans[k], spans[k + 1]))
    && (spans == [] ==> start == 0)
    && (spans != [] ==> NoMatchIn(lst, pred, 0, spans[0].first))
    && (spans != [] ==> start == spans[|spans| - 1].hi)
    && (spans != [] && start < |lst| ==>
          start == spans[|spans| - 1].last + after + 1
          && NoMatchIn(lst, pred, start, start + Max(before, 1) + 1))
  }

  /** The new window `b`, found by scanning from `start0`, is in its place
      and separated from the previous one. */
  lemma Admit<T>(lst: seq<T>, pred: T -> bool, before: nat, after: nat,
                 rval: seq<Window<T>>, spans: seq<Bounds>, start0: nat, b: Bounds)
    requires Scanned(lst, pred, before, after, rval, spans, start0)
    requires Found(lst, pred, before, after, start0, b)
    ensures Scanned(lst, pred, before, after, rval + [WindowAt(lst, b)], spans + [b], b.hi)
  {
    var rval', spans' := rval + [WindowAt(lst, b)], spans + [b];
    AdmitPlaced(lst, pred, before, after, rval, spans, start0, b);
    forall k | 0 <= k < |spans'|
      ensures Placed(lst, pred, before, after, spans'[k])
      ensures spans'[k].lo <= spans'[k].hi <= |lst| && rval'[k] == WindowAt(lst, spans'[k])
    {
      if k < |spans| {
        assert spans'[k] == spans[k] && rval'[k] == rval[k];
      }
    }
    forall k | 0 <= k < |spans'| - 1
      ensures Separated(lst, pred, before, after, spans'[k], spans'[k + 1])
    {
      if k + 1 < |spans| {
        assert spans'[k] == spans[k] && spans'[k + 1] == spans[k + 1];
      } else {
        AdmitSeparated(lst, pred, before, after, rval, spans, start0, b);
        assert spans'[k] == spans[|spans| - 1];
      }
    }
    assert spans'[0] == if spans == [] then b else spans[0];
  }

  lemma AdmitPlaced<T>(lst: seq<T>, pred: T -> bool, before: nat, after: nat,
                       rval: seq<Window<T>>, spans: seq<Bounds>, start0: nat, b: Bounds)
    requires Scanned(lst, pred, before, after, rval, spans, start0)
    requires Found(lst, pred, before, after, start0, b)
    ensures Placed(lst, pred, before, after, b)
  {
    if spans != [] {
      assert b.first >= start0 + Max(before, 1) + 1;
    }
  }

  lemma AdmitSeparated<T>(lst: seq<T>, pred: T -> bool, before: nat, after: nat,
                          rval: seq<Window<T>>, spans: seq<Bounds>, start0: nat, b: Bounds)
    requires Scanned(lst, pred, before, after, rval, spans, start0)
    requires Found(lst, pred, before, after, start0, b)
    requires spans != []
    ensures Separated(lst, pred, before, after, spans[|spans| - 1], b)
  {
    var p := spans[|spans| - 1];
    assert Placed(lst, pred, before, after, p);
    assert b.first >= start0 + Max(before, 1) + 1;
  }

  /** No further match after `start0`: the scan ends with what it has. */
  lemma Finish<T>(lst: seq<T>, pred: T -> bool, before: nat, after: nat,
                  rval: seq<Window<T>>, spans: seq<Bounds>, start0: nat)
    requires Scanned(lst, pred, before, after, rval, spans, start0)
    requires NoMatchIn(lst, pred, start0, |lst|)
    ensures Extraction(lst, pred, before, after, rval, spans)
    ensures WindowsShaped(lst, pred, rval)
  {
    if spans != [] {
      var p := spans[|spans| - 1];
      assert Placed(lst, pred, before, after, p);
      assert NoMatchIn(lst, pred, p.last + 1, p.hi);
      assert !NoMatchIn(lst, pred, 0, |lst|) by {
        assert Placed(lst, pred, before, after, spans[0]);
        assert pred(lst[spans[0].first]);
      }
    }
    ExtractionShaped(lst, pred, before, after, rval, spans);
  }

  /** What can be said of the windows without their positions: there are
      none exactly when nothing matches, none is empty, and one flagged as
      starting the list is a prefix of it. */
  ghost predicate WindowsShaped<T>(lst: seq<T>, pred: T -> bool, rval: seq<Window<T>>) {
    && (rval == [] <==> NoMatchIn(lst, pred, 0, |lst|))
    && (forall k :: 0 <= k < |rval| ==> |rval[k].group| > 0)
    && (forall k :: 0 <= k < |rval| ==> (rval[k].usedFirst ==> rval[k].group <= lst))
  }

  lemma ExtractionShaped<T>(lst: seq<T>, pred: T -> bool, before: nat, after: nat,
                            rval: seq<Window<T>>, spans: seq<Bounds>)
    requires Extraction(lst, pred, before, after, rval, spans)
    ensures WindowsShaped(lst, pred, rval)
  {
    forall k | 0 <= k < |rval|
      ensures |rval[k].group| > 0 && (rval[k].usedFirst ==> rval[k].group <= lst)
    {
      assert Placed(lst, pred, before, after, spans[k]);
      assert rval[k] == WindowAt(lst, spans[k]);
    }
  }
}
