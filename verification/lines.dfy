/** Line splitting: `nlre.split` (urlscan/urlscan.py:377, used by
    `extracturls`) and `str.splitlines` (used when reading the TLD list).
    Both treat "\r\n" as one break. */
module Lines {
  import opened Text

  /** `Newlines` are the breaks of the pattern `\r\n|\n|\r`; `Boundaries`
      are the line boundaries of Python's `str.splitlines`. */
  datatype Breaks = Newlines | Boundaries

  predicate IsBreak(kind: Breaks, c: char) {
    || c == '\n'
    || c == '\r'
    || (kind == Boundaries &&
          (|| c == '\U{B}' || c == '\U{C}'
           || ('\U{1C}' <= c <= '\U{1E}')
           || c == '\U{85}' || c == '\U{2028}' || c == '\U{2029}'))
  }

  predicate BreakFree(kind: Breaks, s: string) {
    forall i :: 0 <= i < |s| ==> !IsBreak(kind, s[i])
  }

  /** Index of the first break character, or `|s|` when there is none. */
  function FirstBreak(kind: Breaks, s: string): (k: nat)
    ensures k <= |s|
  {
    BreakFrom(kind, s, 0)
  }

  /** Index of the first break character at or after `i`. */
  function BreakFrom(kind: Breaks, s: string, i: nat): (k: nat)
    requires i <= |s|
    ensures i <= k <= |s|
    decreases |s| - i
  {
    if i == |s| || IsBreak(kind, s[i]) then i
    else BreakFrom(kind, s, i + 1)
  }

  /** Everything before the first break is break-free, and the first break
      is a break. */
  lemma FirstBreakSpec(kind: Breaks, s: string)
    ensures var k := FirstBreak(kind, s);
            BreakFree(kind, s[..k]) && (k < |s| ==> IsBreak(kind, s[k]))
  {
    BreakFromSpec(kind, s, 0);
  }

  lemma {:induction false} BreakFromSpec(kind: Breaks, s: string, i: nat)
    requires i <= |s|
    ensures var k := BreakFrom(kind, s, i);
            (forall m :: i <= m < k ==> !IsBreak(kind, s[m])) && (k < |s| ==> IsBreak(kind, s[k]))
    decreases |s| - i
  {
    if i < |s| && !IsBreak(kind, s[i]) {
      BreakFromSpec(kind, s, i + 1);
    }
  }

  /** Length of the break starting at index `k`: two for "\r\n", else one. */
  function BreakLength(s: string, k: nat): (n: nat)
    requires k < |s|
    ensures 1 <= n <= 2 && k + n <= |s|
  {
    if s[k] == '\r' && k + 1 < |s| && s[k + 1] == '\n' then 2 else 1
  }

  /** The pieces between breaks, in order; a break at the very end yields a
      final empty piece, as `re.split` does. */
  function Split(kind: Breaks, s: string): (r: seq<string>)
    ensures |r| > 0
    decreases |s|
  {
    var k := FirstBreak(kind, s);
    if k == |s| then [s]
    else [s[..k]] + Split(kind, s[k + BreakLength(s, k)..])
  }

  /** `nlre.split(s)`. */
  function NlSplit(s: string): seq<string> {
    Split(Newlines, s)
  }

  /** `s.splitlines()`: like `Split`, but a break at the very end (or an empty
      text) contributes no final empty line. */
  function SplitLines(s: string): (r: seq<string>)
    ensures forall i :: 0 <= i < |r| ==> BreakFree(Boundaries, r[i])
    ensures r == [] <==> s == []
  {
    var p := Split(Boundaries, s);
    SplitPiecesBreakFree(Boundaries, s);
    if s == [] then []
    else if p[|p| - 1] == "" then p[..|p| - 1]
    else p
  }

  /** No piece holds a break. */
  lemma {:induction false} SplitPiecesBreakFree(kind: Breaks, s: string)
    ensures forall i :: 0 <= i < |Split(kind, s)| ==> BreakFree(kind, Split(kind, s)[i])
    decreases |s|
  {
    var k := FirstBreak(kind, s);
    FirstBreakSpec(kind, s);
    if k < |s| {
      SplitUnfold(kind, s);
      SplitPiecesBreakFree(kind, s[k + BreakLength(s, k)..]);
    } else {
      assert s[..k] == s;
    }
  }

  /** One step of `Split` at the first break. */
  lemma SplitUnfold(kind: Breaks, s: string)
    requires FirstBreak(kind, s) < |s|
    ensures var k := FirstBreak(kind, s);
            Split(kind, s) == [s[..k]] + Split(kind, s[k + BreakLength(s, k)..])
  {
  }

  /** Every piece produced by splitting is a contiguous part of the text. */
  lemma SplitInfix(kind: Breaks, s: string, j: nat)
    requires j < |Split(kind, s)|
    ensures IsInfix(Split(kind, s)[j], s)
  {
    var a := SplitOffset(kind, s, j);
  }

  /** Where piece `j` sits in the text. */
  lemma {:induction false} SplitOffset(kind: Breaks, s: string, j: nat) returns (a: nat)
    requires j < |Split(kind, s)|
    ensures a <= |s| && OccursAt(s, Split(kind, s)[j], a)
    decreases |s|
  {
    if j == 0 {
      a := HeadOffset(kind, s);
    } else {
      SplitTail(kind, s, j);
      var k := FirstBreak(kind, s);
      var rest := s[k + BreakLength(s, k)..];
      var b := SplitOffset(kind, rest, j - 1);
      a := OccursInSuffix(s, k + BreakLength(s, k), Split(kind, rest)[j - 1], b);
    }
  }

  lemma HeadOffset(kind: Breaks, s: string) returns (a: nat)
    ensures a <= |s| && OccursAt(s, Split(kind, s)[0], a)
  {
    SplitHead(kind, s);
    var k := FirstBreak(kind, s);
    assert s[0..k] == s[..k];
    a := 0;
  }

  /** A piece after the first is a piece of the text after the first break. */
  lemma SplitTail(kind: Breaks, s: string, j: nat)
    requires 0 < j < |Split(kind, s)|
    ensures FirstBreak(kind, s) < |s|
    ensures var rest := s[FirstBreak(kind, s) + BreakLength(s, FirstBreak(kind, s))..];
            j - 1 < |Split(kind, rest)| && Split(kind, s)[j] == Split(kind, rest)[j - 1]
  {
    SplitUnfold(kind, s);
  }

  /** The first piece is the text before the first break. */
  lemma SplitHead(kind: Breaks, s: string)
    ensures Split(kind, s)[0] == s[..FirstBreak(kind, s)]
  {
    assert s[..|s|] == s;
  }

  /** A text without a break is one piece. */
  lemma SplitWhole(kind: Breaks, s: string)
    requires FirstBreak(kind, s) == |s|
    ensures Split(kind, s) == [s[..|s|]]
  {
    assert s[..|s|] == s;
  }

  /** A prefix is a part. */
  lemma PrefixInfix(s: string, k: nat)
    requires k <= |s|
    ensures IsInfix(s[..k], s)
  {
    assert OccursAt(s, s[..k], 0);
  }

  /** A part of a suffix is a part of the whole. */
  lemma OccursInSuffix(s: string, off: nat, q: string, b: nat) returns (a: nat)
    requires off <= |s| && OccursAt(s[off..], q, b)
    ensures a == off + b && a <= |s| && OccursAt(s, q, a)
  {
    assert s[off + b..off + b + |q|] == s[off..][b..b + |q|];
    a := off + b;
  }

  lemma SplitLinesInfix(s: string, j: nat)
    requires j < |SplitLines(s)|
    ensures IsInfix(SplitLines(s)[j], s)
  {
    SplitInfix(Boundaries, s, j);
  }

  /** A break sequence: "\r\n" or a single break character. */
  predicate IsSeparator(kind: Breaks, sep: string) {
    sep == "\r\n" || (|sep| == 1 && IsBreak(kind, sep[0]))
  }

  /** "\r" directly followed by "\n" is one break, not two. */
  predicate Glues(sep: string, b: string) {
    sep == "\r" && |b| > 0 && b[0] == '\n'
  }

  /** A text without breaks is a single piece. */
  lemma SplitBreakFree(kind: Breaks, a: string)
    requires BreakFree(kind, a)
    ensures Split(kind, a) == [a]
  {
    FirstBreakNone(kind, a);
  }

  lemma FirstBreakNone(kind: Breaks, s: string)
    requires BreakFree(kind, s)
    ensures FirstBreak(kind, s) == |s|
  {
    BreakFromIs(kind, s, 0, |s|);
  }

  /** Splitting consumes exactly one separator at a time: a break-free line,
      a separator and the rest split into the line followed by the pieces of
      the rest. With `SplitBreakFree` this determines `Split` on every text. */
  lemma SplitCons(kind: Breaks, a: string, sep: string, b: string)
    requires BreakFree(kind, a) && IsSeparator(kind, sep) && !Glues(sep, b)
    ensures Split(kind, a + sep + b) == [a] + Split(kind, b)
  {
    var s := a + sep + b;
    assert s[..|a|] == a;
    FirstBreakIs(kind, s, |a|);
    assert s[|a| + BreakLength(s, |a|)..] == b;
  }

  lemma FirstBreakIs(kind: Breaks, s: string, k: nat)
    requires k < |s| && BreakFree(kind, s[..k]) && IsBreak(kind, s[k])
    ensures FirstBreak(kind, s) == k
  {
    assert forall m :: 0 <= m < k ==> s[..k][m] == s[m];
    BreakFromIs(kind, s, 0, k);
  }

  /** The scan from `i` stops at `k` when there is no break in between and
      `k` is a break or the end. */
  lemma {:induction false} BreakFromIs(kind: Breaks, s: string, i: nat, k: nat)
    requires i <= k <= |s| && (k < |s| ==> IsBreak(kind, s[k]))
    requires forall m :: i <= m < k ==> !IsBreak(kind, s[m])
    ensures BreakFrom(kind, s, i) == k
    decreases k - i
  {
    if i < k {
      BreakFromIs(kind, s, i + 1, k);
    }
  }

  /** "\r\n" is a single break: it separates exactly two pieces. */
  lemma CrLfIsOneBreak(kind: Breaks)
    ensures Split(kind, "\r\n") == ["", ""]
  {
    SplitCons(kind, "", "\r\n", "");
    SplitBreakFree(kind, "");
  }

  /** A final break adds exactly one empty last piece. */
  lemma {:induction false} SplitFinalBreak(kind: Breaks, t: string, sep: string)
    requires IsSeparator(kind, sep)
    requires !(sep == "\n" && |t| > 0 && t[|t| - 1] == '\r')
    ensures Split(kind, t + sep) == Split(kind, t) + [""]
    decreases |t|
  {
    var k := FirstBreak(kind, t);
    if k == |t| {
      SplitNoBreakThenBreak(kind, t, sep);
    } else {
      var n := BreakLength(t, k);
      var rest := t[k + n..];
      SplitAtFirstBreak(kind, t, sep, k, n);
      assert !(sep == "\n" && |rest| > 0 && rest[|rest| - 1] == '\r') by {
        assert |rest| > 0 ==> rest[|rest| - 1] == t[|t| - 1];
      }
      SplitFinalBreak(kind, rest, sep);
      assert [t[..k]] + (Split(kind, rest) + [""]) == [t[..k]] + Split(kind, rest) + [""];
    }
  }

  /** The base case of `SplitFinalBreak`: a break-free text and a break. */
  lemma SplitNoBreakThenBreak(kind: Breaks, t: string, sep: string)
    requires IsSeparator(kind, sep) && FirstBreak(kind, t) == |t|
    ensures Split(kind, t + sep) == Split(kind, t) + [""]
  {
    FirstBreakSpec(kind, t);
    assert t[..|t|] == t;
    SplitCons(kind, t, sep, "");
    assert t + sep == t + sep + "";
    SplitBreakFree(kind, "");
    SplitBreakFree(kind, t);
  }

  /** One step of `SplitFinalBreak`: the first break of `t` is also the first
      break of `t + sep`. */
  lemma SplitAtFirstBreak(kind: Breaks, t: string, sep: string, k: nat, n: nat)
    requires IsSeparator(kind, sep)
    requires !(sep == "\n" && |t| > 0 && t[|t| - 1] == '\r')
    requires k == FirstBreak(kind, t) < |t| && n == BreakLength(t, k)
    ensures Split(kind, t) == [t[..k]] + Split(kind, t[k + n..])
    ensures Split(kind, t + sep) == [t[..k]] + Split(kind, t[k + n..] + sep)
  {
    SplitUnfold(kind, t);
    FirstBreakOfExtension(kind, t, sep, k, n);
  }

  lemma FirstBreakOfExtension(kind: Breaks, t: string, sep: string, k: nat, n: nat)
    requires IsSeparator(kind, sep)
    requires !(sep == "\n" && |t| > 0 && t[|t| - 1] == '\r')
    requires k == FirstBreak(kind, t) < |t| && n == BreakLength(t, k)
    ensures Split(kind, t + sep) == [t[..k]] + Split(kind, t[k + n..] + sep)
  {
    var a, b, rest := t[..k], t[k..k + n], t[k + n..];
    SeparatorAt(kind, t, k);
    assert t + sep == a + b + (rest + sep);
    GlueFree(t, sep, k, n);
    SplitCons(kind, a, b, rest + sep);
  }

  lemma GlueFree(t: string, sep: string, k: nat, n: nat)
    requires (|sep| > 0 && sep[0] != '\n') || !(|t| > 0 && t[|t| - 1] == '\r')
    requires k < |t| && n == BreakLength(t, k)
    ensures !Glues(t[k..k + n], t[k + n..] + sep)
  {
    if t[k..k + n] == "\r" && k + n == |t| {
      assert t[|t| - 1] == '\r';
    }
  }

  /** The first break of `t` is a separator that does not glue onto what
      follows it. */
  lemma SeparatorAt(kind: Breaks, t: string, k: nat)
    requires k == FirstBreak(kind, t) < |t|
    ensures var n := BreakLength(t, k);
            && IsSeparator(kind, t[k..k + n])
            && BreakFree(kind, t[..k])
            && (t[k..k + n] == "\r" ==> k + 1 == |t| || t[k + 1] != '\n')
  {
    FirstBreakSpec(kind, t);
    var n := BreakLength(t, k);
    if n == 2 {
      assert t[k..k + n] == "\r\n";
    } else {
      assert t[k..k + n] == [t[k]];
    }
  }

  /** `splitlines` drops the empty piece that a final break produces. */
  lemma SplitLinesFinalBreak(t: string, sep: string)
    requires IsSeparator(Boundaries, sep)
    requires !(sep == "\n" && |t| > 0 && t[|t| - 1] == '\r')
    ensures SplitLines(t + sep) == Split(Boundaries, t)
  {
    SplitFinalBreak(Boundaries, t, sep);
    var p := Split(Boundaries, t);
    assert (p + [""])[..|p|] == p;
  }

  /** The lines of a text each followed by "\n", as a file holding them
      would be written. */
  function JoinLines(ls: seq<string>): (r: string)
    ensures ls == [] <==> r == []
  {
    if ls == [] then "" else ls[0] + "\n" + JoinLines(ls[1..])
  }

  /** Splitting the joined lines gives them back, with the empty piece after
      the last break. */
  lemma {:induction false} SplitJoinLines(kind: Breaks, ls: seq<string>)
    requires forall i :: 0 <= i < |ls| ==> BreakFree(kind, ls[i])
    ensures Split(kind, JoinLines(ls)) == ls + [""]
  {
    if ls == [] {
      SplitBreakFree(kind, "");
    } else {
      SplitCons(kind, ls[0], "\n", JoinLines(ls[1..]));
      SplitJoinLines(kind, ls[1..]);
      assert ls == [ls[0]] + ls[1..];
    }
  }

  /** `str.splitlines` undoes `JoinLines`: a break-free first line followed
      by joined lines splits into that line and the joined ones. */
  lemma SplitLinesJoin(h: string, ls: seq<string>)
    requires BreakFree(Boundaries, h)
    requires forall i :: 0 <= i < |ls| ==> BreakFree(Boundaries, ls[i])
    ensures SplitLines(h + "\n" + JoinLines(ls)) == [h] + ls
  {
    SplitHeadJoin(h, ls);
    SplitLinesDropsLast(h + "\n" + JoinLines(ls), [h] + ls);
  }

  lemma SplitHeadJoin(h: string, ls: seq<string>)
    requires BreakFree(Boundaries, h)
    requires forall i :: 0 <= i < |ls| ==> BreakFree(Boundaries, ls[i])
    ensures Split(Boundaries, h + "\n" + JoinLines(ls)) == ([h] + ls) + [""]
  {
    SplitCons(Boundaries, h, "\n", JoinLines(ls));
    SplitJoinLines(Boundaries, ls);
  }

  /** `str.splitlines` drops the empty piece after a final break. */
  lemma SplitLinesDropsLast(t: string, q: seq<string>)
    requires t != [] && Split(Boundaries, t) == q + [""]
    ensures SplitLines(t) == q
  {
    assert (q + [""])[..|q|] == q;
  }
}
