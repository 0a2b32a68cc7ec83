/** Python's whitespace collapsing `' '.join(s.split())`, which the HTML
    chunker applies to every run of character data. */
module Whitespace {
  import opened Text

  /** A word of `str.split()`: non-empty and free of whitespace. */
  predicate IsWord(w: string) {
    |w| > 0 && forall i :: 0 <= i < |w| ==> !IsSpace(w[i])
  }

  predicate AllWords(ws: seq<string>) {
    forall i :: 0 <= i < |ws| ==> IsWord(ws[i])
  }

  /** Length of the leading run of non-whitespace characters. */
  function WordLength(s: string): (k: nat)
    ensures k <= |s|
    ensures forall i :: 0 <= i < k ==> !IsSpace(s[i])
    ensures k < |s| ==> IsSpace(s[k])
  {
    if s == [] || IsSpace(s[0]) then 0 else 1 + WordLength(s[1..])
  }

  /** `s.split()` with no separator: the maximal whitespace-free runs. */
  function Words(s: string): (ws: seq<string>)
    ensures AllWords(ws)
    decreases |s|
  {
    if s == [] then []
    else if IsSpace(s[0]) then Words(s[1..])
    else
      var k := WordLength(s);
      [s[..k]] + Words(s[k..])
  }

  /** `' '.join(ws)`. */
  function Join(ws: seq<string>): string {
    if ws == [] then ""
    else if |ws| == 1 then ws[0]
    else ws[0] + " " + Join(ws[1..])
  }

  function Collapse(s: string): string {
    Join(Words(s))
  }

  /** The shape of collapsed text: no whitespace at either end, single
      ASCII spaces only, never two in a row. */
  predicate Collapsed(r: string) {
    && (r == "" || (!IsSpace(r[0]) && !IsSpace(r[|r| - 1])))
    && (forall i :: 0 <= i < |r| && IsSpace(r[i]) ==> r[i] == ' ')
    && (forall i :: 0 <= i < |r| - 1 ==> !(IsSpace(r[i]) && IsSpace(r[i + 1])))
  }

  /** The characters of `s` that are not whitespace, in order. */
  function NonSpace(s: string): (r: string)
    ensures forall i :: 0 <= i < |r| ==> !IsSpace(r[i])
  {
    if s == [] then ""
    else if IsSpace(s[0]) then NonSpace(s[1..])
    else [s[0]] + NonSpace(s[1..])
  }

  function Concat(ws: seq<string>): string {
    if ws == [] then "" else ws[0] + Concat(ws[1..])
  }

  lemma {:induction false} JoinCollapsed(ws: seq<string>)
    requires AllWords(ws)
    ensures Collapsed(Join(ws))
    ensures ws != [] ==> Join(ws) != ""
  {
    if |ws| > 1 {
      var w, j := ws[0], Join(ws[1..]);
      JoinCollapsed(ws[1..]);
      var r := w + " " + j;
      assert r == Join(ws);
      forall i | 0 <= i < |r| - 1
        ensures !(IsSpace(r[i]) && IsSpace(r[i + 1]))
      {
        if i >= |w| + 1 {
          assert r[i] == j[i - |w| - 1] && r[i + 1] == j[i - |w|];
        }
      }
      forall i | 0 <= i < |r| && IsSpace(r[i])
        ensures r[i] == ' '
      {
        if i > |w| {
          assert r[i] == j[i - |w| - 1];
        }
      }
    }
  }

  /** The collapsed text has the collapsed shape. */
  lemma CollapseIsCollapsed(s: string)
    ensures Collapsed(Collapse(s))
  {
    JoinCollapsed(Words(s));
  }

  lemma WordOfWord(w: string)
    requires IsWord(w)
    ensures Words(w) == [w]
  {
    WordLengthAll(w);
    assert w[..|w|] == w && w[|w|..] == [];
  }

  lemma {:induction false} WordLengthAll(w: string)
    requires forall i :: 0 <= i < |w| ==> !IsSpace(w[i])
    ensures WordLength(w) == |w|
  {
    if w != [] {
      WordLengthAll(w[1..]);
    }
  }

  lemma WordsOfSpaced(w: string, j: string)
    requires IsWord(w)
    ensures Words(w + " " + j) == [w] + Words(j)
  {
    var r := w + " " + j;
    assert r[..|w|] == w;
    assert r[|w|] == ' ';
    assert WordLength(r) == |w| by {
      WordLengthIs(r, |w|);
    }
    assert r[|w|..][1..] == j;
  }

  lemma {:induction false} WordLengthIs(s: string, k: nat)
    requires k < |s| && IsSpace(s[k])
    requires forall i :: 0 <= i < k ==> !IsSpace(s[i])
    ensures WordLength(s) == k
  {
    if k > 0 {
      WordLengthIs(s[1..], k - 1);
    }
  }

  /** Splitting the joined words gives the words back. */
  lemma {:induction false} WordsOfJoin(ws: seq<string>)
    requires AllWords(ws)
    ensures Words(Join(ws)) == ws
  {
    if |ws| == 1 {
      WordOfWord(ws[0]);
    } else if |ws| > 1 {
      WordsOfSpaced(ws[0], Join(ws[1..]));
      WordsOfJoin(ws[1..]);
    }
  }

  /** Collapsing keeps exactly the words of the data. */
  lemma WordsOfCollapse(s: string)
    ensures Words(Collapse(s)) == Words(s)
  {
    WordsOfJoin(Words(s));
  }

  /** Collapsing twice is collapsing once. */
  lemma CollapseIdempotent(s: string)
    ensures Collapse(Collapse(s)) == Collapse(s)
  {
    WordsOfCollapse(s);
  }

  /** Text that already has the collapsed shape is left as it is. */
  lemma {:induction false} CollapsedIsFixed(r: string)
    requires Collapsed(r)
    ensures Collapse(r) == r
    decreases |r|
  {
    if r != "" {
      var k := WordLength(r);
      if k == |r| {
        assert IsWord(r);
        WordOfWord(r);
      } else {
        assert 0 < k < |r| - 1;
        var w, j := r[..k], r[k + 1..];
        assert r == w + " " + j;
        assert IsWord(w);
        assert !IsSpace(j[0]);
        assert Collapsed(j) by {
          forall i | 0 <= i < |j| - 1
            ensures !(IsSpace(j[i]) && IsSpace(j[i + 1]))
          {
            assert j[i] == r[k + 1 + i] && j[i + 1] == r[k + 2 + i];
          }
          forall i | 0 <= i < |j| && IsSpace(j[i])
            ensures j[i] == ' '
          {
            assert j[i] == r[k + 1 + i];
          }
        }
        CollapsedIsFixed(j);
        WordsOfSpaced(w, j);
        JoinCollapsed(Words(j));
        assert Words(j) != [];
        assert Join([w] + Words(j)) == w + " " + Join(Words(j));
      }
    }
  }

  lemma {:induction false} WordLengthNonSpace(s: string)
    ensures NonSpace(s) == s[..WordLength(s)] + NonSpace(s[WordLength(s)..])
  {
    if s != [] && !IsSpace(s[0]) {
      WordLengthNonSpace(s[1..]);
      assert s[1..][..WordLength(s[1..])] == s[1..WordLength(s)];
      assert s[1..][WordLength(s[1..])..] == s[WordLength(s)..];
    }
  }

  /** The words are exactly the non-whitespace characters of `s`, cut into
      pieces: nothing but whitespace is dropped. */
  lemma {:induction false} WordsCover(s: string)
    ensures Concat(Words(s)) == NonSpace(s)
    decreases |s|
  {
    if s != [] {
      if IsSpace(s[0]) {
        WordsCover(s[1..]);
      } else {
        var k := WordLength(s);
        WordsCover(s[k..]);
        WordLengthNonSpace(s);
        assert ([s[..k]] + Words(s[k..]))[1..] == Words(s[k..]);
      }
    }
  }

  /** Data collapses to nothing exactly when it is all whitespace. */
  lemma {:induction false} CollapseEmpty(s: string)
    ensures Collapse(s) == "" <==> forall i :: 0 <= i < |s| ==> IsSpace(s[i])
    decreases |s|
  {
    JoinCollapsed(Words(s));
    if s != [] {
      if IsSpace(s[0]) {
        CollapseEmpty(s[1..]);
        assert forall i :: 1 <= i < |s| ==> s[i] == s[1..][i - 1];
      }
    }
  }
}
