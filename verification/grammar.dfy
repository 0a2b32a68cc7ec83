/** The URL grammar of urlscan/urlscan.py:247-289: the TLD list it is built
    from, and recognisers for the three alternatives of `urlre` (scheme URLs,
    "guessed" bare domains, e-mail addresses) as `urlre.match` applies them at
    the start of a string. `\w` is taken to be the ASCII word characters. */
module Grammar {
  import opened Text
  import Lines

  // ---------------------------------------------------------------------
  // The TLD list (load_tlds, urlscan/urlscan.py:254-260)

  /** The TLDs read from the text of the TLD file: lower-case the text, split
      it into lines, skip the first (header) line and drop every entry that
      contains "--". */
  function TldsFromFile(text: string): (r: seq<string>)
    ensures forall t :: t in r ==> !Contains(t, "--")
    ensures forall t, i :: t in r && 0 <= i < |t| ==> !IsUpper(t[i])
  {
    var lines := Lines.SplitLines(Lower(text));
    LowerLines(text);
    KeepTlds(if |lines| == 0 then [] else lines[1..])
  }

  lemma LowerLines(text: string)
    ensures forall l, i :: l in Lines.SplitLines(Lower(text)) && 0 <= i < |l| ==> !IsUpper(l[i])
  {
    var lines := Lines.SplitLines(Lower(text));
    forall l, i | l in lines && 0 <= i < |l|
      ensures !IsUpper(l[i])
    {
      var j :| 0 <= j < |lines| && lines[j] == l;
      Lines.SplitLinesInfix(Lower(text), j);
      InfixChar(l, Lower(text), i);
    }
  }

  /** The filter `[elem for elem in lines if "--" not in elem]`: it keeps
      exactly the entries without "--", in their original order. */
  function KeepTlds(lines: seq<string>): (r: seq<string>)
    ensures forall t :: t in r <==> t in lines && !Contains(t, "--")
    ensures |r| <= |lines|
  {
    if lines == [] then []
    else if Contains(lines[0], "--") then KeepTlds(lines[1..])
    else [lines[0]] + KeepTlds(lines[1..])
  }

  /** The filter keeps the order of the entries it keeps. */
  lemma {:induction false} KeepTldsOrder(lines: seq<string>, x: seq<string>, y: seq<string>)
    requires x + y == lines
    ensures KeepTlds(lines) == KeepTlds(x) + KeepTlds(y)
  {
    if x != [] {
      assert lines[0] == x[0];
      assert lines[1..] == x[1..] + y;
      KeepTldsOrder(lines[1..], x[1..], y);
    } else {
      assert lines == y;
    }
  }

  /** Reading a TLD file gives back the entries written to it after its
      header line, provided they are lower case and free of "--". */
  lemma TldsFileRoundTrip(header: string, tlds: seq<string>)
    requires Lines.BreakFree(Lines.Boundaries, header)
    requires forall i :: 0 <= i < |tlds| ==> Lines.BreakFree(Lines.Boundaries, tlds[i])
    requires forall i :: 0 <= i < |tlds| ==> !Contains(tlds[i], "--")
    requires forall i, j :: 0 <= i < |tlds| && 0 <= j < |tlds[i]| ==> !IsUpper(tlds[i][j])
    ensures TldsFromFile(header + "\n" + Lines.JoinLines(tlds)) == tlds
  {
    var text := header + "\n" + Lines.JoinLines(tlds);
    assert Lower(text) == Lower(header) + "\n" + Lines.JoinLines(tlds) by {
      LowerConcat(header + "\n", Lines.JoinLines(tlds));
      LowerConcat(header, "\n");
      LowerJoinLines(tlds);
    }
    assert Lines.BreakFree(Lines.Boundaries, Lower(header)) by {
      forall i | 0 <= i < |header|
        ensures !Lines.IsBreak(Lines.Boundaries, Lower(header)[i])
      {
        LowerAt(header, i);
      }
    }
    Lines.SplitLinesJoin(Lower(header), tlds);
    assert ([Lower(header)] + tlds)[1..] == tlds;
    KeepAllTlds(tlds);
  }

  lemma {:induction false} LowerJoinLines(ls: seq<string>)
    requires forall i, j :: 0 <= i < |ls| && 0 <= j < |ls[i]| ==> !IsUpper(ls[i][j])
    ensures Lower(Lines.JoinLines(ls)) == Lines.JoinLines(ls)
  {
    if ls != [] {
      var rest := Lines.JoinLines(ls[1..]);
      LowerConcat(ls[0] + "\n", rest);
      LowerConcat(ls[0], "\n");
      LowerUnchanged(ls[0]);
      LowerJoinLines(ls[1..]);
    }
  }

  /** An entry list without "--" passes the filter whole. */
  lemma {:induction false} KeepAllTlds(ls: seq<string>)
    requires forall i :: 0 <= i < |ls| ==> !Contains(ls[i], "--")
    ensures KeepTlds(ls) == ls
  {
    if ls != [] {
      KeepAllTlds(ls[1..]);
    }
  }

  // ---------------------------------------------------------------------
  // Character classes (urlscan/urlscan.py:247-248, 264, 268)

  /** `\w`, restricted to ASCII. */
  predicate IsWordChar(c: char) {
    'a' <= c <= 'z' || 'A' <= c <= 'Z' || IsDigit(c) || c == '_'
  }

  /** `[\w\-%]`: one character of a guessed-domain label. */
  predicate IsLabelChar(c: char) {
    IsWordChar(c) || c == '-' || c == '%'
  }

  /** `urlinternalpattern`. */
  predicate IsInternal(c: char) {
    IsWordChar(c) || c in "{}()@/-%?!&.=:;+,#~"
  }

  /** `urltrailingpattern`: a character that may end a scheme URL. */
  predicate IsTrailing(c: char) {
    IsWordChar(c) || c in "{}()@/-%&=+#"
  }

  /** `[\w\-.]`, the characters of an e-mail address. */
  predicate IsEmailChar(c: char) {
    IsWordChar(c) || c == '-' || c == '.'
  }

  /** `[\w\-]`, the last character of an e-mail address. */
  predicate IsEmailEnd(c: char) {
    IsWordChar(c) || c == '-'
  }

  lemma TrailingIsInternal(c: char)
    ensures IsTrailing(c) ==> IsInternal(c)
  {
  }

  // ---------------------------------------------------------------------
  // Guessed bare domains (guessedurlpattern, urlscan/urlscan.py:264-265)

  /** `[\w\-%]+(?:\.[\w\-%]+)*` matching all of `r`, read left to right as
      an automaton: in state `afterLabel == false` a label character must
      come next; after one, the body may end, continue the label, or take a
      dot and expect a new label. */
  predicate Body(r: string, afterLabel: bool)
    decreases |r|
  {
    if !afterLabel then
      |r| > 0 && IsLabelChar(r[0]) && Body(r[1..], true)
    else
      || r == []
      || (IsLabelChar(r[0]) && Body(r[1..], true))
      || (r[0] == '.' && Body(r[1..], false))
  }

  predicate DomainBody(d: string) {
    Body(d, false)
  }

  /** `s` is a domain body, a dot and the TLD `t`. */
  predicate GuessedWith(s: string, t: string) {
    && |s| >= |t| + 2
    && s[|s| - |t| - 1] == '.'
    && s[|s| - |t|..] == t
    && DomainBody(s[..|s| - |t| - 1])
  }

  /** `guessedurlpattern` matching from the start of `s` to its end. The TLDs
      are compared literally. */
  predicate GuessedFull(s: string, tlds: seq<string>) {
    exists t :: t in tlds && GuessedWith(s, t)
  }

  /** `re.compile(guessedurlpattern).match(s)`: as `$` also matches before a
      final newline, the match may stop one character short. */
  predicate GuessedMatch(s: string, tlds: seq<string>) {
    || GuessedFull(s, tlds)
    || (|s| > 0 && s[|s| - 1] == '\n' && GuessedFull(s[..|s| - 1], tlds))
  }

  /** The dot-separated labels of `s`. */
  function Labels(s: string): (r: seq<string>)
    ensures |r| > 0
    ensures forall i :: 0 <= i < |r| ==> Lacks(r[i], '.')
    decreases |s|
  {
    var k := IndexOf(s, '.');
    if k == |s| then [s] else [s[..k]] + Labels(s[k + 1..])
  }

  predicate LabelChars(l: string) {
    l == [] || (IsLabelChar(l[0]) && LabelChars(l[1..]))
  }

  predicate LabelOk(l: string) {
    |l| > 0 && LabelChars(l)
  }

  predicate AllLabelsOk(ls: seq<string>) {
    ls == [] || (LabelOk(ls[0]) && AllLabelsOk(ls[1..]))
  }

  lemma {:induction false} AllLabelsOkAt(ls: seq<string>, j: nat)
    requires AllLabelsOk(ls) && j < |ls|
    ensures LabelOk(ls[j])
  {
    if j > 0 {
      AllLabelsOkAt(ls[1..], j - 1);
    }
  }

  /** The shape of a guessed URL, stated on labels: at least two labels, none
      empty, all made of label characters, the last one a known TLD. */
  predicate GuessedShape(s: string, tlds: seq<string>) {
    var ls := Labels(s);
    |ls| >= 2 && AllLabelsOk(ls[..|ls| - 1]) && ls[|ls| - 1] in tlds
  }

  lemma {:induction false} AfterLabelAtDot(r: string)
    requires IndexOf(r, '.') < |r|
    ensures Body(r, true) <==>
      LabelChars(r[..IndexOf(r, '.')]) && Body(r[IndexOf(r, '.') + 1..], false)
    decreases |r|
  {
    var k := IndexOf(r, '.');
    if k > 0 {
      AfterLabelAtDot(r[1..]);
      assert r[..k][1..] == r[1..][..k - 1];
      assert r[1..][k..] == r[k + 1..];
    }
  }

  lemma {:induction false} AfterLabelNoDot(r: string)
    requires IndexOf(r, '.') == |r|
    ensures Body(r, true) <==> LabelChars(r)
    decreases |r|
  {
    if r != [] {
      AfterLabelNoDot(r[1..]);
    }
  }

  /** A domain body is exactly a non-empty sequence of well-formed labels. */
  lemma {:induction false} DomainBodyByLabels(d: string)
    ensures DomainBody(d) <==> AllLabelsOk(Labels(d))
    decreases |d|
  {
    var k := IndexOf(d, '.');
    var ls := Labels(d);
    if k < |d| {
      if k > 0 {
        AfterLabelAtDot(d[1..]);
        assert d[..k][1..] == d[1..][..k - 1];
        assert d[1..][k..] == d[k + 1..];
      }
      assert ls[1..] == Labels(d[k + 1..]);
      DomainBodyByLabels(d[k + 1..]);
    } else {
      if d != [] {
        AfterLabelNoDot(d[1..]);
      }
      assert ls == [d];
    }
  }

  /** The labels of a text whose first dot is at `k`. */
  lemma LabelsAt(s: string, k: nat)
    requires k < |s| && s[k] == '.' && forall j :: 0 <= j < k ==> s[j] != '.'
    ensures Labels(s) == [s[..k]] + Labels(s[k + 1..])
  {
    IndexOfIs(s, '.', k);
  }

  /** A text without a dot is one label. */
  lemma LabelsOfLabel(b: string)
    requires Lacks(b, '.')
    ensures Labels(b) == [b]
  {
    assert IndexOf(b, '.') == |b|;
  }

  /** Appending a dot and a dot-free label appends one label. */
  lemma {:induction false} LabelsSnoc(a: string, b: string)
    requires Lacks(b, '.')
    ensures Labels(a + "." + b) == Labels(a) + [b]
    decreases |a|
  {
    var s := a + "." + b;
    var k := IndexOf(a, '.');
    if k == |a| {
      assert s[..|a|] == a && s[|a|] == '.' && s[|a| + 1..] == b;
      LabelsAt(s, |a|);
      LabelsOfLabel(b);
      LabelsOfLabel(a);
    } else {
      assert s[..k] == a[..k] && s[k] == '.';
      assert s[k + 1..] == a[k + 1..] + "." + b;
      LabelsAt(s, k);
      LabelsAt(a, k);
      LabelsSnoc(a[k + 1..], b);
    }
  }

  /** The regular expression's shape and the label view agree: with TLDs
      that contain no dot, a string is a guessed URL exactly when it splits
      into two or more non-empty labels of label characters whose last label
      is a known TLD. */
  lemma GuessedIffShape(s: string, tlds: seq<string>)
    requires forall t :: t in tlds ==> Lacks(t, '.')
    ensures GuessedFull(s, tlds) <==> GuessedShape(s, tlds)
  {
    if GuessedFull(s, tlds) {
      var t :| t in tlds && GuessedWith(s, t);
      GuessedHasShape(s, t, tlds);
    }
    if GuessedShape(s, tlds) {
      ShapeIsGuessed(s, tlds);
    }
  }

  lemma GuessedHasShape(s: string, t: string, tlds: seq<string>)
    requires Lacks(t, '.') && t in tlds && GuessedWith(s, t)
    ensures GuessedShape(s, tlds)
  {
    var d := s[..|s| - |t| - 1];
    assert s == d + "." + t;
    LabelsSnoc(d, t);
    DomainBodyByLabels(d);
    var ls := Labels(s);
    assert ls[..|ls| - 1] == Labels(d);
  }

  lemma ShapeIsGuessed(s: string, tlds: seq<string>)
    requires GuessedShape(s, tlds)
    ensures GuessedFull(s, tlds)
  {
    var ls := Labels(s);
    var j := LastDot(s);
    var d, b := s[..j], s[j + 1..];
    assert s == d + "." + b;
    assert ls == Labels(d) + [b] by {
      LabelsSnoc(d, b);
    }
    assert DomainBody(d) by {
      assert ls[..|ls| - 1] == Labels(d);
      DomainBodyByLabels(d);
    }
    GuessedWithParts(d, b);
    assert GuessedWith(s, ls[|ls| - 1]);
  }

  lemma GuessedWithParts(d: string, t: string)
    requires DomainBody(d)
    ensures GuessedWith(d + "." + t, t)
  {
    var s := d + "." + t;
    assert s[..|s| - |t| - 1] == d;
    assert s[|s| - |t|..] == t;
  }

  /** The index of the last dot of a string with at least two labels. */
  function LastDot(s: string): (j: nat)
    requires |Labels(s)| >= 2
    ensures j < |s| && s[j] == '.' && Lacks(s[j + 1..], '.')
    decreases |s|
  {
    var k := IndexOf(s, '.');
    var rest := s[k + 1..];
    if IndexOf(rest, '.') == |rest| then k
    else
      assert |Labels(rest)| >= 2;
      var j' := LastDot(rest);
      assert s[k + 1 + j' + 1..] == rest[j' + 1..];
      k + 1 + j'
  }

  /** Two consecutive dots never occur in a guessed URL. */
  lemma GuessedNoDoubleDot(s: string, tlds: seq<string>)
    requires forall t :: t in tlds ==> Lacks(t, '.')
    requires GuessedFull(s, tlds)
    ensures !Contains(s, "..")
  {
    GuessedIffShape(s, tlds);
    if Contains(s, "..") {
      var i :| 0 <= i <= |s| - 2 && OccursAt(s, "..", i);
      assert s[i..i + 2] == "..";
      assert s[i] == '.' && s[i + 1] == '.';
      DoubleDotBreaksShape(s, i);
    }
  }

  lemma DoubleDotBreaksShape(s: string, i: nat)
    requires i + 1 < |s| && s[i] == '.' && s[i + 1] == '.'
    ensures |Labels(s)| >= 2 && !AllLabelsOk(Labels(s)[..|Labels(s)| - 1])
  {
    var j := EmptyLabelAt(s, i);
    var ls := Labels(s);
    if AllLabelsOk(ls[..|ls| - 1]) {
      AllLabelsOkAt(ls[..|ls| - 1], j);
    }
  }

  /** A ".." at index `i` leaves an empty label before the last one. */
  lemma {:induction false} EmptyLabelAt(s: string, i: nat) returns (j: nat)
    requires i + 1 < |s| && s[i] == '.' && s[i + 1] == '.'
    ensures j + 1 < |Labels(s)| && Labels(s)[j] == ""
    decreases |s|
  {
    var k := IndexOf(s, '.');
    var rest := s[k + 1..];
    var rl := Labels(rest);
    assert Labels(s) == [s[..k]] + rl;
    if k == i {
      IndexOfIs(rest, '.', 0);
      assert rl[0] == "";
      j := 1;
    } else {
      var j' := EmptyLabelAt(rest, i - k - 1);
      j := j' + 1;
    }
  }

  // ---------------------------------------------------------------------
  // Scheme URLs (httpurlpattern, urlscan/urlscan.py:249-250)

  /** `urlinternalpattern* urltrailingpattern` matching a prefix of `b`. As
      every trailing character is an internal one, this holds when the run of
      internal characters at the start of `b` holds a trailing character. */
  predicate BodyPrefix(b: string)
    decreases |b|
  {
    |b| > 0 && IsInternal(b[0]) && (IsTrailing(b[0]) || BodyPrefix(b[1..]))
  }

  const Schemes: seq<string> := ["http", "https", "file", "ftp", "ftps"]

  /** `httpurlpattern` matching a prefix of `s`. */
  predicate HttpPrefix(s: string) {
    exists sch :: sch in Schemes && StartsWith(s, sch + "://") && BodyPrefix(s[|sch| + 3..])
  }

  // ---------------------------------------------------------------------
  // E-mail addresses (the `email` group, urlscan/urlscan.py:268)

  /** `[\w\-.]*[\w\-]` matching a prefix of `r`. */
  predicate EmailTail(r: string)
    decreases |r|
  {
    |r| > 0 && IsEmailChar(r[0]) && (IsEmailEnd(r[0]) || EmailTail(r[1..]))
  }

  /** Index of the first character of `s` outside `[\w\-.]`. */
  function EmailRun(s: string): (k: nat)
    ensures k <= |s|
    ensures forall i :: 0 <= i < k ==> IsEmailChar(s[i])
    ensures k < |s| ==> !IsEmailChar(s[k])
  {
    if s == [] || !IsEmailChar(s[0]) then 0 else EmailRun(s[1..]) + 1
  }

  /** `[\w\-.]*@[\w\-.]*[\w\-]` matching a prefix of `s`: `@` is not an
      e-mail character, so it must be the first character outside the run. */
  predicate EmailCore(s: string) {
    var k := EmailRun(s);
    k < |s| && s[k] == '@' && EmailTail(s[k + 1..])
  }

  /** `(mailto:)?[\w\-.]*@[\w\-.]*[\w\-]` matching a prefix of `s`. */
  predicate EmailPrefix(s: string) {
    EmailCore(s) || (StartsWith(s, "mailto:") && EmailCore(s[7..]))
  }

  // ---------------------------------------------------------------------
  // The whole pattern (urlre, urlscan/urlscan.py:266-269)

  /** Whether `urlre.match(s)` succeeds: an optional `<` or `<URL:` and then
      one of the three alternatives. The optional closing `>` never decides
      whether a match exists. */
  predicate UrlreMatch(s: string, tlds: seq<string>) {
    exists p :: p in ["", "<", "<URL:"] && StartsWith(s, p) && Alternative(s[|p|..], tlds)
  }

  predicate Alternative(r: string, tlds: seq<string>) {
    HttpPrefix(r) || GuessedMatch(r, tlds) || EmailPrefix(r)
  }
}
