/** The self-checks that follow the grammar's construction
    (urlscan/urlscan.py:272-289), restated as lemmas about the recognisers.
    The source builds the pattern from the IANA list; each lemma assumes only
    the TLDs it needs. */
module GrammarExamples {
  import opened Text
  import opened Grammar

  /** TLD lists of the kind the filter produces: no entry holds a dot. */
  predicate DotFreeTlds(tlds: seq<string>) {
    forall t :: t in tlds ==> Lacks(t, '.')
  }

  const Prefixes: seq<string> := ["", "<", "<URL:"]

  /** A body that starts a scheme URL still does with more text after it. */
  lemma {:induction false} BodyPrefixExtends(body: string, rest: string)
    requires BodyPrefix(body)
    ensures BodyPrefix(body + rest)
    decreases |body|
  {
    var b := body + rest;
    assert b[0] == body[0];
    if !IsTrailing(body[0]) {
      assert b[1..] == body[1..] + rest;
      BodyPrefixExtends(body[1..], rest);
    }
  }

  /** An optional bracket prefix, a scheme, "://" and a URL body match. */
  lemma SchemeMatch(pre: string, sch: string, body: string, rest: string, tlds: seq<string>)
    requires pre in Prefixes && sch in Schemes && BodyPrefix(body)
    ensures UrlreMatch(pre + sch + "://" + body + rest, tlds)
  {
    var s := pre + sch + "://" + body + rest;
    var p, q := |pre|, |pre| + |sch|;
    SchemeParts(pre, sch, body, rest);
    BodyPrefixExtends(body, rest);
    assert s[..p] in Prefixes && s[p..q] in Schemes;
    SchemeAt(s, p, q, tlds);
  }

  /** Where each part of a scheme URL sits. */
  lemma SchemeParts(pre: string, sch: string, body: string, rest: string)
    ensures var s, p, q := pre + sch + "://" + body + rest, |pre|, |pre| + |sch|;
            && q + 3 <= |s| && s[..p] == pre && s[p..q] == sch && s[q..q + 3] == "://" && s[q + 3..] == body + rest
  {
    var s, p, q := pre + sch + "://" + body + rest, |pre|, |pre| + |sch|;
    var sep := "://";
    var abc := pre + sch + sep;
    assert |sep| == 3;
    assert s == abc + (body + rest);
    assert s[..q + 3] == abc;
    assert abc[..p] == pre && abc[p..q] == sch && abc[q..] == sep;
  }

  /** The prefix `s[..p]`, the scheme `s[p..q]`, "://" and a URL body. */
  lemma SchemeAt(s: string, p: nat, q: nat, tlds: seq<string>)
    requires p <= q && q + 3 <= |s|
    requires s[..p] in Prefixes && s[p..q] in Schemes && s[q..q + 3] == "://"
    requires BodyPrefix(s[q + 3..])
    ensures UrlreMatch(s, tlds)
  {
    var r, sch := s[p..], s[p..q];
    assert r[..|sch| + 3] == sch + "://" by {
      SliceSplit(s, p, q, q + 3);
    }
    assert r[|sch| + 3..] == s[q + 3..];
    HttpWith(r, sch);
    PrefixedAt(s, p, tlds);
  }

  lemma SliceSplit(s: string, p: nat, q: nat, e: nat)
    requires p <= q <= e <= |s|
    ensures s[p..][..e - p] == s[p..q] + s[q..e]
  {
    assert s[p..][..e - p] == s[p..e];
    assert s[p..e] == s[p..q] + s[q..e];
  }

  lemma HttpWith(r: string, sch: string)
    requires sch in Schemes && StartsWith(r, sch + "://") && BodyPrefix(r[|sch| + 3..])
    ensures HttpPrefix(r)
  {
  }

  lemma PrefixedAt(s: string, p: nat, tlds: seq<string>)
    requires p <= |s| && s[..p] in Prefixes && Alternative(s[p..], tlds)
    ensures UrlreMatch(s, tlds)
  {
    assert StartsWith(s, s[..p]);
  }

  /** Two domain bodies joined by a dot form one. */
  lemma {:induction false} BodyJoin(a: string, st: bool, b: string)
    requires Body(a, st) && DomainBody(b)
    ensures Body(a + "." + b, st)
    decreases |a|
  {
    var s := a + "." + b;
    if a == [] {
      assert s[1..] == b;
    } else {
      assert s[0] == a[0] && s[1..] == a[1..] + "." + b;
      if IsLabelChar(a[0]) && Body(a[1..], true) {
        BodyJoin(a[1..], true, b);
      } else {
        BodyJoin(a[1..], false, b);
      }
    }
  }

  /** A domain body, a dot and a known TLD match as a guessed URL. */
  lemma GuessedParts(d: string, t: string, tlds: seq<string>)
    requires t in tlds && DomainBody(d)
    ensures GuessedMatch(d + "." + t, tlds) && UrlreMatch(d + "." + t, tlds)
  {
    var s := d + "." + t;
    assert s[..|s| - |t| - 1] == d;
    assert s[|s| - |t|..] == t;
    assert GuessedWith(s, t);
    assert s[..0] == "" && s[0..] == s;
    assert Alternative(s[|""|..], tlds);
  }

  // Positive checks (urlscan/urlscan.py:272-288). Each literal fact is
  // proved in its own small lemma so that no proof unfolds the recognisers
  // on a long literal.

  lemma SchemeBracketedText()
    ensures "<URL:" + "http" + "://" + "l" + "inuxtoday.com>" == "<URL:http://linuxtoday.com>"
  {
  }

  lemma SchemeBracketed(tlds: seq<string>)
    ensures UrlreMatch("<URL:http://linuxtoday.com>", tlds)
  {
    SchemeBracketedText();
    assert BodyPrefix("l");
    SchemeMatch("<URL:", "http", "l", "inuxtoday.com>", tlds);
  }

  lemma SchemePlainText()
    ensures "" + "http" + "://" + "l" + "inuxtoday.com" == "http://linuxtoday.com"
  {
  }

  lemma SchemePlain(tlds: seq<string>)
    ensures UrlreMatch("http://linuxtoday.com", tlds)
  {
    SchemePlainText();
    assert BodyPrefix("l");
    SchemeMatch("", "http", "l", "inuxtoday.com", tlds);
  }

  lemma SchemeNonAsciiText()
    ensures "" + "http" + "://" + "g" + "ithub.com/firecat53/ürlscan" == "http://github.com/firecat53/ürlscan"
  {
  }

  lemma SchemeNonAscii(tlds: seq<string>)
    ensures UrlreMatch("http://github.com/firecat53/ürlscan", tlds)
  {
    SchemeNonAsciiText();
    assert BodyPrefix("g");
    SchemeMatch("", "http", "g", "ithub.com/firecat53/ürlscan", tlds);
  }

  lemma SchemeNonAsciiHostText()
    ensures "" + "https" + "://" + "S" + "chöne_Grüße.es/test" == "https://Schöne_Grüße.es/test"
  {
  }

  lemma SchemeNonAsciiHost(tlds: seq<string>)
    ensures UrlreMatch("https://Schöne_Grüße.es/test", tlds)
  {
    SchemeNonAsciiHostText();
    assert BodyPrefix("S");
    SchemeMatch("", "https", "S", "chöne_Grüße.es/test", tlds);
  }

  /** The long literal of the source is written as two halves. */
  lemma SchemeApostropheText()
    ensures "" + "http" + "://" + "w" + "ww.pantherhouse.com/" == "http://www.pantherhouse.com/"
  {
  }

  lemma SchemeApostrophe(tlds: seq<string>)
    ensures UrlreMatch("http://www.pantherhouse.com/" + "newshelton/my-wife-thinks-i’m-a-swan/", tlds)
  {
    var tail := "newshelton/my-wife-thinks-i’m-a-swan/";
    assert "" + "http" + "://" + "w" + ("ww.pantherhouse.com/" + tail)
      == ("" + "http" + "://" + "w" + "ww.pantherhouse.com/") + tail;
    SchemeApostropheText();
    assert BodyPrefix("w");
    SchemeMatch("", "http", "w", "ww.pantherhouse.com/" + tail, tlds);
  }

  lemma SchemeShortTldText()
    ensures "" + "http" + "://" + "w" + "ww.testurl.zw" == "http://www.testurl.zw"
  {
  }

  lemma SchemeShortTld(tlds: seq<string>)
    ensures UrlreMatch("http://www.testurl.zw", tlds)
  {
    SchemeShortTldText();
    assert BodyPrefix("w");
    SchemeMatch("", "http", "w", "ww.testurl.zw", tlds);
  }

  lemma SchemeLongTldText()
    ensures "" + "http" + "://" + "w" + "ww.testurl.smile" == "http://www.testurl.smile"
  {
  }

  lemma SchemeLongTld(tlds: seq<string>)
    ensures UrlreMatch("http://www.testurl.smile", tlds)
  {
    SchemeLongTldText();
    assert BodyPrefix("w");
    SchemeMatch("", "http", "w", "ww.testurl.smile", tlds);
  }

  lemma GuessedExampleBizText()
    ensures "example" + "." + "biz" == "example.biz"
  {
  }

  lemma GuessedExampleBiz(tlds: seq<string>)
    requires "biz" in tlds
    ensures GuessedMatch("example.biz", tlds) && UrlreMatch("example.biz", tlds)
  {
    GuessedExampleBizText();
    assert DomainBody("example");
    GuessedParts("example", "biz", tlds);
  }

  lemma GuessedLinuxTodayText()
    ensures "linuxtoday" + "." + "com" == "linuxtoday.com"
  {
  }

  lemma GuessedLinuxToday(tlds: seq<string>)
    requires "com" in tlds
    ensures UrlreMatch("linuxtoday.com", tlds)
  {
    GuessedLinuxTodayText();
    assert DomainBody("linuxtoday");
    GuessedParts("linuxtoday", "com", tlds);
  }

  lemma GuessedGoodprText()
    ensures "goodpr" + "." + "org" == "goodpr.org"
  {
  }

  lemma GuessedGoodpr(tlds: seq<string>)
    requires "org" in tlds
    ensures UrlreMatch("goodpr.org", tlds)
  {
    GuessedGoodprText();
    assert DomainBody("goodpr");
    GuessedParts("goodpr", "org", tlds);
  }

  /** A dotted domain body `a.b` followed by `.t`. */
  lemma GuessedTwoLabels(a: string, b: string, t: string, tlds: seq<string>)
    requires t in tlds && DomainBody(a) && DomainBody(b)
    ensures UrlreMatch(a + "." + b + "." + t, tlds)
  {
    BodyJoin(a, false, b);
    GuessedParts(a + "." + b, t, tlds);
  }

  lemma GuessedWizardText()
    ensures "master" + "." + "wizard" + "." + "edu" == "master.wizard.edu"
  {
  }

  lemma GuessedWizard(tlds: seq<string>)
    requires "edu" in tlds
    ensures UrlreMatch("master.wizard.edu", tlds)
  {
    GuessedWizardText();
    assert DomainBody("master") && DomainBody("wizard");
    GuessedTwoLabels("master", "wizard", "edu", tlds);
  }

  lemma GuessedBlahBarText()
    ensures "blah" + "." + "bar" + "." + "info" == "blah.bar.info"
  {
  }

  lemma GuessedBlahBar(tlds: seq<string>)
    requires "info" in tlds
    ensures UrlreMatch("blah.bar.info", tlds)
  {
    GuessedBlahBarText();
    assert DomainBody("blah") && DomainBody("bar");
    GuessedTwoLabels("blah", "bar", "info", tlds);
  }

  lemma GuessedTldAsLabelText()
    ensures "testurl" + "." + "smile" + "." + "smile" == "testurl.smile.smile"
  {
  }

  lemma GuessedTldAsLabel(tlds: seq<string>)
    requires "smile" in tlds
    ensures UrlreMatch("testurl.smile.smile", tlds)
  {
    GuessedTldAsLabelText();
    assert DomainBody("testurl") && DomainBody("smile");
    GuessedTwoLabels("testurl", "smile", "smile", tlds);
  }

  lemma GuessedThreeLabelsText()
    ensures "testurl" + "." + "biz" + "." + "smile" + "." + "zw" == "testurl.biz.smile.zw"
  {
  }

  lemma GuessedThreeLabels(tlds: seq<string>)
    requires "zw" in tlds
    ensures UrlreMatch("testurl.biz.smile.zw", tlds)
  {
    GuessedThreeLabelsText();
    assert DomainBody("testurl") && DomainBody("biz") && DomainBody("smile");
    BodyJoin("testurl", false, "biz");
    GuessedTwoLabels("testurl" + "." + "biz", "smile", "zw", tlds);
  }

  predicate AllEmailChars(s: string) {
    forall i :: 0 <= i < |s| ==> IsEmailChar(s[i])
  }

  /** A text made only of e-mail characters cannot start with a prefix
      holding another character. */
  lemma NotPrefix(s: string, p: string, i: nat)
    requires AllEmailChars(s) && i < |p| && !IsEmailChar(p[i])
    ensures !StartsWith(s, p)
  {
    if |p| <= |s| {
      assert s[..|p|][i] == s[i];
    }
  }

  /** On such a text (which therefore neither starts with '<' nor ends
      with a newline) `urlre` can only match through the guessed
      alternative. */
  lemma OnlyGuessed(s: string, tlds: seq<string>)
    requires |s| > 0 && AllEmailChars(s)
    ensures UrlreMatch(s, tlds) <==> GuessedFull(s, tlds)
  {
    NoHttpPrefix(s);
    NoEmailPrefix(s);
    assert IsEmailChar(s[|s| - 1]);
    NoFinalNewline(s, tlds);
    NotPrefix(s, "<", 0);
    NotPrefix(s, "<URL:", 0);
    NoOpening(s, tlds);
  }

  lemma NoHttpPrefix(s: string)
    requires AllEmailChars(s)
    ensures !HttpPrefix(s)
  {
    forall sch | sch in Schemes
      ensures !StartsWith(s, sch + "://")
    {
      NotPrefix(s, sch + "://", |sch|);
    }
  }

  lemma NoEmailPrefix(s: string)
    requires AllEmailChars(s)
    ensures !EmailPrefix(s)
  {
    NotPrefix(s, "mailto:", 6);
    assert EmailRun(s) == |s|;
  }

  /** Without a final newline `$` matches only at the very end. */
  lemma NoFinalNewline(s: string, tlds: seq<string>)
    requires |s| > 0 && s[|s| - 1] != '\n'
    ensures GuessedMatch(s, tlds) <==> GuessedFull(s, tlds)
  {
  }

  /** Without a leading '<' only the empty opening applies. */
  lemma NoOpening(s: string, tlds: seq<string>)
    requires !StartsWith(s, "<") && !StartsWith(s, "<URL:")
    ensures UrlreMatch(s, tlds) <==> Alternative(s, tlds)
  {
    if UrlreMatch(s, tlds) {
      var p :| p in ["", "<", "<URL:"] && StartsWith(s, p) && Alternative(s[|p|..], tlds);
      assert p == "";
      assert s[|p|..] == s;
    }
    if Alternative(s, tlds) {
      var p := "";
      assert p in ["", "<", "<URL:"] && StartsWith(s, p) && s[|p|..] == s;
    }
  }

  // Negative checks (urlscan/urlscan.py:283, 288-289).

  lemma RejectedBlahOrg(tlds: seq<string>)
    requires DotFreeTlds(tlds)
    ensures !UrlreMatch("blah..org", tlds)
  {
    assert AllEmailChars("blah..org");
    DoubleDotRejected("blah..org", 4, tlds);
  }

  lemma RejectedExampleBiz(tlds: seq<string>)
    requires DotFreeTlds(tlds)
    ensures !UrlreMatch("example..biz", tlds)
  {
    assert AllEmailChars("example..biz");
    DoubleDotRejected("example..biz", 7, tlds);
  }

  lemma NotATldText()
    ensures "blah.baz.obviouslynotarealdomain" == "blah.baz" + "." + "obviouslynotarealdomain"
  {
  }

  lemma NotATldChars()
    ensures AllEmailChars("blah.baz.obviouslynotarealdomain")
  {
  }

  lemma NotATldLabel()
    ensures Lacks("obviouslynotarealdomain", '.')
  {
  }

  lemma RejectedUnknownTld(tlds: seq<string>)
    requires DotFreeTlds(tlds)
    requires "obviouslynotarealdomain" !in tlds
    ensures !UrlreMatch("blah.baz.obviouslynotarealdomain", tlds)
  {
    NotATldText();
    NotATldChars();
    NotATldLabel();
    UnknownTldRejected("blah.baz", "obviouslynotarealdomain", tlds);
  }

  /** A text of e-mail characters whose last dot-separated label is not a
      known TLD does not match. */
  lemma UnknownTldRejected(a: string, b: string, tlds: seq<string>)
    requires DotFreeTlds(tlds) && Lacks(b, '.') && b !in tlds
    requires AllEmailChars(a + "." + b)
    ensures !UrlreMatch(a + "." + b, tlds)
  {
    var s := a + "." + b;
    OnlyGuessed(s, tlds);
    GuessedIffShape(s, tlds);
    LabelsSnoc(a, b);
  }

  lemma DoubleDotRejected(s: string, i: nat, tlds: seq<string>)
    requires DotFreeTlds(tlds)
    requires i + 1 < |s| && s[i] == '.' && s[i + 1] == '.'
    requires AllEmailChars(s)
    ensures !UrlreMatch(s, tlds)
  {
    OnlyGuessed(s, tlds);
    HasDoubleDot(s, i);
    if GuessedFull(s, tlds) {
      GuessedNoDoubleDot(s, tlds);
    }
  }

  lemma HasDoubleDot(s: string, i: nat)
    requires i + 1 < |s| && s[i] == '.' && s[i + 1] == '.'
    ensures Contains(s, "..")
  {
    assert s[i..i + 2] == "..";
    assert OccursAt(s, "..", i);
  }
}
