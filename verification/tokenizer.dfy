/** `parse_text_urls` (urlscan/urlscan.py:292-315): one line of plain text cut
    into alternating text and URL chunks. The regular-expression engine is
    not modelled: `urlre.finditer` is an oracle, a sequence of match spans
    that the engine guarantees to be non-empty, non-overlapping and
    increasing. */
module Tokenizer {
  import opened Wrappers
  import opened Text
  import opened Chunks

  /** One `urlre` match: the whole span, the span of group 1, and whether
      the `email` alternative matched (its text is then group 1's text). */
  datatype Match = Match(start: nat, end: nat, g1Start: nat, g1End: nat, isEmail: bool)

  /** Group 1 lies inside the match, is non-empty (every alternative of the
      grammar consumes at least one character) and lies inside `s`. */
  predicate ValidMatch(s: string, m: Match) {
    m.start <= m.g1Start < m.g1End <= m.end <= |s|
  }

  /** What `finditer` yields: valid matches, none starting before `loc`,
      each starting at or after the end of the previous one. */
  predicate Ordered(s: string, ms: seq<Match>, loc: nat)
    decreases |ms|
  {
    ms == [] || (loc <= ms[0].start && ValidMatch(s, ms[0]) && Ordered(s, ms[1..], ms[0].end))
  }

  function Group1(s: string, m: Match): string
    requires ValidMatch(s, m)
  {
    s[m.g1Start..m.g1End]
  }

  /** The whole matched text, `s[match.start():match.end()]`. */
  function Span(s: string, m: Match): string
    requires ValidMatch(s, m)
  {
    s[m.start..m.end]
  }

  /** The URL recorded for a match: an e-mail address that does not already
      mention "mailto" gets the "mailto:" scheme, any other match keeps its
      group 1. */
  function UrlOf(s: string, m: Match): (u: string)
    requires ValidMatch(s, m)
    ensures m.isEmail && !Contains(Group1(s, m), "mailto") ==> u == "mailto:" + Group1(s, m)
    ensures !(m.isEmail && !Contains(Group1(s, m), "mailto")) ==> u == Group1(s, m)
  {
    var g := Group1(s, m);
    if m.isEmail && !Contains(g, "mailto") then "mailto:" + g else g
  }

  function TextChunk(t: string): Chunk {
    Chunk(Some(Plain(t)), None)
  }

  function UrlChunk(u: string): Chunk {
    Chunk(None, Some(u))
  }

  /** The chunks of `s[loc..]` given the matches still to come. */
  function ParseFrom(s: string, ms: seq<Match>, loc: nat): (r: seq<Chunk>)
    requires loc <= |s| && Ordered(s, ms, loc)
    decreases |ms|
  {
    if ms == [] then
      if loc < |s| then [TextChunk(s[loc..])] else []
    else
      var m := ms[0];
      (if loc < m.start then [TextChunk(s[loc..m.start])] else [])
        + [UrlChunk(UrlOf(s, m))]
        + ParseFrom(s, ms[1..], m.end)
  }

  /** `parse_text_urls(s)` for the matches `ms` that `urlre.finditer(s)`
      yields. */
  function ParseTextUrls(s: string, ms: seq<Match>): (r: seq<Chunk>)
    requires Ordered(s, ms, 0)
  {
    ParseFrom(s, ms, 0)
  }

  // ---------------------------------------------------------------------
  // Shape of the result

  /** A gap chunk: plain, non-empty text and no URL. */
  predicate IsGap(c: Chunk) {
    c.markup.Some? && c.markup.value.Plain? && c.markup.value.text != "" && c.url.None?
  }

  /** A URL chunk: no markup, so the chooser shows a bare link. */
  predicate IsLink(c: Chunk) {
    c.markup.None? && c.url.Some?
  }

  /** Every chunk is a gap or a link, and no two gaps are adjacent. */
  predicate Alternating(r: seq<Chunk>) {
    && (forall i :: 0 <= i < |r| ==> IsGap(r[i]) || IsLink(r[i]))
    && (forall i :: 0 <= i < |r| - 1 ==> !(IsGap(r[i]) && IsGap(r[i + 1])))
  }

  lemma {:induction false} ParseAlternates(s: string, ms: seq<Match>, loc: nat)
    requires loc <= |s| && Ordered(s, ms, loc)
    ensures Alternating(ParseFrom(s, ms, loc))
    ensures AllWellFormed(ParseFrom(s, ms, loc))
    ensures ms != [] ==> |ParseFrom(s, ms, loc)| > 0
    decreases |ms|
  {
    if ms != [] {
      var m := ms[0];
      var head := if loc < m.start then [TextChunk(s[loc..m.start])] else [];
      ParseAlternates(s, ms[1..], m.end);
      LinkBetween(head, UrlChunk(UrlOf(s, m)), ParseFrom(s, ms[1..], m.end));
    }
    AlternatingWellFormed(ParseFrom(s, ms, loc));
  }

  /** At most one gap, then a link, then an alternating tail alternate. */
  lemma LinkBetween(head: seq<Chunk>, link: Chunk, tail: seq<Chunk>)
    requires |head| <= 1 && (forall i :: 0 <= i < |head| ==> IsGap(head[i]))
    requires IsLink(link) && Alternating(tail)
    ensures Alternating(head + [link] + tail)
  {
    var r := head + [link] + tail;
    forall i | 0 <= i < |r| - 1
      ensures !(IsGap(r[i]) && IsGap(r[i + 1]))
    {
      if i >= |head| + 1 {
        assert r[i] == tail[i - |head| - 1] && r[i + 1] == tail[i - |head|];
      }
    }
  }

  /** Gaps and links are well formed. */
  lemma AlternatingWellFormed(r: seq<Chunk>)
    requires Alternating(r)
    ensures AllWellFormed(r)
  {
  }

  /** The result's URL chunks, in order. */
  function Links(r: seq<Chunk>): (us: seq<string>)
    ensures |us| <= |r|
  {
    if r == [] then []
    else if r[0].url.Some? then [r[0].url.value] + Links(r[1..])
    else Links(r[1..])
  }

  lemma {:induction false} LinksAppend(a: seq<Chunk>, b: seq<Chunk>)
    ensures Links(a + b) == Links(a) + Links(b)
  {
    if a == [] {
      assert a + b == b;
    } else {
      assert (a + b)[1..] == a[1..] + b;
      LinksAppend(a[1..], b);
    }
  }

  /** The URL of every match, in order. */
  function UrlsOf(s: string, ms: seq<Match>, loc: nat): (us: seq<string>)
    requires Ordered(s, ms, loc)
    ensures |us| == |ms|
    decreases |ms|
  {
    if ms == [] then [] else [UrlOf(s, ms[0])] + UrlsOf(s, ms[1..], ms[0].end)
  }

  /** There is one URL chunk per match, in match order, carrying that
      match's URL. */
  lemma {:induction false} ParseLinks(s: string, ms: seq<Match>, loc: nat)
    requires loc <= |s| && Ordered(s, ms, loc)
    ensures Links(ParseFrom(s, ms, loc)) == UrlsOf(s, ms, loc)
    decreases |ms|
  {
    if ms != [] {
      var m := ms[0];
      var head := if loc < m.start then [TextChunk(s[loc..m.start])] else [];
      ParseLinks(s, ms[1..], m.end);
      LinksAppend(head + [UrlChunk(UrlOf(s, m))], ParseFrom(s, ms[1..], m.end));
      LinksAppend(head, [UrlChunk(UrlOf(s, m))]);
      assert Links(head) == [];
    }
  }

  // ---------------------------------------------------------------------
  // Reconstruction

  /** Interleave the gap texts of `r` with `spans`, one span per URL chunk;
      `None` when the URL chunks and the spans do not pair up. */
  function Rebuild(r: seq<Chunk>, spans: seq<string>): Option<string> {
    if r == [] then
      if spans == [] then Some("") else None
    else if r[0].url.None? then
      var rest := Rebuild(r[1..], spans);
      if rest.Some? && r[0].markup.Some? then Some(r[0].markup.value.text + rest.value) else None
    else if spans == [] then None
    else
      var rest := Rebuild(r[1..], spans[1..]);
      if rest.Some? then Some(spans[0] + rest.value) else None
  }

  lemma RebuildText(t: string, rest: seq<Chunk>, spans: seq<string>)
    requires Rebuild(rest, spans).Some?
    ensures Rebuild([TextChunk(t)] + rest, spans) == Some(t + Rebuild(rest, spans).value)
  {
    assert ([TextChunk(t)] + rest)[1..] == rest;
  }

  lemma RebuildLink(u: string, sp: string, rest: seq<Chunk>, spans: seq<string>)
    requires Rebuild(rest, spans).Some?
    ensures Rebuild([UrlChunk(u)] + rest, [sp] + spans) == Some(sp + Rebuild(rest, spans).value)
  {
    assert ([UrlChunk(u)] + rest)[1..] == rest;
    assert ([sp] + spans)[1..] == spans;
  }

  /** The matched text of every match, in order. */
  function SpansOf(s: string, ms: seq<Match>, loc: nat): (spans: seq<string>)
    requires Ordered(s, ms, loc)
    ensures |spans| == |ms|
    decreases |ms|
  {
    if ms == [] then [] else [Span(s, ms[0])] + SpansOf(s, ms[1..], ms[0].end)
  }

  /** Putting the matched spans back between the gap chunks gives back the
      input exactly. */
  lemma {:induction false} ParseRebuilds(s: string, ms: seq<Match>, loc: nat)
    requires loc <= |s| && Ordered(s, ms, loc)
    ensures Rebuild(ParseFrom(s, ms, loc), SpansOf(s, ms, loc)) == Some(s[loc..])
    decreases |ms|
  {
    if ms == [] {
      RebuildsRest(s, loc);
    } else {
      ParseRebuilds(s, ms[1..], ms[0].end);
      RebuildsStep(s, ms, loc);
    }
  }

  lemma RebuildsRest(s: string, loc: nat)
    requires loc <= |s|
    ensures Rebuild(ParseFrom(s, [], loc), []) == Some(s[loc..])
  {
    if loc < |s| {
      assert ParseFrom(s, [], loc) == [TextChunk(s[loc..])] + [];
      RebuildText(s[loc..], [], []);
      assert s[loc..] + "" == s[loc..];
    } else {
      assert s[loc..] == "";
    }
  }

  lemma RebuildsStep(s: string, ms: seq<Match>, loc: nat)
    requires loc <= |s| && Ordered(s, ms, loc) && ms != []
    requires Rebuild(ParseFrom(s, ms[1..], ms[0].end), SpansOf(s, ms[1..], ms[0].end)) == Some(s[ms[0].end..])
    ensures Rebuild(ParseFrom(s, ms, loc), SpansOf(s, ms, loc)) == Some(s[loc..])
  {
    var m := ms[0];
    var gap := s[loc..m.start];
    ParseUnfold(s, ms, loc);
    Glue(gap, UrlOf(s, m), Span(s, m), ParseFrom(s, ms[1..], m.end), SpansOf(s, ms[1..], m.end), s[m.end..]);
    assert s[loc..] == gap + Span(s, m) + s[m.end..];
  }

  /** A gap (absent when empty), a link and the rest rebuild to the gap, the
      link's span and the rest's text. */
  lemma Glue(gap: string, u: string, sp: string, tail: seq<Chunk>, spans: seq<string>, rest: string)
    requires Rebuild(tail, spans) == Some(rest)
    ensures Rebuild((if gap != "" then [TextChunk(gap)] else []) + [UrlChunk(u)] + tail, [sp] + spans)
      == Some(gap + sp + rest)
  {
    var link := [UrlChunk(u)] + tail;
    RebuildLink(u, sp, tail, spans);
    if gap != "" {
      assert [TextChunk(gap)] + [UrlChunk(u)] + tail == [TextChunk(gap)] + link;
      RebuildText(gap, link, [sp] + spans);
      assert gap + (sp + rest) == gap + sp + rest;
    } else {
      assert [] + [UrlChunk(u)] + tail == link;
      assert gap + sp + rest == sp + rest;
    }
  }

  /** One step of `ParseFrom` and `SpansOf`, spelled out. */
  lemma ParseUnfold(s: string, ms: seq<Match>, loc: nat)
    requires loc <= |s| && Ordered(s, ms, loc) && ms != []
    ensures SpansOf(s, ms, loc) == [Span(s, ms[0])] + SpansOf(s, ms[1..], ms[0].end)
    ensures var gap := s[loc..ms[0].start];
      ParseFrom(s, ms, loc)
        == (if gap != "" then [TextChunk(gap)] else []) + [UrlChunk(UrlOf(s, ms[0]))] + ParseFrom(s, ms[1..], ms[0].end)
  {
    SpansUnfold(s, ms, loc);
  }

  lemma SpansUnfold(s: string, ms: seq<Match>, loc: nat)
    requires Ordered(s, ms, loc) && ms != []
    ensures SpansOf(s, ms, loc) == [Span(s, ms[0])] + SpansOf(s, ms[1..], ms[0].end)
  {
  }

  // ---------------------------------------------------------------------
  // Special cases

  /** Without matches a non-empty line is one text chunk and an empty line
      gives nothing. */
  lemma NoMatches(s: string)
    ensures Ordered(s, [], 0)
    ensures s == [] ==> ParseTextUrls(s, []) == []
    ensures s != [] ==> ParseTextUrls(s, []) == [Chunk(Some(Plain(s)), None)]
  {
    assert s[0..] == s;
  }

  /** An e-mail match always yields a URL that mentions "mailto" and ends
      with the address; any other match yields its group 1 unchanged. */
  lemma EmailUrls(s: string, m: Match)
    requires ValidMatch(s, m)
    ensures m.isEmail ==> Contains(UrlOf(s, m), "mailto")
    ensures m.isEmail ==> UrlOf(s, m)[|UrlOf(s, m)| - |Group1(s, m)|..] == Group1(s, m)
    ensures m.isEmail && !Contains(Group1(s, m), "mailto") ==> StartsWith(UrlOf(s, m), "mailto:")
    ensures !m.isEmail ==> UrlOf(s, m) == Group1(s, m)
  {
    var g := Group1(s, m);
    if m.isEmail && !Contains(g, "mailto") {
      var u := "mailto:" + g;
      assert u[0..6] == "mailto";
      assert OccursAt(u, "mailto", 0);
      assert u[..7] == "mailto:";
      assert u[|u| - |g|..] == g;
    }
  }
}
