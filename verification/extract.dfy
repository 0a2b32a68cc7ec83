/** The two entry points that put the pieces together
    (urlscan/urlscan.py:377-420): `extracturls` for plain text and
    `extracthtmlurls` for HTML. Both cut the message into units, lines or
    paragraphs of chunks, and hand them to `extract_with_context` with one
    unit of context on each side. */
module Extract {
  import opened Wrappers
  import opened Chunks
  import opened Lines
  import opened Tokenizer
  import Context
  import Html
  import HtmlProperties

  // ---------------------------------------------------------------------
  // Plain text

  /** The test `extracturls` applies to a line: more than one chunk, or a
      single chunk that is a URL. */
  predicate TextLineHasUrl(chunks: seq<Chunk>) {
    |chunks| > 1 || (|chunks| == 1 && chunks[0].url.Some?)
  }

  /** What `urlre.finditer` yields on each line of `s`. */
  predicate LinesMatched(s: string, matches: seq<seq<Match>>) {
    |matches| == |NlSplit(s)| && forall i :: 0 <= i < |matches| ==> Ordered(NlSplit(s)[i], matches[i], 0)
  }

  /** `[parse_text_urls(l) for l in nlre.split(s)]`. */
  function LineChunks(s: string, matches: seq<seq<Match>>): (r: seq<seq<Chunk>>)
    requires LinesMatched(s, matches)
    ensures |r| == |NlSplit(s)|
    ensures forall i :: 0 <= i < |r| ==> r[i] == ParseTextUrls(NlSplit(s)[i], matches[i])
  {
    var lines := NlSplit(s);
    seq(|lines|, i requires 0 <= i < |lines| => ParseTextUrls(lines[i], matches[i]))
  }

  /** On a parsed line, the test holds exactly when the line holds a URL
      match, and exactly when one of its chunks carries a URL: a lone text
      chunk never passes. */
  lemma TextLineTest(s: string, ms: seq<Match>)
    requires Ordered(s, ms, 0)
    ensures TextLineHasUrl(ParseTextUrls(s, ms)) <==> ms != []
    ensures TextLineHasUrl(ParseTextUrls(s, ms)) <==> SomeChunkIsUrl(ParseTextUrls(s, ms))
  {
    var r := ParseTextUrls(s, ms);
    if ms == [] {
      NoMatches(s);
    } else {
      var m := ms[0];
      var lead := if 0 < m.start then [TextChunk(s[0..m.start])] else [];
      assert r == lead + [UrlChunk(UrlOf(s, m))] + ParseFrom(s, ms[1..], m.end);
      assert r[|lead|] == UrlChunk(UrlOf(s, m));
    }
  }

  /** `extracturls(s)`, with the matches of `urlre` on every line given. */
  method ExtractUrls(s: string, matches: seq<seq<Match>>)
    returns (rval: seq<Context.Window<seq<Chunk>>>, ghost spans: seq<Context.Bounds>)
    requires LinesMatched(s, matches)
    ensures Context.Extraction(LineChunks(s, matches), TextLineHasUrl, 1, 1, rval, spans)
    ensures rval == [] <==> forall i :: 0 <= i < |matches| ==> matches[i] == []
  {
    var lines := LineChunks(s, matches);
    rval, spans := Context.ExtractWithContext(lines, TextLineHasUrl, 1, 1);
    forall i | 0 <= i < |matches|
      ensures TextLineHasUrl(lines[i]) <==> matches[i] != []
    {
      TextLineTest(NlSplit(s)[i], matches[i]);
    }
  }

  // ---------------------------------------------------------------------
  // HTML

  /** `somechunkisurl`: the loop that returns at the first chunk with a URL. */
  function SomeChunkIsUrl(chunks: seq<Chunk>): (b: bool)
    ensures b <==> exists i :: 0 <= i < |chunks| && chunks[i].url.Some?
  {
    if chunks == [] then false
    else if chunks[0].url.Some? then true
    else
      var b := SomeChunkIsUrl(chunks[1..]);
      assert forall i :: 1 <= i < |chunks| ==> chunks[i] == chunks[1..][i - 1];
      b
  }

  /** No chunk of any paragraph carries a URL. */
  predicate NoLinks(paras: seq<seq<Chunk>>) {
    forall i, j :: 0 <= i < |paras| && 0 <= j < |paras[i]| ==> paras[i][j].url.None?
  }

  /** Every unit of every window is a unit of the list the windows were
      cut from. */
  lemma WindowsFrom<T>(lst: seq<T>, pred: T -> bool, P: T -> bool,
                       rval: seq<Context.Window<T>>, spans: seq<Context.Bounds>)
    requires Context.Extraction(lst, pred, 1, 1, rval, spans)
    requires forall i :: 0 <= i < |lst| ==> P(lst[i])
    ensures forall k, i :: 0 <= k < |rval| && 0 <= i < |rval[k].group| ==> P(rval[k].group[i])
  {
    forall k, i | 0 <= k < |rval| && 0 <= i < |rval[k].group|
      ensures P(rval[k].group[i])
    {
      assert rval[k].group[i] == lst[spans[k].lo + i];
    }
  }

  /** No window is cut exactly when no paragraph holds a link. */
  lemma NoWindowsNoLinks(paras: seq<seq<Chunk>>, rval: seq<Context.Window<seq<Chunk>>>, spans: seq<Context.Bounds>)
    requires Context.Extraction(paras, SomeChunkIsUrl, 1, 1, rval, spans)
    ensures rval == [] <==> NoLinks(paras)
  {
    if !NoLinks(paras) {
      var i, j :| 0 <= i < |paras| && 0 <= j < |paras[i]| && paras[i][j].url.Some?;
      assert SomeChunkIsUrl(paras[i]);
    }
  }

  /** `extracthtmlurls(s)` for the parser events of `s`: the chunker's
      paragraphs, cut into windows around the paragraphs that hold a link.
      A chunker crash propagates. */
  method ExtractHtmlUrls(events: seq<Html.Event>)
    returns (r: Result<seq<Context.Window<seq<Chunk>>>, Html.Crash>, ghost spans: seq<Context.Bounds>)
    ensures r.Err? <==> Html.Paragraphs(events).Err?
    ensures r.Err? ==> r.error == Html.Paragraphs(events).error
    ensures r.Ok? ==> Context.Extraction(Html.Paragraphs(events).value, SomeChunkIsUrl, 1, 1, r.value, spans)
    ensures r.Ok? ==> (r.value == [] <==> NoLinks(Html.Paragraphs(events).value))
    ensures r.Ok? ==> forall k, i :: 0 <= k < |r.value| && 0 <= i < |r.value[k].group| ==>
                        AllWellFormed(r.value[k].group[i])
  {
    var paras := Html.Paragraphs(events);
    if paras.Err? {
      return Err(paras.error), [];
    }
    var p := paras.value;
    var rval;
    rval, spans := Context.ExtractWithContext(p, SomeChunkIsUrl, 1, 1);
    HtmlProperties.ParagraphsWellFormed(events);
    WindowsFrom(p, SomeChunkIsUrl, AllWellFormed, rval, spans);
    NoWindowsNoLinks(p, rval, spans);
    r := Ok(rval);
  }
}
