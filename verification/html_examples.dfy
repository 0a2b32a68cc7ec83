/** Concrete runs of the HTML chunker. */
module HtmlExamples {
  import opened Wrappers
  import opened Chunks
  import opened Text
  import opened Whitespace
  import opened Html

  function Msg(text: string): Chunk {
    Chunk(Some(Styled("msgtext", text)), None)
  }

  const Bullet: Chunk := PlainChunk("+  ", None)

  lemma RunOne(st: State, e: Event, rest: seq<Event>, t: State)
    requires Wf(st) && Step(st, e) == Ok(t)
    ensures Run(st, [e] + rest) == Run(t, rest)
  {
    assert ([e] + rest)[0] == e && ([e] + rest)[1..] == rest;
  }

  /** A run through the given states. */
  lemma {:induction false} RunSteps(sts: seq<State>, es: seq<Event>)
    requires |sts| == |es| + 1
    requires forall k :: 0 <= k < |sts| ==> Wf(sts[k])
    requires forall k :: 0 <= k < |es| ==> Step(sts[k], es[k]) == Ok(sts[k + 1])
    ensures Run(sts[0], es) == Ok(sts[|es|])
  {
    if es != [] {
      RunSteps(sts[1..], es[1..]);
    }
  }

  lemma ParagraphsOfRun(es: seq<Event>, t: State)
    requires Run(Init, es) == Ok(t)
    ensures Paragraphs(es) == Ok(t.rval)
  {
  }

  /** Appending to the second of two paragraphs. */
  lemma ExtendSecond(p: seq<Chunk>, cs: seq<Chunk>)
    ensures [[], p][..1] + [[[], p][1] + cs] == [[], p + cs]
  {
    assert [[], p][..1] == [[]];
  }

  /** The state inside the single open `ul` of a document whose second
      paragraph `p` is under way. */
  function InList(p: seq<Chunk>): State {
    State([[], p], false, false, [{}], [None], [ListEntry(Bulleted, 1)])
  }

  /** `<ul>` at the start of a document. */
  lemma OpenListStep()
    ensures Step(Init, StartTag("ul", [])) == Ok(InList([PlainChunk("   ", None)]))
  {
    var st := Init.(listStack := [ListEntry(Bulleted, 1)]);
    assert Init.listStack + [ListEntry(Bulleted, 1)] == [ListEntry(Bulleted, 1)];
    assert HandleStartTag(Init, "ul", []) == EndPara(st);
    assert Spaces(3) == Spaces(2) + " " == "   ";
    assert [] + [[]] + [[PlainChunk("   ", None)]] == [[], [PlainChunk("   ", None)]];
  }

  /** Inside the list, `<li>` adds the bullet to the current paragraph. */
  lemma ItemStep(p: seq<Chunk>)
    ensures Step(InList(p), StartTag("li", [])) == Ok(InList(p + [Bullet]))
  {
    var st := InList(p);
    assert CountBulleted(st.listStack) == 1;
    assert ItemMarker(st.listStack) == "+  ";
    assert HandleStartTag(st, "li", []) == EndListPara(st);
    ExtendSecond(p, [] + [Bullet]);
    assert [] + [Bullet] == [Bullet];
  }

  /** A word of text continues the current paragraph. */
  lemma WordStep(p: seq<Chunk>, w: string)
    requires IsWord(w)
    ensures Step(InList(p), Data(w)) == Ok(InList(p + [Msg(w)]))
  {
    WordOfWord(w);
    assert StyleLabel(false, {}) == "msgtext";
    ExtendSecond(p, [] + [Msg(w)]);
    assert [] + [Msg(w)] == [Msg(w)];
    assert !LeadingSpace(w) && !TrailingSpace(w);
  }

  /** `</li>` does nothing. */
  lemma EndItemStep(st: State)
    requires Wf(st)
    ensures Step(st, EndTag("li")) == Ok(st)
  {
  }

  /** `</ul>` closes the list and ends the paragraph. */
  lemma CloseListStep(p: seq<Chunk>)
    ensures Step(InList(p), EndTag("ul")) == Ok(InList(p).(atParaStart := true, listStack := []))
  {
    var st := InList(p);
    assert HandleEndTag(st, "ul") == EndPara(st.(listStack := []));
  }

  function ListDocument(a: string, b: string): seq<Event> {
    [StartTag("ul", []), StartTag("li", []), Data(a), EndTag("li"),
     StartTag("li", []), Data(b), EndTag("li"), EndTag("ul")]
  }

  /** The paragraph under way after each event of `ListDocument(a, b)`. */
  function ListStates(a: string, b: string): seq<State> {
    var p1 := [PlainChunk("   ", None)];
    var p2 := p1 + [Bullet];
    var p3 := p2 + [Msg(a)];
    var p4 := p3 + [Bullet];
    var p5 := p4 + [Msg(b)];
    [Init, InList(p1), InList(p2), InList(p3), InList(p3), InList(p4), InList(p5), InList(p5),
     InList(p5).(atParaStart := true, listStack := [])]
  }

  lemma ListStepsOpen(a: string, b: string)
    ensures var sts, es := ListStates(a, b), ListDocument(a, b);
            forall k :: 0 <= k < 2 ==> Step(sts[k], es[k]) == Ok(sts[k + 1])
  {
    var sts := ListStates(a, b);
    OpenListStep();
    ItemStep(sts[1].rval[1]);
  }

  lemma ListStepsFirst(a: string, b: string)
    requires IsWord(a)
    ensures var sts, es := ListStates(a, b), ListDocument(a, b);
            forall k :: 2 <= k < 4 ==> Step(sts[k], es[k]) == Ok(sts[k + 1])
  {
    var sts := ListStates(a, b);
    WordStep(sts[2].rval[1], a);
    EndItemStep(sts[3]);
  }

  lemma ListStepsSecond(a: string, b: string)
    requires IsWord(b)
    ensures var sts, es := ListStates(a, b), ListDocument(a, b);
            forall k :: 4 <= k < 6 ==> Step(sts[k], es[k]) == Ok(sts[k + 1])
  {
    var sts := ListStates(a, b);
    ItemStep(sts[4].rval[1]);
    WordStep(sts[5].rval[1], b);
  }

  lemma ListStepsClose(a: string, b: string)
    ensures var sts, es := ListStates(a, b), ListDocument(a, b);
            forall k :: 6 <= k < 8 ==> Step(sts[k], es[k]) == Ok(sts[k + 1])
  {
    var sts := ListStates(a, b);
    EndItemStep(sts[6]);
    CloseListStep(sts[7].rval[1]);
  }

  lemma ListRun(a: string, b: string)
    requires IsWord(a) && IsWord(b)
    ensures Run(Init, ListDocument(a, b)) == Ok(ListStates(a, b)[8])
  {
    ListStepsOpen(a, b);
    ListStepsFirst(a, b);
    ListStepsSecond(a, b);
    ListStepsClose(a, b);
    var sts := ListStates(a, b);
    assert forall k :: 0 <= k < |sts| ==> Wf(sts[k]);
    RunSteps(sts, ListDocument(a, b));
  }

  /** `<ul><li>a</li><li>b</li></ul>` for single words `a` and `b`:
      opening the list records an empty paragraph and starts an indented
      one; since a list item does not break a paragraph that has begun, both
      items share that paragraph, each marked with the bullet of the
      outermost list, `+`. */
  lemma TwoItemList(a: string, b: string)
    requires IsWord(a) && IsWord(b)
    ensures Paragraphs(ListDocument(a, b))
            == Ok([[], [PlainChunk("   ", None), Bullet, Msg(a), Bullet, Msg(b)]])
  {
    ListRun(a, b);
    ParagraphsOfRun(ListDocument(a, b), ListStates(a, b)[8]);
    assert ListStates(a, b)[8].rval[1] == [PlainChunk("   ", None), Bullet, Msg(a), Bullet, Msg(b)];
  }

  lemma OneTwo()
    ensures Paragraphs(ListDocument("one", "two"))
            == Ok([[], [PlainChunk("   ", None), Bullet, Msg("one"), Bullet, Msg("two")]])
  {
    TwoItemList("one", "two");
  }

  /** A stray `</a>` pops the sentinel of the anchor stack; the next text
      then finds no current URL and the chunker raises. */
  lemma StrayAnchorClose()
    ensures Paragraphs([EndTag("a"), Data("x")]) == Err(IndexError)
  {
    var s1 := Init.(anchorStack := []);
    assert Step(Init, EndTag("a")) == Ok(s1);
    assert Step(s1, Data("x")) == Err(IndexError);
  }

  /** Closing a list that was never opened raises. */
  lemma StrayListClose()
    ensures Paragraphs([EndTag("ul")]) == Err(IndexError)
  {
    assert Step(Init, EndTag("ul")) == Err(IndexError);
  }

  lemma GoOn()
    ensures Collapse(" go  on") == "go on"
  {
    var s := " go  on";
    assert s[1..] == "go  on";
    WordLengthIs(s[1..], 2);
    assert s[1..][..2] == "go" && s[1..][2..] == "  on";
    assert "  on"[1..] == " on" && " on"[1..] == "on";
    WordOfWord("on");
    assert Words(s) == ["go", "on"];
  }

  const Link: Chunk := Chunk(Some(Styled("anchor", "go on")), Some("u"))

  lemma OpenLinkStep()
    ensures Step(Init, StartTag("a", [Attr("href", Some("u"))])) == Ok(Init.(anchorStack := [None, Some("u")]))
  {
    assert FindAttr([Attr("href", Some("u"))], "href") == Some("u");
    assert Init.anchorStack + [Some("u")] == [None, Some("u")];
  }

  /** Text at the start of a document, inside a link to `u`. */
  lemma LinkDataStep(u: string, d: string)
    ensures var st := Init.(anchorStack := [None, Some(u)]);
            Step(st, Data(d)) == Ok(st.(rval := [[Chunk(Some(Styled("anchor", Collapse(d))), Some(u))]],
                                        atParaStart := false, trailingSpace := TrailingSpace(d)))
  {
    var st := Init.(anchorStack := [None, Some(u)]);
    assert StyleLabel(true, {}) == "anchor";
    var r := HandleData(st, d);
    assert r.Ok?;
    var c := Chunk(Some(Styled("anchor", Collapse(d))), Some(u));
    var none: seq<seq<Chunk>> := [];
    var empty: seq<Chunk> := [];
    assert empty + [c] == [c];
    assert none + [[c]] == [[c]];
  }

  lemma LinkTextStep()
    ensures var st := Init.(anchorStack := [None, Some("u")]);
            Step(st, Data(" go  on")) == Ok(st.(rval := [[Link]], atParaStart := false))
  {
    GoOn();
    LinkDataStep("u", " go  on");
    assert !TrailingSpace(" go  on");
  }

  /** Text inside a link is styled `anchor` and carries the link's target;
      whitespace inside the text collapses to one space, and leading
      whitespace at a paragraph start adds nothing. */
  lemma LinkedText()
    ensures Paragraphs([StartTag("a", [Attr("href", Some("u"))]), Data(" go  on"), EndTag("a")])
            == Ok([[Link]])
  {
    var e1, e2, e3 := StartTag("a", [Attr("href", Some("u"))]), Data(" go  on"), EndTag("a");
    var s1 := Init.(anchorStack := [None, Some("u")]);
    var s2 := s1.(rval := [[Link]], atParaStart := false);
    var s3 := s2.(anchorStack := [None]);
    OpenLinkStep();
    LinkTextStep();
    assert [None, Some("u")][..1] == [None];
    assert Step(s2, e3) == Ok(s3);
    RunOne(s2, e3, [], s3);
    RunOne(s1, e2, [e3], s2);
    RunOne(Init, e1, [e2, e3], s1);
    assert [e1, e2, e3] == [e1] + [e2, e3];
    assert [e2, e3] == [e2] + [e3];
    assert [e3] == [e3] + [];
  }
}
