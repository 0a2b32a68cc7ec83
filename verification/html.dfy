/** The HTML chunker (`HTMLChunker`, urlscan/urlscan.py): a state machine that
    turns the event stream of an HTML parser into paragraphs of chunks. Each
    handler is a pure transition; the exceptions the handlers can raise on an
    unbalanced document or a malformed reference are an explicit `Err`. */
module Html {
  import opened Wrappers
  import opened Text
  import opened Chunks
  import opened Whitespace

  datatype Style = Bold | Italic

  /** The tag that opened a list: `ul` or `ol`. */
  datatype ListKind = Bulleted | Numbered

  /** An open list and, for `ol`, the number its next item gets. */
  datatype ListEntry = ListEntry(kind: ListKind, counter: nat)

  /** An attribute as the parser reports it; `<img alt>` has no value. */
  datatype Attr = Attr(name: string, value: Option<string>)

  datatype Event =
    | StartTag(tag: string, attrs: seq<Attr>)
    | StartEndTag(tag: string, attrs: seq<Attr>)
    | EndTag(tag: string)
    | Data(data: string)
    | CharRef(name: string)
    | EntityRef(name: string)

  /** `IndexError` from `[-1]` or `del [-1]` on an empty stack, `ValueError`
      from `int()` on a malformed character reference. */
  datatype Crash = IndexError | ValueError

  datatype State = State(
    rval: seq<seq<Chunk>>,
    atParaStart: bool,
    trailingSpace: bool,
    styleStack: seq<set<Style>>,
    anchorStack: seq<Option<string>>,
    listStack: seq<ListEntry>)

  /** The state `__init__` leaves: no paragraphs, one empty style set, no
      enclosing link, no open list. */
  const Init: State := State([], true, false, [{}], [None], [])

  /** Between chunks of one paragraph there is always a paragraph to add to. */
  predicate Wf(st: State) {
    !st.atParaStart ==> |st.rval| > 0
  }

  function Top<T>(s: seq<T>): T
    requires |s| > 0
  {
    s[|s| - 1]
  }

  function Pop<T>(s: seq<T>): seq<T>
    requires |s| > 0
  {
    s[..|s| - 1]
  }

  /** `cur_url()`: the innermost enclosing link target. */
  function CurUrl(st: State): (r: Result<Option<string>, Crash>)
    ensures r.Ok? <==> |st.anchorStack| > 0
    ensures r.Ok? ==> r.value == Top(st.anchorStack)
  {
    if st.anchorStack == [] then Err(IndexError) else Ok(Top(st.anchorStack))
  }

  function SpaceChunk(url: Option<string>): Chunk {
    Chunk(Some(Plain(" ")), url)
  }

  function PlainChunk(text: string, url: Option<string>): Chunk {
    Chunk(Some(Plain(text)), url)
  }

  // ---------------------------------------------------------------------
  // How the output grows

  /** `prev` grows into `next`: earlier paragraphs are untouched, the last one
      only gains chunks at its end, and new paragraphs may follow. */
  predicate Grows(prev: seq<seq<Chunk>>, next: seq<seq<Chunk>>) {
    && |prev| <= |next|
    && (forall i :: 0 <= i < |prev| - 1 ==> next[i] == prev[i])
    && (|prev| > 0 ==> prev[|prev| - 1] <= next[|prev| - 1])
  }

  /** Every chunk the chunker emits carries markup. */
  predicate Marked(rval: seq<seq<Chunk>>) {
    forall i, j :: 0 <= i < |rval| && 0 <= j < |rval[i]| ==> rval[i][j].markup.Some?
  }

  predicate AllMarked(cs: seq<Chunk>) {
    forall j :: 0 <= j < |cs| ==> cs[j].markup.Some?
  }

  /** `next` is `prev` with `added` appended: as a paragraph of its own when
      `newPara`, otherwise at the end of the last paragraph. */
  predicate Appended(prev: seq<seq<Chunk>>, next: seq<seq<Chunk>>, added: seq<Chunk>, newPara: bool) {
    if newPara then next == prev + [added]
    else |prev| > 0 && next == prev[..|prev| - 1] + [prev[|prev| - 1] + added]
  }

  /** A transition's effect on the output: it only grows, and only with
      chunks that carry markup. */
  predicate Progress(prev: seq<seq<Chunk>>, next: seq<seq<Chunk>>) {
    Grows(prev, next) && (Marked(prev) ==> Marked(next))
  }

  lemma AppendedProgress(prev: seq<seq<Chunk>>, next: seq<seq<Chunk>>, added: seq<Chunk>, newPara: bool)
    requires Appended(prev, next, added, newPara)
    requires AllMarked(added)
    ensures Progress(prev, next)
  {
    if !newPara {
      assert prev[|prev| - 1] <= next[|prev| - 1];
    }
  }

  lemma ProgressTrans(a: seq<seq<Chunk>>, b: seq<seq<Chunk>>, c: seq<seq<Chunk>>)
    requires Progress(a, b) && Progress(b, c)
    ensures Progress(a, c)
  {
    if |a| > 0 && |a| == |b| {
      assert b[|b| - 1] <= c[|b| - 1];
    }
  }

  lemma ProgressRefl(a: seq<seq<Chunk>>)
    ensures Progress(a, a)
  {
  }

  /** `rval[-1].extend(cs)`. */
  function AppendToLast(rval: seq<seq<Chunk>>, cs: seq<Chunk>): seq<seq<Chunk>>
    requires |rval| > 0
  {
    rval[..|rval| - 1] + [rval[|rval| - 1] + cs]
  }

  /** The stacks are as they were. */
  predicate SameStacks(st: State, t: State) {
    && t.styleStack == st.styleStack
    && t.anchorStack == st.anchorStack
    && t.listStack == st.listStack
  }

  // ---------------------------------------------------------------------
  // Paragraph structure

  /** Whether `add_chunk` puts a `' '` chunk before the next one. */
  predicate SpaceBefore(st: State) {
    !st.atParaStart && st.trailingSpace
  }

  /** `add_chunk`. */
  function AddChunk(st: State, c: Chunk): (r: Result<State, Crash>)
    requires Wf(st)
    ensures r.Err? <==> SpaceBefore(st) && st.anchorStack == []
    ensures r.Ok? ==> Wf(r.value) && SameStacks(st, r.value)
    ensures r.Ok? ==> !r.value.atParaStart && !r.value.trailingSpace
    ensures r.Ok? ==> Appended(st.rval, r.value.rval,
                               (if SpaceBefore(st) then [SpaceChunk(Top(st.anchorStack))] else []) + [c],
                               st.atParaStart)
  {
    var lead :-
      if SpaceBefore(st) then
        var u :- CurUrl(st);
        Ok([SpaceChunk(u)])
      else
        Ok([]);
    var rval := if st.atParaStart then st.rval + [[]] else st.rval;
    assert st.atParaStart ==> Pop(rval) == st.rval && Top(rval) + (lead + [c]) == lead + [c];
    Ok(st.(rval := AppendToLast(rval, lead + [c]), atParaStart := false, trailingSpace := false))
  }

  /** The indentation `end_para` starts a paragraph with inside lists: three
      spaces per open list. */
  function Indent(depth: nat): string {
    Spaces(3 * depth)
  }

  /** `end_para`: a paragraph break. The next chunk starts a new paragraph;
      a break at a paragraph start records an empty paragraph; inside a list
      the new paragraph opens with the indentation. */
  function EndPara(st: State): (r: Result<State, Crash>)
    requires Wf(st)
    ensures r.Err? <==> |st.listStack| > 0 && st.anchorStack == []
    ensures r.Ok? ==> Wf(r.value) && SameStacks(st, r.value) && !r.value.trailingSpace
    ensures r.Ok? && st.listStack == [] ==>
              && r.value.atParaStart
              && r.value.rval == st.rval + (if st.atParaStart then [[]] else [])
    ensures r.Ok? && st.listStack != [] ==>
              && !r.value.atParaStart
              && r.value.rval == st.rval + (if st.atParaStart then [[]] else [])
                                 + [[PlainChunk(Indent(|st.listStack|), Top(st.anchorStack))]]
  {
    var st1 := if st.atParaStart then st.(rval := st.rval + [[]]) else st.(atParaStart := true);
    var st2 := st1.(trailingSpace := false);
    if |st2.listStack| > 0 then
      var u :- CurUrl(st2);
      var c := PlainChunk(Indent(|st2.listStack|), u);
      var r := AddChunk(st2, c);
      assert [] + [c] == [c];
      r
    else
      Ok(st2)
  }

  /** `ul_tags`: the bullets, chosen by list depth. */
  const UlTags: seq<char> := ['*', '+', '-']

  /** The number of open `ul` lists. */
  function CountBulleted(ls: seq<ListEntry>): (n: nat)
    ensures n <= |ls|
  {
    if ls == [] then 0
    else CountBulleted(Pop(ls)) + (if Top(ls).kind == Bulleted then 1 else 0)
  }

  /** `"%2d." % n`: the number right-aligned in two columns, then a dot. */
  function Numeral(n: nat): (r: string) {
    (if n < 10 then " " else "") + NatToString(n) + "."
  }

  /** The marker that starts a list item in the innermost open list. */
  function ItemMarker(ls: seq<ListEntry>): string
    requires |ls| > 0
  {
    if Top(ls).kind == Bulleted then [UlTags[CountBulleted(ls) % |UlTags|]] + "  "
    else Numeral(Top(ls).counter)
  }

  /** The list stack after an item: an `ol` counts one further. */
  function NextItem(ls: seq<ListEntry>): (r: seq<ListEntry>)
    requires |ls| > 0
    ensures |r| == |ls| && Pop(r) == Pop(ls) && Top(r).kind == Top(ls).kind
  {
    if Top(ls).kind == Bulleted then ls
    else
      var r := Pop(ls) + [ListEntry(Numbered, Top(ls).counter + 1)];
      assert Pop(r) == Pop(ls) && Top(r).kind == Numbered;
      r
  }

  /** `end_list_para`: a list item. Inside a list it adds the item marker to
      the current paragraph (a new one at a paragraph start); outside any
      list it is a paragraph break after an empty paragraph at a start. */
  function EndListPara(st: State): (r: Result<State, Crash>)
    requires Wf(st)
    ensures r.Err? <==> |st.listStack| > 0 && st.anchorStack == []
    ensures r.Ok? ==> Wf(r.value)
    ensures r.Ok? ==> r.value.styleStack == st.styleStack && r.value.anchorStack == st.anchorStack
    ensures r.Ok? && st.listStack == [] ==>
              && r.value.atParaStart && r.value.listStack == []
              && r.value.rval == st.rval + (if st.atParaStart then [[], []] else [])
    ensures r.Ok? && st.listStack != [] ==>
              && !r.value.atParaStart && !r.value.trailingSpace
              && r.value.listStack == NextItem(st.listStack)
              && (st.atParaStart ==>
                    r.value.rval == st.rval + [[], [PlainChunk(ItemMarker(st.listStack), Top(st.anchorStack))]])
              && (!st.atParaStart ==>
                    Appended(st.rval, r.value.rval,
                             (if st.trailingSpace then [SpaceChunk(Top(st.anchorStack))] else [])
                             + [PlainChunk(ItemMarker(st.listStack), Top(st.anchorStack))],
                             false))
  {
    var st1 := if st.atParaStart then st.(rval := st.rval + [[]]) else st;
    if |st1.listStack| > 0 then
      var marker := ItemMarker(st1.listStack);
      var st2 := st1.(listStack := NextItem(st1.listStack));
      var u :- CurUrl(st2);
      var c := PlainChunk(marker, u);
      var r := AddChunk(st2, c);
      assert [] + [c] == [c];
      r
    else
      EndPara(st1)
  }

  // ---------------------------------------------------------------------
  // Character data

  /** `findattr`: the value of the first attribute with the given name, or
      `None` when there is none (or it has no value). */
  function FindAttr(attrs: seq<Attr>, name: string): (r: Option<string>)
    ensures (forall i :: 0 <= i < |attrs| ==> attrs[i].name != name) ==> r == None
  {
    if attrs == [] then None
    else if attrs[0].name == name then attrs[0].value
    else FindAttr(attrs[1..], name)
  }

  /** Later attributes of the same name are ignored. */
  lemma {:induction false} FindAttrFirst(attrs: seq<Attr>, name: string, k: nat)
    requires k < |attrs| && attrs[k].name == name
    requires forall i :: 0 <= i < k ==> attrs[i].name != name
    ensures FindAttr(attrs, name) == attrs[k].value
  {
    if k > 0 {
      FindAttrFirst(attrs[1..], name, k - 1);
    }
  }

  function StyleName(s: Style): string {
    match s
    case Bold => "bold"
    case Italic => "italic"
  }

  /** The names of a style set in alphabetical order. */
  function StyleNames(styles: set<Style>): (r: seq<string>)
    ensures forall i :: 0 <= i < |r| ==> exists s :: s in styles && r[i] == StyleName(s)
    ensures forall s :: s in styles ==> StyleName(s) in r
    ensures forall i :: 0 <= i < |r| ==> |r[i]| > 0
    ensures forall i, j :: 0 <= i < j < |r| ==> r[i][0] < r[j][0]
  {
    (if Bold in styles then [StyleName(Bold)] else []) + (if Italic in styles then [StyleName(Italic)] else [])
  }

  function Concat(ws: seq<string>): string {
    if ws == [] then "" else ws[0] + Concat(ws[1..])
  }

  /** The urwid attribute of a data chunk: `msgtext` or `anchor`, then `:`
      and the sorted style names when the style set is not empty. */
  function StyleLabel(inAnchor: bool, styles: set<Style>): string {
    (if inAnchor then "anchor" else "msgtext")
    + (if styles == {} then "" else ":" + Concat(StyleNames(styles)))
  }

  /** Different anchor flags or style sets never share a label. */
  lemma StyleLabelInjective(a1: bool, s1: set<Style>, a2: bool, s2: set<Style>)
    requires StyleLabel(a1, s1) == StyleLabel(a2, s2)
    ensures a1 == a2 && s1 == s2
  {
    var l := StyleLabel(a1, s1);
    assert a1 <==> l[0] == 'a';
    assert a2 <==> l[0] == 'a';
    var n := if a1 then 6 else 7;
    var suffix := l[n..];
    StyleSuffix(a1, s1);
    StyleSuffix(a2, s2);
    assert suffix == SuffixOf(s1) == SuffixOf(s2);
    SuffixInjective(s1, s2);
  }

  function SuffixOf(styles: set<Style>): string {
    if styles == {} then "" else ":" + Concat(StyleNames(styles))
  }

  lemma StyleSuffix(a: bool, styles: set<Style>)
    ensures StyleLabel(a, styles)[if a then 6 else 7..] == SuffixOf(styles)
  {
  }

  lemma SuffixInjective(s1: set<Style>, s2: set<Style>)
    requires SuffixOf(s1) == SuffixOf(s2)
    ensures s1 == s2
  {
    SuffixShows(s1);
    SuffixShows(s2);
    forall x: Style
      ensures x in s1 <==> x in s2
    {
      match x
      case Bold =>
      case Italic =>
    }
  }

  /** The suffix shows each style: `b` right after the colon for bold, a
      final `c` for italic. */
  lemma SuffixShows(s: set<Style>)
    ensures Bold in s <==> |SuffixOf(s)| > 1 && SuffixOf(s)[1] == 'b'
    ensures Italic in s <==> |SuffixOf(s)| > 1 && SuffixOf(s)[|SuffixOf(s)| - 1] == 'c'
  {
    var names := StyleNames(s);
    if Bold in s && Italic in s {
      assert names == ["bold", "italic"];
      ConcatTwo("bold", "italic");
    } else if Bold in s {
      assert names == ["bold"];
      ConcatTwo("bold", "");
      assert s != {};
    } else if Italic in s {
      assert names == ["italic"];
      ConcatTwo("italic", "");
      assert s != {};
    } else {
      forall x | x in s
        ensures false
      {
        match x
        case Bold =>
        case Italic =>
      }
      assert s == {};
    }
  }

  lemma ConcatTwo(a: string, b: string)
    ensures Concat([a, b]) == a + b
    ensures Concat([a]) == a
  {
    assert [a, b][1..] == [b];
    assert Concat([b]) == b + Concat([]);
  }

  predicate LeadingSpace(data: string) {
    |data| > 0 && IsSpace(data[0])
  }

  predicate TrailingSpace(data: string) {
    |data| > 0 && IsSpace(data[|data| - 1])
  }

  /** `handle_data`: a styled chunk of the collapsed text, linked to the
      current URL. Leading whitespace in `data` asks for a separating space
      before it, trailing whitespace for one before the next chunk. */
  function HandleData(st: State, data: string): (r: Result<State, Crash>)
    requires Wf(st)
    ensures r.Err? <==> st.anchorStack == [] || st.styleStack == []
    ensures r.Ok? ==> Wf(r.value) && SameStacks(st, r.value) && !r.value.atParaStart
    ensures r.Ok? ==> r.value.trailingSpace == TrailingSpace(data)
    ensures r.Ok? ==>
              var url := Top(st.anchorStack);
              var chunk := Chunk(Some(Styled(StyleLabel(url.Some?, Top(st.styleStack)), Collapse(data))), url);
              Appended(st.rval, r.value.rval,
                       (if !st.atParaStart && (st.trailingSpace || LeadingSpace(data))
                        then [SpaceChunk(url)] else []) + [chunk],
                       st.atParaStart)
  {
    var future := TrailingSpace(data);
    var st1 := if LeadingSpace(data) then st.(trailingSpace := true) else st;
    var text := Collapse(data);
    if st1.anchorStack == [] || st1.styleStack == [] then
      Err(IndexError)
    else
      var style := StyleLabel(Top(st1.anchorStack).Some?, Top(st1.styleStack));
      match AddChunk(st1, Chunk(Some(Styled(style, text)), Top(st1.anchorStack)))
      case Ok(st2) => Ok(st2.(trailingSpace := future))
      case Err(e) => Err(e)
  }

  /** `extrachars`: the few references above 127 given an ASCII spelling. */
  const ExtraChars: map<nat, string> :=
    map[8212 := "--", 8217 := "'", 8220 := "``", 8221 := "''", 8230 := "..."]

  /** `entities`: the named references that are substituted. */
  const Entities: map<string, string> :=
    map["nbsp" := " ", "lt" := "<", "gt" := ">", "amp" := "&",
        "ldquo" := "``", "rdquo" := "''", "apos" := "'"]

  /** The number a character reference names: hexadecimal after `x`,
      decimal otherwise. */
  function CharRefValue(name: string): (r: Result<nat, Crash>)
    ensures r.Err? <==>
              || name == []
              || (name[0] == 'x' && ParseHex(name[1..]).None?)
              || (name[0] != 'x' && ParseDec(name).None?)
  {
    if name == [] then Err(IndexError)
    else
      var parsed := if name[0] == 'x' then ParseHex(name[1..]) else ParseDec(name);
      match parsed
      case None => Err(ValueError)
      case Some(n) => Ok(n)
  }

  /** The text `handle_charref` passes on: the ASCII character itself, the
      `extrachars` spelling, or the reference written out again. */
  function CharRefText(name: string): (r: Result<string, Crash>)
    ensures r.Ok? <==> CharRefValue(name).Ok?
  {
    var n :- CharRefValue(name);
    if n < 128 then Ok([n as char])
    else if n in ExtraChars then Ok(ExtraChars[n])
    else Ok("&#" + name + ";")
  }

  /** The text `handle_entityref` passes on. */
  function EntityText(name: string): (r: string)
    ensures name in Entities ==> r == Entities[name]
    ensures name !in Entities ==> r == "&" + name + ";"
  {
    if name in Entities then Entities[name] else "&" + name + ";"
  }

  // ---------------------------------------------------------------------
  // Tags

  /** `isheadertag`: `h` followed by one digit. */
  predicate IsHeaderTag(t: string) {
    |t| == 2 && t[0] == 'h' && IsDigit(t[1])
  }

  /** `tag_styles`. */
  function TagStyle(tag: string): Option<Style> {
    if tag == "b" then Some(Bold)
    else if tag == "i" then Some(Italic)
    else None
  }

  /** Push the top style set extended by `s`. */
  function PushStyle(st: State, s: Style): (r: Result<State, Crash>)
    ensures r.Err? <==> st.styleStack == []
    ensures r.Ok? ==> r.value == st.(styleStack := st.styleStack + [Top(st.styleStack) + {s}])
  {
    if st.styleStack == [] then Err(IndexError)
    else Ok(st.(styleStack := st.styleStack + [Top(st.styleStack) + {s}]))
  }

  /** The link an `<img>` gets: its `src` when that is an `http://` URL. */
  function ImageLink(attrs: seq<Attr>): (r: Option<string>)
    ensures r.Some? ==> r == FindAttr(attrs, "src") && StartsWith(r.value, "http://")
    ensures r.None? ==> FindAttr(attrs, "src").None? || !StartsWith(FindAttr(attrs, "src").value, "http://")
  {
    var src := FindAttr(attrs, "src");
    if src.Some? && StartsWith(src.value, "http://") then src else None
  }

  /** The text an `<img>` shows: its `alt`, or `[IMG]`. */
  function ImageText(attrs: seq<Attr>): (r: string)
    ensures FindAttr(attrs, "alt").Some? ==> r == FindAttr(attrs, "alt").value
    ensures FindAttr(attrs, "alt").None? ==> r == "[IMG]"
  {
    match FindAttr(attrs, "alt")
    case None => "[IMG]"
    case Some(alt) => alt
  }

  /** An `<img>`: its text as data, linked to its `src` when that is an
      `http://` URL, leaving the anchor stack as it was. */
  function Image(st: State, attrs: seq<Attr>): (r: Result<State, Crash>)
    requires Wf(st)
    ensures r.Ok? ==> Wf(r.value) && SameStacks(st, r.value)
  {
    var link := ImageLink(attrs);
    if link.Some? then
      var st1 := st.(anchorStack := st.anchorStack + [link]);
      var st2 :- HandleData(st1, ImageText(attrs));
      Ok(st2.(anchorStack := Pop(st2.anchorStack)))
    else
      HandleData(st, ImageText(attrs))
  }

  /** `handle_starttag`. */
  function HandleStartTag(st: State, tag: string, attrs: seq<Attr>): (r: Result<State, Crash>)
    requires Wf(st)
    ensures r.Ok? ==> Wf(r.value)
  {
    if tag == "a" then
      Ok(st.(anchorStack := st.anchorStack + [FindAttr(attrs, "href")]))
    else if tag == "ul" || tag == "ol" then
      var kind := if tag == "ul" then Bulleted else Numbered;
      EndPara(st.(listStack := st.listStack + [ListEntry(kind, 1)]))
    else if TagStyle(tag).Some? then
      PushStyle(st, TagStyle(tag).value)
    else if IsHeaderTag(tag) then
      PushStyle(st, Bold)
    else if tag == "p" || tag == "br" then
      EndPara(st)
    else if tag == "img" then
      Image(st, attrs)
    else if tag == "li" then
      EndListPara(st)
    else
      Ok(st)
  }

  /** `handle_startendtag`: only the empty-element forms of `p`, `br`, `li`
      and `img` do anything. */
  function HandleStartEndTag(st: State, tag: string, attrs: seq<Attr>): (r: Result<State, Crash>)
    requires Wf(st)
    ensures r.Ok? ==> Wf(r.value)
  {
    if tag in {"p", "br", "li", "img"} then HandleStartTag(st, tag, attrs) else Ok(st)
  }

  /** `handle_endtag`: closes a link, a style, a list or a header. Closing
      more than was opened empties or over-pops a stack. */
  function HandleEndTag(st: State, tag: string): (r: Result<State, Crash>)
    requires Wf(st)
    ensures r.Ok? ==> Wf(r.value)
  {
    if tag == "a" then
      if st.anchorStack == [] then Err(IndexError)
      else Ok(st.(anchorStack := Pop(st.anchorStack)))
    else if TagStyle(tag).Some? then
      if st.styleStack == [] then Err(IndexError)
      else Ok(st.(styleStack := Pop(st.styleStack)))
    else if tag == "ul" || tag == "ol" then
      if st.listStack == [] then Err(IndexError)
      else EndPara(st.(listStack := Pop(st.listStack)))
    else if IsHeaderTag(tag) then
      if st.styleStack == [] then Err(IndexError)
      else EndPara(st.(styleStack := Pop(st.styleStack)))
    else
      Ok(st)
  }

  /** One parser callback. */
  function Step(st: State, e: Event): (r: Result<State, Crash>)
    requires Wf(st)
    ensures r.Ok? ==> Wf(r.value)
  {
    match e
    case StartTag(tag, attrs) => HandleStartTag(st, tag, attrs)
    case StartEndTag(tag, attrs) => HandleStartEndTag(st, tag, attrs)
    case EndTag(tag) => HandleEndTag(st, tag)
    case Data(data) => HandleData(st, data)
    case CharRef(name) =>
      var text :- CharRefText(name);
      HandleData(st, text)
    case EntityRef(name) => HandleData(st, EntityText(name))
  }

  /** Feeding a sequence of events; the first exception ends the run. */
  function Run(st: State, events: seq<Event>): (r: Result<State, Crash>)
    requires Wf(st)
    ensures r.Ok? ==> Wf(r.value)
    decreases |events|
  {
    if events == [] then Ok(st)
    else
      var st1 :- Step(st, events[0]);
      Run(st1, events[1..])
  }

  /** The paragraphs a whole document yields (`c.rval` after `feed`). */
  function Paragraphs(events: seq<Event>): Result<seq<seq<Chunk>>, Crash> {
    var st :- Run(Init, events);
    Ok(st.rval)
  }
}
