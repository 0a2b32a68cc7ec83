/** Properties of the HTML chunker: the output only grows, the style stack
    stays nested, and what each kind of event contributes. */
module HtmlProperties {
  import opened Wrappers
  import opened Text
  import opened Chunks
  import opened Whitespace
  import opened Html

  // ---------------------------------------------------------------------
  // The output only grows

  lemma ExtendProgress(prev: seq<seq<Chunk>>, extra: seq<seq<Chunk>>)
    requires forall i :: 0 <= i < |extra| ==> AllMarked(extra[i])
    ensures Progress(prev, prev + extra)
  {
    var grown: seq<seq<Chunk>> := prev + extra;
    if Marked(prev) {
      forall i: int, j: int | 0 <= i < |grown| && 0 <= j < |grown[i]|
        ensures grown[i][j].markup.Some?
      {
        if i >= |prev| {
          assert grown[i] == extra[i - |prev|];
        }
      }
    }
  }

  lemma AddChunkProgress(st: State, c: Chunk)
    requires Wf(st) && c.markup.Some? && AddChunk(st, c).Ok?
    ensures Progress(st.rval, AddChunk(st, c).value.rval)
  {
    var added := (if SpaceBefore(st) then [SpaceChunk(Top(st.anchorStack))] else []) + [c];
    assert AllMarked(added);
    AppendedProgress(st.rval, AddChunk(st, c).value.rval, added, st.atParaStart);
  }

  lemma EndParaProgress(st: State)
    requires Wf(st) && EndPara(st).Ok?
    ensures Progress(st.rval, EndPara(st).value.rval)
  {
    var t := EndPara(st).value;
    var lead: seq<seq<Chunk>> := if st.atParaStart then [[]] else [];
    if st.listStack == [] {
      ExtendProgress(st.rval, lead);
    } else {
      var indent := [PlainChunk(Indent(|st.listStack|), Top(st.anchorStack))];
      assert t.rval == st.rval + (lead + [indent]);
      ExtendProgress(st.rval, lead + [indent]);
    }
  }

  lemma EndListParaProgress(st: State)
    requires Wf(st) && EndListPara(st).Ok?
    ensures Progress(st.rval, EndListPara(st).value.rval)
  {
    var t := EndListPara(st).value;
    if st.listStack == [] {
      ExtendProgress(st.rval, if st.atParaStart then [[], []] else []);
    } else {
      var marker := PlainChunk(ItemMarker(st.listStack), Top(st.anchorStack));
      if st.atParaStart {
        ExtendProgress(st.rval, [[], [marker]]);
      } else {
        var added := (if st.trailingSpace then [SpaceChunk(Top(st.anchorStack))] else []) + [marker];
        assert AllMarked(added);
        AppendedProgress(st.rval, t.rval, added, false);
      }
    }
  }

  lemma HandleDataProgress(st: State, data: string)
    requires Wf(st) && HandleData(st, data).Ok?
    ensures Progress(st.rval, HandleData(st, data).value.rval)
  {
    var url := Top(st.anchorStack);
    var chunk := Chunk(Some(Styled(StyleLabel(url.Some?, Top(st.styleStack)), Collapse(data))), url);
    var added := (if !st.atParaStart && (st.trailingSpace || LeadingSpace(data))
                  then [SpaceChunk(url)] else []) + [chunk];
    assert AllMarked(added);
    AppendedProgress(st.rval, HandleData(st, data).value.rval, added, st.atParaStart);
  }

  lemma ImageProgress(st: State, attrs: seq<Attr>)
    requires Wf(st) && Image(st, attrs).Ok?
    ensures Progress(st.rval, Image(st, attrs).value.rval)
  {
    var link := ImageLink(attrs);
    if link.Some? {
      var st1 := st.(anchorStack := st.anchorStack + [link]);
      HandleDataProgress(st1, ImageText(attrs));
    } else {
      HandleDataProgress(st, ImageText(attrs));
    }
  }

  lemma StartTagProgress(st: State, tag: string, attrs: seq<Attr>)
    requires Wf(st) && HandleStartTag(st, tag, attrs).Ok?
    ensures Progress(st.rval, HandleStartTag(st, tag, attrs).value.rval)
  {
    if tag == "a" {
    } else if tag == "ul" || tag == "ol" {
      var kind := if tag == "ul" then Bulleted else Numbered;
      EndParaProgress(st.(listStack := st.listStack + [ListEntry(kind, 1)]));
    } else if TagStyle(tag).Some? || IsHeaderTag(tag) {
    } else if tag == "p" || tag == "br" {
      EndParaProgress(st);
    } else if tag == "img" {
      ImageProgress(st, attrs);
    } else if tag == "li" {
      EndListParaProgress(st);
    }
  }

  lemma EndTagProgress(st: State, tag: string)
    requires Wf(st) && HandleEndTag(st, tag).Ok?
    ensures Progress(st.rval, HandleEndTag(st, tag).value.rval)
  {
    if tag == "a" || TagStyle(tag).Some? {
    } else if tag == "ul" || tag == "ol" {
      EndParaProgress(st.(listStack := Pop(st.listStack)));
    } else if IsHeaderTag(tag) {
      EndParaProgress(st.(styleStack := Pop(st.styleStack)));
    }
  }

  lemma StepProgress(st: State, e: Event)
    requires Wf(st) && Step(st, e).Ok?
    ensures Progress(st.rval, Step(st, e).value.rval)
  {
    match e
    case StartTag(tag, attrs) => StartTagProgress(st, tag, attrs);
    case StartEndTag(tag, attrs) =>
      if tag in {"p", "br", "li", "img"} {
        StartTagProgress(st, tag, attrs);
      }
    case EndTag(tag) => EndTagProgress(st, tag);
    case Data(data) => HandleDataProgress(st, data);
    case CharRef(name) => HandleDataProgress(st, CharRefText(name).value);
    case EntityRef(name) => HandleDataProgress(st, EntityText(name));
  }

  /** Over a whole run, paragraphs before the last one are never modified,
      the last one only gains chunks at its end, and every chunk carries
      markup. */
  lemma {:induction false} RunProgress(st: State, events: seq<Event>)
    requires Wf(st) && Run(st, events).Ok?
    ensures Progress(st.rval, Run(st, events).value.rval)
    decreases |events|
  {
    if events == [] {
      ProgressRefl(st.rval);
    } else {
      var st1 := Step(st, events[0]).value;
      StepProgress(st, events[0]);
      RunProgress(st1, events[1..]);
      ProgressTrans(st.rval, st1.rval, Run(st, events).value.rval);
    }
  }

  /** Every paragraph of a document is a list of well-formed chunks. */
  lemma ParagraphsWellFormed(events: seq<Event>)
    requires Paragraphs(events).Ok?
    ensures forall i :: 0 <= i < |Paragraphs(events).value| ==> AllWellFormed(Paragraphs(events).value[i])
  {
    RunProgress(Init, events);
    var p := Paragraphs(events).value;
    forall i | 0 <= i < |p|
      ensures AllWellFormed(p[i])
    {
      assert forall j :: 0 <= j < |p[i]| ==> p[i][j].markup.Some?;
    }
  }

  // ---------------------------------------------------------------------
  // The style stack stays nested

  /** Each style set includes the one below it. */
  predicate Nested(ss: seq<set<Style>>) {
    forall i :: 0 < i < |ss| ==> ss[i - 1] <= ss[i]
  }

  lemma PushNested(ss: seq<set<Style>>, s: Style)
    requires Nested(ss) && |ss| > 0
    ensures Nested(ss + [Top(ss) + {s}])
  {
  }

  lemma PopNested(ss: seq<set<Style>>)
    requires Nested(ss) && |ss| > 0
    ensures Nested(Pop(ss))
  {
  }

  lemma StartTagNested(st: State, tag: string, attrs: seq<Attr>)
    requires Wf(st) && Nested(st.styleStack) && HandleStartTag(st, tag, attrs).Ok?
    ensures Nested(HandleStartTag(st, tag, attrs).value.styleStack)
  {
    if tag == "a" || tag == "ul" || tag == "ol" {
    } else if TagStyle(tag).Some? {
      PushNested(st.styleStack, TagStyle(tag).value);
    } else if IsHeaderTag(tag) {
      PushNested(st.styleStack, Bold);
    }
  }

  lemma StepNested(st: State, e: Event)
    requires Wf(st) && Nested(st.styleStack) && Step(st, e).Ok?
    ensures Nested(Step(st, e).value.styleStack)
  {
    match e
    case StartTag(tag, attrs) => StartTagNested(st, tag, attrs);
    case StartEndTag(tag, attrs) =>
      if tag in {"p", "br", "li", "img"} {
        StartTagNested(st, tag, attrs);
      }
    case EndTag(tag) =>
      if tag != "a" && (TagStyle(tag).Some? || IsHeaderTag(tag)) && !(tag == "ul" || tag == "ol") {
        PopNested(st.styleStack);
      }
    case Data(_) =>
    case CharRef(_) =>
    case EntityRef(_) =>
  }

  /** Every style set ever pushed includes the one below it. */
  lemma {:induction false} RunNested(st: State, events: seq<Event>)
    requires Wf(st) && Nested(st.styleStack) && Run(st, events).Ok?
    ensures Nested(Run(st, events).value.styleStack)
    decreases |events|
  {
    if events != [] {
      StepNested(st, events[0]);
      RunNested(Step(st, events[0]).value, events[1..]);
    }
  }

  // ---------------------------------------------------------------------
  // What single events contribute

  function LastChunk(st: State): Chunk
    requires |st.rval| > 0 && |Top(st.rval)| > 0
  {
    Top(Top(st.rval))
  }

  /** After `add_chunk` the last paragraph ends with the chunk added. */
  lemma AddChunkEndsWith(st: State, c: Chunk)
    requires Wf(st) && AddChunk(st, c).Ok?
    ensures var t := AddChunk(st, c).value;
            |t.rval| > 0 && |Top(t.rval)| > 0 && LastChunk(t) == c
  {
  }

  /** Outside lists, a paragraph break makes the next chunk the first of a
      paragraph of its own, after everything that was there before. */
  lemma BreakThenChunk(st: State, c: Chunk)
    requires Wf(st) && st.listStack == []
    ensures EndPara(st).Ok?
    ensures AddChunk(EndPara(st).value, c) == Ok(EndPara(st).value.(
              rval := st.rval + (if st.atParaStart then [[]] else []) + [[c]],
              atParaStart := false))
  {
    var t := EndPara(st).value;
    var c1 := [] + [c];
    assert c1 == [c];
    var u := AddChunk(t, c).value;
    assert u.rval == t.rval + [[c]];
  }

  /** The chunk for character data shows the data's words, collapsed. */
  lemma DataChunkText(st: State, data: string)
    requires Wf(st) && HandleData(st, data).Ok?
    ensures var t := HandleData(st, data).value;
            && |t.rval| > 0 && |Top(t.rval)| > 0
            && LastChunk(t).markup.Some? && LastChunk(t).markup.value.Styled?
            && Collapsed(LastChunk(t).markup.value.text)
            && Words(LastChunk(t).markup.value.text) == Words(data)
            && LastChunk(t).url == Top(st.anchorStack)
  {
    CollapseIsCollapsed(data);
    WordsOfCollapse(data);
  }

  /** An `<img>` shows its `alt` text (or `[IMG]`), linked to its `src` when
      that is an `http://` URL and to the enclosing link otherwise. */
  lemma ImageChunk(st: State, attrs: seq<Attr>)
    requires Wf(st) && Image(st, attrs).Ok?
    ensures var t := Image(st, attrs).value;
            var src := FindAttr(attrs, "src");
            var alt := FindAttr(attrs, "alt");
            var url := if src.Some? && StartsWith(src.value, "http://") then src else Top(st.anchorStack);
            var text := if alt.Some? then alt.value else "[IMG]";
            && |t.rval| > 0 && |Top(t.rval)| > 0
            && t.anchorStack == st.anchorStack
            && LastChunk(t) == Chunk(Some(Styled(StyleLabel(url.Some?, Top(st.styleStack)),
                                                 Collapse(text))), url)
  {
  }

  /** `<b>`, `<i>` and `<hN>` push a style set that adds the tag's style
      to the current one; nothing else changes, and only an empty style
      stack makes them raise. */
  lemma StyleTagPush(st: State, tag: string, attrs: seq<Attr>)
    requires Wf(st)
    requires tag == "b" || tag == "i" || IsHeaderTag(tag)
    ensures var r := HandleStartTag(st, tag, attrs);
            var s := if tag == "i" then Italic else Bold;
            && (r.Err? <==> st.styleStack == [])
            && (r.Ok? ==>
                  var t := r.value;
                  && |t.styleStack| == |st.styleStack| + 1
                  && Pop(t.styleStack) == st.styleStack
                  && Top(st.styleStack) <= Top(t.styleStack)
                  && s in Top(t.styleStack)
                  && Top(t.styleStack) - Top(st.styleStack) <= {s}
                  && t.(styleStack := st.styleStack) == st)
  {
  }

  /** An item of a numbered list is marked with the list's counter, which
      then counts one further. */
  lemma NumberedItem(st: State, attrs: seq<Attr>)
    requires Wf(st) && |st.listStack| > 0 && Top(st.listStack).kind == Numbered
    requires HandleStartTag(st, "li", attrs).Ok?
    ensures var t := HandleStartTag(st, "li", attrs).value;
            && |t.rval| > 0 && |Top(t.rval)| > 0
            && LastChunk(t) == PlainChunk(Numeral(Top(st.listStack).counter), Top(st.anchorStack))
            && Pop(t.listStack) == Pop(st.listStack)
            && Top(t.listStack) == ListEntry(Numbered, Top(st.listStack).counter + 1)
  {
  }

  /** An item of a bulleted list is marked with the bullet for the number of
      open `ul` lists, and the list stack is unchanged. */
  lemma BulletedItem(st: State, attrs: seq<Attr>)
    requires Wf(st) && |st.listStack| > 0 && Top(st.listStack).kind == Bulleted
    requires HandleStartTag(st, "li", attrs).Ok?
    ensures var t := HandleStartTag(st, "li", attrs).value;
            && |t.rval| > 0 && |Top(t.rval)| > 0
            && LastChunk(t) == PlainChunk([UlTags[CountBulleted(st.listStack) % 3]] + "  ", Top(st.anchorStack))
            && t.listStack == st.listStack
  {
  }

  /** The bullets cycle `+`, `-`, `*` with the depth of `ul` nesting. */
  lemma BulletCycle(ls: seq<ListEntry>)
    requires |ls| > 0 && Top(ls).kind == Bulleted
    ensures CountBulleted(ls) % 3 == 1 ==> ItemMarker(ls) == "+  "
    ensures CountBulleted(ls) % 3 == 2 ==> ItemMarker(ls) == "-  "
    ensures CountBulleted(ls) % 3 == 0 ==> ItemMarker(ls) == "*  "
  {
  }

  /** `"%2d."` is at least three columns wide, ends in a dot, and shows the
      number right-aligned: spaces, then its decimal digits. */
  lemma NumeralShape(n: nat)
    ensures var r := Numeral(n);
            var d := |NatToString(n)|;
            && |r| == (if n < 10 then 3 else d + 1)
            && r[|r| - 1] == '.'
            && ParseDec(r[|r| - 1 - d..|r| - 1]) == Some(n)
            && (forall i :: 0 <= i < |r| - 1 - d ==> r[i] == ' ')
  {
    var r := Numeral(n);
    var d := |NatToString(n)|;
    assert r[|r| - 1 - d..|r| - 1] == NatToString(n);
    ParseNatToString(n);
  }

  /** The marker begins with a space exactly for one-digit numbers. */
  lemma NumeralPadding(n: nat)
    ensures Numeral(n)[0] == ' ' <==> n < 10
    ensures Numeral(n)[(if n < 10 then 1 else 0)..|Numeral(n)| - 1] == NatToString(n)
  {
    assert IsDigit(NatToString(n)[0]);
  }

  /** Different counters give different markers. */
  lemma NumeralInjective(m: nat, n: nat)
    requires Numeral(m) == Numeral(n)
    ensures m == n
  {
    NumeralPadding(m);
    NumeralPadding(n);
    NatToStringInjective(m, n);
  }

  // ---------------------------------------------------------------------
  // Character references

  /** Once the number is read, the reference is its character below 128,
      the `extrachars` spelling of one of those five numbers, and otherwise
      written back exactly as it was spelled. */
  lemma CharRefOfValue(name: string, n: nat)
    requires CharRefValue(name) == Ok(n)
    ensures CharRefText(name) ==
              Ok(if n < 128 then [n as char]
                 else if n in ExtraChars then ExtraChars[n]
                 else "&#" + name + ";")
  {
  }

  /** A decimal reference, zero-padded or not, reads as its number; written
      back, it keeps its padding. */
  lemma DecimalCharRef(k: nat, n: nat)
    ensures var name := Zeros(k) + NatToString(n);
            CharRefText(name) ==
              Ok(if n < 128 then [n as char]
                 else if n in ExtraChars then ExtraChars[n]
                 else "&#" + name + ";")
  {
    var name := Zeros(k) + NatToString(n);
    ParsePaddedDec(k, n);
    assert IsDigit(name[0]);
    CharRefOfValue(name, n);
  }

  /** A reference starting with `x` reads the rest as hexadecimal. */
  lemma HexCharRef(h: string)
    requires |h| > 0 && forall i :: 0 <= i < |h| ==> IsHexDigit(h[i])
    ensures var n := DigitsValue(h, 16);
            CharRefText("x" + h) ==
              Ok(if n < 128 then [n as char]
                 else if n in ExtraChars then ExtraChars[n]
                 else "&#x" + h + ";")
  {
    assert ("x" + h)[1..] == h;
    assert !HasHexPrefix(h) by {
      if |h| >= 2 {
        assert IsHexDigit(h[1]);
      }
    }
    CharRefOfValue("x" + h, DigitsValue(h, 16));
    assert "&#" + ("x" + h) + ";" == "&#x" + h + ";";
  }

  /** The number of a hexadecimal reference is read back from its digits,
      whatever leading zeros and "0x"/"0X" prefix they carry. */
  lemma RenderedHexCharRef(p: string, k: nat, n: nat)
    requires p == "" || p == "0x" || p == "0X"
    ensures var name := "x" + p + Zeros(k) + NatToHex(n);
            CharRefText(name) ==
              Ok(if n < 128 then [n as char]
                 else if n in ExtraChars then ExtraChars[n]
                 else "&#" + name + ";")
  {
    var name := "x" + p + Zeros(k) + NatToHex(n);
    assert name[1..] == p + Zeros(k) + NatToHex(n);
    ParseNatToHex(p, k, n);
    CharRefOfValue(name, n);
  }

  /** Only lower-case `x` marks a hexadecimal reference: `&#X41;` reaches
      `int('X41')`, which raises. */
  lemma UpperHexCharRef(h: string)
    ensures CharRefText("X" + h) == Err(ValueError)
  {
    assert !IsDigit(("X" + h)[0]);
  }

  /** An entity reference is written back as `&name;` exactly when the name
      is not one of the known entities: no known entity stands for such
      text. */
  lemma EntityWrittenBack(name: string)
    ensures EntityText(name) == "&" + name + ";" <==> name !in Entities
  {
    if name in Entities {
      assert |Entities[name]| <= 2 && (|Entities[name]| == 2 ==> Entities[name][0] != '&');
      if |name| == 0 {
        assert ("&" + name + ";")[0] == '&';
      }
    }
  }

  /** A name that is not a number makes `int()` raise. */
  lemma NonNumericCharRef(name: string)
    requires |name| > 0 && name[0] != 'x' && exists i :: 0 <= i < |name| && !IsDigit(name[i])
    ensures CharRefText(name) == Err(ValueError)
  {
  }
}
