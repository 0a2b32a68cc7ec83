/** The URL list of the chooser (`URLChooser.__init__`,
    urlscan/urlchoose.py:33-111): a fold over the extracted windows that
    collects the URLs into one numbered list and lays out the items of the
    list box. The urwid widgets become plain data: a divider, a text item
    holding its markup pieces, a button holding its number and URL. */
module Chooser {
  import opened Wrappers
  import opened Text
  import opened Chunks
  import opened Context

  // ---------------------------------------------------------------------
  // Widgets as data

  /** One entry of a text item's markup list. `Ref(n)` stands for the three
      entries `' ['`, `repr(n)` and `']'` that follow a URL. */
  datatype Piece =
    | Ellipsis(text: string)
    | Shown(markup: Option<Markup>)
    | LinkText(marks: seq<Markup>)
    | Placeholder
    | Ref(n: nat)
    | Newline

  datatype Item =
    | Divider
    | TextItem(pieces: seq<Piece>)
    | Button(number: nat, url: string)
    | Notice(text: string)

  /** Markup produced for some lines, and the URLs found there. */
  datatype Rendered = Rendered(pieces: seq<Piece>, urls: seq<string>)

  /** No piece is an ellipsis marker. */
  predicate NoEllipsis(ps: seq<Piece>) {
    forall j :: 0 <= j < |ps| ==> !ps[j].Ellipsis?
  }

  /** `n + 1, n + 2, ..., n + m`. */
  function Count(n: nat, m: nat): (r: seq<nat>)
    ensures |r| == m && forall j :: 0 <= j < m ==> r[j] == n + j + 1
  {
    seq(m, j => n + j + 1)
  }

  lemma CountSplit(n: nat, a: nat, b: nat)
    ensures Count(n, a) + Count(n + a, b) == Count(n, a + b)
  {
  }

  // ---------------------------------------------------------------------
  // One line, non-compact mode (urlscan/urlchoose.py:57-80)

  /** How many chunks at the front of `cs` carry the URL `u`. */
  function SameUrlRun(cs: seq<Chunk>, u: Option<string>): (k: nat)
    ensures k <= |cs|
    ensures forall j :: 0 <= j < k ==> cs[j].url == u
    ensures k < |cs| ==> cs[k].url != u
  {
    if cs == [] || cs[0].url != u then 0 else 1 + SameUrlRun(cs[1..], u)
  }

  /** `tmpmarkup`: the truthy markups of a run, in order. */
  function Marks(cs: seq<Chunk>): (ms: seq<Markup>)
    ensures ms == [] <==> forall j :: 0 <= j < |cs| ==> !Truthy(cs[j].markup)
  {
    if cs == [] then []
    else
      var rest := Marks(cs[1..]);
      assert forall j :: 1 <= j < |cs| ==> cs[j] == cs[1..][j - 1];
      (if Truthy(cs[0].markup) then [cs[0].markup.value] else []) + rest
  }

  /** The inner `while` loop over the chunks of one line, `count` URLs
      having been collected before it. A chunk without a URL shows its
      markup; a chunk with one starts a run of adjacent chunks with the same
      URL, which adds that URL once and shows the run's markups (or
      `'<URL>'` when none is truthy) followed by the URL's number. */
  function RenderLine(cs: seq<Chunk>, count: nat): (r: Rendered)
    ensures NoEllipsis(r.pieces)
    ensures |r.urls| <= |cs|
    decreases |cs|
  {
    if cs == [] then Rendered([], [])
    else if cs[0].url.None? then
      var rest := RenderLine(cs[1..], count);
      Rendered([Shown(cs[0].markup)] + rest.pieces, rest.urls)
    else
      var k := 1 + SameUrlRun(cs[1..], cs[0].url);
      var marks := Marks(cs[..k]);
      var rest := RenderLine(cs[k..], count + 1);
      Rendered([if marks == [] then Placeholder else LinkText(marks), Ref(count + 1)] + rest.pieces,
               [cs[0].url.value] + rest.urls)
  }

  /** Reference definition: the URLs that start a run, i.e. that differ
      from the URL of the chunk before them (`prev` for the first chunk). */
  function Heads(cs: seq<Chunk>, prev: Option<string>): seq<string>
    decreases |cs|
  {
    if cs == [] then []
    else (if cs[0].url.Some? && cs[0].url != prev then [cs[0].url.value] else []) + Heads(cs[1..], cs[0].url)
  }

  /** Inside a run of chunks carrying `u`, no URL starts. */
  lemma {:induction false} HeadsSkipRun(cs: seq<Chunk>, u: Option<string>, k: nat)
    requires k <= |cs| && forall j :: 0 <= j < k ==> cs[j].url == u
    ensures Heads(cs, u) == Heads(cs[k..], u)
  {
    if k > 0 {
      HeadsSkipRun(cs[1..], u, k - 1);
      assert cs[1..][k - 1..] == cs[k..];
    }
  }

  /** Each maximal run of adjacent chunks sharing a URL adds that URL to the
      list exactly once. */
  lemma {:induction false} LineUrls(cs: seq<Chunk>, count: nat, prev: Option<string>)
    requires cs == [] || cs[0].url.None? || cs[0].url != prev
    ensures RenderLine(cs, count).urls == Heads(cs, prev)
    decreases |cs|
  {
    if cs != [] {
      if cs[0].url.None? {
        LineUrls(cs[1..], count, None);
      } else {
        var u := cs[0].url;
        var k := 1 + SameUrlRun(cs[1..], u);
        HeadsSkipRun(cs[1..], u, k - 1);
        assert cs[1..][k - 1..] == cs[k..];
        LineUrls(cs[k..], count + 1, u);
      }
    }
  }

  /** The numbers of the references in a list of pieces, in order. */
  function Refs(ps: seq<Piece>): seq<nat> {
    if ps == [] then []
    else (if ps[0].Ref? then [ps[0].n] else []) + Refs(ps[1..])
  }

  lemma {:induction false} RefsAppend(a: seq<Piece>, b: seq<Piece>)
    ensures Refs(a + b) == Refs(a) + Refs(b)
  {
    if a != [] {
      assert (a + b)[0] == a[0] && (a + b)[1..] == a[1..] + b;
      RefsAppend(a[1..], b);
      var h := if a[0].Ref? then [a[0].n] else [];
      assert Refs(a + b) == h + (Refs(a[1..]) + Refs(b));
    } else {
      assert a + b == b;
    }
  }

  /** A piece that is not a reference adds no reference. */
  lemma RefsAround(a: seq<Piece>, x: Piece, b: seq<Piece>)
    requires !x.Ref?
    ensures Refs(a + [x] + b) == Refs(a) + Refs(b)
  {
    var one := [x];
    assert one[0] == x && one[1..] == [];
    assert Refs(one) == [];
    RefsAppend(a, one);
    RefsAppend(a + one, b);
  }

  /** The references of a line number its URLs consecutively after the
      `count` URLs collected before it, so a reference equals its URL's
      1-based position in the list. */
  lemma {:induction false} LineRefs(cs: seq<Chunk>, count: nat)
    ensures Refs(RenderLine(cs, count).pieces) == Count(count, |RenderLine(cs, count).urls|)
    decreases |cs|
  {
    if cs != [] {
      var r := RenderLine(cs, count);
      if cs[0].url.None? {
        LineRefs(cs[1..], count);
        RefsAppend([Shown(cs[0].markup)], RenderLine(cs[1..], count).pieces);
      } else {
        var k := 1 + SameUrlRun(cs[1..], cs[0].url);
        var rest := RenderLine(cs[k..], count + 1);
        LineRefs(cs[k..], count + 1);
        var lead := [if Marks(cs[..k]) == [] then Placeholder else LinkText(Marks(cs[..k])), Ref(count + 1)];
        RefsAppend(lead, rest.pieces);
        assert Refs(lead) == [count + 1];
        CountSplit(count, 1, |rest.urls|);
      }
    }
  }

  /** A run none of whose chunks has truthy markup shows as `'<URL>'`. */
  lemma RunPlaceholder(cs: seq<Chunk>, count: nat)
    requires cs != [] && cs[0].url.Some?
    ensures var k := 1 + SameUrlRun(cs[1..], cs[0].url);
            RenderLine(cs, count).pieces[0] == Placeholder
            <==> forall j :: 0 <= j < k ==> !Truthy(cs[j].markup)
  {
    var k := 1 + SameUrlRun(cs[1..], cs[0].url);
    assert forall j :: 0 <= j < k ==> cs[..k][j] == cs[j];
  }

  // ---------------------------------------------------------------------
  // One group, non-compact mode (urlscan/urlchoose.py:54-85)

  /** The lines of a group, each followed by a line break. */
  function RenderLines(lines: seq<seq<Chunk>>, count: nat): (r: Rendered)
    ensures NoEllipsis(r.pieces)
    decreases |lines|
  {
    if lines == [] then Rendered([], [])
    else
      var l := RenderLine(lines[0], count);
      var rest := RenderLines(lines[1..], count + |l.urls|);
      Rendered(l.pieces + [Newline] + rest.pieces, l.urls + rest.urls)
  }

  /** The markup of a group's text item: the lines, with `'...'` markers
      where the window was cut off from the rest of the message. */
  function RenderGroup(w: Window<seq<Chunk>>, count: nat): Rendered {
    var body := RenderLines(w.group, count);
    Rendered((if w.usedFirst then [] else [Ellipsis("...\n")]) + body.pieces
               + (if w.usedLast then [] else [Ellipsis("...\n\n")]),
             body.urls)
  }

  /** The URLs of a group are the run heads of its lines, line by line: a
      run never continues from one line to the next. */
  function LineHeads(lines: seq<seq<Chunk>>): seq<string> {
    if lines == [] then [] else Heads(lines[0], None) + LineHeads(lines[1..])
  }

  lemma RenderLinesUnfold(lines: seq<seq<Chunk>>, count: nat)
    requires lines != []
    ensures var l := RenderLine(lines[0], count);
            var rest := RenderLines(lines[1..], count + |l.urls|);
            RenderLines(lines, count) == Rendered(l.pieces + [Newline] + rest.pieces, l.urls + rest.urls)
  {
  }

  lemma {:induction false} LinesUrls(lines: seq<seq<Chunk>>, count: nat)
    ensures RenderLines(lines, count).urls == LineHeads(lines)
    decreases |lines|
  {
    if lines != [] {
      var l := RenderLine(lines[0], count);
      RenderLinesUnfold(lines, count);
      LineUrls(lines[0], count, None);
      LinesUrls(lines[1..], count + |l.urls|);
      assert LineHeads(lines) == Heads(lines[0], None) + LineHeads(lines[1..]);
    }
  }

  lemma {:induction false} LinesRefs(lines: seq<seq<Chunk>>, count: nat)
    ensures Refs(RenderLines(lines, count).pieces) == Count(count, |RenderLines(lines, count).urls|)
    decreases |lines|
  {
    if lines != [] {
      var l := RenderLine(lines[0], count);
      var rest := RenderLines(lines[1..], count + |l.urls|);
      RenderLinesUnfold(lines, count);
      LineRefs(lines[0], count);
      LinesRefs(lines[1..], count + |l.urls|);
      RefsAround(l.pieces, Newline, rest.pieces);
      CountSplit(count, |l.urls|, |rest.urls|);
    }
  }

  lemma GroupRefs(w: Window<seq<Chunk>>, count: nat)
    ensures Refs(RenderGroup(w, count).pieces) == Count(count, |RenderGroup(w, count).urls|)
  {
    var body := RenderLines(w.group, count);
    var head: seq<Piece> := if w.usedFirst then [] else [Ellipsis("...\n")];
    var tail: seq<Piece> := if w.usedLast then [] else [Ellipsis("...\n\n")];
    LinesRefs(w.group, count);
    RefsAppend(head, body.pieces);
    RefsAppend(head + body.pieces, tail);
  }

  /** A `'...'` marker opens the text exactly when the window does not start
      the message, and closes it exactly when it does not end it. */
  lemma Ellipses(w: Window<seq<Chunk>>, count: nat)
    ensures var p := RenderGroup(w, count).pieces;
            (|p| > 0 && p[0] == Ellipsis("...\n")) <==> !w.usedFirst
    ensures var p := RenderGroup(w, count).pieces;
            (|p| > 0 && p[|p| - 1] == Ellipsis("...\n\n")) <==> !w.usedLast
  {
    var body := RenderLines(w.group, count).pieces;
    var p := RenderGroup(w, count).pieces;
    if w.usedFirst && |p| > 0 {
      assert p[0] == if body != [] then body[0] else Ellipsis("...\n\n");
    }
    if w.usedLast && |p| > 0 {
      assert p[|p| - 1] == if body != [] then body[|body| - 1] else Ellipsis("...\n");
    }
  }

  // ---------------------------------------------------------------------
  // One group, compact mode (urlscan/urlchoose.py:46-53)

  function Flatten(lines: seq<seq<Chunk>>): seq<Chunk> {
    if lines == [] then [] else lines[0] + Flatten(lines[1..])
  }

  /** The compact loop: a truthy URL is added unless it equals the last one
      added; chunks without a URL leave `lasturl` alone. */
  function Compact(cs: seq<Chunk>, last: Option<string>): seq<string>
    decreases |cs|
  {
    if cs == [] then []
    else if UrlTruthy(cs[0].url) && cs[0].url != last then [cs[0].url.value] + Compact(cs[1..], cs[0].url)
    else Compact(cs[1..], last)
  }

  /** Reference definition, part one: the truthy URLs of the chunks. */
  function TruthyUrls(cs: seq<Chunk>): (us: seq<string>)
    ensures forall j :: 0 <= j < |us| ==> us[j] != ""
  {
    if cs == [] then []
    else (if UrlTruthy(cs[0].url) then [cs[0].url.value] else []) + TruthyUrls(cs[1..])
  }

  /** Reference definition, part two: a list with each element equal to its
      predecessor (or to `last`, for the first) removed. */
  function DropRepeats(us: seq<string>, last: Option<string>): seq<string> {
    if us == [] then []
    else if Some(us[0]) == last then DropRepeats(us[1..], last)
    else [us[0]] + DropRepeats(us[1..], Some(us[0]))
  }

  /** Compact mode keeps the truthy URLs and drops adjacent repeats among
      them: chunks without a URL in between do not separate two equal URLs. */
  lemma {:induction false} CompactIsDropRepeats(cs: seq<Chunk>, last: Option<string>)
    ensures Compact(cs, last) == DropRepeats(TruthyUrls(cs), last)
    decreases |cs|
  {
    if cs != [] {
      var us := TruthyUrls(cs);
      if UrlTruthy(cs[0].url) {
        var u := cs[0].url.value;
        CompactIsDropRepeats(cs[1..], Some(u));
        assert us == [u] + TruthyUrls(cs[1..]);
        assert us[0] == u && us[1..] == TruthyUrls(cs[1..]);
        if Some(u) == last {
          assert DropRepeats(us, last) == DropRepeats(us[1..], last);
        } else {
          assert DropRepeats(us, last) == [u] + DropRepeats(us[1..], Some(u));
        }
      } else {
        CompactIsDropRepeats(cs[1..], last);
        assert us == TruthyUrls(cs[1..]);
      }
    }
  }

  /** No URL of a compact group equals the one before it. */
  lemma {:induction false} CompactNoRepeats(cs: seq<Chunk>, last: Option<string>)
    ensures var us := Compact(cs, last);
            (us != [] ==> Some(us[0]) != last)
            && forall j :: 0 <= j < |us| - 1 ==> us[j] != us[j + 1]
    decreases |cs|
  {
    if cs != [] {
      if UrlTruthy(cs[0].url) && cs[0].url != last {
        CompactNoRepeats(cs[1..], cs[0].url);
        var us := Compact(cs, last);
        assert us[1..] == Compact(cs[1..], cs[0].url);
      } else {
        CompactNoRepeats(cs[1..], last);
      }
    }
  }

  // ---------------------------------------------------------------------
  // The fold over the groups (urlscan/urlchoose.py:39-99)

  /** The state of the fold: `self.items`, `self.urls` and `firstbutton`. */
  datatype Layout = Layout(items: seq<Item>, urls: seq<string>, firstButton: nat)

  /** The buttons of a group whose URLs follow the `count` collected before. */
  function Buttons(urls: seq<string>, count: nat): (r: seq<Item>)
    ensures |r| == |urls|
    ensures forall j :: 0 <= j < |r| ==> r[j] == Button(count + j + 1, urls[j])
  {
    seq(|urls|, j requires 0 <= j < |urls| => Button(count + j + 1, urls[j]))
  }

  /** The URLs a group adds to the list. */
  function NewUrls(w: Window<seq<Chunk>>, count: nat, compact: bool): seq<string> {
    if compact then Compact(Flatten(w.group), None) else RenderGroup(w, count).urls
  }

  /** The items a group adds: a divider unless it is the first group, its
      text item, its buttons; compact mode shows the buttons only. */
  function NewItems(w: Window<seq<Chunk>>, count: nat, isFirst: bool, compact: bool): seq<Item> {
    (if isFirst || compact then [] else [Divider])
      + (if compact then [] else [TextItem(RenderGroup(w, count).pieces)])
      + Buttons(NewUrls(w, count, compact), count)
  }

  /** How many items of a group come before its buttons. */
  function Lead(isFirst: bool, compact: bool): nat {
    (if isFirst || compact then 0 else 1) + (if compact then 0 else 1)
  }

  /** One pass of the outer loop. `firstbutton` is set at the first button
      of non-compact mode, which comes right after the text item. */
  function AddGroup(lay: Layout, w: Window<seq<Chunk>>, isFirst: bool, compact: bool): Layout {
    var count := |lay.urls|;
    var groupUrls := NewUrls(w, count, compact);
    var before := |lay.items| + Lead(isFirst, compact);
    var first := if lay.firstButton == 0 && !compact && groupUrls != [] then before else lay.firstButton;
    Layout(lay.items + NewItems(w, count, isFirst, compact), lay.urls + groupUrls, first)
  }

  function Fold(ws: seq<Window<seq<Chunk>>>, compact: bool): Layout
    decreases |ws|
  {
    if ws == [] then Layout([], [], 0)
    else AddGroup(Fold(ws[..|ws| - 1], compact), ws[|ws| - 1], |ws| == 1, compact)
  }

  /** The finished chooser: list items, URL list, focused item, header. */
  datatype Chooser = Chooser(items: seq<Item>, urls: seq<string>, focus: nat, header: string)

  /** `header`. */
  function Header(n: nat): string {
    if n == 1 then "Found 1 url." else "Found " + NatToString(n) + " urls."
  }

  /** `URLChooser(extractedurls, compact_mode)`, up to the widgets. */
  function NewChooser(ws: seq<Window<seq<Chunk>>>, compact: bool): Chooser {
    var lay := Fold(ws, compact);
    if lay.items == [] then Chooser([Notice("No URLs found")], lay.urls, 1, Header(|lay.urls|))
    else Chooser(lay.items, lay.urls, lay.firstButton, Header(|lay.urls|))
  }

  // ---------------------------------------------------------------------
  // Properties of the fold

  /** The buttons among the items, in order. */
  function ButtonsIn(items: seq<Item>): seq<Item> {
    if items == [] then []
    else (if items[0].Button? then [items[0]] else []) + ButtonsIn(items[1..])
  }

  /** The references of the text items, in order. */
  function RefsIn(items: seq<Item>): seq<nat> {
    if items == [] then []
    else (if items[0].TextItem? then Refs(items[0].pieces) else []) + RefsIn(items[1..])
  }

  function Dividers(items: seq<Item>): nat {
    if items == [] then 0 else (if items[0].Divider? then 1 else 0) + Dividers(items[1..])
  }

  function TextItems(items: seq<Item>): nat {
    if items == [] then 0 else (if items[0].TextItem? then 1 else 0) + TextItems(items[1..])
  }

  lemma {:induction false} ButtonsAppend(a: seq<Item>, b: seq<Item>)
    ensures ButtonsIn(a + b) == ButtonsIn(a) + ButtonsIn(b)
  {
    if a == [] {
      assert a + b == b;
    } else {
      assert (a + b)[0] == a[0] && (a + b)[1..] == a[1..] + b;
      ButtonsAppend(a[1..], b);
      assert ButtonsIn(a + b) == (if a[0].Button? then [a[0]] else []) + (ButtonsIn(a[1..]) + ButtonsIn(b));
    }
  }

  lemma {:induction false} RefsInAppend(a: seq<Item>, b: seq<Item>)
    ensures RefsIn(a + b) == RefsIn(a) + RefsIn(b)
  {
    if a == [] {
      assert a + b == b;
    } else {
      assert (a + b)[0] == a[0] && (a + b)[1..] == a[1..] + b;
      RefsInAppend(a[1..], b);
      assert RefsIn(a + b) == (if a[0].TextItem? then Refs(a[0].pieces) else []) + (RefsIn(a[1..]) + RefsIn(b));
    }
  }

  lemma {:induction false} CountsAppend(a: seq<Item>, b: seq<Item>)
    ensures Dividers(a + b) == Dividers(a) + Dividers(b)
    ensures TextItems(a + b) == TextItems(a) + TextItems(b)
  {
    if a == [] {
      assert a + b == b;
    } else {
      assert (a + b)[0] == a[0] && (a + b)[1..] == a[1..] + b;
      CountsAppend(a[1..], b);
    }
  }

  lemma {:induction false} ButtonsOnly(urls: seq<string>, count: nat)
    ensures ButtonsIn(Buttons(urls, count)) == Buttons(urls, count)
    ensures RefsIn(Buttons(urls, count)) == []
    ensures Dividers(Buttons(urls, count)) == 0 && TextItems(Buttons(urls, count)) == 0
    decreases |urls|
  {
    if urls != [] {
      ButtonsOnly(urls[1..], count + 1);
      assert Buttons(urls, count)[1..] == Buttons(urls[1..], count + 1);
    }
  }

  lemma ButtonsSplit(a: seq<string>, b: seq<string>, n: nat)
    ensures Buttons(a, n) + Buttons(b, n + |a|) == Buttons(a + b, n)
  {
  }

  /** The fold after its last group. */
  lemma FoldLast(ws: seq<Window<seq<Chunk>>>, compact: bool)
    requires ws != []
    ensures var prev := Fold(ws[..|ws| - 1], compact);
            var w := ws[|ws| - 1];
            && Fold(ws, compact).items == prev.items + NewItems(w, |prev.urls|, |ws| == 1, compact)
            && Fold(ws, compact).urls == prev.urls + NewUrls(w, |prev.urls|, compact)
            && Fold(ws, compact).firstButton
               == if prev.firstButton == 0 && !compact && NewUrls(w, |prev.urls|, compact) != []
                  then |prev.items| + Lead(|ws| == 1, compact) else prev.firstButton
  {
  }

  /** The items of a group: the divider and the text item, then one button
      per URL. */
  lemma NewItemsShape(w: Window<seq<Chunk>>, count: nat, isFirst: bool, compact: bool)
    ensures var g, us, n := NewItems(w, count, isFirst, compact), NewUrls(w, count, compact), Lead(isFirst, compact);
            && |g| == n + |us|
            && (forall j :: 0 <= j < n ==> !g[j].Button?)
            && (forall j :: n <= j < |g| ==> g[j] == Button(count + j - n + 1, us[j - n]))
            && (!compact ==> g[n - 1].TextItem?)
            && (forall j :: 0 <= j < |g| && g[j].Divider? ==> j == 0 && n == 2)
  {
  }

  /** What the items of one group contribute. */
  /** The buttons of a group number its URLs after the `count` before. */
  lemma GroupButtons(w: Window<seq<Chunk>>, count: nat, isFirst: bool, compact: bool)
    ensures ButtonsIn(NewItems(w, count, isFirst, compact)) == Buttons(NewUrls(w, count, compact), count)
  {
    var us := NewUrls(w, count, compact);
    var lead: seq<Item> := (if isFirst || compact then [] else [Divider])
                           + (if compact then [] else [TextItem(RenderGroup(w, count).pieces)]);
    assert NewItems(w, count, isFirst, compact) == lead + Buttons(us, count);
    ButtonsAppend(lead, Buttons(us, count));
    ButtonsOnly(us, count);
    assert ButtonsIn(lead) == [] by {
      if |lead| == 2 {
        assert lead[1..][1..] == [];
      } else if |lead| == 1 {
        assert lead[1..] == [];
      }
    }
  }

  /** The text item of a group numbers its references after the `count`
      before. */
  lemma GroupRefsIn(w: Window<seq<Chunk>>, count: nat, isFirst: bool)
    ensures RefsIn(NewItems(w, count, isFirst, false)) == Count(count, |NewUrls(w, count, false)|)
  {
    var us := NewUrls(w, count, false);
    var sep: seq<Item> := if isFirst then [] else [Divider];
    var text := TextItem(RenderGroup(w, count).pieces);
    assert NewItems(w, count, isFirst, false) == sep + [text] + Buttons(us, count);
    RefsInAppend(sep + [text], Buttons(us, count));
    RefsInAppend(sep, [text]);
    ButtonsOnly(us, count);
    GroupRefs(w, count);
    assert RefsIn([text]) == Refs(text.pieces) + RefsIn([]);
    assert RefsIn(sep) == [];
  }

  /** A group adds one text item and, unless it is the first, one divider;
      in compact mode it adds neither. */
  lemma GroupCounts(w: Window<seq<Chunk>>, count: nat, isFirst: bool, compact: bool)
    ensures Dividers(NewItems(w, count, isFirst, compact)) == (if isFirst || compact then 0 else 1)
    ensures TextItems(NewItems(w, count, isFirst, compact)) == (if compact then 0 else 1)
  {
    var us := NewUrls(w, count, compact);
    var sep: seq<Item> := if isFirst || compact then [] else [Divider];
    var text: seq<Item> := if compact then [] else [TextItem(RenderGroup(w, count).pieces)];
    assert NewItems(w, count, isFirst, compact) == sep + text + Buttons(us, count);
    CountsAppend(sep + text, Buttons(us, count));
    CountsAppend(sep, text);
    ButtonsOnly(us, count);
  }

  lemma AddGroupButtons(lay: Layout, w: Window<seq<Chunk>>, isFirst: bool, compact: bool)
    requires ButtonsIn(lay.items) == Buttons(lay.urls, 0)
    ensures var next := AddGroup(lay, w, isFirst, compact);
            ButtonsIn(next.items) == Buttons(next.urls, 0)
  {
    var count := |lay.urls|;
    var g, us := NewItems(w, count, isFirst, compact), NewUrls(w, count, compact);
    assert AddGroup(lay, w, isFirst, compact).items == lay.items + g;
    assert AddGroup(lay, w, isFirst, compact).urls == lay.urls + us;
    GroupButtons(w, count, isFirst, compact);
    ButtonsAppend(lay.items, g);
    ButtonsSplit(lay.urls, us, 0);
  }

  /** The buttons, in order, are numbered 1, 2, ... and the button numbered
      `n` opens `urls[n - 1]`. */
  lemma {:induction false} FoldButtons(ws: seq<Window<seq<Chunk>>>, compact: bool)
    ensures ButtonsIn(Fold(ws, compact).items) == Buttons(Fold(ws, compact).urls, 0)
    decreases |ws|
  {
    if ws != [] {
      FoldButtons(ws[..|ws| - 1], compact);
      AddGroupButtons(Fold(ws[..|ws| - 1], compact), ws[|ws| - 1], |ws| == 1, compact);
    }
  }

  lemma AddGroupRefs(lay: Layout, w: Window<seq<Chunk>>, isFirst: bool)
    requires RefsIn(lay.items) == Count(0, |lay.urls|)
    ensures var next := AddGroup(lay, w, isFirst, false);
            RefsIn(next.items) == Count(0, |next.urls|)
  {
    var count := |lay.urls|;
    var g, us := NewItems(w, count, isFirst, false), NewUrls(w, count, false);
    assert AddGroup(lay, w, isFirst, false).items == lay.items + g;
    assert AddGroup(lay, w, isFirst, false).urls == lay.urls + us;
    GroupRefsIn(w, count, isFirst);
    RefsInAppend(lay.items, g);
    CountSplit(0, count, |us|);
  }

  /** In non-compact mode the inline references, in order, are 1, 2, ...,
      one per URL of the list. */
  lemma {:induction false} FoldRefs(ws: seq<Window<seq<Chunk>>>)
    ensures RefsIn(Fold(ws, false).items) == Count(0, |Fold(ws, false).urls|)
    decreases |ws|
  {
    if ws != [] {
      FoldRefs(ws[..|ws| - 1]);
      AddGroupRefs(Fold(ws[..|ws| - 1], false), ws[|ws| - 1], |ws| == 1);
    }
  }

  lemma AddGroupSeparators(lay: Layout, w: Window<seq<Chunk>>, isFirst: bool, compact: bool)
    ensures var next := AddGroup(lay, w, isFirst, compact);
            && TextItems(next.items) == TextItems(lay.items) + (if compact then 0 else 1)
            && Dividers(next.items) == Dividers(lay.items) + (if isFirst || compact then 0 else 1)
  {
    var g := NewItems(w, |lay.urls|, isFirst, compact);
    assert AddGroup(lay, w, isFirst, compact).items == lay.items + g;
    GroupCounts(w, |lay.urls|, isFirst, compact);
    CountsAppend(lay.items, g);
  }

  /** In non-compact mode there is one text item per group and a divider
      between consecutive groups; compact mode has neither. */
  lemma {:induction false} FoldSeparators(ws: seq<Window<seq<Chunk>>>, compact: bool)
    ensures !compact ==> TextItems(Fold(ws, compact).items) == |ws|
    ensures !compact && ws != [] ==> Dividers(Fold(ws, compact).items) == |ws| - 1
    ensures compact ==> TextItems(Fold(ws, compact).items) == 0 && Dividers(Fold(ws, compact).items) == 0
    decreases |ws|
  {
    if ws != [] {
      FoldSeparators(ws[..|ws| - 1], compact);
      AddGroupSeparators(Fold(ws[..|ws| - 1], compact), ws[|ws| - 1], |ws| == 1, compact);
    }
  }

  /** In non-compact mode the items open with the first group's text, and
      every divider sits between a previous item and the text item of the
      group it introduces; compact mode has no divider. */
  lemma {:induction false} DividerPlacement(ws: seq<Window<seq<Chunk>>>, compact: bool)
    ensures var items := Fold(ws, compact).items;
            forall i :: 0 <= i < |items| && items[i].Divider? ==>
              !compact && 0 < i && i + 1 < |items| && items[i + 1].TextItem?
    ensures !compact && ws != [] ==> |Fold(ws, compact).items| > 0 && Fold(ws, compact).items[0].TextItem?
    decreases |ws|
  {
    if ws != [] {
      var prev := Fold(ws[..|ws| - 1], compact);
      var w := ws[|ws| - 1];
      var g := NewItems(w, |prev.urls|, |ws| == 1, compact);
      var items := prev.items + g;
      FoldLast(ws, compact);
      DividerPlacement(ws[..|ws| - 1], compact);
      NewItemsShape(w, |prev.urls|, |ws| == 1, compact);
      forall i | 0 <= i < |items| && items[i].Divider?
        ensures !compact && 0 < i && i + 1 < |items| && items[i + 1].TextItem?
      {
        if i < |prev.items| {
          assert items[i] == prev.items[i];
          assert i + 1 < |prev.items| ==> items[i + 1] == prev.items[i + 1];
        } else {
          assert items[i] == g[i - |prev.items|];
          assert items[i + 1] == g[1];
        }
      }
      if !compact && |ws| == 1 {
        assert items[0] == g[0];
      } else if !compact {
        assert items[0] == prev.items[0];
      }
    }
  }

  /** The URL list is the concatenation, group by group, of the run heads
      of every line (non-compact mode) or of the truthy URLs without
      adjacent repeats (compact mode, `lasturl` starting afresh in every
      group). */
  function GroupUrls(ws: seq<Window<seq<Chunk>>>, compact: bool): seq<string>
    decreases |ws|
  {
    if ws == [] then []
    else
      var w := ws[|ws| - 1];
      GroupUrls(ws[..|ws| - 1], compact)
        + (if compact then DropRepeats(TruthyUrls(Flatten(w.group)), None) else LineHeads(w.group))
  }

  lemma {:induction false} FoldUrls(ws: seq<Window<seq<Chunk>>>, compact: bool)
    ensures Fold(ws, compact).urls == GroupUrls(ws, compact)
    decreases |ws|
  {
    if ws != [] {
      var w := ws[|ws| - 1];
      FoldUrls(ws[..|ws| - 1], compact);
      if compact {
        CompactIsDropRepeats(Flatten(w.group), None);
      } else {
        LinesUrls(w.group, |Fold(ws[..|ws| - 1], compact).urls|);
      }
    }
  }

  /** The index of the first button, `|items|` when there is none. */
  function FirstButtonIn(items: seq<Item>): (k: nat)
    ensures k <= |items|
    ensures k < |items| ==> items[k].Button?
    ensures forall i :: 0 <= i < k ==> !items[i].Button?
  {
    if items == [] || items[0].Button? then 0
    else
      var k := FirstButtonIn(items[1..]);
      assert forall i :: 1 <= i < 1 + k ==> items[i] == items[1..][i - 1];
      1 + k
  }

  lemma {:induction false} FirstButtonAppend(a: seq<Item>, b: seq<Item>)
    ensures FirstButtonIn(a + b) == if FirstButtonIn(a) < |a| then FirstButtonIn(a) else |a| + FirstButtonIn(b)
  {
    if a == [] {
      assert a + b == b;
    } else {
      assert (a + b)[0] == a[0] && (a + b)[1..] == a[1..] + b;
      FirstButtonAppend(a[1..], b);
    }
  }

  lemma FirstButtonIs(items: seq<Item>, k: nat)
    requires k <= |items| && (k < |items| ==> items[k].Button?)
    requires forall i :: 0 <= i < k ==> !items[i].Button?
    ensures FirstButtonIn(items) == k
  {
  }

  /** `firstbutton` is the index of the first button, or 0 with none. */
  predicate FocusOnFirstButton(lay: Layout) {
    && (lay.urls != [] ==> lay.firstButton == FirstButtonIn(lay.items) < |lay.items|)
    && (lay.urls == [] ==> lay.firstButton == 0 && FirstButtonIn(lay.items) == |lay.items|)
  }

  lemma AddGroupFocus(lay: Layout, w: Window<seq<Chunk>>, isFirst: bool)
    requires FocusOnFirstButton(lay)
    requires lay.items == [] || lay.items[0].TextItem?
    ensures FocusOnFirstButton(AddGroup(lay, w, isFirst, false))
  {
    var us := NewUrls(w, |lay.urls|, false);
    var g := NewItems(w, |lay.urls|, isFirst, false);
    var n := Lead(isFirst, false);
    NewItemsShape(w, |lay.urls|, isFirst, false);
    FirstButtonIs(g, if us != [] then n else |g|);
    FirstButtonAppend(lay.items, g);
  }

  /** In non-compact mode `firstbutton` is the index of the first button,
      and stays 0 when there is none. */
  lemma {:induction false} FirstButton(ws: seq<Window<seq<Chunk>>>)
    ensures FocusOnFirstButton(Fold(ws, false))
    decreases |ws|
  {
    if ws != [] {
      FirstButton(ws[..|ws| - 1]);
      DividerPlacement(ws[..|ws| - 1], false);
      AddGroupFocus(Fold(ws[..|ws| - 1], false), ws[|ws| - 1], |ws| == 1);
    }
  }

  // ---------------------------------------------------------------------
  // Empty result and header (urlscan/urlchoose.py:101-111)

  /** The notice appears exactly when no item was produced: with no window
      at all in non-compact mode, and with no URL in compact mode. */
  lemma NoUrlsNotice(ws: seq<Window<seq<Chunk>>>, compact: bool)
    ensures var c := NewChooser(ws, compact);
            (c.items == [Notice("No URLs found")] && c.focus == 1) <==>
              (if compact then c.urls == [] else ws == [])
  {
    var lay := Fold(ws, compact);
    FoldSeparators(ws, compact);
    if compact {
      ItemsOfCompact(ws);
    } else if ws != [] {
      assert TextItems(lay.items) > 0;
    }
  }

  /** Compact mode produces nothing but buttons. */
  lemma {:induction false} ItemsOfCompact(ws: seq<Window<seq<Chunk>>>)
    ensures Fold(ws, true).items == Buttons(Fold(ws, true).urls, 0)
    ensures Fold(ws, true).firstButton == 0
    decreases |ws|
  {
    if ws != [] {
      var prev := Fold(ws[..|ws| - 1], true);
      ItemsOfCompact(ws[..|ws| - 1]);
      var groupUrls := Compact(Flatten(ws[|ws| - 1].group), None);
      assert Buttons(prev.urls, 0) + Buttons(groupUrls, |prev.urls|) == Buttons(prev.urls + groupUrls, 0);
    }
  }

  /** The header names the number of URLs in decimal, with "url" singular
      exactly when there is one. */
  lemma HeaderCount(n: nat)
    ensures var h := Header(n); var d := NatToString(n);
            h == "Found " + d + (if n == 1 then " url." else " urls.")
            && ParseDec(h[6..6 + |d|]) == Some(n)
  {
    var h, d := Header(n), NatToString(n);
    if n == 1 {
      assert d == "1";
    }
    assert h[6..6 + |d|] == d;
    ParseNatToString(n);
  }
}
