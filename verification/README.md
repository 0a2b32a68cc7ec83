# urlscan URL extraction, modelled in Dafny

urlscan reads an e-mail message and collects the URLs in it, each with some
surrounding lines or paragraphs of context. This project models the part that
does the work:

- **Plain text**: the message is cut into lines with `nlre`. Each line is cut
  into chunks by `parse_text_urls`, using the URL grammar `urlre`.
- **HTML**: the chunker `HTMLChunker` turns the parser's callbacks into
  paragraphs of chunks.
- **Windows**: `extract_with_context` cuts windows around the units that hold
  a URL, with one unit of context on each side.
- **URL list**: `URLChooser.__init__` folds the windows into one numbered URL
  list and the items of the list box.

The modules follow the program:

| module | what it models |
|---|---|
| `Wrappers` | `Option` and `Result` |
| `Text` | `str.isspace`, ASCII digits, `repr(n)` and `int()` on digit strings |
| `Chunks` | `Chunk` (markup, url), and Python truthiness of markup and URL |
| `Lines` | `nlre.split` (line 377) and `str.splitlines` (line 259) |
| `Grammar` | the TLD filter of `load_tlds`, and recognisers for the three alternatives of `urlre` as `urlre.match` applies them |
| `GrammarExamples` | the module's own self-checks (lines 272-289) as lemmas about the recognisers |
| `Tokenizer` | `parse_text_urls` |
| `Whitespace` | `' '.join(data.split())` |
| `Context` | `extract_with_context` as a loop method, one helper method per inner loop |
| `ContextProperties` | consequences of its contract, including that the contract has exactly one solution |
| `Html` | `HTMLChunker`: each handler is a pure state transition; the exceptions it can raise are an explicit `Err` |
| `HtmlProperties` | what a run of the chunker keeps, and what each kind of event adds |
| `HtmlExamples` | concrete documents run through the chunker |
| `Extract` | `extracturls` and `extracthtmlurls` |
| `Chooser` | the fold in `URLChooser.__init__`, with the urwid widgets as plain data |

Two engines are not modelled and become inputs:

- **The HTML parser.** A document is the sequence of callbacks (`Html.Event`)
  the parser makes for it.
- **The regular-expression engine.** For `parse_text_urls`, the matches of
  `urlre.finditer` on a line are given as spans (`Tokenizer.Match`). The only
  assumption is that they are valid, non-overlapping and increasing.
  Separately, `Grammar` states which strings `urlre.match` accepts, and
  `GrammarExamples` proves the module's self-checks against that grammar.

Two results a reader might not expect; the model follows the code:

- **Five lines, URL only on the third** (`before = 1`, `after = 1`): a reader
  might expect one window of lines 2-4. The code gives lines 1-4 with
  `usedfirst` true, because its first phase reads up to `before_context + 1`
  units ahead of a match. `ContextProperties.OneMatchInFive` proves this.
- **`<ul><li>one</li><li>two</li></ul>`**: a reader might expect one
  paragraph per item. The code gives an empty paragraph, then one indented
  paragraph holding both items, each after a `+` bullet, because:
  - `<li>` starts no new paragraph once one has begun;
  - the outermost bullet is `ul_tags[1 % 3]`, which is `+`.

  `HtmlExamples.TwoItemList` proves this.

## Model

| member | source | states |
|---|---|---|
| Text.ParseDec | urlscan/urlscan.py:222 | `int(name)` succeeds exactly on non-empty strings of decimal digits, leading zeros allowed |
| Text.ParsePaddedDec | urlscan/urlscan.py:222 | a number's decimal rendering behind any number of leading zeros is read back as that number |
| Text.PaddedDecOf | urlscan/urlscan.py:222 | every string `int(name)` accepts is a zero-padded rendering of the number it yields; with `ParsePaddedDec` this fixes the value read |
| Text.LeadingZeros | urlscan/urlscan.py:220-222 | leading zeros do not change the value of a digit string, in base 10 or 16 |
| Text.ParseHex | urlscan/urlscan.py:220 | `int(name[1:], 16)` succeeds exactly on non-empty strings of hexadecimal digits of either case, optionally behind a `0x` or `0X` prefix |
| Text.ParseNatToHex | urlscan/urlscan.py:220 | a number's lower-case hexadecimal digits, behind any leading zeros and with or without `0x`/`0X`, are read back as that number |
| Text.ParseNatToString | urlscan/urlchoose.py:79 | the decimal rendering of a reference number, read back with `int`, is that number |
| Text.NatToStringInjective | urlscan/urlchoose.py:93 | distinct button numbers are rendered as distinct strings |
| Lines.SplitPiecesBreakFree | urlscan/urlscan.py:377 | no piece of `nlre.split` holds a line break |
| Lines.SplitInfix | urlscan/urlscan.py:377 | every piece of the split is a contiguous part of the text |
| Lines.SplitBreakFree | urlscan/urlscan.py:377 | a text without a break splits into itself alone |
| Lines.SplitCons | urlscan/urlscan.py:377 | a break-free line, one separator ("\r\n" counts as one) and a rest split into the line followed by the pieces of the rest; with `SplitBreakFree` this fixes the split of every text |
| Lines.CrLfIsOneBreak | urlscan/urlscan.py:377 | "\r\n" is one break, leaving two empty pieces, not three |
| Lines.SplitFinalBreak | urlscan/urlscan.py:377 | a break at the very end adds exactly one final empty piece, as `re.split` does |
| Lines.SplitLines | urlscan/urlscan.py:259 | the lines of `splitlines` hold no line boundary, and there are none exactly when the text is empty |
| Lines.SplitLinesFinalBreak | urlscan/urlscan.py:259 | unlike `re.split`, `splitlines` adds no empty line for a final break |
| Lines.SplitLinesInfix | urlscan/urlscan.py:259 | every line of `splitlines` is a contiguous part of the text |
| Lines.SplitJoinLines | urlscan/urlscan.py:377 | break-free lines, each written with a final newline, split back into themselves followed by one empty piece |
| Lines.SplitLinesJoin | urlscan/urlscan.py:259 | a break-free line followed by break-free lines each ending in a newline gives exactly those lines under `splitlines` |
| Grammar.TldsFromFile | urlscan/urlscan.py:254-260 | no TLD read from the file contains "--" or an upper-case letter |
| Grammar.KeepTlds | urlscan/urlscan.py:259-260 | the filter keeps exactly the entries without "--", and never adds any |
| Grammar.KeepAllTlds | urlscan/urlscan.py:259-260 | entries without "--" all pass the filter, in order |
| Grammar.TldsFileRoundTrip | urlscan/urlscan.py:254-260 | reading a file made of a header line and lower-case entries without "--", one per line, gives back exactly those entries in order |
| Grammar.KeepTldsOrder | urlscan/urlscan.py:259-260 | the filter keeps the kept entries in file order: filtering distributes over concatenation |
| Grammar.TrailingIsInternal | urlscan/urlscan.py:247-248 | every character allowed at the end of a URL is allowed inside one |
| Grammar.DomainBodyByLabels | urlscan/urlscan.py:264 | `[\w\-%]+(?:\.[\w\-%]+)*` matches exactly the texts whose dot-separated labels are all non-empty runs of label characters |
| Grammar.GuessedIffShape | urlscan/urlscan.py:264-265 | with dot-free TLDs, a bare domain matches exactly when it has two or more well-formed labels and its last label is a known TLD |
| Grammar.GuessedNoDoubleDot | urlscan/urlscan.py:264-265 | no guessed URL contains ".." |
| GrammarExamples.SchemeMatch | urlscan/urlscan.py:266-269 | an optional `<` or `<URL:`, a scheme, "://" and a URL body match, whatever follows |
| GrammarExamples.GuessedParts | urlscan/urlscan.py:264-269 | a domain body, a dot and a known TLD match both the guessed pattern and `urlre` |
| GrammarExamples.SchemeBracketed | urlscan/urlscan.py:272 | `<URL:http://linuxtoday.com>` matches |
| GrammarExamples.SchemePlain | urlscan/urlscan.py:273 | `http://linuxtoday.com` matches |
| GrammarExamples.GuessedExampleBiz | urlscan/urlscan.py:274-275 | with `biz` a TLD, `example.biz` matches the guessed pattern and `urlre` |
| GrammarExamples.GuessedLinuxToday | urlscan/urlscan.py:276 | with `com` a TLD, `linuxtoday.com` matches |
| GrammarExamples.GuessedWizard | urlscan/urlscan.py:277 | with `edu` a TLD, `master.wizard.edu` matches |
| GrammarExamples.GuessedBlahBar | urlscan/urlscan.py:278 | with `info` a TLD, `blah.bar.info` matches |
| GrammarExamples.GuessedGoodpr | urlscan/urlscan.py:279 | with `org` a TLD, `goodpr.org` matches |
| GrammarExamples.SchemeNonAscii | urlscan/urlscan.py:280 | a scheme URL with a non-ASCII path matches |
| GrammarExamples.SchemeNonAsciiHost | urlscan/urlscan.py:281 | a scheme URL with a non-ASCII host matches |
| GrammarExamples.SchemeApostrophe | urlscan/urlscan.py:282 | a scheme URL holding a typographic apostrophe matches |
| GrammarExamples.RejectedBlahOrg | urlscan/urlscan.py:283 | with dot-free TLDs, `blah..org` does not match |
| GrammarExamples.SchemeShortTld | urlscan/urlscan.py:284 | `http://www.testurl.zw` matches, whatever the TLD list |
| GrammarExamples.SchemeLongTld | urlscan/urlscan.py:285 | `http://www.testurl.smile` matches, whatever the TLD list |
| GrammarExamples.GuessedTldAsLabel | urlscan/urlscan.py:286 | with `smile` a TLD, `testurl.smile.smile` matches |
| GrammarExamples.GuessedThreeLabels | urlscan/urlscan.py:287 | with `zw` a TLD, `testurl.biz.smile.zw` matches |
| GrammarExamples.RejectedExampleBiz | urlscan/urlscan.py:288 | with dot-free TLDs, `example..biz` does not match |
| GrammarExamples.RejectedUnknownTld | urlscan/urlscan.py:289 | with dot-free TLDs that lack `obviouslynotarealdomain`, `blah.baz.obviouslynotarealdomain` does not match |
| GrammarExamples.OnlyGuessed | urlscan/urlscan.py:266-269 | on a non-empty text of e-mail characters, `urlre` matches exactly when the guessed pattern matches all of it |
| GrammarExamples.UnknownTldRejected | urlscan/urlscan.py:264-269 | such a text whose last label is not a known TLD does not match |
| GrammarExamples.DoubleDotRejected | urlscan/urlscan.py:264-269 | such a text containing ".." does not match |
| Tokenizer.EmailUrls | urlscan/urlscan.py:304-308 | an e-mail match always yields a URL that mentions "mailto" and ends with the address |
| Tokenizer.ParseAlternates | urlscan/urlscan.py:296-315 | every chunk is non-empty plain text or a bare link, no two text chunks are adjacent, every chunk is well formed, and a line with a match yields at least one chunk |
| Tokenizer.ParseLinks | urlscan/urlscan.py:300-310 | there is one link chunk per match, in match order, carrying that match's URL |
| Tokenizer.ParseRebuilds | urlscan/urlscan.py:296-315 | putting each match's text back in place of its link chunk gives back the line exactly: no character is lost or duplicated |
| Tokenizer.NoMatches | urlscan/urlscan.py:312-313 | a line without matches is one text chunk, and an empty line gives no chunk |
| Whitespace.CollapseIsCollapsed | urlscan/urlscan.py:199 | collapsed text has no whitespace at either end and single ASCII spaces only |
| Whitespace.WordsOfCollapse | urlscan/urlscan.py:199 | collapsing keeps exactly the words of the data |
| Whitespace.WordsOfJoin | urlscan/urlscan.py:199 | splitting joined words gives the words back |
| Whitespace.WordsCover | urlscan/urlscan.py:199 | the words are the non-whitespace characters of the data, in order: only whitespace is dropped |
| Whitespace.CollapseIdempotent | urlscan/urlscan.py:199 | collapsing twice is collapsing once |
| Whitespace.CollapsedIsFixed | urlscan/urlscan.py:199 | text already in collapsed shape is left as it is |
| Whitespace.CollapseEmpty | urlscan/urlscan.py:199 | data collapses to nothing exactly when it is all whitespace |
| Context.ReadBefore | urlscan/urlscan.py:327-333 | reads at most `before + 1` non-matching units, then slides until the unit after the window matches or the list ends; it slides only once the context is full |
| Context.ReadAfter | urlscan/urlscan.py:341-348 | reads up to `after` further non-matching units after a match, stopping early only at a match or the end |
| Context.LookAhead | urlscan/urlscan.py:356-363 | looks at most `max(before, 1)` units ahead for the next match, stopping early only at a match or the end |
| Context.ExtendWindow | urlscan/urlscan.py:340-363 | the merged window ends `after` units past its last match (or at the end), no gap between its matches exceeds `after + max(before, 1)` units, and no match follows within `max(before, 1)` units |
| Context.NextWindow | urlscan/urlscan.py:323-363 | one round finds either no further match, or a window: context ahead of its first match, merged matches, and context after its last one |
| Context.ExtractWithContext | urlscan/urlscan.py:318-374 | the windows are each in place, with context cut only at the ends of the list. Consecutive windows are separated by a gap too wide to merge. No match lies outside every window, and there are no windows exactly when nothing matches; no window is empty. `usedfirst`/`usedlast` flag the list's ends |
| ContextProperties.WindowsOrdered | urlscan/urlscan.py:318-374 | every window is non-empty and holds a match, and consecutive windows are in order and disjoint |
| ContextProperties.WindowsBefore | urlscan/urlscan.py:318-374 | any earlier window lies wholly before any later one |
| ContextProperties.MatchInOneWindow | urlscan/urlscan.py:318-374 | every matching unit lies between the first and last match of exactly one window, and in no other window |
| ContextProperties.ContextBounds | urlscan/urlscan.py:327-370 | the before-context has at most `before + 1` units and the after-context at most `after`, each cut short only at the list's ends; `usedfirst`/`usedlast` hold exactly when the window touches the start/end |
| ContextProperties.ExtractionUnique | urlscan/urlscan.py:318-374 | two results meeting the contract are equal: the contract fixes the output completely |
| ContextProperties.OneMatchInFive | urlscan/urlscan.py:318-374 | five units, only the third matching, one unit of context each side: the single window is units 1-4 with `usedfirst` set |
| Html.AddChunk | urlscan/urlscan.py:98-106 | a chunk opens a new paragraph at a paragraph start; otherwise it extends the last one, after a `' '` chunk when trailing space is pending. The stacks are unchanged, and it raises only when that space needs a URL from an empty anchor stack |
| Html.EndPara | urlscan/urlscan.py:108-116 | a break at a paragraph start records an empty paragraph; inside lists the next paragraph opens with three spaces per open list |
| Html.EndListPara | urlscan/urlscan.py:118-134 | inside a list, the item marker goes into the current paragraph (a new one at a paragraph start) and an `ol` counts on; outside lists it is a paragraph break |
| Html.FindAttr | urlscan/urlscan.py:136-141 | an attribute that is absent gives `None` |
| Html.FindAttrFirst | urlscan/urlscan.py:136-141 | the first attribute with the name decides; later ones are ignored |
| Html.StyleNames | urlscan/urlscan.py:204-207 | the style names are exactly those of the set, in sorted order |
| Html.StyleLabelInjective | urlscan/urlscan.py:200-207 | different anchor flags or style sets never share an attribute name |
| Html.SuffixShows | urlscan/urlscan.py:204-207 | the attribute shows bold right after the colon and italic at the end |
| Html.HandleData | urlscan/urlscan.py:192-210 | the data becomes one styled chunk of its collapsed text, linked to the current URL. Leading whitespace asks for a separating space before it, trailing whitespace for one before the next chunk. It raises exactly when a stack it reads is empty |
| Html.CharRefValue | urlscan/urlscan.py:218-222 | a reference is read as hexadecimal after `x` (digits of either case, optionally behind `0x`/`0X`) and as decimal otherwise; it raises exactly when that reading fails or the name is empty |
| Html.CharRefText | urlscan/urlscan.py:218-229 | the text is available exactly when the number is |
| HtmlProperties.StepProgress | urlscan/urlscan.py:144-245 | every callback only grows the output: earlier paragraphs untouched, the last only extended at its end, every chunk with markup |
| HtmlProperties.RunProgress | urlscan/urlscan.py:144-245 | the same holds over a whole document |
| HtmlProperties.ParagraphsWellFormed | urlscan/urlscan.py:39-52 | every chunk of every paragraph satisfies the chunk invariant: no URL implies markup |
| HtmlProperties.RunNested | urlscan/urlscan.py:150-154 | each style set on the stack includes the one below it, over any document |
| HtmlProperties.AddChunkEndsWith | urlscan/urlscan.py:98-106 | after adding a chunk the last paragraph ends with it |
| HtmlProperties.BreakThenChunk | urlscan/urlscan.py:108-116 | outside lists, after a paragraph break the next chunk is alone in a new paragraph after everything before |
| HtmlProperties.DataChunkText | urlscan/urlscan.py:192-210 | the chunk for data shows the data's words, collapsed, and carries the current URL |
| HtmlProperties.ImageChunk | urlscan/urlscan.py:157-172 | an image shows its `alt` text, or `[IMG]` without one, collapsed and styled; it links to its `src` when that starts with `http://` and to the enclosing link otherwise, and leaves the anchor stack as it was |
| HtmlProperties.StyleTagPush | urlscan/urlscan.py:150-154 | `<b>`, `<i>` and `<hN>` push one style set: the old top plus the tag's style (bold for a header) and nothing else. The rest of the state is unchanged, and they raise exactly when the style stack is empty |
| HtmlProperties.NumberedItem | urlscan/urlscan.py:128-132 | an `ol` item is marked with the list's counter, which then counts one further |
| HtmlProperties.BulletedItem | urlscan/urlscan.py:122-127 | a `ul` item is marked with the bullet for the number of open `ul` lists, and the list stack is unchanged |
| HtmlProperties.BulletCycle | urlscan/urlscan.py:122-127 | bullets cycle `+`, `-`, `*` with `ul` depth 1, 2, 3 |
| HtmlProperties.NumeralShape | urlscan/urlscan.py:131 | `"%2d."` is the number's digits right-aligned in at least two columns, then a dot |
| HtmlProperties.NumeralPadding | urlscan/urlscan.py:131 | the marker begins with a space exactly for one-digit numbers |
| HtmlProperties.NumeralInjective | urlscan/urlscan.py:131 | different counters give different markers |
| HtmlProperties.CharRefOfValue | urlscan/urlscan.py:218-229 | once the number is read, the text is its character below 128, the `extrachars` spelling of those five numbers, and otherwise the reference written back exactly as spelled |
| HtmlProperties.DecimalCharRef | urlscan/urlscan.py:218-229 | a decimal reference, zero-padded or not, reads as its number: below 128 its character, an `extrachars` number its spelling, any other written back with its padding |
| HtmlProperties.HexCharRef | urlscan/urlscan.py:218-229 | the same for `x` followed by hexadecimal digits, read as the number they denote |
| HtmlProperties.RenderedHexCharRef | urlscan/urlscan.py:218-229 | `x`, an optional `0x`/`0X`, leading zeros and the hexadecimal digits of `n` read as `n`, and are written back as spelled |
| HtmlProperties.UpperHexCharRef | urlscan/urlscan.py:219-222 | `X` does not mark hexadecimal: the reference raises `ValueError` |
| HtmlProperties.EntityWrittenBack | urlscan/urlscan.py:239-245 | an entity reference is written back as `&name;` exactly when the name is not a known entity |
| HtmlProperties.NonNumericCharRef | urlscan/urlscan.py:221-222 | a reference that is not a number raises `ValueError` |
| HtmlExamples.TwoItemList | urlscan/urlscan.py:144-190 | `<ul><li>a</li><li>b</li></ul>` gives an empty paragraph and one indented paragraph holding both items, each after a `+` bullet |
| HtmlExamples.OneTwo | urlscan/urlscan.py:144-190 | the same for the words `one` and `two` |
| HtmlExamples.StrayAnchorClose | urlscan/urlscan.py:180-182 | a stray `</a>` pops the sentinel, and the next text raises `IndexError` |
| HtmlExamples.StrayListClose | urlscan/urlscan.py:185-186 | closing a list that was never opened raises `IndexError` |
| HtmlExamples.LinkedText | urlscan/urlscan.py:144-210 | text in a link is styled `anchor`, carries the target, and has its whitespace collapsed |
| Extract.TextLineTest | urlscan/urlscan.py:401-403 | on a parsed line the test holds exactly when the line has a match, and exactly when some chunk has a URL |
| Extract.ExtractUrls | urlscan/urlscan.py:380-404 | the result is the windows of the line chunks with one line of context each side; it is empty exactly when no line has a match |
| Extract.SomeChunkIsUrl | urlscan/urlscan.py:414-418 | the test holds exactly when some chunk carries a URL |
| Extract.NoWindowsNoLinks | urlscan/urlscan.py:407-420 | no window is cut exactly when no paragraph holds a link |
| Extract.WindowsFrom | urlscan/urlscan.py:370 | every unit of every window is a unit of the list |
| Extract.ExtractHtmlUrls | urlscan/urlscan.py:407-420 | a chunker crash propagates. Otherwise the result is the windows of the chunker's paragraphs around those with a link: empty exactly when no paragraph has one, and every chunk well formed |
| Chooser.SameUrlRun | urlscan/urlchoose.py:72-76 | the run takes exactly the leading chunks that share the URL |
| Chooser.Marks | urlscan/urlchoose.py:69-77 | the collected markup is empty exactly when no chunk of the run has truthy markup |
| Chooser.RunPlaceholder | urlscan/urlchoose.py:77 | a run shows `'<URL>'` exactly when none of its chunks has truthy markup |
| Chooser.LineUrls | urlscan/urlchoose.py:57-80 | each maximal run of adjacent chunks sharing a URL adds that URL exactly once |
| Chooser.LineRefs | urlscan/urlchoose.py:77-80 | the references of a line number its URLs consecutively after those collected before |
| Chooser.LinesUrls | urlscan/urlchoose.py:57-81 | a group's URLs are its lines' run heads, line by line; a run never continues into the next line |
| Chooser.LinesRefs | urlscan/urlchoose.py:57-81 | the references of a group's lines are consecutive |
| Chooser.GroupRefs | urlscan/urlchoose.py:55-85 | the references in a group's text item equal the positions of its URLs in the list |
| Chooser.Ellipses | urlscan/urlchoose.py:55-83 | a `'...'` marker opens the text exactly when the window does not start the message, and closes it exactly when it does not end it |
| Chooser.CompactIsDropRepeats | urlscan/urlchoose.py:46-53 | compact mode keeps the truthy URLs and drops adjacent repeats; chunks without a URL do not separate two equal URLs |
| Chooser.CompactNoRepeats | urlscan/urlchoose.py:46-53 | no URL of a compact group equals the one before it |
| Chooser.GroupButtons | urlscan/urlchoose.py:87-99 | the buttons among a group's items are, in order, one per URL the group adds, numbered on from the URLs collected before |
| Chooser.NewItemsShape | urlscan/urlchoose.py:39-99 | a group adds a divider (unless first), its text item, then one button per URL; compact mode adds buttons only |
| Chooser.FoldButtons | urlscan/urlchoose.py:39-99 | the buttons, in order, are numbered 1, 2, ..., and button `n` opens `urls[n - 1]` |
| Chooser.FoldRefs | urlscan/urlchoose.py:57-99 | in non-compact mode the inline references, in order, are 1, 2, ..., one per URL of the list |
| Chooser.FoldSeparators | urlscan/urlchoose.py:39-85 | in non-compact mode there is one text item per group and one divider between each pair of consecutive groups; compact mode has neither |
| Chooser.DividerPlacement | urlscan/urlchoose.py:39-85 | the items open with the first group's text, and every divider stands between an item and the text of the group it introduces |
| Chooser.FoldUrls | urlscan/urlchoose.py:44-80 | the URL list is, group by group, the run heads of every line (non-compact) or the truthy URLs without adjacent repeats (compact) |
| Chooser.FirstButton | urlscan/urlchoose.py:87-90 | in non-compact mode `firstbutton` is the index of the first button, and stays 0 when there is none |
| Chooser.ItemsOfCompact | urlscan/urlchoose.py:46-99 | compact mode produces only buttons, and `firstbutton` stays 0 |
| Chooser.NoUrlsNotice | urlscan/urlchoose.py:101-105 | "No URLs found" with focus 1 appears exactly when there is no window (non-compact) or no URL (compact) |
| Chooser.HeaderCount | urlscan/urlchoose.py:106-109 | the header gives the URL count in decimal, with "url" singular exactly for one |

## Left out

- The HTML parser: a document is given as the sequence of callbacks the parser makes. Tag and attribute names are taken as the parser reports them, already lower-cased. `feed` and `close` are that sequence; text held back until `close` is part of it.
- Character and entity references: Python 3's parser converts references itself (`convert_charrefs`), so it does not call `handle_charref` or `handle_entityref`. Both handlers are modelled anyway, as `CharRef` and `EntityRef` events, for a parser that does call them.
- The regular-expression engine: `urlre.finditer` is an input of `parse_text_urls`, constrained only to valid, ordered spans. The model does not prove that those spans are the leftmost-longest matches of `urlre`. `Grammar` characterises `urlre.match` at the start of a string, not the scan.
- Grammar: `\w` is the ASCII word characters, not Unicode's. `str.isdigit` accepts ASCII digits only. `str.lower` is ASCII lower-casing; the TLD file is ASCII.
- Text.ParseDec: `int(s)` also takes a sign, surrounding whitespace, underscores between digits and non-ASCII decimal digits; the model returns `None` for those.
- Text.ParseHex: the same for `int(s, 16)`, where an underscore may also follow the `0x` prefix.
- Html.CharRefValue: raises `ValueError` for the references those two readings reject, where Python reads a number.
- Grammar.TldsFromFile: the file is read by the caller (the path and `open` are I/O). The model takes the file's text as a parameter.
- Grammar.UrlreMatch: the optional closing `>` only lengthens a match and is not modelled. The `re.U` flag matters only for `\w`, treated as above.
- GrammarExamples: each self-check assumes only the TLDs it needs, not the full IANA list, which is a data file read at import time.
- Tokenizer.ParseTextUrls: states the result through the lemmas about it (`ParseAlternates`, `ParseLinks`, `ParseRebuilds`) rather than its own ensures.
- Html.HandleStartTag, Html.HandleStartEndTag, Html.HandleEndTag, Html.Step, Html.Run: their own ensures state only that the state stays well formed. What each tag does is stated by the lemmas in `HtmlProperties` and `HtmlExamples`.
- Html.Image: its ensures state only that the state stays well formed and the stacks are unchanged. `HtmlProperties.ImageChunk` states the chunk it adds.
- Chunk's `__str__` and `__repr__`: debugging output.
- `msgurls`, `decode_bytes`, `get_charset`: MIME walking and character decoding of e-mail, outside the extraction core.
- urwid: widgets become data (`Chooser.Item`). `Chooser.Piece.Ref(n)` stands for the three markup tuples `' ['`, `repr(n)`, `']'`. Attribute names of ellipsis, reference and button markup are not kept. `set_focus` becomes the `focus` field, and the callbacks that open a browser are left out.
- `URLChooser.main`, the key handling, `browser.py`, `__main__.py`, `setup.py`, `conf.py`: interactive UI, packaging and entry points.
- Context.NextWindow: the guard `length > 0 and start + length <= len(lst)` on line 365 always holds once line 337 has not left the loop, so the model has no branch for it.
