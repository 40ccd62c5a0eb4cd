/**
 What the chunks of a document guarantee: their size, and where every piece of the document stands in
 them, in order and each at its own place.
 */
module MarkdownGuarantees {
  import opened Common
  import opened MarkdownText
  import opened MarkdownDocument
  import opened MarkdownSections
  import opened MarkdownPacking
  import opened MarkdownChunks

  predicate IsDocument(lines: seq<string>) {
    forall i :: 0 <= i < |lines| ==> '\n' !in lines[i]
  }

  // ---- size ----

  /** A chunk whose body is one fence or table block that is longer than its budget on its own. */
  ghost predicate IsOversizedBlock(sections: seq<Section>, chunk: string, chunkSize: int) {
    exists k, b ::
      && 0 <= k < |sections| && 0 <= b < |sections[k].blocks|
      && IsAtomic(sections[k].blocks[b])
      && |sections[k].blocks[b]| > Budget(sections[k].path, chunkSize)
      && chunk == Prefix(sections[k].path, chunkSize) + Strip(sections[k].blocks[b])
  }

  ghost predicate SizesKept(result: seq<string>, sections: seq<Section>, chunkSize: int) {
    forall i :: 0 <= i < |result| ==> |result[i]| <= chunkSize || IsOversizedBlock(sections, result[i], chunkSize)
  }

  lemma ItemFits(sections: seq<Section>, t: Item, chunkSize: int)
    requires ItemOk(sections, t, chunkSize)
    ensures var blocks, s := sections[t.section].blocks, t.group[0];
            var budget := Budget(sections[t.section].path, chunkSize);
            || |Words(sections, t)| <= budget
            || (IsAtomic(blocks[s.block]) && |blocks[s.block]| > budget && Words(sections, t) == blocks[s.block])
  {
    WordsNotBlank(sections, t, chunkSize);
    hide Strip, Budget, IsAtomic, Words;
    if |t.group| == 1 {
      var blocks, s := sections[t.section].blocks, t.group[0];
      assert blocks[s.block][0..|blocks[s.block]|] == blocks[s.block];
    } else {
      ManyFit(sections, t, chunkSize);
    }
  }

  lemma ManyFit(sections: seq<Section>, t: Item, chunkSize: int)
    requires ItemOk(sections, t, chunkSize) && |t.group| > 1
    ensures |Words(sections, t)| <= Budget(sections[t.section].path, chunkSize)
  {
    hide Budget, Join, PieceOk;
  }

  lemma RunSize(sections: seq<Section>, c: seq<Item>, chunkSize: int)
    requires chunkSize >= 12 && IsRun(sections, c, chunkSize) && ItemOk(sections, c[0], chunkSize)
    ensures |Chunk(sections, c, chunkSize)| <= chunkSize
            || IsOversizedBlock(sections, Chunk(sections, c, chunkSize), chunkSize)
  {
    hide Prefix, Strip, IsAtomic, Budget, Words, SectionLead, ItemOk, IsTiny, ItemIn;
    RoomBesidePrefix(chunkSize);
    var n := |c| - 1;
    if n > 0 {
      assert JoinsAt(sections, c, n, chunkSize);
    } else {
      ItemFits(sections, c[0], chunkSize);
      PieceInside(sections, c[0], chunkSize);
    }
  }

  lemma PieceInside(sections: seq<Section>, t: Item, chunkSize: int)
    requires ItemOk(sections, t, chunkSize)
    ensures t.section < |sections| && t.group != [] && t.group[0].block < |sections[t.section].blocks|
  {
    hide PieceOk, Fits, Budget, Join;
  }

  /**
   Size: from chunk size twelve up every chunk with its prefix is at most `chunkSize` characters, or its
   body is one fence or table block that is longer than its budget on its own.
   */
  lemma ChunkSizeBound(result: seq<string>, sections: seq<Section>, chunkSize: int, overlap: int)
    requires chunkSize >= 12 && NoBlankBlocks(sections) && AreChunks(result, sections, chunkSize, overlap)
    ensures SizesKept(result, sections, chunkSize)
  {
    hide NoBlankBlocks, AllItems, IsRun, Flatten, Rendered, ItemOk, ApartAt, Chunk, IsOversizedBlock;
    var items, chunks :| AllItems(sections, |sections|, items, chunkSize, overlap)
      && IsMerging(sections, chunks, items, chunkSize) && result == Rendered(sections, chunks, chunkSize);
    AllItemsOk(sections, |sections|, items, chunkSize, overlap);
    forall i | 0 <= i < |result|
      ensures |result[i]| <= chunkSize || IsOversizedBlock(sections, result[i], chunkSize)
    {
      assert IsRun(sections, chunks[i], chunkSize);
      RunIsIn(sections, chunks[i], chunkSize);
      FirstOfChunk(sections, chunks, items, i, chunkSize);
      RunSize(sections, chunks[i], chunkSize);
    }
  }

  lemma RunIsIn(sections: seq<Section>, c: seq<Item>, chunkSize: int)
    requires IsRun(sections, c, chunkSize)
    ensures c != [] && ItemsIn(sections, c)
  {
  }

  lemma FirstOfChunk(sections: seq<Section>, chunks: seq<seq<Item>>, items: seq<Item>, i: nat, chunkSize: int)
    requires Flatten(chunks) == items && ItemsOk(sections, items, chunkSize)
    requires i < |chunks| && chunks[i] != []
    ensures ItemOk(sections, chunks[i][0], chunkSize)
  {
    hide ItemOk;
    ElementOfFlatten(chunks, i, 0);
  }

  /** The bound holds for the chunks of every document exactly from chunk size twelve up. */
  lemma ChunkSizeBoundIff(chunkSize: int)
    ensures (forall result, lines, overlap ::
               IsDocument(lines) && AreChunks(result, SectionsOf(lines), chunkSize, overlap) ==>
                 SizesKept(result, SectionsOf(lines), chunkSize))
            <==> chunkSize >= 12
  {
    hide *;
    if chunkSize >= 12 {
      forall result, lines, overlap |
        IsDocument(lines) && AreChunks(result, SectionsOf(lines), chunkSize, overlap)
        ensures SizesKept(result, SectionsOf(lines), chunkSize)
      {
        DocumentNotBlank(lines);
        ChunkSizeBound(result, SectionsOf(lines), chunkSize, overlap);
      }
    } else {
      var result := TooBig(chunkSize);
    }
  }

  lemma DocumentNotBlank(lines: seq<string>)
    requires IsDocument(lines)
    ensures NoBlankBlocks(SectionsOf(lines))
  {
    ParsedNotBlank(lines);
  }

  // ---- documents of one text ----

  /** A document whose only line is text has one section with that line. */
  lemma OneLine(line: string)
    requires FenceMarker(line).None? && HeadingOf(line).None? && !IsTableRow(line) && !IsBlank(line)
    ensures SectionsOf([line]) == [Section([], [], [line])]
  {
    NoLines();
    hide FenceMarker, HeadingOf, IsTableRow, IsBlank, Headings, Blocks, KindAfter, GoesOn, HeadingAfter, Open, Strip;
    assert [] + [line] == [line];
    PlainKind([], line);
    HeadingsAfterLine([], line);
    BlocksAfterLine([], line);
    assert [] + [Block(Paragraph, [line])] == [Block(Paragraph, [line])];
    OneText(line);
    NoneOpen();
    assert SectionAt([line], 0) == Section([], [], [line]);
  }

  lemma OneText(line: string)
    ensures BlockTexts([Block(Paragraph, [line])]) == [line] && BlockTexts([]) == []
  {
  }

  lemma NoneOpen()
    ensures forall hs: seq<Heading> :: hs[..0] == []
    ensures Open([]) == [] && Titles([]) == []
  {
  }

  const SHORT_DOCUMENT := ["# abcdefgh", "a"]

  /** One letter under an eight-letter heading. */
  const SHORT_SECTIONS := [Section([], [], []), Section(["abcdefgh"], "# abcdefgh", ["a"])]

  predicate Tight(s: string) {
    s != [] && !IsSpace(s[0]) && !IsSpace(s[|s| - 1])
  }

  lemma StripTight(s: string)
    requires Tight(s)
    ensures Strip(s) == s && TextStart(s) == 0 && TextEnd(s) == |s|
  {
    hide IsSpace;
    assert TextStart(s) == 0 && TextEnd(s) == |s|;
  }

  lemma StripIndented(s: string)
    requires Tight(s)
    ensures Strip(" " + s) == s
  {
    var t := " " + s;
    assert IsSpace(' ') && t[0] == ' ' && t[1] == s[0] && t[|t| - 1] == s[|s| - 1];
    hide IsSpace;
    assert TextStart(t) == 1 && TextEnd(t) == |t|;
    assert t[1..|t|] == s;
  }

  lemma TopHeading(title: string)
    requires Tight(title) && title[|title| - 1] != '#'
    ensures var line := "# " + title;
            FenceMarker(line).None? && HeadingOf(line) == Some(Heading(1, title, line)) && Strip(line) == line
  {
    var line := "# " + title;
    TitleOfTight(title);
    HashLine(title, line);
    HashNoFence(line);
    hide *;
    HashHeading(line, title);
  }

  lemma HashHeading(line: string, title: string)
    requires LeadingRun(line, ' ') == 0 && LeadingRun(line, '#') == 1 && line != [] && line[1..] == " " + title
    requires TitleOf(" " + title) == title
    ensures HeadingOf(line) == Some(Heading(1, title, line))
  {
    hide TitleOf, LeadingRun;
    assert line[0..] == line && line[0 + 1..] == " " + title && (" " + title)[0] == ' ';
  }

  lemma HashNoFence(line: string)
    requires line != [] && line[0] == '#' && LeadingRun(line, ' ') == 0
    ensures FenceMarker(line).None?
  {
    hide LeadingRun;
  }

  lemma HashLine(title: string, line: string)
    requires Tight(title) && line == "# " + title
    ensures Strip(line) == line && line[1..] == " " + title
    ensures LeadingRun(line, ' ') == 0 && LeadingRun(line, '#') == 1
  {
    assert IsSpace(' ') && !IsSpace('#');
    assert line[0] == '#' && line[|line| - 1] == title[|title| - 1];
    hide IsSpace;
    StripTight(line);
    hide Strip, Tight;
    assert line[1..] == " " + title;
    assert LeadingRun(line[1..], '#') == 0;
  }

  lemma TitleOfTight(title: string)
    requires Tight(title) && title[|title| - 1] != '#'
    ensures TitleOf(" " + title) == title
  {
    StripIndented(title);
    StripTight(title);
    hide Strip, Tight;
  }

  /** A line of letters a, then one more letter, is text. */
  lemma LetterLine(n: nat, last: char)
    requires last == 'a' || last == 'b'
    ensures var line := seq(n, _ => 'a') + [last];
            FenceMarker(line).None? && HeadingOf(line).None? && !IsTableRow(line) && !IsBlank(line) && Tight(line)
            && '\n' !in line
  {
    var line := seq(n, _ => 'a') + [last];
    assert line[0] == 'a' || line[0] == 'b';
    assert line[|line| - 1] == last;
    assert LeadingRun(line, ' ') == 0 && line[0..] == line;
    assert !IsSpace(line[0]);
    assert TextStart(line) == 0;
  }

  lemma LineA()
    ensures FenceMarker("a").None? && HeadingOf("a").None? && !IsTableRow("a") && !IsBlank("a") && Strip("a") == "a"
  {
    LetterLine(0, 'a');
    assert seq(0, _ => 'a') + ['a'] == "a";
    StripTight("a");
  }

  lemma ShortDocument()
    ensures IsDocument(SHORT_DOCUMENT) && SectionsOf(SHORT_DOCUMENT) == SHORT_SECTIONS
  {
    hide *;
    var title := "abcdefgh";
    NoSpaces();
    TopHeading(title);
    LineA();
    HeadingThenText("# " + title, "a", Heading(1, title, "# " + title));
    ShortLines();
  }

  lemma ShortLines()
    ensures IsDocument(SHORT_DOCUMENT) && SHORT_DOCUMENT == ["# " + "abcdefgh", "a"]
    ensures SHORT_SECTIONS == [Section([], [], []), Section(["abcdefgh"], "# " + "abcdefgh", ["a"])]
  {
    assert "# " + "abcdefgh" == "# abcdefgh";
  }

  lemma NoSpaces()
    ensures Tight("abcdefgh")
  {
  }

  /** A titled heading and a line of text below it. */
  lemma HeadingThenText(heading: string, line: string, h: Heading)
    requires FenceMarker(heading).None? && HeadingOf(heading) == Some(h) && h.title != []
    requires FenceMarker(line).None? && HeadingOf(line).None? && !IsTableRow(line) && !IsBlank(line)
    requires h.line == heading && Strip(heading) == heading
    ensures SectionsOf([heading, line]) == [Section([], [], []), Section([h.title], heading, [line])]
  {
    ShortBlocks(heading, line, h);
    hide FenceMarker, HeadingOf, IsTableRow, IsBlank, Strip, Headings, Blocks, Open, Titles;
    var lines := [heading, line];
    NoneOpen();
    OneOpen(h);
    OneText(line);
    assert [h][..1] == [h];
    assert SectionAt(lines, 0) == Section([], [], []);
    assert SectionAt(lines, 1) == Section([h.title], heading, [line]);
  }

  lemma OneOpen(h: Heading)
    requires h.title != []
    ensures Open([h]) == [h] && Titles([h]) == [h.title]
  {
    assert [h][1..] == [];
  }

  lemma ShortBlocks(heading: string, line: string, h: Heading)
    requires FenceMarker(heading).None? && HeadingOf(heading) == Some(h)
    requires FenceMarker(line).None? && HeadingOf(line).None? && !IsTableRow(line) && !IsBlank(line)
    ensures Headings([heading, line]) == [h]
    ensures Blocks([heading, line]) == [[], [Block(Paragraph, [line])]]
  {
    NoLines();
    hide FenceMarker, HeadingOf, IsTableRow, IsBlank, Headings, Blocks, KindAfter, GoesOn, HeadingAfter, LastKind;
    assert [] + [heading] == [heading] && [heading] + [line] == [heading, line];
    HeadingLine([], heading);
    assert [] + [h] == [h] && [h] + [] == [h];
    PlainKind([heading], line);
    HeadingsAfterLine([heading], line);
    BlocksAfterLine([heading], line);
    assert [] + [Block(Paragraph, [line])] == [Block(Paragraph, [line])];
  }

  /** The only greedy cut of a single piece. */
  lemma SingleCut(text: string, s: Span, budget: nat, overlap: int)
    requires budget >= 1 && InBlock([text], s) && BlockSpans(text, 0, budget, overlap) == [s]
    ensures IsCut([text], [[s]], budget, overlap)
  {
    hide BlockSpans;
    assert SpansOf([text], 0, budget, overlap) == [];
    assert SpansOf([text], 1, budget, overlap) == [] + [s] == [s];
    assert Flatten([[s]]) == [s] + Flatten([[s]][1..]) == [s];
    assert AllGroupsIn([text], [[s]]);
  }

  lemma EmptyCut(budget: nat, overlap: int)
    requires budget >= 1
    ensures IsCut([], [], budget, overlap)
  {
  }

  /** Sections whose last one has a single piece, and the others nothing: one text, one chunk. */
  lemma OnePiece(sections: seq<Section>, text: string, s: Span, chunkSize: int, overlap: int)
    returns (result: seq<string>)
    requires |sections| > 0 && forall i :: 0 <= i < |sections| - 1 ==> sections[i].blocks == []
    requires var last := sections[|sections| - 1];
             && last.blocks == [text] && InBlock([text], s)
             && BlockSpans(text, 0, Budget(last.path, chunkSize), overlap) == [s]
    ensures AreChunks(result, sections, chunkSize, overlap)
    ensures result == [Prefix(sections[|sections| - 1].path, chunkSize) + Strip(text[s.lo..s.hi])]
  {
    hide *;
    var k := |sections| - 1;
    var t := Item(k, [s], true);
    NothingBefore(sections, k, chunkSize, overlap);
    OneItem(sections, k, text, s, chunkSize, overlap);
    MoreItems(sections, k, [], [t], chunkSize, overlap);
    assert [] + [t] == [t];
    OneChunk(sections, t, chunkSize);
    result := Rendered(sections, [[t]], chunkSize);
    ChunksThere(result, sections, [t], [[t]], chunkSize, overlap);
  }

  lemma {:induction false} NothingBefore(sections: seq<Section>, n: nat, chunkSize: int, overlap: int)
    requires n <= |sections| && forall i :: 0 <= i < n ==> sections[i].blocks == []
    ensures AllItems(sections, n, [], chunkSize, overlap)
  {
    hide *;
    if n == 0 {
      NoItems(sections, [], chunkSize, overlap);
    } else {
      NothingBefore(sections, n - 1, chunkSize, overlap);
      EmptySection(sections, n - 1, chunkSize, overlap);
      var none: seq<Item> := [];
      MoreItems(sections, n - 1, none, none, chunkSize, overlap);
      assert none + none == none;
    }
  }

  lemma EmptySection(sections: seq<Section>, k: nat, chunkSize: int, overlap: int)
    requires k < |sections| && sections[k].blocks == []
    ensures SectionItems(sections, k, [], chunkSize, overlap)
  {
    EmptyCut(Budget(sections[k].path, chunkSize), overlap);
    hide IsCut, Budget;
    assert GroupsOf([]) == [];
  }

  lemma OneItem(sections: seq<Section>, k: nat, text: string, s: Span, chunkSize: int, overlap: int)
    requires k < |sections| && sections[k].blocks == [text] && InBlock([text], s)
    requires BlockSpans(text, 0, Budget(sections[k].path, chunkSize), overlap) == [s]
    ensures var t := Item(k, [s], true);
            && SectionItems(sections, k, [t], chunkSize, overlap)
            && ItemIn(sections, t) && Words(sections, t) == text[s.lo..s.hi]
  {
    SingleCut(text, s, Budget(sections[k].path, chunkSize), overlap);
    hide IsCut, Budget, BlockSpans;
    assert GroupsOf([Item(k, [s], true)]) == [[s]];
    assert Texts([text], [s]) == [text[s.lo..s.hi]];
  }

  lemma ChunksThere(result: seq<string>, sections: seq<Section>, items: seq<Item>, chunks: seq<seq<Item>>,
                    chunkSize: int, overlap: int)
    requires AllItems(sections, |sections|, items, chunkSize, overlap)
    requires IsMerging(sections, chunks, items, chunkSize) && result == Rendered(sections, chunks, chunkSize)
    ensures AreChunks(result, sections, chunkSize, overlap)
  {
    hide AllItems, IsRun, Flatten, ApartAt, Rendered;
  }

  lemma OneChunk(sections: seq<Section>, t: Item, chunkSize: int)
    requires ItemIn(sections, t)
    ensures AllRuns(sections, [[t]], chunkSize) && IsMerging(sections, [[t]], [t], chunkSize)
    ensures Rendered(sections, [[t]], chunkSize)
         == [Prefix(sections[t.section].path, chunkSize) + Strip(Words(sections, t))]
  {
    RunOfOne(sections, t, chunkSize);
    hide IsRun, ItemIn, Words, Prefix, Strip, Body, PathOf;
    assert Flatten([[t]]) == [t] + Flatten([[t]][1..]) == [t];
  }

  /** Below chunk size twelve the chunk of the short document already has twelve characters. */
  lemma TooBig(chunkSize: int) returns (result: seq<string>)
    requires chunkSize < 12
    ensures IsDocument(SHORT_DOCUMENT) && AreChunks(result, SectionsOf(SHORT_DOCUMENT), chunkSize, 0)
    ensures !SizesKept(result, SectionsOf(SHORT_DOCUMENT), chunkSize)
  {
    hide *;
    ShortDocument();
    ShortPrefix(chunkSize);
    ShortPiece(chunkSize);
    result := OnePiece(SHORT_SECTIONS, "a", Span(0, 0, 1), chunkSize, 0);
    NoneOversized(result[0], chunkSize);
    TooLong(result, SHORT_SECTIONS, chunkSize);
  }

  lemma ShortPiece(chunkSize: int)
    requires Budget(SHORT_SECTIONS[1].path, chunkSize) == 1
    ensures |SHORT_SECTIONS| == 2 && SHORT_SECTIONS[0].blocks == [] && SHORT_SECTIONS[1].blocks == ["a"]
    ensures InBlock(["a"], Span(0, 0, 1)) && |Strip("a"[0..1])| == 1
    ensures BlockSpans("a", 0, Budget(SHORT_SECTIONS[1].path, chunkSize), 0) == [Span(0, 0, 1)]
  {
    LineA();
    hide Strip, Budget, IsAtomic;
    assert "a"[0..1] == "a";
  }

  lemma TooLong(result: seq<string>, sections: seq<Section>, chunkSize: int)
    requires result != [] && |result[0]| > chunkSize && !IsOversizedBlock(sections, result[0], chunkSize)
    ensures !SizesKept(result, sections, chunkSize)
  {
    hide IsOversizedBlock;
  }

  lemma NoneOversized(chunk: string, chunkSize: int)
    requires Budget(SHORT_SECTIONS[1].path, chunkSize) == 1
    ensures !IsOversizedBlock(SHORT_SECTIONS, chunk, chunkSize)
  {
    hide Prefix, Budget, Strip, IsAtomic;
  }

  lemma ShortPrefix(chunkSize: int)
    requires chunkSize < 12
    ensures |Prefix(SHORT_SECTIONS[1].path, chunkSize)| == 11 && Budget(SHORT_SECTIONS[1].path, chunkSize) == 1
    ensures Budget([], chunkSize) == 1 || Budget([], chunkSize) == chunkSize
  {
    assert Join(["abcdefgh"], " > ") == "abcdefgh";
  }

  // ---- pieces ----

  datatype Place = Place(section: nat, span: Span)

  function InSection(k: nat, spans: seq<Span>): (places: seq<Place>)
    ensures |places| == |spans| && forall i :: 0 <= i < |spans| ==> places[i] == Place(k, spans[i])
  {
    seq(|spans|, i requires 0 <= i < |spans| => Place(k, spans[i]))
  }

  /** All pieces of the first n sections, in document order. */
  function Places(sections: seq<Section>, n: nat, chunkSize: int, overlap: int): seq<Place>
    requires n <= |sections|
  {
    if n == 0 then [] else
      Places(sections, n - 1, chunkSize, overlap)
      + InSection(n - 1, SectionSpans(sections[n - 1], chunkSize, overlap))
  }

  /** The pieces of texts, one after another. */
  function PlacesOf(items: seq<Item>): seq<Place> {
    if items == [] then []
    else PlacesOf(items[..|items| - 1]) + InSection(items[|items| - 1].section, items[|items| - 1].group)
  }

  lemma InSectionAppend(k: nat, a: seq<Span>, b: seq<Span>)
    ensures InSection(k, a + b) == InSection(k, a) + InSection(k, b)
  {
  }

  lemma {:induction false} PlacesAppend(a: seq<Item>, b: seq<Item>)
    ensures PlacesOf(a + b) == PlacesOf(a) + PlacesOf(b)
  {
    hide *;
    if b == [] {
      NoPlaces();
      assert a + b == a;
    } else {
      var n := |b| - 1;
      PlacesAppend(a, b[..n]);
      PlacesSplit(b[..n], b[n]);
      PlacesSplit(a + b[..n], b[n]);
      assert b == b[..n] + [b[n]] && a + b == a + b[..n] + [b[n]];
    }
  }

  lemma NoPlaces()
    ensures PlacesOf([]) == []
  {
  }

  lemma PlacesSplit(items: seq<Item>, t: Item)
    ensures PlacesOf(items + [t]) == PlacesOf(items) + InSection(t.section, t.group)
  {
    hide InSection;
    assert (items + [t])[..|items|] == items;
  }

  lemma {:induction false} PlacesOfSection(k: nat, items: seq<Item>)
    requires forall i :: 0 <= i < |items| ==> items[i].section == k
    ensures PlacesOf(items) == InSection(k, Flatten(GroupsOf(items)))
  {
    if items != [] {
      var n := |items| - 1;
      PlacesOfSection(k, items[..n]);
      PlacesSplit(items[..n], items[n]);
      FlattenAppend(GroupsOf(items[..n]), items[n].group);
      InSectionAppend(k, Flatten(GroupsOf(items[..n])), items[n].group);
      assert items == items[..n] + [items[n]];
      assert GroupsOf(items) == GroupsOf(items[..n]) + [items[n].group];
    }
  }

  /** The chunks' texts hold all pieces of all sections in document order, each once. */
  lemma {:induction false} ItemsFollowDocument(sections: seq<Section>, n: nat, items: seq<Item>, chunkSize: int,
                                               overlap: int)
    requires n <= |sections| && AllItems(sections, n, items, chunkSize, overlap)
    ensures PlacesOf(items) == Places(sections, n, chunkSize, overlap)
  {
    hide AllItems, SectionItems, SectionSpans, Flatten, InSection;
    if n > 0 {
      var m := LastSectionItems(sections, n, items, chunkSize, overlap);
      ItemsFollowDocument(sections, n - 1, items[..m], chunkSize, overlap);
      assert items == items[..m] + items[m..];
      PlacesAppend(items[..m], items[m..]);
      SectionPlaces(sections, n - 1, items[m..], chunkSize, overlap);
    } else {
      NoItems(sections, items, chunkSize, overlap);
    }
  }

  lemma SectionPlaces(sections: seq<Section>, k: nat, items: seq<Item>, chunkSize: int, overlap: int)
    requires k < |sections| && SectionItems(sections, k, items, chunkSize, overlap)
    ensures PlacesOf(items) == InSection(k, SectionSpans(sections[k], chunkSize, overlap))
  {
    hide PlacesOf, InSection, Flatten, Greedy, Budget, SpansOf;
    PlacesOfSection(k, items);
  }

  /** Document order of pieces: by section, by block, and within a block neither end goes back. */
  predicate NotAfter(a: Span, b: Span) {
    a.block < b.block || (a.block == b.block && a.lo <= b.lo && a.hi <= b.hi)
  }

  lemma BlockSpansAdvance(block: string, b: nat, budget: nat, overlap: int, i: nat, j: nat)
    requires budget >= 1 && i <= j < |BlockSpans(block, b, budget, overlap)|
    ensures NotAfter(BlockSpans(block, b, budget, overlap)[i], BlockSpans(block, b, budget, overlap)[j])
    ensures BlockSpans(block, b, budget, overlap)[i].block == b
  {
    hide IsAtomic, Windows, Trimmed, Step;
    if |block| > budget && !IsAtomic(block) {
      var step := Step(budget, overlap);
      WindowsAdvance(block, b, budget, step, 0, i, j);
      SameBlock(block, b, budget, step, i);
      SameBlock(block, b, budget, step, j);
    }
  }

  lemma SameBlock(block: string, b: nat, budget: nat, step: nat, i: nat)
    requires budget >= 1 && step >= 1 && i < |Windows(block, b, budget, step, 0)|
    ensures Windows(block, b, budget, step, 0)[i].block == b
  {
    hide Windows;
    WindowsAreTrimmed(block, b, budget, step, 0);
    assert Windows(block, b, budget, step, 0)[i] in Windows(block, b, budget, step, 0);
  }

  lemma {:induction false} SpansAdvance(blocks: seq<string>, n: nat, budget: nat, overlap: int, i: nat, j: nat)
    requires budget >= 1 && n <= |blocks| && i <= j < |SpansOf(blocks, n, budget, overlap)|
    ensures var spans := SpansOf(blocks, n, budget, overlap);
            spans[i].block < n && NotAfter(spans[i], spans[j])
  {
    hide BlockSpans;
    var m := |SpansOf(blocks, n - 1, budget, overlap)|;
    if i >= m {
      BlockSpansAdvance(blocks[n - 1], n - 1, budget, overlap, i - m, j - m);
    } else if j < m {
      SpansAdvance(blocks, n - 1, budget, overlap, i, j);
    } else {
      SpansAdvance(blocks, n - 1, budget, overlap, i, i);
      BlockSpansAdvance(blocks[n - 1], n - 1, budget, overlap, j - m, j - m);
    }
  }

  /** Pieces go by section, by block, and within a block never back. */
  lemma {:induction false} DocumentOrder(sections: seq<Section>, n: nat, chunkSize: int, overlap: int, i: nat, j: nat)
    requires n <= |sections| && i <= j < |Places(sections, n, chunkSize, overlap)|
    ensures var places := Places(sections, n, chunkSize, overlap);
            && places[i].section < n
            && (places[i].section < places[j].section
                || (places[i].section == places[j].section && NotAfter(places[i].span, places[j].span)))
  {
    hide SpansOf, Budget, NotAfter;
    var m := |Places(sections, n - 1, chunkSize, overlap)|;
    var s := sections[n - 1];
    if i >= m {
      SpansAdvance(s.blocks, |s.blocks|, Budget(s.path, chunkSize), overlap, i - m, j - m);
    } else if j < m {
      DocumentOrder(sections, n - 1, chunkSize, overlap, i, j);
    } else {
      DocumentOrder(sections, n - 1, chunkSize, overlap, i, i);
    }
  }

  predicate PlaceIn(sections: seq<Section>, p: Place) {
    p.section < |sections| && InBlock(sections[p.section].blocks, p.span)
  }

  function PlaceText(sections: seq<Section>, p: Place): string
    requires PlaceIn(sections, p)
  {
    Text(sections[p.section].blocks, p.span)
  }

  /** A piece without the whitespace around it. */
  function Trimmed(sections: seq<Section>, p: Place): Place {
    if !PlaceIn(sections, p) then p
    else
      var text := PlaceText(sections, p);
      Place(p.section, Span(p.span.block, p.span.lo + TextStart(text), p.span.lo + TextEnd(text)))
  }

  function AllTrimmed(sections: seq<Section>, places: seq<Place>): (r: seq<Place>)
    ensures |r| == |places| && forall i :: 0 <= i < |r| ==> r[i] == Trimmed(sections, places[i])
  {
    seq(|places|, i requires 0 <= i < |places| => Trimmed(sections, places[i]))
  }

  /** All pieces of the parsed sections in document order, without the whitespace around them. */
  function Pieces(sections: seq<Section>, chunkSize: int, overlap: int): seq<Place> {
    AllTrimmed(sections, Places(sections, |sections|, chunkSize, overlap))
  }

  /** A piece that is more than whitespace. */
  predicate Solid(sections: seq<Section>, p: Place) {
    PlaceIn(sections, p) && Strip(PlaceText(sections, p)) != []
  }

  predicate AllSolid(sections: seq<Section>, places: seq<Place>) {
    forall i :: 0 <= i < |places| ==> Solid(sections, places[i])
  }

  lemma TrimmedIs(sections: seq<Section>, p: Place)
    requires Solid(sections, p)
    ensures var text, t := PlaceText(sections, p), Trimmed(sections, p);
            && TextStart(text) < TextEnd(text)
            && t == Place(p.section, Span(p.span.block, p.span.lo + TextStart(text), p.span.lo + TextEnd(text)))
            && PlaceIn(sections, t)
            && PlaceText(sections, t) == text[TextStart(text)..TextEnd(text)] == Strip(text)
  {
    hide IsSpace, Strip, TextStart, TextEnd;
    var block, text := sections[p.section].blocks[p.span.block], PlaceText(sections, p);
    var from, to := TextStart(text), TextEnd(text);
    SliceOfSlice(block, p.span.lo, p.span.hi - p.span.lo, from, to);
    assert block[p.span.lo..p.span.lo + (p.span.hi - p.span.lo)] == text;
  }

  // ---- where pieces stand in a text ----

  function Length(p: Place): int {
    p.span.hi - p.span.lo
  }

  predicate StandsAt(sections: seq<Section>, text: string, p: Place, at: nat) {
    && PlaceIn(sections, p)
    && at + Length(p) <= |text| && text[at..at + Length(p)] == PlaceText(sections, p)
  }

  /** These pieces stand in the text one behind another, none on top of another. */
  predicate Marked(sections: seq<Section>, text: string, places: seq<Place>, offsets: seq<nat>) {
    && |offsets| == |places|
    && (forall i :: 0 <= i < |places| ==> StandsAt(sections, text, places[i], offsets[i]))
    && forall i, j :: 0 <= i < j < |places| ==> offsets[i] + Length(places[i]) <= offsets[j]
  }

  lemma UnmarkedText(sections: seq<Section>, text: string)
    ensures Marked(sections, text, [], [])
  {
  }

  lemma MarkedPiece(sections: seq<Section>, p: Place)
    requires PlaceIn(sections, p)
    ensures Marked(sections, PlaceText(sections, p), [p], [0])
  {
  }

  lemma StandsInLonger(sections: seq<Section>, before: string, text: string, after: string, p: Place, at: nat)
    requires StandsAt(sections, text, p, at)
    ensures StandsAt(sections, before + text + after, p, |before| + at)
  {
    var all := before + text + after;
    assert all[|before| + at..|before| + at + Length(p)] == text[at..at + Length(p)];
  }

  function Shifted(distance: nat, offsets: seq<nat>): (r: seq<nat>)
    ensures |r| == |offsets| && forall i :: 0 <= i < |r| ==> r[i] == distance + offsets[i]
  {
    seq(|offsets|, i requires 0 <= i < |offsets| => distance + offsets[i])
  }

  /** Two marked texts, one behind the other. */
  lemma MarkedAppend(sections: seq<Section>, a: string, p: seq<Place>, o: seq<nat>, b: string, q: seq<Place>,
                     r: seq<nat>)
    requires Marked(sections, a, p, o) && Marked(sections, b, q, r)
    ensures Marked(sections, a + b, p + q, o + Shifted(|a|, r))
  {
    hide StandsAt;
    var places, offsets := p + q, o + Shifted(|a|, r);
    forall i | 0 <= i < |places|
      ensures StandsAt(sections, a + b, places[i], offsets[i])
    {
      if i < |p| {
        StandsInLonger(sections, [], a, b, p[i], o[i]);
        assert [] + a + b == a + b;
      } else {
        StandsInLonger(sections, a, b, [], q[i - |p|], r[i - |p|]);
        assert a + b + [] == a + b;
      }
    }
    forall i, j | 0 <= i < j < |places|
      ensures offsets[i] + Length(places[i]) <= offsets[j]
    {
      if i < |p| <= j {
        StandsInside(sections, a, p[i], o[i]);
      }
    }
  }

  lemma StandsInside(sections: seq<Section>, text: string, p: Place, at: nat)
    requires StandsAt(sections, text, p, at)
    ensures at + Length(p) <= |text|
  {
  }

  lemma {:induction false} WordsMarked(sections: seq<Section>, k: nat, group: seq<Span>) returns (offsets: seq<nat>)
    requires k < |sections| && AllIn(sections[k].blocks, group)
    ensures Marked(sections, Join(Texts(sections[k].blocks, group), BLANK_LINE), InSection(k, group), offsets)
  {
    hide Join, InBlock, Text, Marked, Texts, InSection, PlaceIn, PlaceText;
    var blocks := sections[k].blocks;
    if group == [] {
      NoGroup(blocks, k);
      UnmarkedText(sections, []);
      offsets := [];
    } else {
      var n := |group| - 1;
      LastPiece(sections, k, group);
      var p := Place(k, group[n]);
      var last := PlaceText(sections, p);
      MarkedPiece(sections, p);
      if n == 0 {
        NoGroup(blocks, k);
        offsets := [0];
      } else {
        var front := Join(Texts(blocks, group[..n]), BLANK_LINE);
        var o := WordsMarked(sections, k, group[..n]);
        UnmarkedText(sections, BLANK_LINE);
        MarkedAppend(sections, front, InSection(k, group[..n]), o, BLANK_LINE, [], []);
        var places, offs := InSection(k, group[..n]) + [], o + Shifted(|front|, []);
        MarkedAppend(sections, front + BLANK_LINE, places, offs, last, [p], [0]);
        assert places == InSection(k, group[..n]);
        offsets := offs + Shifted(|front + BLANK_LINE|, [0]);
      }
    }
  }

  lemma NoGroup(blocks: seq<string>, k: nat)
    ensures Join(Texts(blocks, []), BLANK_LINE) == [] && InSection(k, []) == []
  {
  }

  lemma LastPiece(sections: seq<Section>, k: nat, group: seq<Span>)
    requires k < |sections| && group != [] && AllIn(sections[k].blocks, group)
    ensures var n := |group| - 1;
            var p := Place(k, group[n]);
            var blocks := sections[k].blocks;
            && PlaceIn(sections, p) && AllIn(blocks, group[..n])
            && InSection(k, group) == InSection(k, group[..n]) + [p]
            && Join(Texts(blocks, group), BLANK_LINE)
               == (if n == 0 then PlaceText(sections, p)
                   else Join(Texts(blocks, group[..n]), BLANK_LINE) + BLANK_LINE + PlaceText(sections, p))
            && (n == 0 ==> InSection(k, group) == [p])
  {
    hide Join, InBlock, Text;
    var n, blocks := |group| - 1, sections[k].blocks;
    assert group == group[..n] + [group[n]];
    assert InBlock(blocks, group[n]);
    TextsOneMore(blocks, group[..n], group[n]);
    if n == 0 {
      assert Texts(blocks, group) == [Text(blocks, group[0])];
      JoinOne(Text(blocks, group[0]));
    } else {
      JoinOneMore(Texts(blocks, group[..n]), Text(blocks, group[n]));
    }
  }

  lemma {:induction false} BodyMarked(sections: seq<Section>, c: seq<Item>) returns (offsets: seq<nat>)
    requires c != [] && ItemsIn(sections, c)
    ensures Marked(sections, Body(sections, c), PlacesOf(c), offsets)
  {
    hide *;
    var n := |c| - 1;
    LastItem(sections, c);
    var t := c[n];
    var o := WordsMarked(sections, t.section, t.group);
    if n == 0 {
      offsets := o;
    } else {
      var front, lead := Body(sections, c[..n]), SectionLead(sections[t.section]);
      var before := BodyMarked(sections, c[..n]);
      UnmarkedText(sections, lead);
      MarkedAppend(sections, front, PlacesOf(c[..n]), before, lead, [], []);
      var places, offs := PlacesOf(c[..n]) + [], before + Shifted(|front|, []);
      MarkedAppend(sections, front + lead, places, offs, Words(sections, t), InSection(t.section, t.group), o);
      assert places == PlacesOf(c[..n]);
      offsets := offs + Shifted(|front + lead|, o);
    }
  }

  lemma LastItem(sections: seq<Section>, c: seq<Item>)
    requires c != [] && ItemsIn(sections, c)
    ensures var n := |c| - 1;
            var t := c[n];
            && ItemIn(sections, t) && ItemsIn(sections, c[..n])
            && t.section < |sections| && AllIn(sections[t.section].blocks, t.group)
            && Words(sections, t) == Join(Texts(sections[t.section].blocks, t.group), BLANK_LINE)
            && Body(sections, c) == (
              if n == 0 then Words(sections, t)
              else Body(sections, c[..n]) + SectionLead(sections[t.section]) + Words(sections, t))
            && PlacesOf(c) == PlacesOf(c[..n]) + InSection(t.section, t.group)
            && (n == 0 ==> PlacesOf(c) == InSection(t.section, t.group))
  {
    hide Join, Texts, AllIn, SectionLead;
    assert ItemIn(sections, c[|c| - 1]);
  }

  /** Trimming a text moves its trimmed pieces by what is cut off in front, and cuts none of them. */
  lemma TrimmedStands(sections: seq<Section>, body: string, p: Place, at: nat)
    requires StandsAt(sections, body, p, at) && Solid(sections, p)
    ensures var start := TextStart(PlaceText(sections, p));
            && at + start >= TextStart(body) && Strip(body) != []
            && StandsAt(sections, Strip(body), Trimmed(sections, p), at + start - TextStart(body))
  {
    hide *;
    TrimmedIs(sections, p);
    StandingText(sections, body, p, at);
    var text, t := PlaceText(sections, p), Trimmed(sections, p);
    var from, to := TextStart(text), TextEnd(text);
    PartStands(body, text, at, from, to);
    TextStands(sections, Strip(body), t, at + from - TextStart(body));
  }

  lemma StandingText(sections: seq<Section>, body: string, p: Place, at: nat)
    requires StandsAt(sections, body, p, at) && Solid(sections, p)
    ensures PlaceIn(sections, p) && Length(p) == |PlaceText(sections, p)| == p.span.hi - p.span.lo
    ensures at + |PlaceText(sections, p)| <= |body| && body[at..at + |PlaceText(sections, p)|] == PlaceText(sections, p)
  {
    hide Strip;
  }

  lemma TextStands(sections: seq<Section>, body: string, p: Place, at: nat)
    requires PlaceIn(sections, p) && at + p.span.hi - p.span.lo <= |body|
    requires body[at..at + p.span.hi - p.span.lo] == PlaceText(sections, p)
    ensures StandsAt(sections, body, p, at)
  {
    hide PlaceIn, PlaceText;
  }

  /** What is inside a text and has no whitespace at its ends is inside the stripped text. */
  lemma PartStands(body: string, text: string, at: nat, from: nat, to: nat)
    requires at + |text| <= |body| && body[at..at + |text|] == text
    requires from < to <= |text| && !IsSpace(text[from]) && !IsSpace(text[to - 1])
    ensures at + from >= TextStart(body) && Strip(body) != []
    ensures var off := at + from - TextStart(body);
            off + to - from <= |Strip(body)| && Strip(body)[off..off + to - from] == text[from..to]
  {
    hide IsSpace, TextStart, TextEnd, Strip;
    SliceOfSlice(body, at, |text|, from, to);
    assert body[at + from] == text[from] && body[at + to - 1] == text[to - 1];
    TextEndsAround(body, at + from, at + to);
    var first, last := TextStart(body), TextEnd(body);
    assert first + (last - first) == last;
    SliceOfSlice(body, first, last - first, at + from - first, at + to - first);
  }

  lemma TextEndsAround(all: string, lo: nat, hi: nat)
    requires lo < hi <= |all| && !IsSpace(all[lo]) && !IsSpace(all[hi - 1])
    ensures TextStart(all) <= lo && hi <= TextEnd(all) && Strip(all) == all[TextStart(all)..TextEnd(all)] != []
  {
    hide IsSpace;
  }

  /** Where a trimmed piece stands once the text around it is stripped. */
  function CutOff(sections: seq<Section>, body: string, p: Place, at: nat): int {
    if PlaceIn(sections, p) then at + TextStart(PlaceText(sections, p)) - TextStart(body) else -1
  }

  lemma StripMarked(sections: seq<Section>, body: string, places: seq<Place>, offsets: seq<nat>)
    returns (r: seq<nat>)
    requires Marked(sections, body, places, offsets) && AllSolid(sections, places)
    ensures Marked(sections, Strip(body), AllTrimmed(sections, places), r)
  {
    hide StandsAt, Solid, Trimmed, Strip, TextStart;
    forall i | 0 <= i < |places|
      ensures PlaceIn(sections, places[i])
      ensures var start := TextStart(PlaceText(sections, places[i]));
              && offsets[i] + start >= TextStart(body)
              && StandsAt(sections, Strip(body), Trimmed(sections, places[i]), offsets[i] + start - TextStart(body))
      ensures CutOff(sections, body, places[i], offsets[i]) >= 0
      ensures var start, t := TextStart(PlaceText(sections, places[i])), Trimmed(sections, places[i]);
              start + Length(t) <= Length(places[i])
    {
      assert Solid(sections, places[i]) && StandsAt(sections, body, places[i], offsets[i]);
      TrimmedStands(sections, body, places[i], offsets[i]);
      TrimmedShorter(sections, places[i]);
    }
    r := seq(|places|, i requires 0 <= i < |places| && CutOff(sections, body, places[i], offsets[i]) >= 0 =>
      CutOff(sections, body, places[i], offsets[i]));
  }

  lemma TrimmedShorter(sections: seq<Section>, p: Place)
    requires Solid(sections, p)
    ensures PlaceIn(sections, p)
    ensures TextStart(PlaceText(sections, p)) + Length(Trimmed(sections, p)) <= Length(p)
  {
    TrimmedIs(sections, p);
    hide IsSpace;
  }

  lemma ChunkMarked(sections: seq<Section>, c: seq<Item>, chunkSize: int) returns (offsets: seq<nat>)
    requires c != [] && ItemsIn(sections, c) && AllSolid(sections, PlacesOf(c))
    ensures Marked(sections, Chunk(sections, c, chunkSize), AllTrimmed(sections, PlacesOf(c)), offsets)
  {
    hide Body, PlacesOf, Marked, Strip, Prefix, AllSolid, ItemsIn, AllTrimmed;
    var o := BodyMarked(sections, c);
    var r := StripMarked(sections, Body(sections, c), PlacesOf(c), o);
    var prefix := Prefix(PathOf(sections, c), chunkSize);
    UnmarkedText(sections, prefix);
    MarkedAppend(sections, prefix, [], [], Strip(Body(sections, c)), AllTrimmed(sections, PlacesOf(c)), r);
    offsets := [] + Shifted(|prefix|, r);
    assert [] + AllTrimmed(sections, PlacesOf(c)) == AllTrimmed(sections, PlacesOf(c));
  }

  // ---- where pieces stand in the chunks ----

  datatype Spot = Spot(chunk: nat, at: nat)

  predicate StandsIn(sections: seq<Section>, result: seq<string>, p: Place, spot: Spot) {
    spot.chunk < |result| && StandsAt(sections, result[spot.chunk], p, spot.at)
  }

  /** A piece at the first spot ends before the second one. */
  predicate Ahead(p: Place, a: Spot, b: Spot) {
    a.chunk < b.chunk || (a.chunk == b.chunk && a.at + Length(p) <= b.at)
  }

  /** Every piece stands at its spot, one behind another through all chunks. */
  predicate Standing(sections: seq<Section>, result: seq<string>, places: seq<Place>, spots: seq<Spot>) {
    && |spots| == |places|
    && (forall i :: 0 <= i < |places| ==> StandsIn(sections, result, places[i], spots[i]))
    && forall i, j :: 0 <= i < j < |places| ==> Ahead(places[i], spots[i], spots[j])
  }

  function SpotsIn(chunk: nat, offsets: seq<nat>): (r: seq<Spot>)
    ensures |r| == |offsets| && forall i :: 0 <= i < |r| ==> r[i] == Spot(chunk, offsets[i])
  {
    seq(|offsets|, i requires 0 <= i < |offsets| => Spot(chunk, offsets[i]))
  }

  lemma StandingAppend(sections: seq<Section>, result: seq<string>, places: seq<Place>, spots: seq<Spot>,
                       chunk: string, more: seq<Place>, offsets: seq<nat>)
    requires Standing(sections, result, places, spots) && Marked(sections, chunk, more, offsets)
    ensures Standing(sections, result + [chunk], places + more, spots + SpotsIn(|result|, offsets))
  {
    hide StandsAt;
    var all, r, s := places + more, result + [chunk], spots + SpotsIn(|result|, offsets);
    forall i | 0 <= i < |all|
      ensures StandsIn(sections, r, all[i], s[i])
    {
      if i < |places| {
        assert StandsIn(sections, result, places[i], spots[i]);
      }
    }
    forall i, j | 0 <= i < j < |all|
      ensures Ahead(all[i], s[i], s[j])
    {
      if i < |places| {
        assert StandsIn(sections, result, places[i], spots[i]);
        assert j < |places| ==> Ahead(places[i], spots[i], spots[j]);
      }
    }
  }

  lemma {:induction false} ChunksStanding(sections: seq<Section>, chunks: seq<seq<Item>>, chunkSize: int)
    returns (spots: seq<Spot>)
    requires AllRuns(sections, chunks, chunkSize) && AllSolid(sections, PlacesOf(Flatten(chunks)))
    ensures Standing(sections, Rendered(sections, chunks, chunkSize),
                     AllTrimmed(sections, PlacesOf(Flatten(chunks))), spots)
    decreases |chunks|
  {
    hide *;
    if chunks == [] {
      NoChunks(sections, chunkSize);
      spots := [];
    } else {
      var n := |chunks| - 1;
      var init, c := chunks[..n], chunks[n];
      assert chunks == init + [c];
      LastChunk(sections, init, c, chunkSize);
      var before := ChunksStanding(sections, init, chunkSize);
      var offsets := ChunkMarked(sections, c, chunkSize);
      StandingAppend(sections, Rendered(sections, init, chunkSize),
                     AllTrimmed(sections, PlacesOf(Flatten(init))), before,
                     Chunk(sections, c, chunkSize), AllTrimmed(sections, PlacesOf(c)), offsets);
      spots := before + SpotsIn(|Rendered(sections, init, chunkSize)|, offsets);
    }
  }

  lemma NoChunks(sections: seq<Section>, chunkSize: int)
    ensures Standing(sections, Rendered(sections, [], chunkSize), AllTrimmed(sections, PlacesOf(Flatten([]))), [])
  {
    assert Flatten<Item>([]) == [] && PlacesOf([]) == [];
  }

  lemma LastChunk(sections: seq<Section>, init: seq<seq<Item>>, c: seq<Item>, chunkSize: int)
    requires AllRuns(sections, init + [c], chunkSize) && AllSolid(sections, PlacesOf(Flatten(init + [c])))
    ensures AllRuns(sections, init, chunkSize) && AllSolid(sections, PlacesOf(Flatten(init)))
    ensures c != [] && ItemsIn(sections, c) && AllSolid(sections, PlacesOf(c))
    ensures Rendered(sections, init + [c], chunkSize)
         == Rendered(sections, init, chunkSize) + [Chunk(sections, c, chunkSize)]
    ensures AllTrimmed(sections, PlacesOf(Flatten(init + [c])))
         == AllTrimmed(sections, PlacesOf(Flatten(init))) + AllTrimmed(sections, PlacesOf(c))
  {
    hide *;
    RunsBut(sections, init, c, chunkSize);
    RunIsIn(sections, c, chunkSize);
    RenderedOneMore(sections, init, c, chunkSize);
    FlattenAppend(init, c);
    PlacesAppend(Flatten(init), c);
    TrimmedAppend(sections, PlacesOf(Flatten(init)), PlacesOf(c));
  }

  lemma RenderedOneMore(sections: seq<Section>, init: seq<seq<Item>>, c: seq<Item>, chunkSize: int)
    requires AllRuns(sections, init, chunkSize) && AllRuns(sections, init + [c], chunkSize)
    requires c != [] && ItemsIn(sections, c)
    ensures Rendered(sections, init + [c], chunkSize)
         == Rendered(sections, init, chunkSize) + [Chunk(sections, c, chunkSize)]
  {
    hide IsRun, Chunk, ItemsIn;
  }

  lemma TrimmedAppend(sections: seq<Section>, a: seq<Place>, b: seq<Place>)
    requires AllSolid(sections, a + b)
    ensures AllSolid(sections, a) && AllSolid(sections, b)
    ensures AllTrimmed(sections, a + b) == AllTrimmed(sections, a) + AllTrimmed(sections, b)
  {
    hide Solid, Trimmed;
    assert forall i :: 0 <= i < |a| ==> (a + b)[i] == a[i];
    assert forall i :: 0 <= i < |b| ==> (a + b)[|a| + i] == b[i];
  }

  lemma {:induction false} ItemsSolid(sections: seq<Section>, items: seq<Item>, chunkSize: int)
    requires ItemsOk(sections, items, chunkSize)
    ensures AllSolid(sections, PlacesOf(items))
  {
    hide PieceOk, ItemOk, Solid;
    if items != [] {
      var n := |items| - 1;
      ItemsSolid(sections, items[..n], chunkSize);
      ItemSolid(sections, items[n], chunkSize);
    }
  }

  lemma ItemSolid(sections: seq<Section>, t: Item, chunkSize: int)
    requires ItemOk(sections, t, chunkSize)
    ensures AllSolid(sections, InSection(t.section, t.group))
  {
    hide Budget, Fits, Strip, IsAtomic;
  }

  /**
   Every piece of the parsed sections stands in the chunks at a place of its own: in document order, one
   behind another, whole but for the whitespace around it.
   */
  lemma PiecesStand(result: seq<string>, sections: seq<Section>, chunkSize: int, overlap: int)
    returns (spots: seq<Spot>)
    requires NoBlankBlocks(sections) && AreChunks(result, sections, chunkSize, overlap)
    ensures Standing(sections, result, Pieces(sections, chunkSize, overlap), spots)
    ensures AllSolid(sections, Places(sections, |sections|, chunkSize, overlap))
  {
    hide NoBlankBlocks, AllItems, IsRun, Flatten, Rendered, ItemsOk, ApartAt, Standing, AllSolid, PlacesOf, Places,
         AllTrimmed;
    var items, chunks :| AllItems(sections, |sections|, items, chunkSize, overlap)
      && IsMerging(sections, chunks, items, chunkSize) && result == Rendered(sections, chunks, chunkSize);
    AllItemsOk(sections, |sections|, items, chunkSize, overlap);
    ItemsSolid(sections, items, chunkSize);
    ItemsFollowDocument(sections, |sections|, items, chunkSize, overlap);
    spots := ChunksStanding(sections, chunks, chunkSize);
  }

  // ---- nothing is lost ----

  predicate PlaceNotAfter(a: Place, b: Place) {
    a.section < b.section || (a.section == b.section && NotAfter(a.span, b.span))
  }

  predicate InDocumentOrder(places: seq<Place>) {
    forall i, j :: 0 <= i < j < |places| ==> PlaceNotAfter(places[i], places[j])
  }

  /** From `shift` on the first text reads as the second one, as far as both go. */
  ghost predicate Overlaid(s: string, t: string, shift: nat) {
    forall x :: shift <= x < |s| && x - shift < |t| ==> s[x] == t[x - shift]
  }

  /** Where two texts overlap, the later one does not start before the earlier one. */
  lemma StartsLater(s: string, t: string, shift: nat)
    requires Strip(s) != [] && Strip(t) != [] && Overlaid(s, t, shift)
    ensures TextStart(s) <= shift + TextStart(t)
  {
    hide IsSpace;
    var j := TextStart(t);
    assert shift + j < |s| ==> s[shift + j] == t[(shift + j) - shift];
  }

  lemma EndsLater(s: string, t: string, shift: nat)
    requires Strip(s) != [] && Strip(t) != [] && |s| <= shift + |t| && Overlaid(s, t, shift)
    ensures TextEnd(s) <= shift + TextEnd(t)
  {
    hide IsSpace;
    var k := TextEnd(s);
    assert k > shift ==> s[k - 1] == t[k - 1 - shift];
  }

  lemma SlicesOverlaid(block: string, a: Span, b: Span)
    requires a.lo < a.hi <= |block| && b.lo < b.hi <= |block| && a.lo <= b.lo && a.hi <= b.hi
    ensures Overlaid(block[a.lo..a.hi], block[b.lo..b.hi], b.lo - a.lo)
  {
  }

  lemma FirstTextLater(block: string, a: Span, b: Span)
    requires a.lo < a.hi <= |block| && b.lo < b.hi <= |block| && a.lo <= b.lo && a.hi <= b.hi
    requires Strip(block[a.lo..a.hi]) != [] && Strip(block[b.lo..b.hi]) != []
    ensures a.lo + TextStart(block[a.lo..a.hi]) <= b.lo + TextStart(block[b.lo..b.hi])
    ensures a.lo + TextEnd(block[a.lo..a.hi]) <= b.lo + TextEnd(block[b.lo..b.hi])
  {
    hide *;
    var s, t := block[a.lo..a.hi], block[b.lo..b.hi];
    SlicesOverlaid(block, a, b);
    StartsLater(s, t, b.lo - a.lo);
    EndsLater(s, t, b.lo - a.lo);
  }

  lemma TrimmedNotAfter(sections: seq<Section>, a: Place, b: Place)
    requires Solid(sections, a) && Solid(sections, b) && PlaceNotAfter(a, b)
    ensures PlaceNotAfter(Trimmed(sections, a), Trimmed(sections, b))
  {
    TrimmedIs(sections, a);
    TrimmedIs(sections, b);
    hide Strip, TextStart, TextEnd, Trimmed;
    if a.section == b.section && a.span.block == b.span.block {
      FirstTextLater(sections[a.section].blocks[a.span.block], a.span, b.span);
    }
  }

  lemma PiecesInOrder(sections: seq<Section>, chunkSize: int, overlap: int)
    requires AllSolid(sections, Places(sections, |sections|, chunkSize, overlap))
    ensures InDocumentOrder(Pieces(sections, chunkSize, overlap))
  {
    hide Places, Solid, Trimmed, NotAfter;
    var places := Places(sections, |sections|, chunkSize, overlap);
    forall i, j | 0 <= i < j < |places|
      ensures PlaceNotAfter(Trimmed(sections, places[i]), Trimmed(sections, places[j]))
    {
      DocumentOrder(sections, |sections|, chunkSize, overlap, i, j);
      TrimmedNotAfter(sections, places[i], places[j]);
    }
  }

  predicate IsInPlace(p: Place, k: nat, b: nat, c: nat) {
    p.section == k && p.span.block == b && p.span.lo <= c < p.span.hi
  }

  ghost predicate Covered(places: seq<Place>, k: nat, b: nat, c: nat) {
    exists i :: 0 <= i < |places| && IsInPlace(places[i], k, b, c)
  }

  /** Every character that is not whitespace lies in one of these pieces. */
  ghost predicate CoversText(sections: seq<Section>, places: seq<Place>) {
    forall k, b, c ::
      (0 <= k < |sections| && 0 <= b < |sections[k].blocks| && 0 <= c < |sections[k].blocks[b]|
       && !IsSpace(sections[k].blocks[b][c])) ==> Covered(places, k, b, c)
  }

  /**
   No text is lost: some pieces of the sections' blocks hold every character that is not whitespace, and
   stand in the chunks in document order, each at a spot of its own.
   */
  ghost predicate KeepsText(result: seq<string>, sections: seq<Section>) {
    exists places, spots ::
      Standing(sections, result, places, spots) && InDocumentOrder(places) && CoversText(sections, places)
  }

  lemma {:induction false} SpanOfBlock(blocks: seq<string>, n: nat, b: nat, s: Span, budget: nat, overlap: int)
    requires budget >= 1 && b < n <= |blocks| && s in BlockSpans(blocks[b], b, budget, overlap)
    ensures s in SpansOf(blocks, n, budget, overlap)
  {
    hide BlockSpans;
    if b < n - 1 {
      SpanOfBlock(blocks, n - 1, b, s, budget, overlap);
    }
  }

  lemma SpanFor(sections: seq<Section>, k: nat, b: nat, p: nat, chunkSize: int, overlap: int) returns (s: Span)
    requires overlap >= 0
    requires k < |sections| && b < |sections[k].blocks| && p < |sections[k].blocks[b]|
    requires !IsSpace(sections[k].blocks[b][p])
    ensures s in SectionSpans(sections[k], chunkSize, overlap)
    ensures s.block == b && s.lo <= p < s.hi <= |sections[k].blocks[b]|
  {
    hide IsSpace, IsAtomic, Budget, Windows;
    var blocks, budget := sections[k].blocks, Budget(sections[k].path, chunkSize);
    if |blocks[b]| <= budget || IsAtomic(blocks[b]) {
      s := Span(b, 0, |blocks[b]|);
    } else {
      var step := Step(budget, overlap);
      WindowsCover(blocks[b], b, budget, step, 0, p);
      s :| s in Windows(blocks[b], b, budget, step, 0) && s.lo <= p < s.hi;
      WindowsAreTrimmed(blocks[b], b, budget, step, 0);
    }
    SpanOfBlock(blocks, |blocks|, b, s, budget, overlap);
  }

  lemma {:induction false} SpanInPlaces(sections: seq<Section>, n: nat, k: nat, s: Span, chunkSize: int, overlap: int)
    requires k < n <= |sections| && s in SectionSpans(sections[k], chunkSize, overlap)
    ensures Place(k, s) in Places(sections, n, chunkSize, overlap)
  {
    hide SectionSpans;
    if k == n - 1 {
      var spans := SectionSpans(sections[k], chunkSize, overlap);
      var i :| 0 <= i < |spans| && spans[i] == s;
      assert InSection(k, spans)[i] == Place(k, s);
    } else {
      SpanInPlaces(sections, n - 1, k, s, chunkSize, overlap);
    }
  }

  lemma TrimmedCovers(sections: seq<Section>, p: Place, c: nat)
    requires Solid(sections, p) && p.span.lo <= c < p.span.hi
    requires !IsSpace(sections[p.section].blocks[p.span.block][c])
    ensures IsInPlace(Trimmed(sections, p), p.section, p.span.block, c)
  {
    TrimmedIs(sections, p);
    hide IsSpace, Trimmed;
    var text := PlaceText(sections, p);
    assert text[c - p.span.lo] == sections[p.section].blocks[p.span.block][c];
  }

  lemma PiecesCoverText(sections: seq<Section>, chunkSize: int, overlap: int)
    requires overlap >= 0 && AllSolid(sections, Places(sections, |sections|, chunkSize, overlap))
    ensures CoversText(sections, Pieces(sections, chunkSize, overlap))
  {
    hide Places, Solid, Trimmed, SectionSpans, IsSpace, IsInPlace;
    var places := Places(sections, |sections|, chunkSize, overlap);
    forall k, b, c |
      0 <= k < |sections| && 0 <= b < |sections[k].blocks| && 0 <= c < |sections[k].blocks[b]|
      && !IsSpace(sections[k].blocks[b][c])
      ensures Covered(Pieces(sections, chunkSize, overlap), k, b, c)
    {
      var s := SpanFor(sections, k, b, c, chunkSize, overlap);
      SpanInPlaces(sections, |sections|, k, s, chunkSize, overlap);
      var i :| 0 <= i < |places| && places[i] == Place(k, s);
      assert Solid(sections, places[i]);
      TrimmedCovers(sections, places[i], c);
      assert IsInPlace(Pieces(sections, chunkSize, overlap)[i], k, b, c);
    }
  }

  /** With a non-negative overlap no text of a document is lost. */
  lemma NothingLost(result: seq<string>, lines: seq<string>, chunkSize: int, overlap: int)
    requires overlap >= 0 && IsDocument(lines) && AreChunks(result, SectionsOf(lines), chunkSize, overlap)
    ensures KeepsText(result, SectionsOf(lines))
  {
    hide *;
    var sections := SectionsOf(lines);
    DocumentNotBlank(lines);
    var spots := PiecesStand(result, sections, chunkSize, overlap);
    PiecesInOrder(sections, chunkSize, overlap);
    PiecesCoverText(sections, chunkSize, overlap);
    TextKept(result, sections, Pieces(sections, chunkSize, overlap), spots);
  }

  lemma TextKept(result: seq<string>, sections: seq<Section>, places: seq<Place>, spots: seq<Spot>)
    requires Standing(sections, result, places, spots) && InDocumentOrder(places) && CoversText(sections, places)
    ensures KeepsText(result, sections)
  {
    hide Standing, InDocumentOrder, CoversText;
  }

  /** No document loses text exactly when the overlap is not negative, whatever the chunk size. */
  lemma NothingLostIff(chunkSize: int, overlap: int)
    ensures (forall result, lines ::
               IsDocument(lines) && AreChunks(result, SectionsOf(lines), chunkSize, overlap) ==>
                 KeepsText(result, SectionsOf(lines)))
            <==> overlap >= 0
  {
    hide *;
    if overlap >= 0 {
      forall result, lines | IsDocument(lines) && AreChunks(result, SectionsOf(lines), chunkSize, overlap)
        ensures KeepsText(result, SectionsOf(lines))
      {
        NothingLost(result, lines, chunkSize, overlap);
      }
    } else {
      var result, lines := LetterLost(chunkSize, overlap);
    }
  }

  /** With a negative overlap the windows of a line one longer than the budget leave its last letter out. */
  lemma LetterLost(chunkSize: int, overlap: int) returns (result: seq<string>, lines: seq<string>)
    requires overlap < 0
    ensures IsDocument(lines) && AreChunks(result, SectionsOf(lines), chunkSize, overlap)
    ensures !KeepsText(result, SectionsOf(lines))
  {
    hide AreChunks, KeepsText, SectionsOf, FenceMarker, HeadingOf, IsTableRow, IsBlank, Tight, Strip;
    hide TextStart, TextEnd, BlockSpans;
    var budget := Budget([], chunkSize);
    var line := seq(budget, _ => 'a') + ['b'];
    lines := [line];
    LetterLine(budget, 'b');
    OneLine(line);
    OneWindow(line, budget, overlap);
    result := OnePiece([Section([], [], [line])], line, Span(0, 0, budget), chunkSize, overlap);
    LettersStrip(line, budget);
    assert Prefix([], chunkSize) + seq(budget, _ => 'a') == seq(budget, _ => 'a');
    NoSuchLetter(result, line, budget);
  }

  lemma OneWindow(line: string, budget: nat, overlap: int)
    requires budget >= 1 && overlap < 0 && line == seq(budget, _ => 'a') + ['b']
    requires FenceMarker(line).None? && !IsTableRow(line) && '\n' !in line
    ensures BlockSpans(line, 0, budget, overlap) == [Span(0, 0, budget)]
  {
    LettersStrip(line, budget);
    WholeFirstLine(line);
    hide FenceMarker, IsTableRow, Strip, TextStart, TextEnd, FirstLine;
    var step := Step(budget, overlap);
    assert step > budget;
    assert Window(line, 0, budget, 0) == [Span(0, 0, budget)];
    assert Windows(line, 0, budget, step, step) == [];
    assert [Span(0, 0, budget)] + [] == [Span(0, 0, budget)];
  }

  lemma WholeFirstLine(line: string)
    requires '\n' !in line
    ensures FirstLine(line) == line
  {
    FirstLineOfPrefix(line, line);
  }

  lemma LettersStrip(line: string, n: nat)
    requires n >= 1 && line == seq(n, _ => 'a') + ['b']
    ensures var s := line[0..n];
            s == seq(n, _ => 'a') && Strip(s) == s && TextStart(s) == 0 && TextEnd(s) == n
  {
    var s := line[0..n];
    assert s == seq(n, _ => 'a');
    NotSpace();
    StripTight(s);
  }

  /** A letter that no chunk has is lost. */
  lemma NoSuchLetter(result: seq<string>, line: string, n: nat)
    requires line == seq(n, _ => 'a') + ['b'] && result == [seq(n, _ => 'a')]
    ensures !KeepsText(result, [Section([], [], [line])])
  {
    hide Standing, InDocumentOrder, CoversText;
    var sections := [Section([], [], [line])];
    forall places, spots | Standing(sections, result, places, spots)
      ensures !CoversText(sections, places)
    {
      LetterInNone(sections, result, places, spots, line, n);
      if CoversText(sections, places) {
        LetterCovered(sections, places, line, n);
      }
    }
  }

  lemma LetterInNone(sections: seq<Section>, result: seq<string>, places: seq<Place>, spots: seq<Spot>,
                     line: string, n: nat)
    requires sections == [Section([], [], [line])] && line == seq(n, _ => 'a') + ['b']
    requires result == [seq(n, _ => 'a')] && Standing(sections, result, places, spots)
    ensures !Covered(places, 0, 0, n)
  {
    hide Standing;
    forall i | 0 <= i < |places|
      ensures !IsInPlace(places[i], 0, 0, n)
    {
      if IsInPlace(places[i], 0, 0, n) {
        LetterStands(sections, result, places, spots, i, n);
        NoLetter(result, spots[i].chunk, n);
      }
    }
  }

  lemma NoLetter(result: seq<string>, c: nat, n: nat)
    requires result == [seq(n, _ => 'a')] && c < |result|
    ensures 'b' !in result[c]
  {
  }

  lemma LetterCovered(sections: seq<Section>, places: seq<Place>, line: string, n: nat)
    requires sections == [Section([], [], [line])] && line == seq(n, _ => 'a') + ['b']
    requires CoversText(sections, places)
    ensures Covered(places, 0, 0, n)
  {
    assert sections[0].blocks[0][n] == 'b' && !IsSpace('b');
  }

  /** A character of a standing piece stands in a chunk. */
  lemma LetterStands(sections: seq<Section>, result: seq<string>, places: seq<Place>, spots: seq<Spot>, i: nat, c: nat)
    requires Standing(sections, result, places, spots) && i < |places|
    requires places[i].span.lo <= c < places[i].span.hi
    ensures i < |spots| && PlaceIn(sections, places[i]) && spots[i].chunk < |result|
    ensures sections[places[i].section].blocks[places[i].span.block][c] in result[spots[i].chunk]
  {
    assert StandsIn(sections, result, places[i], spots[i]);
    var p, spot := places[i], spots[i];
    var chunk := result[spot.chunk];
    assert chunk[spot.at..spot.at + Length(p)][c - p.span.lo] == PlaceText(sections, p)[c - p.span.lo];
    assert chunk[spot.at + c - p.span.lo] == sections[p.section].blocks[p.span.block][c];
  }

  // ---- fences and tables ----

  lemma WholeSpan(sections: seq<Section>, k: nat, b: nat, chunkSize: int, overlap: int)
    requires k < |sections| && b < |sections[k].blocks| && IsAtomic(sections[k].blocks[b])
    ensures Span(b, 0, |sections[k].blocks[b]|) in SectionSpans(sections[k], chunkSize, overlap)
  {
    hide IsAtomic, Budget;
    var blocks, budget := sections[k].blocks, Budget(sections[k].path, chunkSize);
    SpanOfBlock(blocks, |blocks|, b, Span(b, 0, |blocks[b]|), budget, overlap);
  }

  /** The text of a block as one piece. */
  function WholeBlock(sections: seq<Section>, k: nat, b: nat): Place
    requires k < |sections| && b < |sections[k].blocks|
  {
    Trimmed(sections, Place(k, Span(b, 0, |sections[k].blocks[b]|)))
  }

  /** Every fence and every table of the document is one of these pieces, whole. */
  ghost predicate HasWholeBlocks(lines: seq<string>, places: seq<Place>) {
    forall k, b ::
      0 <= k <= |Headings(lines)| && 0 <= b < |Blocks(lines)[k]| && Blocks(lines)[k][b].kind != Paragraph ==>
        k < |SectionsOf(lines)| && b < |SectionsOf(lines)[k].blocks| && WholeBlock(SectionsOf(lines), k, b) in places
  }

  /** Fences and tables are never cut: each stands whole in one chunk, in order and at a spot of its own. */
  ghost predicate KeepsBlocks(result: seq<string>, lines: seq<string>) {
    exists places, spots ::
      && Standing(SectionsOf(lines), result, places, spots) && InDocumentOrder(places)
      && HasWholeBlocks(lines, places)
  }

  lemma BlockIsPiece(lines: seq<string>, k: nat, b: nat, chunkSize: int, overlap: int)
    requires IsDocument(lines) && k <= |Headings(lines)| && b < |Blocks(lines)[k]|
    requires Blocks(lines)[k][b].kind != Paragraph
    ensures k < |SectionsOf(lines)| && b < |SectionsOf(lines)[k].blocks|
    ensures WholeBlock(SectionsOf(lines), k, b) in Pieces(SectionsOf(lines), chunkSize, overlap)
  {
    hide Headings, Blocks, Open, Titles, Strip, Join, IsAtomic, Places, Trimmed, SectionSpans;
    var sections := SectionsOf(lines);
    var block := Blocks(lines)[k][b];
    BlocksAreOk(lines, k);
    AtomicIffNotParagraph(block);
    assert sections[k].blocks[b] == Join(block.lines, "\n");
    WholeSpan(sections, k, b, chunkSize, overlap);
    var s := Span(b, 0, |sections[k].blocks[b]|);
    SpanInPlaces(sections, |sections|, k, s, chunkSize, overlap);
    var places := Places(sections, |sections|, chunkSize, overlap);
    var i :| 0 <= i < |places| && places[i] == Place(k, s);
    assert Pieces(sections, chunkSize, overlap)[i] == WholeBlock(sections, k, b);
  }

  lemma AtomicBlocksWhole(result: seq<string>, lines: seq<string>, chunkSize: int, overlap: int)
    requires IsDocument(lines) && AreChunks(result, SectionsOf(lines), chunkSize, overlap)
    ensures KeepsBlocks(result, lines)
  {
    hide *;
    var sections := SectionsOf(lines);
    DocumentNotBlank(lines);
    var spots := PiecesStand(result, sections, chunkSize, overlap);
    PiecesInOrder(sections, chunkSize, overlap);
    BlocksArePieces(lines, chunkSize, overlap);
    BlocksKept(result, lines, Pieces(sections, chunkSize, overlap), spots);
  }

  lemma BlocksArePieces(lines: seq<string>, chunkSize: int, overlap: int)
    requires IsDocument(lines)
    ensures HasWholeBlocks(lines, Pieces(SectionsOf(lines), chunkSize, overlap))
  {
    hide Headings, Blocks, SectionsOf, Pieces, IsDocument, WholeBlock;
    forall k, b |
      0 <= k <= |Headings(lines)| && 0 <= b < |Blocks(lines)[k]| && Blocks(lines)[k][b].kind != Paragraph
      ensures k < |SectionsOf(lines)| && b < |SectionsOf(lines)[k].blocks|
      ensures WholeBlock(SectionsOf(lines), k, b) in Pieces(SectionsOf(lines), chunkSize, overlap)
    {
      BlockIsPiece(lines, k, b, chunkSize, overlap);
    }
  }

  lemma BlocksKept(result: seq<string>, lines: seq<string>, places: seq<Place>, spots: seq<Spot>)
    requires Standing(SectionsOf(lines), result, places, spots) && InDocumentOrder(places)
    requires HasWholeBlocks(lines, places)
    ensures KeepsBlocks(result, lines)
  {
    hide Standing, InDocumentOrder, HasWholeBlocks;
  }
}
