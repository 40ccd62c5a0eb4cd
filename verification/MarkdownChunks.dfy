/**
 The heading-aware chunker: sections are packed, tiny sections are merged into the one that follows,
 and every chunk gets its heading path as a first line. A chunk is tracked as the run of packed texts
 it was assembled from.
 */
module MarkdownChunks {
  import opened Common
  import opened MarkdownText
  import opened MarkdownDocument
  import opened MarkdownSections
  import opened MarkdownPacking

  const ELLIPSIS: char := '\U{2026}'

  function LabelLimit(chunkSize: int): (limit: nat)
    ensures limit >= 8
  {
    Max(chunkSize / 4, 8)
  }

  /** The `[A > B]` line in front of a chunk, its label cut from the left when too long. */
  function Prefix(path: seq<string>, chunkSize: int): (r: string)
    ensures |r| <= LabelLimit(chunkSize) + 3
  {
    if path == [] then ""
    else
      var titles := Join(path, " > ");
      var limit := LabelLimit(chunkSize);
      var shown := if |titles| > limit then [ELLIPSIS] + titles[|titles| - (limit - 1)..] else titles;
      "[" + shown + "]\n"
  }

  function Budget(path: seq<string>, chunkSize: int): (b: nat)
    ensures b >= 1
  {
    Max(chunkSize - |Prefix(path, chunkSize)|, 1)
  }

  /** A prefix always leaves room for text exactly when the chunk size is at least twelve. */
  lemma RoomBesidePrefix(chunkSize: int)
    ensures (forall path :: |Prefix(path, chunkSize)| + Budget(path, chunkSize) <= chunkSize) <==> chunkSize >= 12
  {
    if chunkSize < 12 {
      var path := ["abcdefgh"];
      assert Join(path, " > ") == "abcdefgh";
      assert |Prefix(path, chunkSize)| == 11;
    }
  }

  /** A body of one character is always allowed, and a longer one exactly when it fits beside the prefix. */
  lemma BudgetIs(path: seq<string>, chunkSize: int, n: int)
    ensures n <= Budget(path, chunkSize) <==> n <= 1 || |Prefix(path, chunkSize)| + n <= chunkSize
  {
  }

  // ---- the texts to be chunked ----

  /** The pieces of a section, cut for the budget its own path leaves. */
  function SectionSpans(s: Section, chunkSize: int, overlap: int): seq<Span> {
    SpansOf(s.blocks, |s.blocks|, Budget(s.path, chunkSize), overlap)
  }

  /** A packed text: its section, its pieces, and whether its section has no other text. */
  datatype Item = Item(section: nat, group: seq<Span>, lone: bool)

  predicate ItemIn(sections: seq<Section>, t: Item) {
    t.section < |sections| && t.group != [] && AllIn(sections[t.section].blocks, t.group)
  }

  predicate ItemsIn(sections: seq<Section>, items: seq<Item>) {
    forall i :: 0 <= i < |items| ==> ItemIn(sections, items[i])
  }

  function Words(sections: seq<Section>, t: Item): string
    requires ItemIn(sections, t)
  {
    Join(Texts(sections[t.section].blocks, t.group), BLANK_LINE)
  }

  function GroupsOf(items: seq<Item>): (g: seq<seq<Span>>)
    ensures |g| == |items| && forall i :: 0 <= i < |g| ==> g[i] == items[i].group
  {
    seq(|items|, i requires 0 <= i < |items| => items[i].group)
  }

  /** The texts of section k: its packed pieces. */
  ghost predicate SectionItems(sections: seq<Section>, k: nat, items: seq<Item>, chunkSize: int, overlap: int)
    requires k < |sections|
  {
    && ItemsIn(sections, items)
    && (forall i :: 0 <= i < |items| ==> items[i].section == k && items[i].lone == (|items| == 1))
    && IsCut(sections[k].blocks, GroupsOf(items), Budget(sections[k].path, chunkSize), overlap)
  }

  /** The texts of the first n sections, in document order. */
  ghost predicate AllItems(sections: seq<Section>, n: nat, items: seq<Item>, chunkSize: int, overlap: int)
    requires n <= |sections|
  {
    if n == 0 then items == []
    else exists m :: 0 <= m <= |items| && AllItems(sections, n - 1, items[..m], chunkSize, overlap)
                     && SectionItems(sections, n - 1, items[m..], chunkSize, overlap)
  }

  lemma SectionItemsOnce(sections: seq<Section>, k: nat, a: seq<Item>, b: seq<Item>, chunkSize: int, overlap: int)
    requires k < |sections|
    requires SectionItems(sections, k, a, chunkSize, overlap) && SectionItems(sections, k, b, chunkSize, overlap)
    ensures a == b
  {
    hide IsCut, Budget, ItemIn;
    CutOnce(sections[k].blocks, GroupsOf(a), GroupsOf(b), Budget(sections[k].path, chunkSize), overlap);
    assert forall i :: 0 <= i < |a| ==> GroupsOf(a)[i] == GroupsOf(b)[i];
  }

  lemma {:induction false} AllItemsOnce(sections: seq<Section>, n: nat, a: seq<Item>, b: seq<Item>, chunkSize: int,
                                        overlap: int)
    requires n <= |sections|
    requires AllItems(sections, n, a, chunkSize, overlap) && AllItems(sections, n, b, chunkSize, overlap)
    ensures a == b
  {
    hide *;
    if n > 0 {
      var m := LastSectionItems(sections, n, a, chunkSize, overlap);
      var l := LastSectionItems(sections, n, b, chunkSize, overlap);
      AllItemsOnce(sections, n - 1, a[..m], b[..l], chunkSize, overlap);
      SectionItemsOnce(sections, n - 1, a[m..], b[l..], chunkSize, overlap);
      assert a == a[..m] + a[m..] && b == b[..l] + b[l..];
    } else {
      NoItems(sections, a, chunkSize, overlap);
      NoItems(sections, b, chunkSize, overlap);
    }
  }

  lemma LastSectionItems(sections: seq<Section>, n: nat, items: seq<Item>, chunkSize: int, overlap: int)
    returns (m: nat)
    requires 0 < n <= |sections| && AllItems(sections, n, items, chunkSize, overlap)
    ensures m <= |items| && AllItems(sections, n - 1, items[..m], chunkSize, overlap)
    ensures SectionItems(sections, n - 1, items[m..], chunkSize, overlap)
  {
    hide SectionItems;
    m :| 0 <= m <= |items| && AllItems(sections, n - 1, items[..m], chunkSize, overlap)
         && SectionItems(sections, n - 1, items[m..], chunkSize, overlap);
  }

  lemma NoItems(sections: seq<Section>, items: seq<Item>, chunkSize: int, overlap: int)
    ensures AllItems(sections, 0, items, chunkSize, overlap) <==> items == []
  {
  }

  lemma MoreItems(sections: seq<Section>, k: nat, items: seq<Item>, more: seq<Item>, chunkSize: int, overlap: int)
    requires k < |sections| && AllItems(sections, k, items, chunkSize, overlap)
    requires SectionItems(sections, k, more, chunkSize, overlap)
    ensures AllItems(sections, k + 1, items + more, chunkSize, overlap)
  {
    hide SectionItems;
    var all := items + more;
    assert all[..|items|] == items && all[|items|..] == more;
  }

  // ---- what a chunk is ----

  /** What stands between a tiny section and the one merged onto it. */
  function SectionLead(s: Section): string {
    if s.headingLine != [] then BLANK_LINE + s.headingLine + "\n" else BLANK_LINE
  }

  function Body(sections: seq<Section>, c: seq<Item>): string
    requires c != [] && ItemsIn(sections, c)
  {
    var n := |c| - 1;
    if n == 0 then Words(sections, c[0])
    else Body(sections, c[..n]) + SectionLead(sections[c[n].section]) + Words(sections, c[n])
  }

  function PathOf(sections: seq<Section>, c: seq<Item>): seq<string>
    requires c != [] && ItemsIn(sections, c)
  {
    sections[c[0].section].path
  }

  /** Short, and ending with a section's only text: held back for the next text. */
  predicate IsTiny(sections: seq<Section>, c: seq<Item>, chunkSize: int)
    requires c != [] && ItemsIn(sections, c)
  {
    c[|c| - 1].lone && |Body(sections, c)| < chunkSize / 4
  }

  predicate Takes(sections: seq<Section>, c: seq<Item>, t: Item, chunkSize: int)
    requires c != [] && ItemsIn(sections, c) && ItemIn(sections, t)
  {
    |Body(sections, c) + SectionLead(sections[t.section]) + Words(sections, t)|
      <= Budget(PathOf(sections, c), chunkSize)
  }

  predicate JoinsAt(sections: seq<Section>, c: seq<Item>, j: nat, chunkSize: int)
    requires ItemsIn(sections, c) && 0 < j < |c|
  {
    IsTiny(sections, c[..j], chunkSize) && Takes(sections, c[..j], c[j], chunkSize)
  }

  /** A run of texts that belong in one chunk: each later one joins a tiny run that takes it. */
  predicate IsRun(sections: seq<Section>, c: seq<Item>, chunkSize: int) {
    c != [] && ItemsIn(sections, c) && forall j :: 0 < j < |c| ==> JoinsAt(sections, c, j, chunkSize)
  }

  /** Two chunks in a row that had to stay apart. */
  predicate Apart(sections: seq<Section>, c: seq<Item>, d: seq<Item>, chunkSize: int)
    requires IsRun(sections, c, chunkSize) && IsRun(sections, d, chunkSize)
  {
    IsTiny(sections, c, chunkSize) ==> !Takes(sections, c, d[0], chunkSize)
  }

  predicate AllRuns(sections: seq<Section>, chunks: seq<seq<Item>>, chunkSize: int) {
    forall i :: 0 <= i < |chunks| ==> IsRun(sections, chunks[i], chunkSize)
  }

  predicate ApartAt(sections: seq<Section>, chunks: seq<seq<Item>>, i: nat, chunkSize: int)
    requires AllRuns(sections, chunks, chunkSize) && 0 < i < |chunks|
  {
    Apart(sections, chunks[i - 1], chunks[i], chunkSize)
  }

  /** All these texts, in order, in chunks that merge what may be merged and nothing else. */
  predicate IsMerging(sections: seq<Section>, chunks: seq<seq<Item>>, items: seq<Item>, chunkSize: int) {
    && AllRuns(sections, chunks, chunkSize)
    && Flatten(chunks) == items
    && forall i :: 0 < i < |chunks| ==> ApartAt(sections, chunks, i, chunkSize)
  }

  function Chunk(sections: seq<Section>, c: seq<Item>, chunkSize: int): string
    requires c != [] && ItemsIn(sections, c)
  {
    Prefix(PathOf(sections, c), chunkSize) + Strip(Body(sections, c))
  }

  function Rendered(sections: seq<Section>, chunks: seq<seq<Item>>, chunkSize: int): (r: seq<string>)
    requires AllRuns(sections, chunks, chunkSize)
    ensures |r| == |chunks| && forall i :: 0 <= i < |r| ==>
              IsRun(sections, chunks[i], chunkSize) && r[i] == Chunk(sections, chunks[i], chunkSize)
  {
    seq(|chunks|, i requires 0 <= i < |chunks| && IsRun(sections, chunks[i], chunkSize) =>
      Chunk(sections, chunks[i], chunkSize))
  }

  /** The chunks of parsed sections. */
  ghost predicate AreChunks(result: seq<string>, sections: seq<Section>, chunkSize: int, overlap: int) {
    exists items, chunks ::
      && AllItems(sections, |sections|, items, chunkSize, overlap)
      && IsMerging(sections, chunks, items, chunkSize)
      && result == Rendered(sections, chunks, chunkSize)
  }

  // ---- there is one answer ----

  lemma FirstRunNotShorter(sections: seq<Section>, a: seq<seq<Item>>, b: seq<seq<Item>>, items: seq<Item>,
                           chunkSize: int)
    requires a != [] && b != []
    requires IsMerging(sections, a, items, chunkSize) && IsMerging(sections, b, items, chunkSize)
    ensures |a[0]| >= |b[0]|
  {
    hide IsTiny, Takes, ItemIn;
    if |a[0]| < |b[0]| {
      var n := |a[0]|;
      Split(a[0], Flatten(a[1..]), b[0], Flatten(b[1..]));
      assert b[0][..n] == a[0] && Flatten(a[1..])[0] == b[0][n];
      assert a[1..] != [] && a[1..][0] == a[1];
      assert IsRun(sections, a[1], chunkSize);
      assert a[1][0] == b[0][n] by {
        assert Flatten(a[1..]) == a[1] + Flatten(a[1..][1..]);
      }
      assert ApartAt(sections, a, 1, chunkSize);
      JoinedHere(sections, b[0], a[0], chunkSize);
    }
  }

  lemma JoinedHere(sections: seq<Section>, d: seq<Item>, c: seq<Item>, chunkSize: int)
    requires IsRun(sections, d, chunkSize) && c != [] && |c| < |d| && d[..|c|] == c
    ensures ItemsIn(sections, c) && ItemIn(sections, d[|c|])
    ensures IsTiny(sections, c, chunkSize) && Takes(sections, c, d[|c|], chunkSize)
  {
    hide IsTiny, Takes, ItemIn;
    assert JoinsAt(sections, d, |c|, chunkSize);
  }

  lemma MergingTail(sections: seq<Section>, chunks: seq<seq<Item>>, items: seq<Item>, chunkSize: int)
    requires chunks != [] && IsMerging(sections, chunks, items, chunkSize)
    ensures items == chunks[0] + Flatten(chunks[1..]) && chunks[0] != []
    ensures IsMerging(sections, chunks[1..], Flatten(chunks[1..]), chunkSize)
  {
    assert IsRun(sections, chunks[0], chunkSize);
    hide Apart, IsRun, Flatten;
    var rest := chunks[1..];
    assert forall i :: 0 <= i < |rest| ==> rest[i] == chunks[i + 1];
    forall i | 0 < i < |rest|
      ensures ApartAt(sections, rest, i, chunkSize)
    {
      assert ApartAt(sections, chunks, i + 1, chunkSize);
    }
    FlattenFirst(chunks);
  }

  lemma FlattenFirst<T>(groups: seq<seq<T>>)
    requires groups != []
    ensures Flatten(groups) == groups[0] + Flatten(groups[1..])
  {
  }

  lemma {:induction false} MergingOnce(sections: seq<Section>, a: seq<seq<Item>>, b: seq<seq<Item>>,
                                       items: seq<Item>, chunkSize: int)
    requires IsMerging(sections, a, items, chunkSize) && IsMerging(sections, b, items, chunkSize)
    ensures a == b
  {
    hide AllRuns, ApartAt;
    if a != [] && b != [] {
      FirstRunNotShorter(sections, a, b, items, chunkSize);
      FirstRunNotShorter(sections, b, a, items, chunkSize);
      MergingTail(sections, a, items, chunkSize);
      MergingTail(sections, b, items, chunkSize);
      Split(a[0], Flatten(a[1..]), b[0], Flatten(b[1..]));
      assert a[0] == b[0] && Flatten(a[1..]) == Flatten(b[1..]);
      MergingOnce(sections, a[1..], b[1..], Flatten(a[1..]), chunkSize);
      assert a == [a[0]] + a[1..] && b == [b[0]] + b[1..];
    } else if a != [] {
      MergingTail(sections, a, items, chunkSize);
    } else if b != [] {
      MergingTail(sections, b, items, chunkSize);
    }
  }

  /** Parsed sections have exactly one list of chunks. */
  lemma ChunksOnce(r: seq<string>, s: seq<string>, sections: seq<Section>, chunkSize: int, overlap: int)
    requires AreChunks(r, sections, chunkSize, overlap) && AreChunks(s, sections, chunkSize, overlap)
    ensures r == s
  {
    hide AllItems, IsRun, Flatten, ApartAt;
    var items, chunks :| AllItems(sections, |sections|, items, chunkSize, overlap)
      && IsMerging(sections, chunks, items, chunkSize) && r == Rendered(sections, chunks, chunkSize);
    var items', chunks' :| AllItems(sections, |sections|, items', chunkSize, overlap)
      && IsMerging(sections, chunks', items', chunkSize) && s == Rendered(sections, chunks', chunkSize);
    AllItemsOnce(sections, |sections|, items, items', chunkSize, overlap);
    MergingOnce(sections, chunks, chunks', items, chunkSize);
  }

  // ---- sound texts ----

  /** What the parser never leaves behind: a blank block. */
  predicate NoBlankBlocks(sections: seq<Section>) {
    forall k, b :: 0 <= k < |sections| && 0 <= b < |sections[k].blocks| ==> Strip(sections[k].blocks[b]) != []
  }

  /** A text as the packer makes it: its pieces are sound, and it fits. */
  predicate ItemOk(sections: seq<Section>, t: Item, chunkSize: int) {
    && ItemIn(sections, t)
    && var blocks, budget := sections[t.section].blocks, Budget(sections[t.section].path, chunkSize);
       && (forall i :: 0 <= i < |t.group| ==> PieceOk(blocks, budget, t.group[i]))
       && Fits(Texts(blocks, t.group), budget)
  }

  predicate ItemsOk(sections: seq<Section>, items: seq<Item>, chunkSize: int) {
    forall i :: 0 <= i < |items| ==> ItemOk(sections, items[i], chunkSize)
  }

  lemma {:induction false} ElementOfFlatten<T>(groups: seq<seq<T>>, i: nat, j: nat)
    requires i < |groups| && j < |groups[i]|
    ensures groups[i][j] in Flatten(groups)
  {
    if i > 0 {
      ElementOfFlatten(groups[1..], i - 1, j);
    }
  }

  lemma SectionItemsOk(sections: seq<Section>, k: nat, items: seq<Item>, chunkSize: int, overlap: int)
    requires k < |sections| && NoBlankBlocks(sections)
    requires SectionItems(sections, k, items, chunkSize, overlap)
    ensures ItemsOk(sections, items, chunkSize)
  {
    hide Strip, Budget, PieceOk, Join, SpansOf, Fits, InBlock;
    var blocks, budget := sections[k].blocks, Budget(sections[k].path, chunkSize);
    SpansOfOk(blocks, |blocks|, budget, overlap);
    var groups := GroupsOf(items);
    forall i | 0 <= i < |items|
      ensures ItemOk(sections, items[i], chunkSize)
    {
      assert Fits(GroupTexts(blocks, groups)[i], budget);
      forall j | 0 <= j < |groups[i]|
        ensures PieceOk(blocks, budget, groups[i][j])
      {
        ElementOfFlatten(groups, i, j);
      }
    }
  }

  lemma {:induction false} AllItemsOk(sections: seq<Section>, n: nat, items: seq<Item>, chunkSize: int, overlap: int)
    requires n <= |sections| && NoBlankBlocks(sections) && AllItems(sections, n, items, chunkSize, overlap)
    ensures ItemsOk(sections, items, chunkSize)
  {
    hide AllItems, SectionItems, ItemOk, NoBlankBlocks;
    if n > 0 {
      var m := LastSectionItems(sections, n, items, chunkSize, overlap);
      AllItemsOk(sections, n - 1, items[..m], chunkSize, overlap);
      SectionItemsOk(sections, n - 1, items[m..], chunkSize, overlap);
      assert items == items[..m] + items[m..];
    } else {
      NoItems(sections, items, chunkSize, overlap);
    }
  }

  /** Joining to a text that is not blank keeps it not blank. */
  lemma NotBlankAround(a: string, b: string)
    ensures Strip(a) != [] || Strip(b) != [] ==> Strip(a + b) != []
  {
    if Strip(a) != [] {
      var i :| 0 <= i < |a| && !IsSpace(a[i]);
      assert (a + b)[i] == a[i];
    } else if Strip(b) != [] {
      var i :| 0 <= i < |b| && !IsSpace(b[i]);
      assert (a + b)[|a| + i] == b[i];
    }
  }

  lemma WordsNotBlank(sections: seq<Section>, t: Item, chunkSize: int)
    requires ItemOk(sections, t, chunkSize)
    ensures Strip(Words(sections, t)) != []
    ensures |t.group| == 1 ==> Words(sections, t) == Text(sections[t.section].blocks, t.group[0])
  {
    hide Strip, Budget, IsAtomic, Join;
    var texts := Texts(sections[t.section].blocks, t.group);
    JoinStartsWithFirst(texts, BLANK_LINE);
    var text := Join(texts, BLANK_LINE);
    assert text == texts[0] + text[|texts[0]|..];
    NotBlankAround(texts[0], text[|texts[0]|..]);
    if |t.group| == 1 {
      assert texts == [texts[0]];
      JoinOne(texts[0]);
    }
  }

  lemma BodySplits(sections: seq<Section>, c: seq<Item>, t: Item)
    requires ItemsIn(sections, c) && ItemIn(sections, t)
    ensures ItemsIn(sections, c + [t])
    ensures Body(sections, c + [t]) ==
              if c == [] then Words(sections, t)
              else Body(sections, c) + SectionLead(sections[t.section]) + Words(sections, t)
    ensures c != [] ==> PathOf(sections, c + [t]) == PathOf(sections, c)
  {
    hide Words, ItemIn, SectionLead;
    assert (c + [t])[..|c|] == c;
  }

  lemma {:induction false} BodyNotBlank(sections: seq<Section>, c: seq<Item>, chunkSize: int)
    requires c != [] && ItemsIn(sections, c) && ItemOk(sections, c[0], chunkSize)
    ensures Strip(Body(sections, c)) != []
  {
    hide ItemOk, Strip, Words, SectionLead;
    if |c| == 1 {
      WordsNotBlank(sections, c[0], chunkSize);
    } else {
      var n := |c| - 1;
      BodyNotBlank(sections, c[..n], chunkSize);
      NotBlankAround(Body(sections, c[..n]), SectionLead(sections[c[n].section]));
      NotBlankAround(Body(sections, c[..n]) + SectionLead(sections[c[n].section]), Words(sections, c[n]));
    }
  }

  // ---- the chunker ----

  function Emit(result: seq<string>, path: seq<string>, body: string, chunkSize: int): seq<string> {
    var stripped := Strip(body);
    if stripped != [] then result + [Prefix(path, chunkSize) + stripped] else result
  }

  function Merged(body: string, headingLine: string, text: string): string {
    if headingLine != [] then body + "\n\n" + headingLine + "\n" + text else body + "\n\n" + text
  }

  lemma MergedText(body: string, s: Section, text: string)
    ensures Merged(body, s.headingLine, text) == body + SectionLead(s) + text
  {
  }

  lemma EmitsChunk(sections: seq<Section>, chunks: seq<seq<Item>>, result: seq<string>, c: seq<Item>, chunkSize: int)
    requires AllRuns(sections, chunks, chunkSize) && IsRun(sections, c, chunkSize)
    requires result == Rendered(sections, chunks, chunkSize) && ItemOk(sections, c[0], chunkSize)
    ensures AllRuns(sections, chunks + [c], chunkSize)
    ensures Emit(result, PathOf(sections, c), Body(sections, c), chunkSize)
         == Rendered(sections, chunks + [c], chunkSize)
  {
    hide Strip, Prefix, Body, PathOf, ItemOk, JoinsAt, ItemIn;
    BodyNotBlank(sections, c, chunkSize);
  }

  lemma RunOfOne(sections: seq<Section>, t: Item, chunkSize: int)
    requires ItemIn(sections, t)
    ensures IsRun(sections, [t], chunkSize)
    ensures Body(sections, [t]) == Words(sections, t) && PathOf(sections, [t]) == sections[t.section].path
  {
    hide ItemIn, Words;
  }

  lemma MergingAppend(sections: seq<Section>, chunks: seq<seq<Item>>, items: seq<Item>, c: seq<Item>, chunkSize: int)
    requires IsMerging(sections, chunks, items, chunkSize) && IsRun(sections, c, chunkSize)
    requires chunks != [] ==> Apart(sections, chunks[|chunks| - 1], c, chunkSize)
    ensures IsMerging(sections, chunks + [c], items + c, chunkSize)
  {
    hide IsRun, Apart, Flatten;
    FlattenAppend(chunks, c);
    var all := chunks + [c];
    forall i | 0 < i < |all|
      ensures ApartAt(sections, all, i, chunkSize)
    {
      assert i < |chunks| ==> ApartAt(sections, chunks, i, chunkSize);
    }
  }

  lemma MergingButLast(sections: seq<Section>, chunks: seq<seq<Item>>, c: seq<Item>, items: seq<Item>, chunkSize: int)
    requires IsMerging(sections, chunks + [c], items, chunkSize)
    ensures AllRuns(sections, chunks, chunkSize) && IsRun(sections, c, chunkSize)
    ensures IsMerging(sections, chunks, Flatten(chunks), chunkSize)
    ensures items == Flatten(chunks) + c
    ensures chunks != [] ==> Apart(sections, chunks[|chunks| - 1], c, chunkSize)
  {
    hide IsRun, ApartAt, Apart, Flatten;
    FlattenAppend(chunks, c);
    var all := chunks + [c];
    RunsBut(sections, chunks, c, chunkSize);
    forall i | 0 < i <= |chunks|
      ensures Apart(sections, all[i - 1], all[i], chunkSize)
      ensures i < |chunks| ==> ApartAt(sections, chunks, i, chunkSize)
    {
      assert ApartAt(sections, all, i, chunkSize);
      SameApart(sections, all, chunks, i, chunkSize);
    }
    if chunks != [] {
      assert all[|chunks| - 1] == chunks[|chunks| - 1] && all[|chunks|] == c;
    }
  }

  lemma RunsBut(sections: seq<Section>, chunks: seq<seq<Item>>, c: seq<Item>, chunkSize: int)
    requires AllRuns(sections, chunks + [c], chunkSize)
    ensures AllRuns(sections, chunks, chunkSize) && IsRun(sections, c, chunkSize)
  {
    hide IsRun;
    var all := chunks + [c];
    assert forall i :: 0 <= i < |chunks| ==> all[i] == chunks[i];
    assert all[|chunks|] == c;
  }

  lemma SameApart(sections: seq<Section>, all: seq<seq<Item>>, chunks: seq<seq<Item>>, i: nat, chunkSize: int)
    requires AllRuns(sections, all, chunkSize) && AllRuns(sections, chunks, chunkSize)
    requires 0 < i < |all| && chunks <= all && ApartAt(sections, all, i, chunkSize)
    ensures IsRun(sections, all[i - 1], chunkSize) && IsRun(sections, all[i], chunkSize)
    ensures Apart(sections, all[i - 1], all[i], chunkSize)
    ensures i < |chunks| ==> ApartAt(sections, chunks, i, chunkSize)
  {
    hide IsRun, Apart;
  }

  lemma LongerRun(sections: seq<Section>, c: seq<Item>, t: Item, chunkSize: int)
    requires IsRun(sections, c, chunkSize) && ItemIn(sections, t)
    requires IsTiny(sections, c, chunkSize) && Takes(sections, c, t, chunkSize)
    ensures IsRun(sections, c + [t], chunkSize)
  {
    hide IsTiny, Takes, ItemIn;
    var d := c + [t];
    assert ItemsIn(sections, d);
    forall j | 0 < j < |d|
      ensures JoinsAt(sections, d, j, chunkSize)
    {
      if j < |c| {
        assert JoinsAt(sections, c, j, chunkSize);
        assert d[..j] == c[..j];
      } else {
        assert d[..j] == c;
      }
    }
  }

  /** The held-back chunk takes one more text. */
  lemma MergingGrow(sections: seq<Section>, chunks: seq<seq<Item>>, items: seq<Item>, c: seq<Item>, t: Item,
                    chunkSize: int)
    requires IsMerging(sections, chunks + [c], items, chunkSize) && ItemIn(sections, t)
    requires c != [] && ItemsIn(sections, c)
    requires IsTiny(sections, c, chunkSize) && Takes(sections, c, t, chunkSize)
    ensures IsRun(sections, c + [t], chunkSize)
    ensures IsMerging(sections, chunks + [c + [t]], items + [t], chunkSize)
  {
    hide IsMerging, IsTiny, Takes, ItemIn, IsRun;
    MergingButLast(sections, chunks, c, items, chunkSize);
    LongerRun(sections, c, t, chunkSize);
    SameNeighbour(sections, chunks, c, t, chunkSize);
    MergingAppend(sections, chunks, Flatten(chunks), c + [t], chunkSize);
    assert Flatten(chunks) + (c + [t]) == Flatten(chunks) + c + [t];
  }

  lemma SameNeighbour(sections: seq<Section>, chunks: seq<seq<Item>>, c: seq<Item>, t: Item, chunkSize: int)
    requires AllRuns(sections, chunks, chunkSize)
    requires IsRun(sections, c, chunkSize) && IsRun(sections, c + [t], chunkSize)
    requires chunks != [] ==> Apart(sections, chunks[|chunks| - 1], c, chunkSize)
    ensures chunks != [] ==> Apart(sections, chunks[|chunks| - 1], c + [t], chunkSize)
  {
    hide IsTiny, Takes, ItemIn, JoinsAt;
    assert (c + [t])[0] == c[0];
  }

  /** Whether a later text could still join the last of these chunks. */
  ghost predicate Closed(sections: seq<Section>, chunks: seq<seq<Item>>, chunkSize: int)
    requires AllRuns(sections, chunks, chunkSize)
  {
    chunks != [] ==> IsRun(sections, chunks[|chunks| - 1], chunkSize)
                     && !IsTiny(sections, chunks[|chunks| - 1], chunkSize)
  }

  /** Texts put out in closed chunks, and nothing held back. */
  ghost predicate Done(sections: seq<Section>, items: seq<Item>, chunks: seq<seq<Item>>, result: seq<string>,
                       chunkSize: int) {
    && IsMerging(sections, chunks, items, chunkSize) && Closed(sections, chunks, chunkSize)
    && result == Rendered(sections, chunks, chunkSize)
  }

  /** The same with one tiny run held back. */
  ghost predicate Waiting(sections: seq<Section>, items: seq<Item>, chunks: seq<seq<Item>>, result: seq<string>,
                          tail: seq<Item>, pending: (seq<string>, string), chunkSize: int) {
    && IsMerging(sections, chunks + [tail], items, chunkSize)
    && AllRuns(sections, chunks, chunkSize) && IsRun(sections, tail, chunkSize)
    && IsTiny(sections, tail, chunkSize) && ItemOk(sections, tail[0], chunkSize)
    && pending == (PathOf(sections, tail), Body(sections, tail))
    && result == Rendered(sections, chunks, chunkSize)
  }

  ghost predicate State(sections: seq<Section>, items: seq<Item>, chunks: seq<seq<Item>>, result: seq<string>,
                        tail: seq<Item>, pending: Option<(seq<string>, string)>, chunkSize: int) {
    match pending
    case None => tail == [] && Done(sections, items, chunks, result, chunkSize)
    case Some(p) => Waiting(sections, items, chunks, result, tail, p, chunkSize)
  }

  /** A chunk ready to be put out or held back. */
  ghost predicate Ready(sections: seq<Section>, items: seq<Item>, chunks: seq<seq<Item>>, result: seq<string>,
                        c: seq<Item>, path: seq<string>, body: string, chunkSize: int) {
    && IsMerging(sections, chunks + [c], items, chunkSize)
    && AllRuns(sections, chunks, chunkSize) && IsRun(sections, c, chunkSize)
    && ItemOk(sections, c[0], chunkSize)
    && path == PathOf(sections, c) && body == Body(sections, c)
    && result == Rendered(sections, chunks, chunkSize)
  }

  lemma AppendIsReady(sections: seq<Section>, items: seq<Item>, chunks: seq<seq<Item>>, result: seq<string>,
                      t: Item, chunkSize: int)
    requires ItemOk(sections, t, chunkSize) && Done(sections, items, chunks, result, chunkSize)
    ensures Ready(sections, items + [t], chunks, result, [t], sections[t.section].path, Words(sections, t), chunkSize)
  {
    hide IsRun, Body, PathOf, Words, Rendered, Flatten, ItemIn, IsTiny, Takes, PieceOk, Fits, ApartAt;
    RunOfOne(sections, t, chunkSize);
    MergingAppend(sections, chunks, items, [t], chunkSize);
  }

  lemma MergeIsReady(sections: seq<Section>, items: seq<Item>, chunks: seq<seq<Item>>, result: seq<string>,
                     tail: seq<Item>, pending: (seq<string>, string), t: Item, chunkSize: int)
    requires ItemOk(sections, t, chunkSize)
    requires Waiting(sections, items, chunks, result, tail, pending, chunkSize)
    requires |Merged(pending.1, sections[t.section].headingLine, Words(sections, t))| <= Budget(pending.0, chunkSize)
    ensures Ready(sections, items + [t], chunks, result, tail + [t], pending.0,
                  Merged(pending.1, sections[t.section].headingLine, Words(sections, t)), chunkSize)
  {
    MergedText(pending.1, sections[t.section], Words(sections, t));
    hide Body, PathOf, Words, Rendered, Flatten, ItemIn, IsTiny, PieceOk, Fits, ApartAt, Merged, SectionLead, JoinsAt,
         Budget, IsMerging, AllRuns;
    MergingGrow(sections, chunks, items, tail, t, chunkSize);
    BodySplits(sections, tail, t);
  }

  lemma ApartIsReady(sections: seq<Section>, items: seq<Item>, chunks: seq<seq<Item>>, result: seq<string>,
                     tail: seq<Item>, pending: (seq<string>, string), t: Item, chunkSize: int)
    requires ItemOk(sections, t, chunkSize)
    requires Waiting(sections, items, chunks, result, tail, pending, chunkSize)
    requires |Merged(pending.1, sections[t.section].headingLine, Words(sections, t))| > Budget(pending.0, chunkSize)
    ensures Ready(sections, items + [t], chunks + [tail], Emit(result, pending.0, pending.1, chunkSize), [t],
                  sections[t.section].path, Words(sections, t), chunkSize)
  {
    MergedText(pending.1, sections[t.section], Words(sections, t));
    hide Body, PathOf, Words, Rendered, Flatten, ItemIn, IsTiny, PieceOk, Fits, ApartAt, Merged, SectionLead, JoinsAt,
         Budget, Emit;
    RunOfOne(sections, t, chunkSize);
    EmitsChunk(sections, chunks, result, tail, chunkSize);
    MergingAppend(sections, chunks + [tail], items, [t], chunkSize);
  }

  lemma ReadyGoesOut(sections: seq<Section>, items: seq<Item>, chunks: seq<seq<Item>>, result: seq<string>,
                     c: seq<Item>, path: seq<string>, body: string, chunkSize: int)
    requires Ready(sections, items, chunks, result, c, path, body, chunkSize)
    requires !c[|c| - 1].lone || |body| >= chunkSize / 4
    ensures Done(sections, items, chunks + [c], Emit(result, path, body, chunkSize), chunkSize)
  {
    hide Body, PathOf, Rendered, Flatten, ItemIn, ItemOk, ApartAt, JoinsAt, Emit;
    EmitsChunk(sections, chunks, result, c, chunkSize);
  }

  lemma ReadyIsHeldBack(sections: seq<Section>, items: seq<Item>, chunks: seq<seq<Item>>, result: seq<string>,
                        c: seq<Item>, path: seq<string>, body: string, chunkSize: int)
    requires Ready(sections, items, chunks, result, c, path, body, chunkSize)
    requires c[|c| - 1].lone && |body| < chunkSize / 4
    ensures State(sections, items, chunks, result, c, Some((path, body)), chunkSize)
  {
    hide Body, PathOf, Rendered, Flatten, ItemIn, ItemOk, IsMerging, JoinsAt;
  }

  /** The end of the document: what is held back goes out as it is. */
  lemma AllOut(sections: seq<Section>, items: seq<Item>, chunks: seq<seq<Item>>, result: seq<string>,
               tail: seq<Item>, pending: Option<(seq<string>, string)>, chunkSize: int, overlap: int)
    requires State(sections, items, chunks, result, tail, pending, chunkSize)
    requires AllItems(sections, |sections|, items, chunkSize, overlap)
    ensures AreChunks(if pending.Some? then Emit(result, pending.value.0, pending.value.1, chunkSize) else result,
                      sections, chunkSize, overlap)
  {
    hide Body, PathOf, Rendered, Flatten, ItemIn, ItemOk, ApartAt, JoinsAt, Emit, AllItems, IsTiny;
    if pending.Some? {
      EmitsChunk(sections, chunks, result, tail, chunkSize);
      assert IsMerging(sections, chunks + [tail], items, chunkSize);
    }
  }

  /** What packing section k gives the chunker, as its texts. */
  lemma PackedItems(sections: seq<Section>, k: nat, texts: seq<string>, groups: seq<seq<Span>>, chunkSize: int,
                    overlap: int) returns (items: seq<Item>)
    requires k < |sections| && NoBlankBlocks(sections)
    requires Grouped(sections[k].blocks, texts, groups)
    requires IsCut(sections[k].blocks, groups, Budget(sections[k].path, chunkSize), overlap)
    ensures SectionItems(sections, k, items, chunkSize, overlap) && ItemsOk(sections, items, chunkSize)
    ensures |items| == |texts| && forall i :: 0 <= i < |items| ==>
              ItemOk(sections, items[i], chunkSize) && texts[i] == Words(sections, items[i])
              && items[i].section == k && items[i].lone == (|texts| == 1)
  {
    hide Greedy, Flatten, SpansOf, Join, Budget, InBlock, PieceOk, Fits, NoBlankBlocks;
    items := seq(|groups|, i requires 0 <= i < |groups| => Item(k, groups[i], |groups| == 1));
    assert GroupsOf(items) == groups;
    SectionItemsOk(sections, k, items, chunkSize, overlap);
  }

  lemma NothingYet(sections: seq<Section>, chunkSize: int, overlap: int)
    ensures AllItems(sections, 0, [], chunkSize, overlap)
    ensures State(sections, [], [], [], [], None, chunkSize)
  {
  }

  /** The chunks of parsed sections: exactly the merging of their packed texts. */
  method ChunkSections(sections: seq<Section>, chunkSize: int, overlap: int) returns (result: seq<string>)
    requires NoBlankBlocks(sections)
    ensures AreChunks(result, sections, chunkSize, overlap)
  {
    hide *;
    result := [];
    var pending: Option<(seq<string>, string)> := None;
    ghost var items: seq<Item>, chunks: seq<seq<Item>>, tail: seq<Item> := [], [], [];
    NothingYet(sections, chunkSize, overlap);
    for k := 0 to |sections|
      invariant AllItems(sections, k, items, chunkSize, overlap)
      invariant State(sections, items, chunks, result, tail, pending, chunkSize)
    {
      var s := sections[k];
      ghost var groups;
      var texts;
      BlocksOfSection(sections, k);
      texts, groups := Pack(s.blocks, Budget(s.path, chunkSize), overlap);
      ghost var more := PackedItems(sections, k, texts, groups, chunkSize, overlap);
      MoreItems(sections, k, items, more, chunkSize, overlap);
      if texts != [] {
        result, chunks, tail, pending :=
          AddSection(s, sections, k, items, chunks, result, tail, pending, texts, more, chunkSize);
      } else {
        assert items + more == items;
      }
      items := items + more;
    }
    AllOut(sections, items, chunks, result, tail, pending, chunkSize, overlap);
    if pending.Some? {
      result := Emit(result, pending.value.0, pending.value.1, chunkSize);
    }
  }

  lemma BlocksOfSection(sections: seq<Section>, k: nat)
    requires k < |sections| && NoBlankBlocks(sections)
    ensures forall b :: 0 <= b < |sections[k].blocks| ==> Strip(sections[k].blocks[b]) != []
  {
  }

  /** One section with at least one text: the body of the chunker's loop. */
  method AddSection(s: Section, ghost sections: seq<Section>, ghost k: nat, ghost items: seq<Item>,
                    ghost chunksBefore: seq<seq<Item>>, before: seq<string>, ghost tailBefore: seq<Item>,
                    pendingBefore: Option<(seq<string>, string)>, packed: seq<string>, ghost more: seq<Item>,
                    chunkSize: int)
    returns (result: seq<string>, ghost chunks: seq<seq<Item>>, ghost tail: seq<Item>,
             pending: Option<(seq<string>, string)>)
    requires k < |sections| && s == sections[k] && packed != []
    requires |more| == |packed| && forall i :: 0 <= i < |more| ==>
               ItemOk(sections, more[i], chunkSize) && packed[i] == Words(sections, more[i])
               && more[i].section == k && more[i].lone == (|packed| == 1)
    requires State(sections, items, chunksBefore, before, tailBefore, pendingBefore, chunkSize)
    ensures State(sections, items + more, chunks, result, tail, pending, chunkSize)
  {
    hide *;
    result, chunks, tail, pending := before, chunksBefore, [], None;
    StateParts(sections, items, chunksBefore, before, tailBefore, pendingBefore, chunkSize);
    var texts := packed;
    var firstPath := s.path;
    ghost var first := [more[0]];
    if pendingBefore.Some? {
      var pendingPath, pendingBody := pendingBefore.value.0, pendingBefore.value.1;
      var merged := Merged(pendingBody, s.headingLine, texts[0]);
      if |merged| <= Budget(pendingPath, chunkSize) {
        MergeIsReady(sections, items, chunks, result, tailBefore, pendingBefore.value, more[0], chunkSize);
        texts := texts[0 := merged];
        firstPath := pendingPath;
        first := tailBefore + [more[0]];
      } else {
        ApartIsReady(sections, items, chunks, result, tailBefore, pendingBefore.value, more[0], chunkSize);
        result := Emit(result, pendingPath, pendingBody, chunkSize);
        chunks := chunks + [tailBefore];
      }
    } else {
      AppendIsReady(sections, items, chunks, result, more[0], chunkSize);
    }
    assert [more[0]] == more[..1];
    if |texts| == 1 && |texts[0]| < chunkSize / 4 {
      ReadyIsHeldBack(sections, items + [more[0]], chunks, result, first, firstPath, texts[0], chunkSize);
      assert more[..1] == more;
      tail, pending := first, Some((firstPath, texts[0]));
      return;
    }
    ReadyGoesOut(sections, items + [more[0]], chunks, result, first, firstPath, texts[0], chunkSize);
    result := Emit(result, firstPath, texts[0], chunkSize);
    chunks := chunks + [first];
    for i := 1 to |texts|
      invariant |texts| == |packed| && forall j :: 1 <= j < |texts| ==> texts[j] == packed[j]
      invariant Done(sections, items + more[..i], chunks, result, chunkSize)
    {
      AppendIsReady(sections, items + more[..i], chunks, result, more[i], chunkSize);
      assert items + more[..i] + [more[i]] == items + more[..i + 1];
      ReadyGoesOut(sections, items + more[..i + 1], chunks, result, [more[i]], s.path, texts[i], chunkSize);
      result := Emit(result, s.path, texts[i], chunkSize);
      chunks := chunks + [[more[i]]];
    }
    assert more[..|texts|] == more;
    DoneIsState(sections, items + more, chunks, result, chunkSize);
  }

  lemma StateParts(sections: seq<Section>, items: seq<Item>, chunks: seq<seq<Item>>, result: seq<string>,
                   tail: seq<Item>, pending: Option<(seq<string>, string)>, chunkSize: int)
    requires State(sections, items, chunks, result, tail, pending, chunkSize)
    ensures pending.None? ==> tail == [] && Done(sections, items, chunks, result, chunkSize)
    ensures pending.Some? ==> Waiting(sections, items, chunks, result, tail, pending.value, chunkSize)
  {
    hide Done, Waiting;
  }

  lemma DoneIsState(sections: seq<Section>, items: seq<Item>, chunks: seq<seq<Item>>, result: seq<string>,
                    chunkSize: int)
    requires Done(sections, items, chunks, result, chunkSize)
    ensures State(sections, items, chunks, result, [], None, chunkSize)
  {
    hide Done;
  }

  /** The whole chunker: the chunks of the sections that the document's lines mean. */
  method ChunkMarkdownHeadings(lines: seq<string>, chunkSize: int, overlap: int) returns (result: seq<string>)
    requires forall i :: 0 <= i < |lines| ==> '\n' !in lines[i]
    ensures AreChunks(result, SectionsOf(lines), chunkSize, overlap)
  {
    hide *;
    var sections := ParseSections(lines);
    ParsedNotBlank(lines);
    result := ChunkSections(sections, chunkSize, overlap);
  }

  lemma ParsedNotBlank(lines: seq<string>)
    requires forall i :: 0 <= i < |lines| ==> '\n' !in lines[i]
    ensures NoBlankBlocks(SectionsOf(lines))
  {
    hide Strip, SectionAt;
    var sections := SectionsOf(lines);
    forall k, b | 0 <= k < |sections| && 0 <= b < |sections[k].blocks|
      ensures Strip(sections[k].blocks[b]) != []
    {
      BlocksNotBlank(lines, k, b);
    }
  }
}
