/**
 How the chunks of a document read: the line with the titles open at a chunk's first piece, and then its
 pieces with what stands between them.
 */
module MarkdownReading {
  import opened Common
  import opened MarkdownText
  import opened MarkdownDocument
  import opened MarkdownSections
  import opened MarkdownPacking
  import opened MarkdownChunks
  import opened MarkdownGuarantees

  // ---- the line of titles ----

  /** The titles with arrows between them, or as much of their end as fits behind an ellipsis. */
  predicate IsLabel(shown: string, titles: seq<string>, chunkSize: int) {
    var all, limit := Join(titles, " > "), if chunkSize / 4 > 8 then chunkSize / 4 else 8;
    if |all| <= limit then shown == all
    else |shown| == limit && shown[0] == '\U{2026}' && shown[1..] == all[|all| - (limit - 1)..]
  }

  /** This text, behind a line with its titles if there are any. */
  ghost predicate IsHeaded(chunk: string, titles: seq<string>, text: string, chunkSize: int) {
    if titles == [] then chunk == text
    else exists shown :: IsLabel(shown, titles, chunkSize) && chunk == "[" + shown + "]\n" + text
  }

  lemma PrefixHeads(titles: seq<string>, text: string, chunkSize: int)
    ensures IsHeaded(Prefix(titles, chunkSize) + text, titles, text, chunkSize)
  {
    var all, limit := Join(titles, " > "), LabelLimit(chunkSize);
    hide Join;
    if titles != [] {
      var shown := if |all| > limit then [ELLIPSIS] + all[|all| - (limit - 1)..] else all;
      assert IsLabel(shown, titles, chunkSize);
      assert Prefix(titles, chunkSize) == "[" + shown + "]\n";
    } else {
      assert "" + text == text;
    }
  }

  // ---- the text of a chunk ----

  predicate AllPlacesIn(sections: seq<Section>, places: seq<Place>) {
    forall i :: 0 <= i < |places| ==> PlaceIn(sections, places[i])
  }

  /** Between pieces stands an empty line, and before the first piece of another section its heading line too. */
  function Between(sections: seq<Section>, p: Place, q: Place): string
    requires PlaceIn(sections, q)
  {
    if p.section == q.section || sections[q.section].headingLine == "" then "\n\n"
    else "\n\n" + sections[q.section].headingLine + "\n"
  }

  /** The pieces one after another with what stands between them. */
  function Spelled(sections: seq<Section>, places: seq<Place>): string
    requires places != [] && AllPlacesIn(sections, places)
  {
    var n := |places| - 1;
    if n == 0 then PlaceText(sections, places[0])
    else Spelled(sections, places[..n]) + Between(sections, places[n - 1], places[n]) + PlaceText(sections, places[n])
  }

  lemma SpelledOne(sections: seq<Section>, p: Place)
    requires PlaceIn(sections, p)
    ensures AllPlacesIn(sections, [p]) && Spelled(sections, [p]) == PlaceText(sections, p)
  {
  }

  lemma SpelledMore(sections: seq<Section>, places: seq<Place>, p: Place)
    requires places != [] && AllPlacesIn(sections, places) && PlaceIn(sections, p)
    ensures AllPlacesIn(sections, places + [p])
    ensures Spelled(sections, places + [p])
         == Spelled(sections, places) + Between(sections, places[|places| - 1], p) + PlaceText(sections, p)
  {
    var all := places + [p];
    assert all[..|places|] == places && all[|places|] == p && all[|places| - 1] == places[|places| - 1];
    hide PlaceIn, PlaceText, Between, Spelled;
    SpelledStep(sections, all);
  }

  lemma SpelledStep(sections: seq<Section>, places: seq<Place>)
    requires |places| > 1 && AllPlacesIn(sections, places)
    ensures var n := |places| - 1;
            Spelled(sections, places)
            == Spelled(sections, places[..n]) + Between(sections, places[n - 1], places[n])
               + PlaceText(sections, places[n])
  {
    hide PlaceIn, PlaceText, Between;
  }

  /** Pieces of one section behind others: what leads to the first, then the pieces joined by empty lines. */
  lemma {:induction false} SpelledGroup(sections: seq<Section>, places: seq<Place>, k: nat, group: seq<Span>)
    requires places != [] && AllPlacesIn(sections, places) && k < |sections|
    requires group != [] && AllIn(sections[k].blocks, group)
    ensures PlaceIn(sections, Place(k, group[0])) && AllPlacesIn(sections, places + InSection(k, group))
    ensures Spelled(sections, places + InSection(k, group))
         == Spelled(sections, places) + Between(sections, places[|places| - 1], Place(k, group[0]))
            + Join(Texts(sections[k].blocks, group), "\n\n")
  {
    hide *;
    var n := |group| - 1;
    LastPiece(sections, k, group);
    JoinedGroup(sections, k, group);
    var p := Place(k, group[n]);
    if n == 0 {
      SpelledMore(sections, places, p);
    } else {
      var front := group[..n];
      SpelledGroup(sections, places, k, front);
      GroupBehind(sections, places, k, front, p);
      var before, lead := places + InSection(k, front), Between(sections, places[|places| - 1], Place(k, group[0]));
      assert places + InSection(k, group) == before + [p];
      assert front[0] == group[0];
      Combined(Spelled(sections, before + [p]), Spelled(sections, before), Spelled(sections, places), lead,
               Join(Texts(sections[k].blocks, front), "\n\n"), PlaceText(sections, p));
    }
  }

  lemma JoinedGroup(sections: seq<Section>, k: nat, group: seq<Span>)
    requires k < |sections| && group != [] && AllIn(sections[k].blocks, group)
    ensures var n, blocks := |group| - 1, sections[k].blocks;
            && AllIn(blocks, group[..n]) && PlaceIn(sections, Place(k, group[n]))
            && Join(Texts(blocks, group), "\n\n")
               == (if n == 0 then PlaceText(sections, Place(k, group[n]))
                   else Join(Texts(blocks, group[..n]), "\n\n") + "\n\n" + PlaceText(sections, Place(k, group[n])))
  {
    hide Join, Texts, PlaceText, InSection, AllIn, PlaceIn;
    LastPiece(sections, k, group);
  }

  /** A further piece of the section that a text ends with. */
  lemma GroupBehind(sections: seq<Section>, places: seq<Place>, k: nat, front: seq<Span>, p: Place)
    requires front != [] && AllPlacesIn(sections, places + InSection(k, front))
    requires PlaceIn(sections, p) && p.section == k
    ensures AllPlacesIn(sections, places + InSection(k, front) + [p])
    ensures Spelled(sections, places + InSection(k, front) + [p])
         == Spelled(sections, places + InSection(k, front)) + "\n\n" + PlaceText(sections, p)
  {
    hide PlaceIn, PlaceText, Spelled, AllPlacesIn, InSection;
    var before := places + InSection(k, front);
    assert before[|before| - 1] == InSection(k, front)[|front| - 1];
    SpelledMore(sections, before, p);
  }

  lemma Combined(all: string, before: string, start: string, lead: string, front: string, last: string)
    requires all == before + "\n\n" + last && before == start + lead + front
    ensures all == start + lead + (front + "\n\n" + last)
  {
  }

  lemma SpelledFirst(sections: seq<Section>, k: nat, group: seq<Span>)
    requires k < |sections| && group != [] && AllIn(sections[k].blocks, group)
    ensures AllPlacesIn(sections, InSection(k, group))
    ensures Spelled(sections, InSection(k, group)) == Join(Texts(sections[k].blocks, group), "\n\n")
    decreases |group|
  {
    hide *;
    var n := |group| - 1;
    LastPiece(sections, k, group);
    JoinedGroup(sections, k, group);
    var p := Place(k, group[n]);
    if n == 0 {
      SpelledOne(sections, p);
    } else {
      SpelledFirst(sections, k, group[..n]);
      assert [] + InSection(k, group[..n]) == InSection(k, group[..n]);
      GroupBehind(sections, [], k, group[..n], p);
    }
  }

  // ---- the chunks ----

  /** Neighbours come from different sections. */
  predicate SectionsChange(c: seq<Item>) {
    forall j :: 0 < j < |c| ==> SectionChanges(c, j)
  }

  predicate SectionChanges(c: seq<Item>, j: nat)
    requires 0 < j < |c|
  {
    c[j - 1].section != c[j].section
  }

  lemma {:induction false} BodySpelled(sections: seq<Section>, c: seq<Item>)
    requires c != [] && ItemsIn(sections, c) && SectionsChange(c)
    ensures var places := PlacesOf(c);
            && places != [] && AllPlacesIn(sections, places)
            && places[0].section == c[0].section && places[|places| - 1].section == c[|c| - 1].section
            && Body(sections, c) == Spelled(sections, places)
  {
    hide *;
    var n := |c| - 1;
    LastItem(sections, c);
    var t := c[n];
    WordsAre(sections, t);
    if n == 0 {
      SpelledFirst(sections, t.section, t.group);
    } else {
      FrontChanges(c);
      BodySpelled(sections, c[..n]);
      var before := PlacesOf(c[..n]);
      SpelledGroup(sections, before, t.section, t.group);
      LeadIsBetween(sections, before[|before| - 1], Place(t.section, t.group[0]));
    }
  }

  lemma WordsAre(sections: seq<Section>, t: Item)
    requires ItemIn(sections, t)
    ensures t.group != [] && t.section < |sections| && AllIn(sections[t.section].blocks, t.group)
    ensures Words(sections, t) == Join(Texts(sections[t.section].blocks, t.group), "\n\n")
    ensures |InSection(t.section, t.group)| == |t.group|
  {
  }

  lemma FrontChanges(c: seq<Item>)
    requires |c| > 1 && SectionsChange(c)
    ensures SectionsChange(c[..|c| - 1]) && c[|c| - 2].section != c[|c| - 1].section
  {
    assert SectionChanges(c, |c| - 1);
    var front := c[..|c| - 1];
    forall j | 0 < j < |front|
      ensures SectionChanges(front, j)
    {
      assert SectionChanges(c, j);
    }
  }

  lemma LeadIsBetween(sections: seq<Section>, p: Place, q: Place)
    requires PlaceIn(sections, q) && p.section != q.section
    ensures Between(sections, p, q) == SectionLead(sections[q.section])
  {
  }

  /** A section's only text is followed by another section's. */
  predicate LonesEnd(items: seq<Item>) {
    forall i :: 0 < i < |items| ==> LoneEnds(items, i)
  }

  predicate LoneEnds(items: seq<Item>, i: nat)
    requires 0 < i < |items|
  {
    items[i - 1].lone ==> items[i - 1].section != items[i].section
  }

  lemma LonesEndSplit(a: seq<Item>, b: seq<Item>)
    requires LonesEnd(a + b)
    ensures LonesEnd(a) && LonesEnd(b)
  {
    forall i | 0 < i < |a|
      ensures LoneEnds(a, i)
    {
      assert LoneEnds(a + b, i);
    }
    forall i | 0 < i < |b|
      ensures LoneEnds(b, i)
    {
      assert LoneEnds(a + b, |a| + i);
    }
  }

  lemma {:induction false} LonesAtEnds(sections: seq<Section>, n: nat, items: seq<Item>, chunkSize: int, overlap: int)
    requires n <= |sections| && AllItems(sections, n, items, chunkSize, overlap)
    ensures LonesEnd(items) && forall i :: 0 <= i < |items| ==> items[i].section < n
  {
    hide AllItems, SectionItems;
    if n > 0 {
      var m := LastSectionItems(sections, n, items, chunkSize, overlap);
      LonesAtEnds(sections, n - 1, items[..m], chunkSize, overlap);
      OfSection(sections, n - 1, items[m..], chunkSize, overlap);
      assert items == items[..m] + items[m..];
      LonesJoined(items[..m], items[m..], n - 1);
    } else {
      NoItems(sections, items, chunkSize, overlap);
    }
  }

  lemma OfSection(sections: seq<Section>, k: nat, items: seq<Item>, chunkSize: int, overlap: int)
    requires k < |sections| && SectionItems(sections, k, items, chunkSize, overlap)
    ensures forall i :: 0 <= i < |items| ==> items[i].section == k && items[i].lone == (|items| == 1)
  {
    hide IsCut, Budget, ItemIn;
  }

  lemma LonesJoined(a: seq<Item>, b: seq<Item>, k: nat)
    requires LonesEnd(a) && forall i :: 0 <= i < |a| ==> a[i].section < k
    requires forall i :: 0 <= i < |b| ==> b[i].section == k && b[i].lone == (|b| == 1)
    ensures LonesEnd(a + b) && forall i :: 0 <= i < |a + b| ==> (a + b)[i].section < k + 1
  {
    var all := a + b;
    forall i | 0 < i < |all|
      ensures LoneEnds(all, i)
    {
      if i < |a| {
        assert LoneEnds(a, i);
      }
    }
  }

  /** The pieces of each chunk. */
  function PiecesOf(chunks: seq<seq<Item>>): (groups: seq<seq<Place>>)
    ensures |groups| == |chunks| && forall i :: 0 <= i < |chunks| ==> groups[i] == PlacesOf(chunks[i])
  {
    seq(|chunks|, i requires 0 <= i < |chunks| => PlacesOf(chunks[i]))
  }

  lemma {:induction false} PiecesInAll(chunks: seq<seq<Item>>)
    ensures Flatten(PiecesOf(chunks)) == PlacesOf(Flatten(chunks))
  {
    hide PlacesOf;
    if chunks != [] {
      PiecesInAll(chunks[1..]);
      PlacesAppend(chunks[0], Flatten(chunks[1..]));
      assert PiecesOf(chunks)[1..] == PiecesOf(chunks[1..]);
    } else {
      NoPlaces();
    }
  }

  lemma {:induction false} ChunkLonesEnd(chunks: seq<seq<Item>>, i: nat)
    requires i < |chunks| && LonesEnd(Flatten(chunks))
    ensures LonesEnd(chunks[i])
  {
    LonesEndSplit(chunks[0], Flatten(chunks[1..]));
    hide LonesEnd;
    if i > 0 {
      ChunkLonesEnd(chunks[1..], i - 1);
    }
  }

  lemma RunChanges(sections: seq<Section>, c: seq<Item>, chunkSize: int)
    requires IsRun(sections, c, chunkSize) && LonesEnd(c)
    ensures c != [] && ItemsIn(sections, c) && SectionsChange(c)
  {
    hide ItemIn, Body, Takes;
    forall j | 0 < j < |c|
      ensures SectionChanges(c, j)
    {
      assert JoinsAt(sections, c, j, chunkSize) && LoneEnds(c, j);
    }
  }

  /**
   A chunk made of these pieces: the titles open at its first piece, then its pieces in order, an empty
   line between two of a section and the later heading line too between two of different sections, without
   the whitespace around them all.
   */
  ghost predicate ChunkReads(chunk: string, lines: seq<string>, places: seq<Place>, chunkSize: int) {
    var sections := SectionsOf(lines);
    && places != [] && AllPlacesIn(sections, places)
    && places[0].section <= |Headings(lines)|
    && IsHeaded(chunk, Titles(Open(Headings(lines)[..places[0].section])), Strip(Spelled(sections, places)), chunkSize)
  }

  ghost predicate ReadsAs(result: seq<string>, lines: seq<string>, groups: seq<seq<Place>>, chunkSize: int) {
    |groups| == |result| && forall i :: 0 <= i < |result| ==> ChunkReads(result[i], lines, groups[i], chunkSize)
  }

  lemma RunReads(lines: seq<string>, c: seq<Item>, chunkSize: int)
    requires IsRun(SectionsOf(lines), c, chunkSize) && LonesEnd(c)
    ensures c != [] && ItemsIn(SectionsOf(lines), c)
    ensures ChunkReads(Chunk(SectionsOf(lines), c, chunkSize), lines, PlacesOf(c), chunkSize)
  {
    var sections := SectionsOf(lines);
    hide *;
    RunChanges(sections, c, chunkSize);
    BodySpelled(sections, c);
    ChunkIs(lines, c, chunkSize);
    PrefixHeads(sections[c[0].section].path, Strip(Body(sections, c)), chunkSize);
    FirstPath(lines, c[0].section);
    HeadedReads(lines, c, chunkSize);
  }

  lemma ChunkIs(lines: seq<string>, c: seq<Item>, chunkSize: int)
    requires c != [] && ItemsIn(SectionsOf(lines), c)
    ensures var sections := SectionsOf(lines);
            && c[0].section < |sections| == |Headings(lines)| + 1
            && Chunk(sections, c, chunkSize)
               == Prefix(sections[c[0].section].path, chunkSize) + Strip(Body(sections, c))
  {
    hide Body, Strip, Prefix, Headings, SectionAt;
    assert ItemIn(SectionsOf(lines), c[0]);
  }

  lemma FirstPath(lines: seq<string>, k: nat)
    requires k <= |Headings(lines)|
    ensures |SectionsOf(lines)| == |Headings(lines)| + 1
    ensures SectionsOf(lines)[k].path == Titles(Open(Headings(lines)[..k]))
  {
    hide Headings, Open, Titles, Strip, BlockTexts, Blocks;
  }

  lemma HeadedReads(lines: seq<string>, c: seq<Item>, chunkSize: int)
    requires c != [] && ItemsIn(SectionsOf(lines), c)
    requires var sections, places := SectionsOf(lines), PlacesOf(c);
             && places != [] && AllPlacesIn(sections, places)
             && places[0].section <= |Headings(lines)|
             && IsHeaded(Chunk(sections, c, chunkSize), Titles(Open(Headings(lines)[..places[0].section])),
                         Strip(Spelled(sections, places)), chunkSize)
    ensures ChunkReads(Chunk(SectionsOf(lines), c, chunkSize), lines, PlacesOf(c), chunkSize)
  {
    hide Chunk, SectionsOf, AllPlacesIn, Headings, IsHeaded, PlacesOf, Spelled, Strip, Titles, Open;
  }

  /** The chunks of a document hold all its pieces, in document order and each once, and read as they do. */
  lemma ChunksRead(result: seq<string>, lines: seq<string>, chunkSize: int, overlap: int)
    returns (groups: seq<seq<Place>>)
    requires AreChunks(result, SectionsOf(lines), chunkSize, overlap)
    ensures Flatten(groups) == Places(SectionsOf(lines), |SectionsOf(lines)|, chunkSize, overlap)
    ensures ReadsAs(result, lines, groups, chunkSize)
  {
    var sections := SectionsOf(lines);
    hide AllItems, IsRun, Flatten, ApartAt, Places, PlacesOf, ChunkReads, SectionsOf, LonesEnd, Chunk;
    var items, chunks :| AllItems(sections, |sections|, items, chunkSize, overlap)
      && IsMerging(sections, chunks, items, chunkSize) && result == Rendered(sections, chunks, chunkSize);
    LonesAtEnds(sections, |sections|, items, chunkSize, overlap);
    ItemsFollowDocument(sections, |sections|, items, chunkSize, overlap);
    PiecesInAll(chunks);
    groups := PiecesOf(chunks);
    forall i | 0 <= i < |result|
      ensures ChunkReads(result[i], lines, groups[i], chunkSize)
    {
      ChunkLonesEnd(chunks, i);
      RunReads(lines, chunks[i], chunkSize);
    }
  }
}
