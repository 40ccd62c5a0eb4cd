/**
 The line-by-line section parser of the heading-aware chunker: a heading stack, a path, two line
 buffers and an open fence, proved to produce exactly the sections that the document's lines mean.
 */
module MarkdownSections {
  import opened Common
  import opened MarkdownText
  import opened MarkdownDocument

  datatype Fence = Fence(marker: Marker, lines: seq<string>)

  /** The block that is being gathered, if any. */
  function Pending(para: seq<string>, table: seq<string>, fence: Option<Fence>): seq<Block> {
    (if para != [] then [Block(Paragraph, para)] else [])
    + (if table != [] then [Block(Table, table)] else [])
    + (if fence.Some? then [Block(Fenced, fence.value.lines)] else [])
  }

  /** The sections closed so far, and the data of the one at hand. */
  ghost predicate HeadValid(seen: seq<string>, sections: seq<Section>, stack: seq<Heading>, path: seq<string>,
                            headingLine: string) {
    var hs := Headings(seen);
    && |sections| == |hs|
    && (forall k :: 0 <= k < |sections| ==> sections[k] == SectionAt(seen, k))
    && stack == Open(hs)
    && path == Titles(stack)
    && headingLine == (if hs == [] then [] else Strip(hs[|hs| - 1].line))
  }

  /** The buffers hold the last block, exactly while the next line may still go on it. */
  ghost predicate BodyValid(seen: seq<string>, blocks: seq<string>, closed: seq<Block>, para: seq<string>,
                            table: seq<string>, fence: Option<Fence>) {
    && Blocks(seen)[|Headings(seen)|] == closed + Pending(para, table, fence)
    && blocks == BlockTexts(closed)
    && OpenFence(seen) == (if fence.None? then None else Some(fence.value.marker))
    && (para != [] <==> LastKind(seen) == Some(Paragraph))
    && (table != [] <==> LastKind(seen) == Some(Table))
  }

  /** The parser's variables, which its local closures share and change. */
  class SectionParser {
    var sections: seq<Section>
    var stack: seq<Heading>
    var path: seq<string>
    var headingLine: string
    var blocks: seq<string>
    var para: seq<string>
    var table: seq<string>
    var fence: Option<Fence>
    ghost var seen: seq<string>
    ghost var closed: seq<Block>

    ghost predicate Valid()
      reads this
    {
      && HeadValid(seen, sections, stack, path, headingLine)
      && BodyValid(seen, blocks, closed, para, table, fence)
    }

    constructor ()
      ensures Valid() && seen == []
    {
      sections, stack, path, headingLine := [], [], [], [];
      blocks, para, table, fence := [], [], [], None;
      seen, closed := [], [];
    }

    method FlushPara()
      requires blocks == BlockTexts(closed)
      modifies this`blocks, this`para, this`closed
      ensures para == [] && blocks == BlockTexts(closed)
      ensures closed == old(closed) + Pending(old(para), [], None)
    {
      if para != [] {
        TextsAdded(closed, Block(Paragraph, para));
        blocks := blocks + [Join(para, "\n")];
        closed := closed + [Block(Paragraph, para)];
        para := [];
      }
    }

    method FlushTable()
      requires blocks == BlockTexts(closed)
      modifies this`blocks, this`table, this`closed
      ensures table == [] && blocks == BlockTexts(closed)
      ensures closed == old(closed) + Pending([], old(table), None)
    {
      if table != [] {
        TextsAdded(closed, Block(Table, table));
        blocks := blocks + [Join(table, "\n")];
        closed := closed + [Block(Table, table)];
        table := [];
      }
    }

    /** Adds the section so far to the result; its heading data still stands. */
    method CloseSection()
      requires HeadValid(seen, sections, stack, path, headingLine) && blocks == BlockTexts(closed)
      requires Blocks(seen)[|Headings(seen)|] == closed + Pending(para, table, None)
      modifies this`sections, this`blocks, this`closed, this`para, this`table
      ensures blocks == [] && closed == [] && para == [] && table == []
      ensures sections == SectionsOf(seen)
    {
      hide *;
      PendingParts(closed, para, table);
      FlushPara();
      FlushTable();
      SectionClosed(seen, sections, stack, path, headingLine, blocks, closed);
      sections := sections + [Section(path, headingLine, blocks)];
      blocks, closed := [], [];
    }

    method Feed(line: string)
      requires Valid()
      modifies this
      ensures Valid() && seen == old(seen) + [line]
    {
      hide *;
      FenceShows();
      if fence.Some? {
        FeedFenced(line);
      } else if FenceMarker(line).Some? {
        OpenFenced(line);
      } else if HeadingOf(line).Some? {
        StartSection(line);
      } else {
        FeedPlain(line);
      }
    }

    lemma FenceShows()
      requires Valid()
      ensures OpenFence(seen) == (if fence.None? then None else Some(fence.value.marker))
      ensures HeadValid(seen, sections, stack, path, headingLine)
      ensures BodyValid(seen, blocks, closed, para, table, fence)
    {
    }

    lemma Reassemble()
      requires HeadValid(seen, sections, stack, path, headingLine)
      requires BodyValid(seen, blocks, closed, para, table, fence)
      ensures Valid()
    {
    }

    method FeedFenced(line: string)
      requires Valid() && fence.Some?
      modifies this`blocks, this`fence, this`closed, this`seen
      ensures Valid() && seen == old(seen) + [line]
    {
      hide *;
      FenceShows();
      var grown := fence.value.(lines := fence.value.lines + [line]);
      InFence(seen, line, sections, stack, path, headingLine, blocks, closed, para, table, fence.value);
      seen := seen + [line];
      if ClosesFence(line, fence.value.marker) {
        blocks := blocks + [Join(grown.lines, "\n")];
        closed := closed + [Block(Fenced, grown.lines)];
        fence := None;
      } else {
        fence := Some(grown);
      }
      Reassemble();
    }

    method OpenFenced(line: string)
      requires Valid() && fence.None? && FenceMarker(line).Some?
      modifies this`blocks, this`fence, this`closed, this`seen, this`para, this`table
      ensures Valid() && seen == old(seen) + [line]
    {
      hide *;
      FenceShows();
      HeadKept(seen, line, sections, stack, path, headingLine);
      PendingParts(closed, para, table);
      BodyParts(seen, blocks, closed, para, table, None);
      FlushPara();
      FlushTable();
      fence := Some(Fence(FenceMarker(line).value, [line]));
      NewFence(seen, line, blocks, closed);
      seen := seen + [line];
      Reassemble();
    }

    /** Pops the headings a new one closes and pushes it if it has a title. */
    method PushHeading(h: Heading, ghost hs: seq<Heading>)
      requires stack == Open(hs)
      modifies this`stack
      ensures stack == Open(hs + [h])
    {
      hide *;
      while stack != [] && stack[|stack| - 1].level >= h.level
        invariant |stack| <= |Open(hs)| && stack == Open(hs)[..|stack|]
        invariant forall i :: |stack| <= i < |Open(hs)| ==> Open(hs)[i].level >= h.level
        decreases |stack|
      {
        stack := stack[..|stack| - 1];
      }
      StackCut(hs, h, |stack|);
      if h.title != [] {
        stack := stack + [h];
      }
    }

    method StartSection(line: string)
      requires Valid() && fence.None? && FenceMarker(line).None? && HeadingOf(line).Some?
      modifies this
      ensures Valid() && seen == old(seen) + [line]
    {
      hide *;
      FenceShows();
      ghost var hs := Headings(seen);
      var h := HeadingOf(line).value;
      HeadingLine(seen, line);
      BodyParts(seen, blocks, closed, para, table, None);
      HeadParts(seen, sections, stack, path, headingLine);
      CloseSection();
      PushHeading(h, hs);
      path := Titles(stack);
      headingLine := Strip(line);
      seen := seen + [line];
      SectionStarted(old(seen), line, h, sections, stack);
      Reassemble();
    }

    method FeedPlain(line: string)
      requires Valid()
      requires fence.None? && FenceMarker(line).None? && HeadingOf(line).None?
      modifies this`blocks, this`closed, this`seen, this`para, this`table
      ensures Valid() && seen == old(seen) + [line]
    {
      hide *;
      FenceShows();
      HeadKept(seen, line, sections, stack, path, headingLine);
      BodyParts(seen, blocks, closed, para, table, None);
      if IsTableRow(line) {
        RowAdded(seen, line, blocks, closed, para, table);
        FlushPara();
        table := table + [line];
      } else if IsBlank(line) {
        BlankAdded(seen, line, blocks, closed, para, table);
        PendingParts(closed, para, table);
        FlushPara();
        FlushTable();
      } else {
        TextAdded(seen, line, blocks, closed, para, table);
        FlushTable();
        para := para + [line];
      }
      seen := seen + [line];
      Reassemble();
    }
  }

  lemma TextsAdded(blocks: seq<Block>, b: Block)
    ensures BlockTexts(blocks + [b]) == BlockTexts(blocks) + [Join(b.lines, "\n")]
  {
    hide Join;
  }

  lemma PendingParts(closed: seq<Block>, para: seq<string>, table: seq<string>)
    ensures closed + Pending(para, [], None) + Pending([], table, None) == closed + Pending(para, table, None)
  {
  }

  /** Only one block is ever being gathered. */
  lemma OnePending(closed: seq<Block>, lines: seq<string>, fence: Fence)
    ensures Pending([], [], None) == [] && closed + [] == closed
    ensures lines != [] ==> Pending(lines, [], None) == [Block(Paragraph, lines)]
    ensures lines != [] ==> Pending([], lines, None) == [Block(Table, lines)]
    ensures Pending([], [], Some(fence)) == [Block(Fenced, fence.lines)]
  {
  }

  lemma BodyParts(seen: seq<string>, blocks: seq<string>, closed: seq<Block>, para: seq<string>,
                  table: seq<string>, fence: Option<Fence>)
    ensures BodyValid(seen, blocks, closed, para, table, fence) <==>
              && Blocks(seen)[|Headings(seen)|] == closed + Pending(para, table, fence)
              && blocks == BlockTexts(closed)
              && OpenFence(seen) == (if fence.None? then None else Some(fence.value.marker))
              && (para != [] <==> LastKind(seen) == Some(Paragraph))
              && (table != [] <==> LastKind(seen) == Some(Table))
  {
  }

  lemma SectionClosed(seen: seq<string>, sections: seq<Section>, stack: seq<Heading>, path: seq<string>,
                      headingLine: string, blocks: seq<string>, closed: seq<Block>)
    requires HeadValid(seen, sections, stack, path, headingLine) && blocks == BlockTexts(closed)
    requires Blocks(seen)[|Headings(seen)|] == closed
    ensures sections + [Section(path, headingLine, blocks)] == SectionsOf(seen)
  {
    hide Headings, Blocks, Open, Titles, Strip;
    var hs := Headings(seen);
    assert hs[..|hs|] == hs;
    assert SectionAt(seen, |hs|) == Section(path, headingLine, blocks);
  }

  // ---- one more line ----

  /** What stood closed stays as it is. */
  lemma EarlierSection(seen: seq<string>, line: string, k: nat)
    requires k < |Headings(seen)| || (k == |Headings(seen)| && HeadingAfter(seen, line).Some?)
    ensures k <= |Headings(seen + [line])| && SectionAt(seen + [line], k) == SectionAt(seen, k)
  {
    HeadingsAfterLine(seen, line);
    BlocksAfterLine(seen, line);
    hide Headings, Blocks, Open, Titles, Strip, HeadingAfter, KindAfter, GoesOn, BlockTexts, LastKind;
    assert Headings(seen + [line])[..k] == Headings(seen)[..k];
  }

  /** A line that is no heading leaves the heading data alone. */
  lemma HeadKept(seen: seq<string>, line: string, sections: seq<Section>, stack: seq<Heading>, path: seq<string>,
                 headingLine: string)
    requires HeadValid(seen, sections, stack, path, headingLine)
    requires FenceMarker(line).Some? || HeadingOf(line).None? || OpenFence(seen).Some?
    ensures HeadValid(seen + [line], sections, stack, path, headingLine)
  {
    hide *;
    NotHeading(seen, line);
    HeadParts(seen, sections, stack, path, headingLine);
    forall k | 0 <= k < |sections|
      ensures sections[k] == SectionAt(seen + [line], k)
    {
      EarlierSection(seen, line, k);
    }
    HeadParts(seen + [line], sections, stack, path, headingLine);
  }

  lemma NotHeading(seen: seq<string>, line: string)
    requires FenceMarker(line).Some? || HeadingOf(line).None? || OpenFence(seen).Some?
    ensures Headings(seen + [line]) == Headings(seen)
  {
    HeadingsAfterLine(seen, line);
    hide Headings, FenceMarker, HeadingOf, OpenFence;
    assert Headings(seen) + [] == Headings(seen);
  }

  /** What a line that is no heading changes in the last section's blocks. */
  lemma LastSection(seen: seq<string>, line: string)
    requires HeadingAfter(seen, line).None?
    ensures |Headings(seen + [line])| == |Headings(seen)|
    ensures var n, kind := |Headings(seen)|, KindAfter(seen, line);
            var last, grown := Blocks(seen)[n], Blocks(seen + [line])[n];
            && (kind.None? ==> grown == last)
            && (kind.Some? && !GoesOn(seen, line) ==> grown == last + [Block(kind.value, [line])])
            && (kind.Some? && GoesOn(seen, line) ==> last != [] && grown == Longer(last, line))
    ensures LastKind(seen + [line]) == KindAfter(seen, line)
  {
    HeadingsAfterLine(seen, line);
    BlocksAfterLine(seen, line);
    if GoesOn(seen, line) {
      LastIsThere(seen, line);
    }
    hide Headings, Blocks, HeadingAfter, KindAfter, GoesOn, LastKind, Longer;
  }

  lemma LongerLast(closed: seq<Block>, b: Block, line: string)
    ensures Longer(closed + [b], line) == closed + [b.(lines := b.lines + [line])]
  {
  }

  /** Outside a fence a line that opens none and is no heading has the kind of its own text. */
  lemma PlainKind(seen: seq<string>, line: string)
    requires OpenFence(seen).None? && FenceMarker(line).None? && HeadingOf(line).None?
    ensures HeadingAfter(seen, line).None? && OpenFence(seen + [line]).None?
    ensures KindAfter(seen, line) ==
              if IsTableRow(line) then Some(Table) else if IsBlank(line) then None else Some(Paragraph)
    ensures GoesOn(seen, line) <==> KindAfter(seen, line).Some? && LastKind(seen) == KindAfter(seen, line)
  {
    FenceAfterLine(seen, line);
    hide OpenFence, FenceMarker, HeadingOf, ClosesFence, IsTableRow, IsBlank, LastKind;
  }

  lemma RowAdded(seen: seq<string>, line: string, blocks: seq<string>, closed: seq<Block>, para: seq<string>,
                 table: seq<string>)
    requires BodyValid(seen, blocks, closed, para, table, None)
    requires FenceMarker(line).None? && HeadingOf(line).None? && IsTableRow(line)
    ensures var now := closed + Pending(para, [], None);
            BodyValid(seen + [line], BlockTexts(now), now, [], table + [line], None)
  {
    hide *;
    var now := closed + Pending(para, [], None);
    BodyParts(seen, blocks, closed, para, table, None);
    BodyParts(seen + [line], BlockTexts(now), now, [], table + [line], None);
    PlainKind(seen, line);
    LastSection(seen, line);
    OnePending(closed, table, NO_FENCE);
    OnePending(closed, table + [line], NO_FENCE);
    if table != [] {
      LongerLast(closed, Block(Table, table), line);
    } else {
      assert [] + [line] == [line];
    }
  }

  const NO_FENCE := Fence(Marker('`', 3), [])

  lemma TextAdded(seen: seq<string>, line: string, blocks: seq<string>, closed: seq<Block>, para: seq<string>,
                  table: seq<string>)
    requires BodyValid(seen, blocks, closed, para, table, None)
    requires FenceMarker(line).None? && HeadingOf(line).None? && !IsTableRow(line) && !IsBlank(line)
    ensures var now := closed + Pending([], table, None);
            BodyValid(seen + [line], BlockTexts(now), now, para + [line], [], None)
  {
    hide *;
    var now := closed + Pending([], table, None);
    BodyParts(seen, blocks, closed, para, table, None);
    BodyParts(seen + [line], BlockTexts(now), now, para + [line], [], None);
    PlainKind(seen, line);
    LastSection(seen, line);
    OnePending(closed, para, NO_FENCE);
    OnePending(closed, para + [line], NO_FENCE);
    if para != [] {
      LongerLast(closed, Block(Paragraph, para), line);
    } else {
      assert [] + [line] == [line];
    }
  }

  lemma BlankAdded(seen: seq<string>, line: string, blocks: seq<string>, closed: seq<Block>, para: seq<string>,
                   table: seq<string>)
    requires BodyValid(seen, blocks, closed, para, table, None)
    requires FenceMarker(line).None? && HeadingOf(line).None? && !IsTableRow(line) && IsBlank(line)
    ensures var now := closed + Pending(para, table, None);
            BodyValid(seen + [line], BlockTexts(now), now, [], [], None)
  {
    hide *;
    var now := closed + Pending(para, table, None);
    BodyParts(seen, blocks, closed, para, table, None);
    BodyParts(seen + [line], BlockTexts(now), now, [], [], None);
    PlainKind(seen, line);
    LastSection(seen, line);
    OnePending(now, para, NO_FENCE);
  }

  lemma FenceKind(seen: seq<string>, line: string)
    requires OpenFence(seen).Some? || FenceMarker(line).Some?
    ensures HeadingAfter(seen, line).None? && KindAfter(seen, line) == Some(Fenced)
    ensures GoesOn(seen, line) <==> OpenFence(seen).Some?
    ensures OpenFence(seen).Some? ==> LastKind(seen) == Some(Fenced)
  {
    FenceIsLast(seen);
    hide OpenFence, FenceMarker, LastKind;
  }

  lemma InFence(seen: seq<string>, line: string, sections: seq<Section>, stack: seq<Heading>, path: seq<string>,
                headingLine: string, blocks: seq<string>, closed: seq<Block>, para: seq<string>,
                table: seq<string>, fence: Fence)
    requires HeadValid(seen, sections, stack, path, headingLine)
    requires BodyValid(seen, blocks, closed, para, table, Some(fence))
    ensures HeadValid(seen + [line], sections, stack, path, headingLine)
    ensures var grown := fence.lines + [line];
            if ClosesFence(line, fence.marker)
            then BodyValid(seen + [line], blocks + [Join(grown, "\n")], closed + [Block(Fenced, grown)], para, table,
                           None)
            else BodyValid(seen + [line], blocks, closed, para, table, Some(fence.(lines := grown)))
  {
    hide *;
    BodyParts(seen, blocks, closed, para, table, Some(fence));
    HeadKept(seen, line, sections, stack, path, headingLine);
    FenceKind(seen, line);
    LastSection(seen, line);
    FenceAfterLine(seen, line);
    var grown := fence.(lines := fence.lines + [line]);
    var more := closed + [Block(Fenced, grown.lines)];
    TextsAdded(closed, Block(Fenced, grown.lines));
    LongerLast(closed, Block(Fenced, fence.lines), line);
    OnePending(more, [], fence);
    OnePending(closed, [], grown);
    if ClosesFence(line, fence.marker) {
      BodyParts(seen + [line], blocks + [Join(grown.lines, "\n")], more, para, table, None);
    } else {
      BodyParts(seen + [line], blocks, closed, para, table, Some(grown));
    }
  }

  lemma NewFence(seen: seq<string>, line: string, blocks: seq<string>, closed: seq<Block>)
    requires Blocks(seen)[|Headings(seen)|] == closed && blocks == BlockTexts(closed)
    requires OpenFence(seen).None? && FenceMarker(line).Some?
    ensures BodyValid(seen + [line], blocks, closed, [], [], Some(Fence(FenceMarker(line).value, [line])))
  {
    hide *;
    var fence := Fence(FenceMarker(line).value, [line]);
    FenceKind(seen, line);
    LastSection(seen, line);
    FenceAfterLine(seen, line);
    OnePending(closed, [], fence);
    BodyParts(seen + [line], blocks, closed, [], [], Some(fence));
  }

  lemma HeadingLine(seen: seq<string>, line: string)
    requires OpenFence(seen).None? && FenceMarker(line).None? && HeadingOf(line).Some?
    ensures HeadingAfter(seen, line) == HeadingOf(line)
    ensures Headings(seen + [line]) == Headings(seen) + [HeadingOf(line).value]
    ensures Blocks(seen + [line]) == Blocks(seen) + [[]]
    ensures OpenFence(seen + [line]).None? && LastKind(seen + [line]).None?
    ensures HeadingOf(line).value.line == line
  {
    FenceAfterLine(seen, line);
    HeadingsAfterLine(seen, line);
    BlocksAfterLine(seen, line);
    hide Headings, Blocks, OpenFence, Strip, DropClosingHashes, FenceMarker, ClosesFence, LastKind;
  }

  lemma SectionStarted(seen: seq<string>, line: string, h: Heading, sections: seq<Section>, stack: seq<Heading>)
    requires OpenFence(seen).None? && FenceMarker(line).None? && HeadingOf(line) == Some(h)
    requires sections == SectionsOf(seen) && stack == Open(Headings(seen) + [h])
    ensures HeadValid(seen + [line], sections, stack, Titles(stack), Strip(line))
    ensures BodyValid(seen + [line], [], [], [], [], None)
  {
    hide *;
    HeadingLine(seen, line);
    OnePending([], [], NO_FENCE);
    NoTexts();
    BodyParts(seen + [line], [], [], [], [], None);
    forall k | 0 <= k < |sections|
      ensures sections[k] == SectionAt(seen + [line], k)
    {
      EarlierSection(seen, line, k);
    }
    HeadParts(seen + [line], sections, stack, Titles(stack), Strip(line));
  }

  lemma NoTexts()
    ensures BlockTexts([]) == []
  {
  }

  lemma HeadParts(seen: seq<string>, sections: seq<Section>, stack: seq<Heading>, path: seq<string>,
                  headingLine: string)
    ensures HeadValid(seen, sections, stack, path, headingLine) <==>
              var hs := Headings(seen);
              && |sections| == |hs| && (forall k :: 0 <= k < |sections| ==> sections[k] == SectionAt(seen, k))
              && stack == Open(hs) && path == Titles(stack)
              && headingLine == (if hs == [] then [] else Strip(hs[|hs| - 1].line))
  {
  }

  /** The whole parser: the sections are exactly those the lines mean. */
  method ParseSections(lines: seq<string>) returns (sections: seq<Section>)
    ensures sections == SectionsOf(lines)
  {
    hide *;
    var parser := new SectionParser();
    for i := 0 to |lines|
      invariant fresh(parser)
      invariant parser.Valid() && parser.seen == lines[..i]
    {
      parser.Feed(lines[i]);
      assert lines[..i] + [lines[i]] == lines[..i + 1];
    }
    assert lines[..|lines|] == lines;
    parser.FenceShows();
    BodyParts(lines, parser.blocks, parser.closed, parser.para, parser.table, parser.fence);
    if parser.fence.Some? {
      // An unterminated fence is one block to the end.
      NothingElse(lines, parser.blocks, parser.closed, parser.para, parser.table, parser.fence.value);
      parser.blocks := parser.blocks + [Join(parser.fence.value.lines, "\n")];
      parser.closed := parser.closed + [Block(Fenced, parser.fence.value.lines)];
      parser.fence := None;
    }
    parser.CloseSection();
    sections := parser.sections;
  }

  lemma NothingElse(seen: seq<string>, blocks: seq<string>, closed: seq<Block>, para: seq<string>,
                    table: seq<string>, fence: Fence)
    requires BodyValid(seen, blocks, closed, para, table, Some(fence))
    ensures var all := closed + [Block(Fenced, fence.lines)];
            && blocks + [Join(fence.lines, "\n")] == BlockTexts(all)
            && Blocks(seen)[|Headings(seen)|] == all + Pending(para, table, None)
  {
    hide Join, Blocks, Headings, OpenFence, BlockTexts;
    FenceIsLast(seen);
    TextsAdded(closed, Block(Fenced, fence.lines));
    hide LastKind;
  }
}
