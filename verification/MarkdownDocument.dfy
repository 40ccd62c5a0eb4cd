/**
 What the lines of a Markdown document mean to the heading-aware chunker: which fence is open, which
 lines are headings, which blocks the other lines form, and so what its sections are. Nothing here
 mentions the parser's stack or its buffers.
 */
module MarkdownDocument {
  import opened Common
  import opened MarkdownText

  datatype Section = Section(path: seq<string>, headingLine: string, blocks: seq<string>)

  datatype Kind = Fenced | Table | Paragraph

  /** Lines that belong together: a fence from its opening to its closing line, or a run of like lines. */
  datatype Block = Block(kind: Kind, lines: seq<string>)

  // ---- lines ----

  /** The marker of the fenced block still open after these lines. */
  function OpenFence(lines: seq<string>): Option<Marker> {
    if lines == [] then None
    else
      var before := OpenFence(lines[..|lines| - 1]);
      var line := lines[|lines| - 1];
      if before.None? then FenceMarker(line)
      else if ClosesFence(line, before.value) then None
      else before
  }

  /** The heading a line is, when it comes after `before`. */
  function HeadingAfter(before: seq<string>, line: string): Option<Heading> {
    if OpenFence(before).Some? || FenceMarker(line).Some? then None else HeadingOf(line)
  }

  function Headings(lines: seq<string>): (hs: seq<Heading>)
    ensures forall i :: 0 <= i < |hs| ==> 1 <= hs[i].level <= 6
  {
    if lines == [] then []
    else
      var before := lines[..|lines| - 1];
      var h := HeadingAfter(before, lines[|lines| - 1]);
      Headings(before) + (if h.Some? then [h.value] else [])
  }

  /** The kind of block a line is content of: none for headings and blank lines outside a fence. */
  function KindAfter(before: seq<string>, line: string): Option<Kind> {
    if OpenFence(before).Some? || FenceMarker(line).Some? then Some(Fenced)
    else if HeadingOf(line).Some? then None
    else if IsTableRow(line) then Some(Table)
    else if IsBlank(line) then None
    else Some(Paragraph)
  }

  function LastKind(lines: seq<string>): Option<Kind> {
    if lines == [] then None else KindAfter(lines[..|lines| - 1], lines[|lines| - 1])
  }

  /** A line goes on the block of the line right before it: inside a fence, or as another row or line of text. */
  predicate GoesOn(before: seq<string>, line: string) {
    || OpenFence(before).Some?
    || (KindAfter(before, line).Some? && KindAfter(before, line) != Some(Fenced)
        && LastKind(before) == KindAfter(before, line))
  }

  // ---- blocks ----

  function Longer(blocks: seq<Block>, line: string): (r: seq<Block>)
    requires blocks != []
    ensures |r| == |blocks|
  {
    var n := |blocks| - 1;
    blocks[..n] + [blocks[n].(lines := blocks[n].lines + [line])]
  }

  /** The blocks of each section, a new section starting at each heading. */
  function Blocks(lines: seq<string>): (b: seq<seq<Block>>)
    ensures |b| == |Headings(lines)| + 1
    ensures LastKind(lines).Some? ==>
              var last := b[|b| - 1]; last != [] && last[|last| - 1].kind == LastKind(lines).value
  {
    if lines == [] then [[]]
    else
      var before := lines[..|lines| - 1];
      var line := lines[|lines| - 1];
      var b := Blocks(before);
      var n := |b| - 1;
      FenceIsLast(before);
      if HeadingAfter(before, line).Some? then b + [[]]
      else if KindAfter(before, line).None? then b
      else if GoesOn(before, line) then b[n := Longer(b[n], line)]
      else b[n := b[n] + [Block(KindAfter(before, line).value, [line])]]
  }

  lemma FenceIsLast(lines: seq<string>)
    ensures OpenFence(lines).Some? ==> LastKind(lines) == Some(Fenced)
  {
  }

  function BlockTexts(blocks: seq<Block>): (texts: seq<string>)
    ensures |texts| == |blocks| && forall i :: 0 <= i < |texts| ==> texts[i] == Join(blocks[i].lines, "\n")
  {
    seq(|blocks|, i requires 0 <= i < |blocks| => Join(blocks[i].lines, "\n"))
  }

  // ---- sections ----

  /** The titled headings whose level is below that of every later heading. */
  function Open(hs: seq<Heading>): (open: seq<Heading>)
    ensures |open| <= |hs|
    ensures forall h :: h in open ==> h in hs && h.title != []
  {
    if hs == [] then []
    else (if StaysOpen(hs) then [hs[0]] else []) + Open(hs[1..])
  }

  function Titles(hs: seq<Heading>): (titles: seq<string>)
    ensures |titles| == |hs|
    ensures forall i :: 0 <= i < |hs| ==> titles[i] == hs[i].title
  {
    if hs == [] then [] else [hs[0].title] + Titles(hs[1..])
  }

  /** The part of a rising run of headings that lies below a level. */
  function Below(hs: seq<Heading>, level: nat): seq<Heading> {
    if hs == [] || hs[0].level >= level then [] else [hs[0]] + Below(hs[1..], level)
  }

  predicate Rising(hs: seq<Heading>) {
    forall i, j :: 0 <= i < j < |hs| ==> hs[i].level < hs[j].level
  }

  lemma {:induction false} OpenRises(hs: seq<Heading>)
    ensures Rising(Open(hs))
    ensures forall h :: h in Open(hs) ==> h in hs
  {
    if hs != [] {
      OpenRises(hs[1..]);
    }
  }

  predicate StaysOpen(hs: seq<Heading>) {
    hs != [] && hs[0].title != [] && forall j :: 1 <= j < |hs| ==> hs[0].level < hs[j].level
  }

  lemma StaysOpenAfter(hs: seq<Heading>, h: Heading)
    requires hs != []
    ensures StaysOpen(hs + [h]) <==> StaysOpen(hs) && hs[0].level < h.level
  {
    var all := hs + [h];
    assert all[0] == hs[0] && all[|hs|] == h;
    assert forall j :: 0 <= j < |hs| ==> all[j] == hs[j];
  }

  /** A new heading closes every open one at its level or above, and opens itself if titled. */
  lemma {:induction false} OpenAfter(hs: seq<Heading>, h: Heading)
    ensures Open(hs + [h]) == Below(Open(hs), h.level) + (if h.title != [] then [h] else [])
  {
    hide *;
    var tail := if h.title != [] then [h] else [];
    OpenSplits(hs + [h]);
    if hs == [] {
      OpenNone(h);
    } else {
      var rest := hs[1..];
      assert (hs + [h])[1..] == rest + [h];
      OpenSplits(hs);
      OpenRises(hs);
      OpenAfter(rest, h);
      StaysOpenAfter(hs, h);
      if StaysOpen(hs) {
        BelowSplits(hs[0], Open(rest), h.level);
        if hs[0].level >= h.level {
          RisingAbove(hs[0], Open(rest));
          NoneBelow(Open(rest), h.level);
        } else {
          assert [hs[0]] + (Below(Open(rest), h.level) + tail) == [hs[0]] + Below(Open(rest), h.level) + tail;
        }
      } else {
        assert [] + Open(rest) == Open(rest);
      }
    }
  }

  lemma OpenNone(h: Heading)
    ensures Open([] + [h]) == Below(Open([]), h.level) + (if h.title != [] then [h] else [])
  {
    assert [] + [h] == [h] && [h][1..] == [];
  }

  lemma BelowSplits(first: Heading, rest: seq<Heading>, level: nat)
    ensures Below([first] + rest, level) == if first.level >= level then [] else [first] + Below(rest, level)
  {
    assert ([first] + rest)[1..] == rest;
  }

  lemma RisingAbove(first: Heading, rest: seq<Heading>)
    requires Rising([first] + rest)
    ensures forall h :: h in rest ==> h.level > first.level
  {
    var all := [first] + rest;
    forall h | h in rest
      ensures h.level > first.level
    {
      var i :| 0 <= i < |rest| && rest[i] == h;
      assert all[0] == first && all[i + 1] == h;
    }
  }

  lemma OpenSplits(hs: seq<Heading>)
    requires hs != []
    ensures Open(hs) == (if StaysOpen(hs) then [hs[0]] else []) + Open(hs[1..])
  {
  }

  lemma NoneBelow(hs: seq<Heading>, level: nat)
    requires forall h :: h in hs ==> h.level >= level
    ensures Below(hs, level) == []
  {
    assert hs != [] ==> hs[0] in hs;
  }

  /** Dropping from the end down to the first heading below a level is `Below`. */
  lemma {:induction false} BelowIsPrefix(hs: seq<Heading>, n: nat, level: nat)
    requires Rising(hs) && n <= |hs|
    requires n > 0 ==> hs[n - 1].level < level
    requires forall i :: n <= i < |hs| ==> hs[i].level >= level
    ensures Below(hs, level) == hs[..n]
  {
    if n > 0 {
      assert hs[0].level < level;
      BelowIsPrefix(hs[1..], n - 1, level);
      assert hs[..n] == [hs[0]] + hs[1..][..n - 1];
    }
  }

  lemma {:induction false} RisingIsShort(hs: seq<Heading>, top: nat)
    requires Rising(hs) && forall i :: 0 <= i < |hs| ==> 1 <= hs[i].level <= top
    ensures |hs| <= top
  {
    if hs != [] {
      var last := hs[|hs| - 1];
      RisingIsShort(hs[..|hs| - 1], last.level - 1);
    }
  }

  /** What is left on the stack after popping for a new heading. */
  lemma StackCut(hs: seq<Heading>, h: Heading, n: nat)
    requires n <= |Open(hs)|
    requires n > 0 ==> Open(hs)[n - 1].level < h.level
    requires forall i :: n <= i < |Open(hs)| ==> Open(hs)[i].level >= h.level
    ensures Open(hs + [h]) == Open(hs)[..n] + (if h.title != [] then [h] else [])
  {
    hide Open;
    OpenRises(hs);
    BelowIsPrefix(Open(hs), n, h.level);
    OpenAfter(hs, h);
  }

  /** Section k of a document: the titles open after its first k headings, the k-th heading's line, its blocks. */
  function SectionAt(lines: seq<string>, k: nat): Section
    requires k <= |Headings(lines)|
  {
    var hs := Headings(lines);
    Section(Titles(Open(hs[..k])), if k == 0 then [] else Strip(hs[k - 1].line), BlockTexts(Blocks(lines)[k]))
  }

  function SectionsOf(lines: seq<string>): (s: seq<Section>)
    ensures |s| == |Headings(lines)| + 1
    ensures forall k :: 0 <= k < |s| ==> s[k] == SectionAt(lines, k)
  {
    seq(|Headings(lines)| + 1, k requires 0 <= k <= |Headings(lines)| => SectionAt(lines, k))
  }

  /** The levels on a section's path strictly rise, so it has at most six parts. */
  lemma PathAtMostSix(lines: seq<string>, k: nat)
    requires k <= |Headings(lines)|
    ensures Rising(Open(Headings(lines)[..k])) && |SectionAt(lines, k).path| <= 6
  {
    hide Open, BlockTexts, Blocks;
    OpenRises(Headings(lines)[..k]);
    RisingIsShort(Open(Headings(lines)[..k]), 6);
  }

  // ---- one more line ----

  lemma FenceAfterLine(seen: seq<string>, line: string)
    ensures OpenFence(seen + [line]) ==
              if OpenFence(seen).None? then FenceMarker(line)
              else if ClosesFence(line, OpenFence(seen).value) then None
              else OpenFence(seen)
  {
    hide FenceMarker, ClosesFence;
    assert (seen + [line])[..|seen|] == seen;
  }

  lemma HeadingsAfterLine(seen: seq<string>, line: string)
    ensures Headings(seen + [line]) ==
              Headings(seen) + (if HeadingAfter(seen, line).Some? then [HeadingAfter(seen, line).value] else [])
  {
    hide HeadingAfter;
    assert (seen + [line])[..|seen|] == seen;
  }

  lemma BlocksAfterLine(seen: seq<string>, line: string)
    ensures var b, n := Blocks(seen), |Headings(seen)|;
            Blocks(seen + [line]) ==
              if HeadingAfter(seen, line).Some? then b + [[]]
              else if KindAfter(seen, line).None? then b
              else if GoesOn(seen, line) then (FenceIsLast(seen); b[n := Longer(b[n], line)])
              else b[n := b[n] + [Block(KindAfter(seen, line).value, [line])]]
    ensures LastKind(seen + [line]) == KindAfter(seen, line)
  {
    hide HeadingAfter, KindAfter, Headings, OpenFence;
    assert (seen + [line])[..|seen|] == seen;
  }

  // ---- what the blocks are ----

  function LinesOf(blocks: seq<Block>): seq<string> {
    if blocks == [] then [] else LinesOf(blocks[..|blocks| - 1]) + blocks[|blocks| - 1].lines
  }

  /** The lines of each section that are neither headings nor blank lines outside a fence. */
  function Content(lines: seq<string>): (c: seq<seq<string>>)
    ensures |c| == |Headings(lines)| + 1
  {
    if lines == [] then [[]]
    else
      var before := lines[..|lines| - 1];
      var line := lines[|lines| - 1];
      var c := Content(before);
      if HeadingAfter(before, line).Some? then c + [[]]
      else if KindAfter(before, line).Some? then c[|c| - 1 := c[|c| - 1] + [line]]
      else c
  }

  lemma LinesOfAdded(blocks: seq<Block>, b: Block)
    ensures LinesOf(blocks + [b]) == LinesOf(blocks) + b.lines
  {
    assert (blocks + [b])[..|blocks|] == blocks;
  }

  lemma LinesOfLonger(blocks: seq<Block>, line: string)
    requires blocks != []
    ensures LinesOf(Longer(blocks, line)) == LinesOf(blocks) + [line]
  {
    var n := |blocks| - 1;
    LinesOfAdded(blocks[..n], blocks[n].(lines := blocks[n].lines + [line]));
  }

  lemma ContentAfterLine(seen: seq<string>, line: string)
    ensures var c, n := Content(seen), |Headings(seen)|;
            Content(seen + [line]) ==
              if HeadingAfter(seen, line).Some? then c + [[]]
              else if KindAfter(seen, line).Some? then c[n := c[n] + [line]]
              else c
  {
    hide HeadingAfter, KindAfter, Headings;
    assert (seen + [line])[..|seen|] == seen;
  }

  /** The blocks of a section hold exactly its content lines, in order. */
  lemma {:induction false} BlocksHoldContent(lines: seq<string>, k: nat)
    requires k <= |Headings(lines)|
    ensures LinesOf(Blocks(lines)[k]) == Content(lines)[k]
  {
    hide *;
    NoLines();
    if lines != [] {
      var before, line := lines[..|lines| - 1], lines[|lines| - 1];
      assert lines == before + [line];
      if k > |Headings(before)| {
        NewHolds(before, line, k);
      } else {
        BlocksHoldContent(before, k);
        if k == |Headings(before)| {
          LastHolds(before, line);
        } else {
          EarlierStays(before, line, k);
        }
      }
    }
  }

  lemma NewHolds(before: seq<string>, line: string, k: nat)
    requires |Headings(before)| < k <= |Headings(before + [line])|
    ensures Blocks(before + [line])[k] == [] && Content(before + [line])[k] == []
  {
    hide *;
    HeadingsAfterLine(before, line);
    BlocksAfterLine(before, line);
    ContentAfterLine(before, line);
  }

  /** A line changes nothing in the sections before the last one. */
  lemma EarlierStays(before: seq<string>, line: string, k: nat)
    requires k < |Headings(before)|
    ensures k < |Headings(before + [line])|
    ensures Blocks(before + [line])[k] == Blocks(before)[k] && Content(before + [line])[k] == Content(before)[k]
  {
    hide *;
    HeadingsAfterLine(before, line);
    BlocksAfterLine(before, line);
    ContentAfterLine(before, line);
  }

  lemma LastHolds(before: seq<string>, line: string)
    requires var n := |Headings(before)|; LinesOf(Blocks(before)[n]) == Content(before)[n]
    ensures var n := |Headings(before)|;
            n <= |Headings(before + [line])| && LinesOf(Blocks(before + [line])[n]) == Content(before + [line])[n]
  {
    hide *;
    HeadingsAfterLine(before, line);
    BlocksAfterLine(before, line);
    ContentAfterLine(before, line);
    var n := |Headings(before)|;
    var last := Blocks(before)[n];
    if HeadingAfter(before, line).Some? || KindAfter(before, line).None? {
    } else if GoesOn(before, line) {
      LastIsThere(before, line);
      LinesOfLonger(last, line);
    } else {
      LinesOfAdded(last, Block(KindAfter(before, line).value, [line]));
    }
  }

  lemma LastIsThere(before: seq<string>, line: string)
    requires GoesOn(before, line)
    ensures Blocks(before)[|Headings(before)|] != []
  {
    FenceIsLast(before);
    hide KindAfter, OpenFence, Headings, Blocks, LastKind;
  }

  lemma NoLines()
    ensures LinesOf([]) == [] && Headings([]) == [] && Blocks([]) == [[]] && Content([]) == [[]]
  {
  }

  predicate IsTextLine(line: string) {
    FenceMarker(line).None? && !IsTableRow(line) && !IsBlank(line)
  }

  /** A fence opens with a marker; a table is all rows; a paragraph is all text. */
  predicate BlockOk(b: Block) {
    && b.lines != [] && '\n' !in b.lines[0]
    && (b.kind == Fenced ==> FenceMarker(b.lines[0]).Some?)
    && (b.kind == Table ==> forall line :: line in b.lines ==> IsTableRow(line))
    && (b.kind == Paragraph ==> forall line :: line in b.lines ==> IsTextLine(line))
  }

  predicate AllBlocksOk(blocks: seq<Block>) {
    forall i :: 0 <= i < |blocks| ==> BlockOk(blocks[i])
  }

  lemma {:induction false} BlocksAreOk(lines: seq<string>, k: nat)
    requires k <= |Headings(lines)| && forall i :: 0 <= i < |lines| ==> '\n' !in lines[i]
    ensures AllBlocksOk(Blocks(lines)[k])
  {
    hide *;
    NoLines();
    if lines == [] || k > |Headings(lines[..|lines| - 1])| {
      if lines != [] {
        assert lines == lines[..|lines| - 1] + [lines[|lines| - 1]];
        NewHolds(lines[..|lines| - 1], lines[|lines| - 1], k);
      }
      NoneIsOk();
    } else {
      var before, line := lines[..|lines| - 1], lines[|lines| - 1];
      assert lines == before + [line];
      BlocksAreOk(before, k);
      if k < |Headings(before)| {
        EarlierStays(before, line, k);
      } else {
        LastIsOk(before, line);
      }
    }
  }

  lemma NoneIsOk()
    ensures AllBlocksOk([])
  {
  }

  lemma LastIsOk(before: seq<string>, line: string)
    requires AllBlocksOk(Blocks(before)[|Headings(before)|]) && '\n' !in line
    ensures var n := |Headings(before)|;
            n <= |Headings(before + [line])| && AllBlocksOk(Blocks(before + [line])[n])
  {
    hide *;
    HeadingsAfterLine(before, line);
    BlocksAfterLine(before, line);
    var last := Blocks(before)[|Headings(before)|];
    if HeadingAfter(before, line).None? && KindAfter(before, line).Some? {
      if GoesOn(before, line) {
        LastIsThere(before, line);
        LastKindGoesOn(before, line);
        LongerIsOk(before, last, line);
      } else {
        NotGoingOn(before, line);
        NewIsOk(before, last, line);
      }
    }
  }

  lemma LastKindGoesOn(before: seq<string>, line: string)
    requires GoesOn(before, line)
    ensures LastKind(before) == KindAfter(before, line) && LastKind(before).Some?
    ensures var last := Blocks(before)[|Headings(before)|];
            last != [] && last[|last| - 1].kind == LastKind(before).value
  {
    FenceIsLast(before);
    hide OpenFence, Headings, Blocks, LastKind, FenceMarker, HeadingOf, IsTableRow, IsBlank;
  }

  lemma NotGoingOn(before: seq<string>, line: string)
    requires !GoesOn(before, line)
    ensures OpenFence(before).None?
  {
    hide OpenFence, KindAfter, LastKind;
  }

  lemma LongerIsOk(before: seq<string>, blocks: seq<Block>, line: string)
    requires blocks != [] && AllBlocksOk(blocks)
    requires KindAfter(before, line) == LastKind(before) == Some(blocks[|blocks| - 1].kind)
    ensures AllBlocksOk(Longer(blocks, line))
  {
    hide OpenFence, HeadingOf, FenceMarker, IsBlank;
  }

  lemma NewIsOk(before: seq<string>, blocks: seq<Block>, line: string)
    requires AllBlocksOk(blocks) && KindAfter(before, line).Some? && OpenFence(before).None? && '\n' !in line
    ensures AllBlocksOk(blocks + [Block(KindAfter(before, line).value, [line])])
  {
    hide OpenFence, HeadingOf;
  }

  lemma FenceIsNotBlank(line: string)
    requires FenceMarker(line).Some?
    ensures !IsBlank(line)
  {
    var indent := LeadingRun(line, ' ');
    assert !IsSpace(line[indent]);
  }

  /** The text test on a finished block agrees with the kind of block it is, and no block is blank. */
  lemma AtomicIffNotParagraph(b: Block)
    requires BlockOk(b)
    ensures IsAtomic(Join(b.lines, "\n")) <==> b.kind != Paragraph
    ensures Strip(Join(b.lines, "\n")) != []
  {
    if b.kind == Fenced {
      FenceIsNotBlank(b.lines[0]);
    }
    assert b.lines[0] in b.lines;
    AtomicByFirstLine(b.lines);
    JoinStartsWithFirst(b.lines, "\n");
    var block := Join(b.lines, "\n");
    var n := TextStart(b.lines[0]);
    assert block[n] == b.lines[0][n];
  }

  /** No block of a parsed section is blank. */
  lemma BlocksNotBlank(lines: seq<string>, k: nat, i: nat)
    requires k <= |Headings(lines)| && forall j :: 0 <= j < |lines| ==> '\n' !in lines[j]
    requires i < |SectionAt(lines, k).blocks|
    ensures Strip(SectionAt(lines, k).blocks[i]) != []
  {
    hide Open, Titles, Strip, Headings, Join;
    BlocksAreOk(lines, k);
    AtomicIffNotParagraph(Blocks(lines)[k][i]);
  }
}
