/**
 Cutting a section's blocks into pieces and packing the pieces greedily into texts
 of bounded length. Pieces are tracked as spans of the blocks they were cut from.
 */
module MarkdownPacking {
  import opened Common
  import opened MarkdownText

  /** The characters lo..hi of a block. */
  datatype Span = Span(block: nat, lo: nat, hi: nat)

  function Max(a: int, b: int): int {
    if a < b then b else a
  }

  function Step(budget: nat, overlap: int): (step: nat)
    requires budget >= 1
    ensures step >= 1
    ensures overlap >= 0 ==> step <= budget
  {
    Max(budget - Min(overlap, budget / 2), 1)
  }

  /** Neighbouring windows share as many characters as asked for, but at most half of the budget. */
  lemma WindowsShare(budget: nat, overlap: int)
    requires budget >= 1
    ensures 2 * overlap <= budget ==> Step(budget, overlap) == budget - overlap
    ensures var shared := budget - Step(budget, overlap);
            2 * overlap > budget ==> 2 * shared <= budget < 2 * shared + 2
  {
  }

  /** The non-blank windows of a block from `start` on, each without its surrounding whitespace. */
  function Windows(block: string, b: nat, budget: nat, step: nat, start: nat): seq<Span>
    requires budget >= 1 && step >= 1
    decreases |block| - start
  {
    if start >= |block| then []
    else
      var here := Window(block, b, budget, start);
      if start + budget >= |block| then here else here + Windows(block, b, budget, step, start + step)
  }

  function Window(block: string, b: nat, budget: nat, start: nat): seq<Span>
    requires budget >= 1 && start < |block|
  {
    var text := block[start..Min(start + budget, |block|)];
    if Strip(text) == [] then [] else [Span(b, start + TextStart(text), start + TextEnd(text))]
  }

  function BlockSpans(block: string, b: nat, budget: nat, overlap: int): seq<Span>
    requires budget >= 1
  {
    if |block| <= budget || IsAtomic(block) then [Span(b, 0, |block|)]
    else Windows(block, b, budget, Step(budget, overlap), 0)
  }

  /** The spans of the first n blocks, in order. */
  function SpansOf(blocks: seq<string>, n: nat, budget: nat, overlap: int): seq<Span>
    requires budget >= 1 && n <= |blocks|
  {
    if n == 0 then [] else
      SpansOf(blocks, n - 1, budget, overlap) + BlockSpans(blocks[n - 1], n - 1, budget, overlap)
  }

  predicate InBlock(blocks: seq<string>, s: Span) {
    s.block < |blocks| && s.lo < s.hi <= |blocks[s.block]|
  }

  function Text(blocks: seq<string>, s: Span): string
    requires InBlock(blocks, s)
  {
    blocks[s.block][s.lo..s.hi]
  }

  function Texts(blocks: seq<string>, spans: seq<Span>): (texts: seq<string>)
    requires AllIn(blocks, spans)
    ensures |texts| == |spans| && forall i :: 0 <= i < |spans| ==> texts[i] == Text(blocks, spans[i])
  {
    seq(|spans|, i requires 0 <= i < |spans| => Text(blocks, spans[i]))
  }

  // ---- windows ----

  /** A span cut from a window at `start` or later: trimmed, short, only whitespace right behind it. */
  predicate Trimmed(block: string, b: nat, budget: nat, start: nat, s: Span) {
    && s.block == b && start <= s.lo < s.hi <= |block| && s.hi - s.lo <= budget
    && !IsSpace(block[s.lo]) && !IsSpace(block[s.hi - 1])
    && forall p :: s.hi <= p < start + budget && p < |block| ==> IsSpace(block[p])
  }

  lemma WindowProperties(block: string, b: nat, budget: nat, start: nat)
    requires budget >= 1 && start < |block|
    ensures |Window(block, b, budget, start)| <= 1
    ensures forall s :: s in Window(block, b, budget, start) ==>
              && Trimmed(block, b, budget, start, s) && s.hi <= start + budget
              && forall p :: start <= p < s.lo ==> IsSpace(block[p])
    ensures forall p :: start <= p < Min(start + budget, |block|) && !IsSpace(block[p]) ==>
              exists s :: s in Window(block, b, budget, start) && s.lo <= p < s.hi
  {
    hide IsSpace, Strip, Window, TextStart, TextEnd, Trimmed;
    WindowIs(block, b, budget, start);
    var end := Min(start + budget, |block|);
    var text := block[start..end];
    if Strip(text) != [] {
      var lo, hi := TextStart(text), TextEnd(text);
      TrimmedSpan(block, b, budget, start, end, lo, hi);
      assert Span(b, start + lo, start + hi) in Window(block, b, budget, start);
    } else {
      forall p | start <= p < end
        ensures IsSpace(block[p])
      {
        assert block[p] == text[p - start];
      }
    }
  }

  lemma WindowIs(block: string, b: nat, budget: nat, start: nat)
    requires budget >= 1 && start < |block|
    ensures var text := block[start..Min(start + budget, |block|)];
            && (Strip(text) == [] ==> Window(block, b, budget, start) == [])
            && (Strip(text) != [] ==>
                  TextStart(text) < TextEnd(text)
                  && Window(block, b, budget, start) == [Span(b, start + TextStart(text), start + TextEnd(text))])
  {
    hide IsSpace, Strip, TextStart, TextEnd;
  }

  lemma TrimmedSpan(block: string, b: nat, budget: nat, start: nat, end: nat, lo: nat, hi: nat)
    requires start < end == Min(start + budget, |block|) && lo < hi <= end - start
    requires var text := block[start..end];
             && (forall i :: 0 <= i < lo ==> IsSpace(text[i])) && (forall i :: hi <= i < |text| ==> IsSpace(text[i]))
             && !IsSpace(text[lo]) && !IsSpace(text[hi - 1])
    ensures Trimmed(block, b, budget, start, Span(b, start + lo, start + hi))
    ensures forall p :: start <= p < start + lo || start + hi <= p < end ==> IsSpace(block[p])
  {
    hide IsSpace;
    var text := block[start..end];
    forall p | start <= p < start + lo || start + hi <= p < end
      ensures IsSpace(block[p])
    {
      assert block[p] == text[p - start];
    }
    assert block[start + lo] == text[lo] && block[start + hi - 1] == text[hi - 1];
  }

  lemma {:induction false} WindowsAreTrimmed(block: string, b: nat, budget: nat, step: nat, start: nat)
    requires budget >= 1 && step >= 1
    ensures forall s :: s in Windows(block, b, budget, step, start) ==> Trimmed(block, b, budget, start, s)
    decreases |block| - start
  {
    hide IsSpace, Window;
    if start < |block| {
      WindowProperties(block, b, budget, start);
      if start + budget < |block| {
        WindowsAreTrimmed(block, b, budget, step, start + step);
      }
    }
  }

  /** Windows that step at most their own length leave no character out but whitespace. */
  lemma {:induction false} WindowsCover(block: string, b: nat, budget: nat, step: nat, start: nat, p: nat)
    requires budget >= 1 && 1 <= step <= budget
    requires start <= p < |block| && !IsSpace(block[p])
    ensures exists s :: s in Windows(block, b, budget, step, start) && s.lo <= p < s.hi
    decreases |block| - start
  {
    hide IsSpace, Window;
    WindowProperties(block, b, budget, start);
    if p < start + budget {
      var s :| s in Window(block, b, budget, start) && s.lo <= p < s.hi;
      assert s in Windows(block, b, budget, step, start);
    } else {
      WindowsCover(block, b, budget, step, start + step, p);
      var s :| s in Windows(block, b, budget, step, start + step) && s.lo <= p < s.hi;
      assert s in Windows(block, b, budget, step, start);
    }
  }

  /** The span of one window comes no later than any span of the windows after it. */
  lemma FirstWindowFirst(block: string, b: nat, budget: nat, step: nat, start: nat, first: Span, later: Span)
    requires budget >= 1 && step >= 1 && start + budget < |block|
    requires first in Window(block, b, budget, start) && Trimmed(block, b, budget, start + step, later)
    ensures first.lo <= later.lo && first.hi <= later.hi
  {
    hide IsSpace, Window;
    WindowProperties(block, b, budget, start);
  }

  /** Later windows neither start nor end before earlier ones. */
  lemma {:induction false} WindowsAdvance(block: string, b: nat, budget: nat, step: nat, start: nat, i: nat, j: nat)
    requires budget >= 1 && step >= 1
    requires i <= j < |Windows(block, b, budget, step, start)|
    ensures var w := Windows(block, b, budget, step, start); w[i].lo <= w[j].lo && w[i].hi <= w[j].hi
    decreases |block| - start
  {
    hide IsSpace, Window, Trimmed;
    var here := Window(block, b, budget, start);
    WindowProperties(block, b, budget, start);
    if start + budget < |block| && j >= |here| {
      if i >= |here| {
        WindowsAdvance(block, b, budget, step, start + step, i - |here|, j - |here|);
      } else {
        var rest := Windows(block, b, budget, step, start + step);
        WindowsAreTrimmed(block, b, budget, step, start + step);
        assert here[i] in here && rest[j - |here|] in rest;
        FirstWindowFirst(block, b, budget, step, start, here[i], rest[j - |here|]);
      }
    }
  }

  /** Whether every character that is not whitespace lies in some window. */
  ghost predicate Covers(block: string, budget: nat, overlap: int)
    requires budget >= 1
  {
    forall p :: 0 <= p < |block| && !IsSpace(block[p]) ==>
      exists s :: s in Windows(block, 0, budget, Step(budget, overlap), 0) && s.lo <= p < s.hi
  }

  /** Cutting a paragraph keeps all of its text, whatever the text, exactly when the overlap is not negative. */
  lemma CoversUnlessOverlapNegative(budget: nat, overlap: int)
    requires budget >= 1
    ensures (forall block :: Covers(block, budget, overlap)) <==> overlap >= 0
  {
    if overlap >= 0 {
      forall block
        ensures Covers(block, budget, overlap)
      {
        forall p | 0 <= p < |block| && !IsSpace(block[p])
          ensures exists s :: s in Windows(block, 0, budget, Step(budget, overlap), 0) && s.lo <= p < s.hi
        {
          WindowsCover(block, 0, budget, Step(budget, overlap), 0, p);
        }
      }
    } else {
      GapLosesText(budget, overlap);
    }
  }

  /** Windows that step beyond their length skip characters. */
  lemma GapLosesText(budget: nat, overlap: int)
    requires budget >= 1 && overlap < 0
    ensures !Covers(seq(budget + 1, _ => 'a'), budget, overlap)
  {
    hide IsSpace, Window;
    var block := seq(budget + 1, _ => 'a');
    var step := Step(budget, overlap);
    WindowsSplit(block, 0, budget, step, 0);
    WindowsSplit(block, 0, budget, step, step);
    WindowProperties(block, 0, budget, 0);
    NotSpace();
    assert block[budget] == 'a';
  }

  lemma NotSpace()
    ensures !IsSpace('a')
  {
  }

  // ---- packing ----

  const BLANK_LINE := "\n\n"

  function Flatten<T>(groups: seq<seq<T>>): seq<T> {
    if groups == [] then [] else groups[0] + Flatten(groups[1..])
  }

  lemma {:induction false} FlattenAppend<T>(groups: seq<seq<T>>, last: seq<T>)
    ensures Flatten(groups + [last]) == Flatten(groups) + last
  {
    if groups == [] {
      assert [] + [last] == [last] && [last][1..] == [];
      assert Flatten([last]) == last + Flatten([last][1..]);
    } else {
      assert (groups + [last])[1..] == groups[1..] + [last];
      FlattenAppend(groups[1..], last);
    }
  }

  /** A group the packer may emit: joined within the budget, or a single piece. */
  predicate Fits(group: seq<string>, budget: nat) {
    |group| <= 1 || |Join(group, BLANK_LINE)| <= budget
  }

  /** Groups that could not have taken the next group's first piece. */
  predicate Greedy(groups: seq<seq<string>>, budget: nat) {
    && (forall i :: 0 <= i < |groups| ==> groups[i] != [] && Fits(groups[i], budget))
    && forall i :: 0 < i < |groups| ==> |Join(groups[i - 1] + [groups[i][0]], BLANK_LINE)| > budget
  }

  function Weight(parts: seq<string>): nat {
    if parts == [] then 0 else Weight(parts[..|parts| - 1]) + |parts[|parts| - 1]| + 2
  }

  lemma {:induction false} JoinWeighs(parts: seq<string>)
    requires parts != []
    ensures |Join(parts, BLANK_LINE)| + 2 == Weight(parts)
  {
    if |parts| > 1 {
      JoinWeighs(parts[..|parts| - 1]);
    } else {
      assert parts[..0] == [];
    }
  }

  lemma {:induction false} WeightAppend(a: seq<string>, b: seq<string>)
    ensures Weight(a + b) == Weight(a) + Weight(b)
  {
    if b == [] {
      assert a + b == a;
    } else {
      assert (a + b)[..|a + b| - 1] == a + b[..|b| - 1];
      WeightAppend(a, b[..|b| - 1]);
    }
  }

  /** Part of a group, taken in order, never joins to more than the whole. */
  lemma PartIsLighter(before: seq<string>, part: seq<string>, after: seq<string>)
    requires part != []
    ensures |Join(part, BLANK_LINE)| <= |Join(before + part + after, BLANK_LINE)|
  {
    JoinWeighs(part);
    JoinWeighs(before + part + after);
    WeightAppend(before + part, after);
    WeightAppend(before, part);
  }

  /** Greedy groups behind a head start x need no more groups than any other cut. */
  lemma {:induction false} GreedyStaysAhead(groups: seq<seq<string>>, other: seq<seq<string>>, x: seq<string>,
                                            budget: nat)
    requires Greedy(groups, budget)
    requires forall i :: 0 <= i < |other| ==> Fits(other[i], budget)
    requires Flatten(other) == x + Flatten(groups)
    ensures |groups| <= |other|
    decreases |other|
  {
    if groups != [] {
      var first, tail := groups[0], Flatten(groups[1..]);
      var taken, rest := other[0], Flatten(other[1..]);
      assert taken + rest == x + (first + tail);
      if |taken| <= |x| {
        Split(taken, rest, x, first + tail);
        GreedyStaysAhead(groups, other[1..], x[|taken|..], budget);
      } else {
        Split(x, first + tail, taken, rest);
        var y := taken[|x|..];
        if |y| > |first| {
          assert y + rest == first + tail;
          Split(first, tail, y, rest);
          assert groups[1..] != [] && groups[1..][0] == groups[1];
          var z := groups[1][0];
          assert tail[0] == z;
          assert y == first + [z] + y[|first| + 1..];
          assert taken == x + (first + [z]) + y[|first| + 1..];
          PartIsLighter(x, first + [z], y[|first| + 1..]);
          assert false;
        }
        assert y + rest == first + tail;
        Split(y, rest, first, tail);
        assert Greedy(groups[1..], budget);
        GreedyStaysAhead(groups[1..], other[1..], first[|y|..], budget);
      }
    }
  }

  lemma Split<T>(a: seq<T>, b: seq<T>, c: seq<T>, d: seq<T>)
    requires a + b == c + d && |a| <= |c|
    ensures c == a + c[|a|..] && b == c[|a|..] + d
  {
    assert a == (a + b)[..|a|] && c == (c + d)[..|c|];
    assert b == (a + b)[|a|..];
  }

  /**
   Greedy packing is optimal: no cut of the same ordered pieces into groups that each fit uses
   fewer groups.
   */
  lemma GreedyIsOptimal(groups: seq<seq<string>>, other: seq<seq<string>>, budget: nat)
    requires Greedy(groups, budget)
    requires forall i :: 0 <= i < |other| ==> Fits(other[i], budget)
    requires Flatten(other) == Flatten(groups)
    ensures |groups| <= |other|
  {
    GreedyStaysAhead(groups, other, [], budget);
  }

  // ---- the packer ----

  lemma {:induction false} TrimmedIsNotBlank(block: string, b: nat, budget: nat, start: nat, s: Span)
    requires Trimmed(block, b, budget, start, s)
    ensures Strip(block[s.lo..s.hi]) != []
  {
    hide IsSpace;
    assert block[s.lo..s.hi][0] == block[s.lo];
  }

  /** A piece: part of its block, not blank, and within the budget unless it is a whole atomic block. */
  predicate PieceOk(blocks: seq<string>, budget: nat, s: Span) {
    && InBlock(blocks, s)
    && Strip(Text(blocks, s)) != []
    && (|Text(blocks, s)| <= budget || (IsAtomic(blocks[s.block]) && s.lo == 0 && s.hi == |blocks[s.block]|))
  }

  lemma BlockSpansOk(blocks: seq<string>, b: nat, budget: nat, overlap: int)
    requires budget >= 1 && b < |blocks| && Strip(blocks[b]) != []
    ensures forall s :: s in BlockSpans(blocks[b], b, budget, overlap) ==> s.block == b && PieceOk(blocks, budget, s)
  {
    hide Windows, IsAtomic, Strip, IsSpace;
    var block := blocks[b];
    if |block| <= budget || IsAtomic(block) {
      assert block[0..|block|] == block;
      NonEmptyIfNotBlank(block);
    } else {
      var step := Step(budget, overlap);
      WindowsAreTrimmed(block, b, budget, step, 0);
      forall s | s in Windows(block, b, budget, step, 0)
        ensures PieceOk(blocks, budget, s)
      {
        TrimmedIsNotBlank(block, b, budget, 0, s);
      }
    }
  }

  lemma NonEmptyIfNotBlank(s: string)
    requires Strip(s) != []
    ensures s != []
  {
  }

  lemma {:induction false} SpansOfOk(blocks: seq<string>, n: nat, budget: nat, overlap: int)
    requires budget >= 1 && n <= |blocks|
    requires forall i :: 0 <= i < |blocks| ==> Strip(blocks[i]) != []
    ensures forall s :: s in SpansOf(blocks, n, budget, overlap) ==> s.block < n && PieceOk(blocks, budget, s)
  {
    hide PieceOk, BlockSpans, Strip;
    if n > 0 {
      SpansOfOk(blocks, n - 1, budget, overlap);
      BlockSpansOk(blocks, n - 1, budget, overlap);
    }
  }

  /** The pieces are the texts of these spans of the block. */
  predicate PiecesAre(block: string, pieces: seq<string>, spans: seq<Span>) {
    && |pieces| == |spans|
    && forall i :: 0 <= i < |spans| ==>
         spans[i].lo < spans[i].hi <= |block| && pieces[i] == block[spans[i].lo..spans[i].hi]
  }

  lemma NoPieces(block: string)
    ensures PiecesAre(block, [], [])
  {
  }

  lemma PiecesOneMore(block: string, pieces: seq<string>, spans: seq<Span>, more: seq<Span>)
    requires PiecesAre(block, pieces, spans)
    ensures PiecesAre(block, pieces, spans + [])
    ensures |more| == 1 && more[0].lo < more[0].hi <= |block| ==>
              PiecesAre(block, pieces + [block[more[0].lo..more[0].hi]], spans + more)
  {
    assert spans + [] == spans;
  }

  /** The windows of an oversized paragraph, as texts. */
  method SplitPlain(block: string, ghost b: nat, budget: nat, overlap: int) returns (pieces: seq<string>)
    requires budget >= 1
    ensures PiecesAre(block, pieces, Windows(block, b, budget, Step(budget, overlap), 0))
  {
    hide IsSpace, Strip, Window, Windows, Step, PiecesAre;
    NoPieces(block);
    pieces := [];
    var start := 0;
    var step := Step(budget, overlap);
    ghost var all := Windows(block, b, budget, step, 0);
    ghost var done: seq<Span> := [];
    while start < |block|
      invariant 0 <= start
      invariant done + Windows(block, b, budget, step, start) == all
      invariant PiecesAre(block, pieces, done)
      decreases |block| - start
    {
      WindowsSplit(block, b, budget, step, start);
      WindowPiece(block, b, budget, start);
      PiecesOneMore(block, pieces, done, Window(block, b, budget, start));
      var piece := Strip(block[start..Min(start + budget, |block|)]);
      if piece != [] {
        pieces := pieces + [piece];
      }
      assert Window(block, b, budget, start) + [] == Window(block, b, budget, start);
      done := done + Window(block, b, budget, start);
      if start + budget >= |block| {
        return;
      }
      start := start + step;
    }
    WindowsSplit(block, b, budget, step, start);
    assert done + [] == done;
  }

  lemma WindowsSplit(block: string, b: nat, budget: nat, step: nat, start: nat)
    requires budget >= 1 && step >= 1
    ensures Windows(block, b, budget, step, start) ==
              if start >= |block| then []
              else Window(block, b, budget, start)
                   + (if start + budget >= |block| then [] else Windows(block, b, budget, step, start + step))
  {
  }

  lemma WindowPiece(block: string, b: nat, budget: nat, start: nat)
    requires budget >= 1 && start < |block|
    ensures var piece := Strip(block[start..Min(start + budget, |block|)]);
            var w := Window(block, b, budget, start);
            && (piece == [] ==> w == [])
            && (piece != [] ==> |w| == 1 && w[0].lo < w[0].hi <= |block| && piece == block[w[0].lo..w[0].hi])
  {
    hide IsSpace, TextStart, TextEnd;
    var end := Min(start + budget, |block|);
    var window := block[start..end];
    if Strip(window) != [] {
      var lo, hi := TextStart(window), TextEnd(window);
      assert Window(block, b, budget, start) == [Span(b, start + lo, start + hi)];
      assert end == start + (end - start) && Strip(window) == window[lo..hi];
      hide *;
      SliceOfSlice(block, start, end - start, lo, hi);
    }
  }

  lemma SliceOfSlice(s: string, start: nat, n: nat, lo: nat, hi: nat)
    requires start + n <= |s| && lo <= hi <= n
    ensures s[start..start + n][lo..hi] == s[start + lo..start + hi]
  {
    var a, b := s[start..start + n][lo..hi], s[start + lo..start + hi];
    assert forall i :: 0 <= i < hi - lo ==> a[i] == b[i];
  }

  predicate AllIn(blocks: seq<string>, spans: seq<Span>) {
    forall i :: 0 <= i < |spans| ==> InBlock(blocks, spans[i])
  }

  ghost predicate Grouped(blocks: seq<string>, texts: seq<string>, groups: seq<seq<Span>>) {
    && |texts| == |groups|
    && forall i :: 0 <= i < |groups| ==>
         && groups[i] != []
         && AllIn(blocks, groups[i])
         && texts[i] == Join(Texts(blocks, groups[i]), BLANK_LINE)
  }

  ghost function GroupTexts(blocks: seq<string>, groups: seq<seq<Span>>): (g: seq<seq<string>>)
    requires forall i :: 0 <= i < |groups| ==> AllIn(blocks, groups[i])
    ensures |g| == |groups| && forall i :: 0 <= i < |groups| ==> g[i] == Texts(blocks, groups[i])
  {
    seq(|groups|, i requires 0 <= i < |groups| => Texts(blocks, groups[i]))
  }

  /** The packer's state: texts put out, the text being filled, and the spans behind both. */
  ghost predicate Packed(blocks: seq<string>, out: seq<string>, current: string, groups: seq<seq<Span>>,
                         filling: seq<Span>, spans: seq<Span>, budget: nat) {
    && Grouped(blocks, out, groups) && AllIn(blocks, filling)
    && current == Join(Texts(blocks, filling), BLANK_LINE)
    && (current == [] <==> filling == [])
    && Flatten(groups) + filling == spans
    && (filling == [] ==> groups == [])
    && Greedy(GroupTexts(blocks, groups) + (if filling == [] then [] else [Texts(blocks, filling)]), budget)
  }

  lemma GreedyNew(before: seq<seq<string>>, last: seq<string>, piece: string, budget: nat)
    requires Greedy(before + [last], budget) && |Join(last + [piece], BLANK_LINE)| > budget
    ensures Greedy(before + [last] + [[piece]], budget)
  {
    var some := before + [last];
    var all := some + [[piece]];
    assert forall i :: 0 <= i < |some| ==> all[i] == some[i];
    assert all[|some|] == [piece] && some[|before|] == last;
  }

  lemma GreedyLonger(before: seq<seq<string>>, last: seq<string>, piece: string, budget: nat)
    requires last != [] && Greedy(before + [last], budget) && |Join(last + [piece], BLANK_LINE)| <= budget
    ensures Greedy(before + [last + [piece]], budget)
  {
    var some := before + [last];
    var all := before + [last + [piece]];
    assert forall i :: 0 <= i < |before| ==> all[i] == some[i];
    assert all[|before|] == last + [piece] && some[|before|] == last;
  }

  lemma JoinOneMore(parts: seq<string>, piece: string)
    requires parts != []
    ensures Join(parts + [piece], BLANK_LINE) == Join(parts, BLANK_LINE) + BLANK_LINE + piece
  {
    assert (parts + [piece])[..|parts|] == parts;
  }

  lemma TextsOneMore(blocks: seq<string>, spans: seq<Span>, s: Span)
    requires AllIn(blocks, spans) && InBlock(blocks, s)
    ensures AllIn(blocks, spans + [s]) && Texts(blocks, spans + [s]) == Texts(blocks, spans) + [Text(blocks, s)]
  {
  }

  lemma GroupedOneMore(blocks: seq<string>, texts: seq<string>, groups: seq<seq<Span>>, filling: seq<Span>)
    requires Grouped(blocks, texts, groups) && AllIn(blocks, filling) && filling != []
    ensures Grouped(blocks, texts + [Join(Texts(blocks, filling), BLANK_LINE)], groups + [filling])
    ensures GroupTexts(blocks, groups + [filling]) == GroupTexts(blocks, groups) + [Texts(blocks, filling)]
  {
    hide Join;
  }

  /** A piece that would overflow the current text starts a new one. */
  lemma StartText(blocks: seq<string>, out: seq<string>, current: string, groups: seq<seq<Span>>,
                  filling: seq<Span>, spans: seq<Span>, budget: nat, s: Span)
    requires Packed(blocks, out, current, groups, filling, spans, budget) && PieceOk(blocks, budget, s)
    requires current != [] && |current| + 2 + |Text(blocks, s)| > budget
    ensures Packed(blocks, out + [current], Text(blocks, s), groups + [filling], [s], spans + [s], budget)
  {
    hide Strip, IsAtomic, Greedy, Join, Flatten;
    var last, piece := Texts(blocks, filling), Text(blocks, s);
    FlattenAppend(groups, filling);
    GroupedOneMore(blocks, out, groups, filling);
    assert Texts(blocks, [s]) == [piece];
    JoinOneMore(last, piece);
    GreedyNew(GroupTexts(blocks, groups), last, piece, budget);
    JoinOne(piece);
  }

  lemma JoinOne(piece: string)
    ensures Join([piece], BLANK_LINE) == piece && Join([], BLANK_LINE) == []
    ensures forall budget: nat :: Greedy([] + [[piece]], budget)
  {
  }

  lemma ExtendText(blocks: seq<string>, out: seq<string>, current: string, groups: seq<seq<Span>>,
                   filling: seq<Span>, spans: seq<Span>, budget: nat, s: Span)
    requires Packed(blocks, out, current, groups, filling, spans, budget) && PieceOk(blocks, budget, s)
    requires current == [] || |current| + 2 + |Text(blocks, s)| <= budget
    ensures var grown := if current == [] then Text(blocks, s) else current + BLANK_LINE + Text(blocks, s);
            Packed(blocks, out, grown, groups, filling + [s], spans + [s], budget)
  {
    hide Strip, IsAtomic, Greedy, Join, Flatten;
    var last, piece := Texts(blocks, filling), Text(blocks, s);
    TextsOneMore(blocks, filling, s);
    if current == [] {
      JoinOne(piece);
      assert Texts(blocks, filling + [s]) == [piece];
    } else {
      JoinOneMore(last, piece);
      GreedyLonger(GroupTexts(blocks, groups), last, piece, budget);
    }
  }

  /** Any way of cutting the same pieces, in order, into groups that each fit. */
  ghost predicate CutOf(blocks: seq<string>, spans: seq<Span>, other: seq<seq<string>>, budget: nat) {
    && AllIn(blocks, spans)
    && Flatten(other) == Texts(blocks, spans)
    && forall i :: 0 <= i < |other| ==> Fits(other[i], budget)
  }

  lemma {:induction false} FlattenTexts(blocks: seq<string>, groups: seq<seq<Span>>)
    requires forall i :: 0 <= i < |groups| ==> AllIn(blocks, groups[i])
    ensures AllIn(blocks, Flatten(groups))
    ensures Flatten(GroupTexts(blocks, groups)) == Texts(blocks, Flatten(groups))
  {
    if groups != [] {
      FlattenTexts(blocks, groups[1..]);
      assert GroupTexts(blocks, groups)[1..] == GroupTexts(blocks, groups[1..]);
      assert Texts(blocks, Flatten(groups)) == Texts(blocks, groups[0]) + Texts(blocks, Flatten(groups[1..]));
    }
  }

  lemma FewestGroups(blocks: seq<string>, out: seq<string>, groups: seq<seq<Span>>, budget: nat)
    requires Grouped(blocks, out, groups) && Greedy(GroupTexts(blocks, groups), budget)
    ensures forall other :: CutOf(blocks, Flatten(groups), other, budget) ==> |out| <= |other|
  {
    hide Greedy, Fits, Flatten, Join;
    FlattenTexts(blocks, groups);
    forall other | CutOf(blocks, Flatten(groups), other, budget)
      ensures |out| <= |other|
    {
      GreedyIsOptimal(GroupTexts(blocks, groups), other, budget);
    }
  }

  // ---- there is one greedy cut ----

  ghost predicate AllGroupsIn(blocks: seq<string>, groups: seq<seq<Span>>) {
    forall i :: 0 <= i < |groups| ==> AllIn(blocks, groups[i])
  }

  /** A cut of all pieces of these blocks as the packer makes it. */
  ghost predicate IsCut(blocks: seq<string>, groups: seq<seq<Span>>, budget: nat, overlap: int)
    requires budget >= 1
  {
    && AllGroupsIn(blocks, groups)
    && Flatten(groups) == SpansOf(blocks, |blocks|, budget, overlap)
    && Greedy(GroupTexts(blocks, groups), budget)
  }

  /** A greedy first group cannot be a proper part of another cut's first group. */
  lemma FirstGroupNotShorter(blocks: seq<string>, g: seq<seq<Span>>, h: seq<seq<Span>>, budget: nat)
    requires g != [] && h != [] && AllGroupsIn(blocks, g) && AllGroupsIn(blocks, h)
    requires Greedy(GroupTexts(blocks, g), budget) && Greedy(GroupTexts(blocks, h), budget)
    requires Flatten(g) == Flatten(h)
    ensures |g[0]| >= |h[0]|
  {
    hide Join, Fits, Greedy;
    if |g[0]| < |h[0]| {
      var tail := Flatten(g[1..]);
      Split(g[0], tail, h[0], Flatten(h[1..]));
      var more := h[0][|g[0]|..];
      assert tail == more + Flatten(h[1..]) && tail[0] == more[0];
      assert g[1..] != [];
      NextOverflows(blocks, g, budget);
      assert tail == g[1] + Flatten(g[1..][1..]);
      OverfullGroup(blocks, g[0], more, budget);
      FirstFits(blocks, h, budget);
    }
  }

  lemma NextOverflows(blocks: seq<string>, g: seq<seq<Span>>, budget: nat)
    requires |g| > 1 && AllGroupsIn(blocks, g) && Greedy(GroupTexts(blocks, g), budget)
    ensures g[0] != [] && g[1] != [] && g[1..][0] == g[1] && InBlock(blocks, g[1][0])
    ensures |Join(Texts(blocks, g[0]) + [Text(blocks, g[1][0])], BLANK_LINE)| > budget
  {
    hide Join, Fits;
    var texts := GroupTexts(blocks, g);
    assert texts[0] == Texts(blocks, g[0]) && texts[1] == Texts(blocks, g[1]);
    assert texts[0] != [] && texts[1] != [];
  }

  lemma FirstFits(blocks: seq<string>, h: seq<seq<Span>>, budget: nat)
    requires h != [] && AllGroupsIn(blocks, h) && Greedy(GroupTexts(blocks, h), budget)
    ensures Fits(Texts(blocks, h[0]), budget)
  {
    assert GroupTexts(blocks, h)[0] == Texts(blocks, h[0]);
  }

  /** A group that goes on where its beginning was already full does not fit. */
  lemma OverfullGroup(blocks: seq<string>, front: seq<Span>, more: seq<Span>, budget: nat)
    requires AllIn(blocks, front + more) && front != [] && more != []
    ensures AllIn(blocks, front) && InBlock(blocks, more[0])
    ensures |Join(Texts(blocks, front) + [Text(blocks, more[0])], BLANK_LINE)| > budget ==>
              !Fits(Texts(blocks, front + more), budget)
  {
    hide Join, InBlock;
    var all := front + more;
    assert forall i :: 0 <= i < |front| ==> all[i] == front[i];
    assert all[|front|] == more[0];
    var part := Texts(blocks, front) + [Text(blocks, more[0])];
    var rest := Texts(blocks, all)[|part|..];
    assert Texts(blocks, all) == [] + part + rest;
    PartIsLighter([], part, rest);
  }

  lemma {:induction false} GreedyOnce(blocks: seq<string>, g: seq<seq<Span>>, h: seq<seq<Span>>, budget: nat)
    requires AllGroupsIn(blocks, g) && AllGroupsIn(blocks, h)
    requires Greedy(GroupTexts(blocks, g), budget) && Greedy(GroupTexts(blocks, h), budget)
    requires Flatten(g) == Flatten(h)
    ensures g == h
  {
    hide Join, Fits;
    GroupsNotEmpty(blocks, g, budget);
    GroupsNotEmpty(blocks, h, budget);
    if g != [] && h != [] {
      FirstGroupNotShorter(blocks, g, h, budget);
      FirstGroupNotShorter(blocks, h, g, budget);
      Split(g[0], Flatten(g[1..]), h[0], Flatten(h[1..]));
      assert g[0] + [] == g[0] && h[0] == g[0];
      GreedyTail(blocks, g, budget);
      GreedyTail(blocks, h, budget);
      GreedyOnce(blocks, g[1..], h[1..], budget);
      assert g == [g[0]] + g[1..] && h == [h[0]] + h[1..];
    }
  }

  lemma GroupsNotEmpty(blocks: seq<string>, g: seq<seq<Span>>, budget: nat)
    requires AllGroupsIn(blocks, g) && Greedy(GroupTexts(blocks, g), budget)
    ensures forall i :: 0 <= i < |g| ==> g[i] != []
    ensures g != [] ==> Flatten(g) != []
  {
    forall i | 0 <= i < |g|
      ensures g[i] != []
    {
      assert GroupTexts(blocks, g)[i] != [];
    }
  }

  lemma GreedyTail(blocks: seq<string>, g: seq<seq<Span>>, budget: nat)
    requires g != [] && AllGroupsIn(blocks, g) && Greedy(GroupTexts(blocks, g), budget)
    ensures AllGroupsIn(blocks, g[1..]) && Greedy(GroupTexts(blocks, g[1..]), budget)
  {
    hide Join, Fits;
    var texts := GroupTexts(blocks, g);
    assert GroupTexts(blocks, g[1..]) == texts[1..];
  }

  /** Blocks have exactly one greedy cut. */
  lemma CutOnce(blocks: seq<string>, g: seq<seq<Span>>, h: seq<seq<Span>>, budget: nat, overlap: int)
    requires budget >= 1 && IsCut(blocks, g, budget, overlap) && IsCut(blocks, h, budget, overlap)
    ensures g == h
  {
    hide Greedy, Flatten, SpansOf;
    GreedyOnce(blocks, g, h, budget);
  }

  /**
   Greedy packing: the texts are the joined groups of a cut of all pieces into consecutive groups,
   each within the budget or a single piece, no group could have taken the next one's first piece,
   and so no other such cut has fewer groups.
   */
  method Pack(blocks: seq<string>, budget: nat, overlap: int)
    returns (out: seq<string>, ghost groups: seq<seq<Span>>)
    requires budget >= 1
    requires forall i :: 0 <= i < |blocks| ==> Strip(blocks[i]) != []
    ensures Grouped(blocks, out, groups) && IsCut(blocks, groups, budget, overlap)
    ensures forall other :: CutOf(blocks, SpansOf(blocks, |blocks|, budget, overlap), other, budget) ==>
              |out| <= |other|
  {
    hide *;
    out, groups := [], [];
    var current := "";
    ghost var filling: seq<Span> := [];
    EmptyPacked(blocks, budget, overlap);
    for b := 0 to |blocks|
      invariant Packed(blocks, out, current, groups, filling, SpansOf(blocks, b, budget, overlap), budget)
    {
      var block := blocks[b];
      var pieces;
      if |block| <= budget || IsAtomic(block) {
        pieces := [block];
      } else {
        pieces := SplitPlain(block, b, budget, overlap);
      }
      ghost var spans := BlockSpans(block, b, budget, overlap);
      ghost var before := SpansOf(blocks, b, budget, overlap);
      BlockPieces(blocks, b, budget, overlap, pieces);
      BlockSpansOk(blocks, b, budget, overlap);
      assert before + spans[..0] == before;
      for p := 0 to |pieces|
        invariant Packed(blocks, out, current, groups, filling, before + spans[..p], budget)
      {
        assert before + spans[..p] + [spans[p]] == before + spans[..p + 1];
        assert spans[p] in spans;
        if current != [] && |current| + 2 + |pieces[p]| > budget {
          StartText(blocks, out, current, groups, filling, before + spans[..p], budget, spans[p]);
          out, groups, filling := out + [current], groups + [filling], [spans[p]];
          current := pieces[p];
        } else {
          ExtendText(blocks, out, current, groups, filling, before + spans[..p], budget, spans[p]);
          current := if current != [] then current + BLANK_LINE + pieces[p] else pieces[p];
          filling := filling + [spans[p]];
        }
      }
      assert spans[..|pieces|] == spans;
    }
    Finished(blocks, out, current, groups, filling, SpansOf(blocks, |blocks|, budget, overlap), budget);
    if current != [] {
      out, groups := out + [current], groups + [filling];
    }
    FewestGroups(blocks, out, groups, budget);
    CutMade(blocks, out, groups, budget, overlap);
  }

  lemma CutMade(blocks: seq<string>, out: seq<string>, groups: seq<seq<Span>>, budget: nat, overlap: int)
    requires budget >= 1 && Grouped(blocks, out, groups)
    requires Flatten(groups) == SpansOf(blocks, |blocks|, budget, overlap)
    requires Greedy(GroupTexts(blocks, groups), budget)
    ensures IsCut(blocks, groups, budget, overlap)
  {
    hide Greedy, Flatten, SpansOf, Join;
  }

  lemma EmptyPacked(blocks: seq<string>, budget: nat, overlap: int)
    requires budget >= 1
    ensures Packed(blocks, [], [], [], [], SpansOf(blocks, 0, budget, overlap), budget)
  {
  }

  lemma BlockPieces(blocks: seq<string>, b: nat, budget: nat, overlap: int, pieces: seq<string>)
    requires budget >= 1 && b < |blocks| && Strip(blocks[b]) != []
    requires if |blocks[b]| <= budget || IsAtomic(blocks[b]) then pieces == [blocks[b]]
             else PiecesAre(blocks[b], pieces, Windows(blocks[b], b, budget, Step(budget, overlap), 0))
    ensures var spans := BlockSpans(blocks[b], b, budget, overlap);
            && |spans| == |pieces|
            && (forall i :: 0 <= i < |spans| ==> InBlock(blocks, spans[i]) && pieces[i] == Text(blocks, spans[i]))
            && SpansOf(blocks, b + 1, budget, overlap) == SpansOf(blocks, b, budget, overlap) + spans
  {
    hide IsSpace, Strip, IsAtomic, Windows;
    BlockSpansOk(blocks, b, budget, overlap);
    var spans := BlockSpans(blocks[b], b, budget, overlap);
    forall i | 0 <= i < |spans|
      ensures InBlock(blocks, spans[i]) && pieces[i] == Text(blocks, spans[i])
    {
      assert spans[i] in spans;
    }
  }

  lemma Finished(blocks: seq<string>, out: seq<string>, current: string, groups: seq<seq<Span>>,
                 filling: seq<Span>, spans: seq<Span>, budget: nat)
    requires Packed(blocks, out, current, groups, filling, spans, budget)
    ensures var all := if current == [] then groups else groups + [filling];
            && Grouped(blocks, if current == [] then out else out + [current], all)
            && Flatten(all) == spans
            && Greedy(GroupTexts(blocks, all), budget)
  {
    hide Join, Greedy;
    FlattenAppend(groups, filling);
    if current != [] {
      GroupedOneMore(blocks, out, groups, filling);
    } else {
      assert GroupTexts(blocks, groups) + [] == GroupTexts(blocks, groups);
    }
  }
}
