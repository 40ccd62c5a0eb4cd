/**
 The string operations the Markdown chunker relies on, and its line patterns read
 character by character: fence markers, ATX headings, table rows and blank lines.
 */
module MarkdownText {
  import opened Common

  /** What `str.isspace` accepts, and so what `strip` removes. */
  predicate IsSpace(c: char) {
    var n := c as int;
    9 <= n <= 13 || 0x1C <= n <= 0x20 || n == 0x85 || n == 0xA0 || n == 0x1680 || 0x2000 <= n <= 0x200A
    || n == 0x2028 || n == 0x2029 || n == 0x202F || n == 0x205F || n == 0x3000
  }

  function TextStart(s: string): (n: nat)
    ensures n <= |s|
    ensures forall i :: 0 <= i < n ==> IsSpace(s[i])
    ensures n < |s| ==> !IsSpace(s[n])
  {
    if s == [] || !IsSpace(s[0]) then 0 else 1 + TextStart(s[1..])
  }

  function TextEnd(s: string): (n: nat)
    ensures n <= |s|
    ensures forall i :: n <= i < |s| ==> IsSpace(s[i])
    ensures n > 0 ==> !IsSpace(s[n - 1])
  {
    if s == [] then 0
    else if IsSpace(s[|s| - 1]) then TextEnd(s[..|s| - 1])
    else |s|
  }

  function Strip(s: string): (r: string)
    ensures r != [] ==> TextStart(s) < TextEnd(s) && r == s[TextStart(s)..TextEnd(s)]
    ensures r == [] <==> forall i :: 0 <= i < |s| ==> IsSpace(s[i])
    ensures |r| <= |s|
  {
    if TextStart(s) < TextEnd(s) then s[TextStart(s)..TextEnd(s)] else []
  }

  function Join(parts: seq<string>, separator: string): string {
    if parts == [] then []
    else if |parts| == 1 then parts[0]
    else Join(parts[..|parts| - 1], separator) + separator + parts[|parts| - 1]
  }

  lemma {:induction false} JoinStartsWithFirst(parts: seq<string>, separator: string)
    requires parts != []
    ensures parts[0] <= Join(parts, separator)
    ensures |parts| > 1 && separator != [] ==>
              && |parts[0]| < |Join(parts, separator)|
              && Join(parts, separator)[|parts[0]|] == separator[0]
  {
    if |parts| > 1 {
      JoinStartsWithFirst(parts[..|parts| - 1], separator);
    }
  }

  function LeadingRun(s: string, c: char): (n: nat)
    ensures n <= |s|
    ensures forall i :: 0 <= i < n ==> s[i] == c
    ensures n < |s| ==> s[n] != c
  {
    if s == [] || s[0] != c then 0 else 1 + LeadingRun(s[1..], c)
  }

  function TrailingRun(s: string, c: char): (n: nat)
    ensures n <= |s|
    ensures forall i :: |s| - n <= i < |s| ==> s[i] == c
    ensures n < |s| ==> s[|s| - n - 1] != c
  {
    if s == [] || s[|s| - 1] != c then 0 else 1 + TrailingRun(s[..|s| - 1], c)
  }

  datatype Marker = Marker(symbol: char, length: nat)

  /** Up to three spaces, then three or more backticks or tildes. */
  function FenceMarker(line: string): Option<Marker> {
    var indent := LeadingRun(line, ' ');
    if indent > 3 || indent == |line| then None
    else
      var symbol := line[indent];
      var length := LeadingRun(line[indent..], symbol);
      if (symbol == '`' || symbol == '~') && length >= 3 then Some(Marker(symbol, length)) else None
  }

  /** A marker of the same symbol, at least as long as the opening one, with nothing behind it. */
  predicate ClosesFence(line: string, open: Marker) {
    var m := FenceMarker(line);
    m.Some? && m.value.symbol == open.symbol && m.value.length >= open.length
    && (|Strip(line)| <= m.value.length || Strip(Strip(line)[m.value.length..]) == [])
  }

  datatype Heading = Heading(level: nat, title: string, line: string)

  /** Removes closing hashes that have a space or tab in front of them. */
  function DropClosingHashes(title: string): string {
    var rest := |title| - TrailingRun(title, '#');
    if 0 < rest < |title| && (title[rest - 1] == ' ' || title[rest - 1] == '\t') then title[..rest] else title
  }

  /** ATX headings, section 4.2 of CommonMark 0.31.2. */
  function HeadingOf(line: string): (r: Option<Heading>)
    ensures r.Some? ==> 1 <= r.value.level <= 6
  {
    var indent := LeadingRun(line, ' ');
    var level := LeadingRun(line[indent..], '#');
    var after := line[indent + level..];
    if indent <= 3 && 1 <= level <= 6 && (after == [] || after[0] == ' ' || after[0] == '\t') then
      Some(Heading(level, TitleOf(after), line))
    else None
  }

  function TitleOf(after: string): string {
    Strip(DropClosingHashes(Strip(after)))
  }

  predicate IsTableRow(line: string) {
    TextStart(line) < |line| && line[TextStart(line)] == '|'
  }

  predicate IsBlank(line: string) {
    Strip(line) == []
  }

  /** The text before the first newline. */
  function FirstLine(block: string): (r: string)
    ensures '\n' !in r
  {
    if block == [] || block[0] == '\n' then [] else [block[0]] + FirstLine(block[1..])
  }

  /** The chunker's test on a finished block: it opens with a fence marker or a table row. */
  predicate IsAtomic(block: string) {
    FenceMarker(FirstLine(block)).Some? || IsTableRow(block)
  }

  lemma {:induction false} FirstLineOfPrefix(line: string, block: string)
    requires '\n' !in line && line <= block
    requires |line| < |block| ==> block[|line|] == '\n'
    ensures FirstLine(block) == line
  {
    if line != [] {
      assert block[0] == line[0] && line[0] in line;
      FirstLineOfPrefix(line[1..], block[1..]);
      assert line == [line[0]] + line[1..];
    }
  }

  /** A block's own first line decides whether it is atomic, unless that line is blank. */
  lemma AtomicByFirstLine(lines: seq<string>)
    requires lines != [] && '\n' !in lines[0] && !IsBlank(lines[0])
    ensures IsAtomic(Join(lines, "\n")) <==> FenceMarker(lines[0]).Some? || IsTableRow(lines[0])
  {
    var block := Join(lines, "\n");
    JoinStartsWithFirst(lines, "\n");
    FirstLineOfPrefix(lines[0], block);
    var first := lines[0];
    var n := TextStart(first);
    assert n < |first|;
    assert forall i :: 0 <= i < |first| ==> block[i] == first[i];
    assert TextStart(block) == n;
  }

  // ---- what the patterns match ----

  function Repeated(c: char, n: nat): (s: string)
    ensures |s| == n && forall i :: 0 <= i < n ==> s[i] == c
  {
    seq(n, _ => c)
  }

  /** A run of one character with something else behind it. */
  lemma RunIs(s: string, c: char, n: nat, rest: string)
    ensures s == Repeated(c, n) + rest && (rest == [] || rest[0] != c) ==> LeadingRun(s, c) == n && s[n..] == rest
    ensures s == Repeated(c, LeadingRun(s, c)) + s[LeadingRun(s, c)..]
  {
    if s == Repeated(c, n) + rest && (rest == [] || rest[0] != c) {
      var m := LeadingRun(s, c);
      assert n < |s| ==> s[n] == rest[0];
    }
    var front := s[..LeadingRun(s, c)];
    assert front == Repeated(c, |front|) && s == front + s[LeadingRun(s, c)..];
  }

  /** Indented by at most three spaces, a run of one symbol, and what does not go on with it. */
  predicate IsRunLine(line: string, indent: nat, symbol: char, length: nat, rest: string) {
    && indent <= 3 && line == Repeated(' ', indent) + (Repeated(symbol, length) + rest)
    && (rest == [] || rest[0] != symbol)
  }

  lemma RunLineParts(line: string, indent: nat, symbol: char, length: nat, rest: string)
    requires IsRunLine(line, indent, symbol, length, rest) && length > 0 && symbol != ' '
    ensures LeadingRun(line, ' ') == indent && LeadingRun(line[indent..], symbol) == length
    ensures line[indent..][length..] == rest && line[indent + length..] == rest
    ensures indent < |line| && line[indent] == symbol
  {
    hide LeadingRun;
    var tail := Repeated(symbol, length) + rest;
    assert tail[0] == symbol;
    RunIs(line, ' ', indent, tail);
    RunIs(tail, symbol, length, rest);
  }

  lemma RunLineOf(line: string, symbol: char)
    requires LeadingRun(line, ' ') <= 3
    ensures var indent := LeadingRun(line, ' ');
            var length := LeadingRun(line[indent..], symbol);
            IsRunLine(line, indent, symbol, length, line[indent..][length..])
  {
    hide LeadingRun;
    var indent := LeadingRun(line, ' ');
    RunIs(line, ' ', 0, []);
    RunIs(line[indent..], symbol, 0, []);
  }

  /** The fence pattern: up to three spaces and then three or more backticks or tildes, as many as there are. */
  lemma FenceMarkerIff(line: string, m: Marker)
    ensures FenceMarker(line) == Some(m) <==>
              && (m.symbol == '`' || m.symbol == '~') && m.length >= 3
              && exists indent, rest :: IsRunLine(line, indent, m.symbol, m.length, rest)
  {
    hide LeadingRun, IsRunLine;
    if FenceMarker(line) == Some(m) {
      RunLineOf(line, m.symbol);
    }
    if (m.symbol == '`' || m.symbol == '~') && m.length >= 3
       && exists indent, rest :: IsRunLine(line, indent, m.symbol, m.length, rest) {
      var indent, rest :| IsRunLine(line, indent, m.symbol, m.length, rest);
      RunLineParts(line, indent, m.symbol, m.length, rest);
      RunLineIndent(line, indent, m.symbol, m.length, rest);
    }
  }

  lemma RunLineIndent(line: string, indent: nat, symbol: char, length: nat, rest: string)
    requires IsRunLine(line, indent, symbol, length, rest)
    ensures indent <= 3 && |line| == indent + length + |rest| && (rest == [] || rest[0] != symbol)
  {
  }

  /** The heading pattern: up to three spaces, one to six hashes, and then nothing or a space or tab. */
  lemma HeadingIff(line: string, level: nat)
    ensures HeadingOf(line).Some? && HeadingOf(line).value.level == level <==>
              && 1 <= level <= 6
              && exists indent, after :: IsRunLine(line, indent, '#', level, after)
                                         && (after == [] || after[0] == ' ' || after[0] == '\t')
  {
    hide LeadingRun, IsRunLine, TitleOf;
    if HeadingOf(line).Some? && HeadingOf(line).value.level == level {
      RunLineOf(line, '#');
      var indent := LeadingRun(line, ' ');
      assert line[indent..][level..] == line[indent + level..];
    }
    if 1 <= level <= 6 && exists indent, after :: IsRunLine(line, indent, '#', level, after)
                                                  && (after == [] || after[0] == ' ' || after[0] == '\t') {
      var indent, after :| IsRunLine(line, indent, '#', level, after)
                           && (after == [] || after[0] == ' ' || after[0] == '\t');
      RunLineParts(line, indent, '#', level, after);
      RunLineIndent(line, indent, '#', level, after);
    }
  }

  /** A table row is a line whose first character that is not whitespace is a pipe. */
  lemma TableRowIff(line: string)
    ensures IsTableRow(line) <==>
              exists n :: 0 <= n < |line| && line[n] == '|' && forall i :: 0 <= i < n ==> IsSpace(line[i])
  {
    var start := TextStart(line);
    assert !IsSpace('|');
    hide IsSpace, TextStart;
    if n :| 0 <= n < |line| && line[n] == '|' && forall i :: 0 <= i < n ==> IsSpace(line[i]) {
      assert start == n;
    }
  }

  lemma JoinLast(parts: seq<string>, separator: string)
    requires |parts| > 1
    ensures var n := |parts| - 1; Join(parts, separator) == Join(parts[..n], separator) + separator + parts[n]
  {
  }

  lemma JoinSingle(part: string, separator: string)
    ensures Join([part], separator) == part
  {
  }

  /** Joining puts the separator between parts and nothing else. */
  lemma {:induction false} JoinIs(a: seq<string>, b: seq<string>, separator: string)
    requires a != [] && b != []
    ensures Join(a + b, separator) == Join(a, separator) + separator + Join(b, separator)
    ensures |a| == 1 ==> Join(a, separator) == a[0]
  {
    hide Join;
    var n := |b| - 1;
    JoinSingle(a[0], separator);
    assert |a| == 1 ==> a == [a[0]];
    assert (a + b)[..|a + b| - 1] == a + b[..n];
    JoinLast(a + b, separator);
    if n == 0 {
      assert a + b[..n] == a && b == [b[0]];
      JoinSingle(b[0], separator);
    } else {
      JoinIs(a, b[..n], separator);
      JoinLast(b, separator);
      var x, y := Join(a, separator), Join(b[..n], separator);
      assert x + separator + y + separator + b[n] == x + separator + (y + separator + b[n]);
    }
  }

  // ---- closing a fence ----

  predicate AllSpace(s: string) {
    forall i :: 0 <= i < |s| ==> IsSpace(s[i])
  }

  /** What is left of a stripped line behind its first n characters is blank exactly when the rest of the line is. */
  lemma StrippedRest(line: string, indent: nat, n: nat)
    requires indent + n <= |line| && n > 0 && TextStart(line) == indent
    requires !IsSpace(line[indent]) && !IsSpace(line[indent + n - 1])
    ensures |Strip(line)| <= n || Strip(Strip(line)[n..]) == [] <==> AllSpace(line[indent + n..])
  {
    hide IsSpace, TextStart;
    var end, rest := TextEnd(line), line[indent + n..];
    var s := Strip(line);
    assert s == line[indent..end] && s[n..] == line[indent + n..end];
    hide TextEnd;
    if end > indent + n {
      assert rest[end - 1 - indent - n] == line[end - 1] == s[n..][end - 1 - indent - n];
    } else {
      assert forall i :: 0 <= i < |rest| ==> rest[i] == line[indent + n + i];
    }
  }

  /** A fence closes at a line with at least as many of its own symbol as opened it, and only whitespace else. */
  lemma ClosesFenceIff(line: string, open: Marker)
    requires (open.symbol == '`' || open.symbol == '~') && open.length >= 3
    ensures ClosesFence(line, open) <==>
              exists indent: nat, n: nat, rest ::
                IsRunLine(line, indent, open.symbol, n, rest) && n >= open.length && AllSpace(rest)
  {
    hide LeadingRun, IsRunLine, FenceMarker, Strip, AllSpace;
    forall n: nat, indent: nat, rest | n >= 3 && IsRunLine(line, indent, open.symbol, n, rest)
      ensures FenceMarker(line) == Some(Marker(open.symbol, n))
      ensures |Strip(line)| <= n || Strip(Strip(line)[n..]) == [] <==> AllSpace(rest)
    {
      FenceMarkerIff(line, Marker(open.symbol, n));
      MarkedLine(line, indent, open.symbol, n, rest);
    }
    if FenceMarker(line).Some? {
      FenceMarkerIff(line, FenceMarker(line).value);
    }
  }

  lemma StartsBehind(line: string, indent: nat)
    requires indent < |line| && (line[indent] == '`' || line[indent] == '~')
    requires forall i :: 0 <= i < indent ==> line[i] == ' '
    ensures TextStart(line) == indent && !IsSpace('`') && !IsSpace('~')
  {
    assert IsSpace(' ') && !IsSpace('`') && !IsSpace('~');
    hide IsSpace;
  }

  lemma MarkedLine(line: string, indent: nat, symbol: char, n: nat, rest: string)
    requires (symbol == '`' || symbol == '~') && n > 0 && IsRunLine(line, indent, symbol, n, rest)
    ensures |Strip(line)| <= n || Strip(Strip(line)[n..]) == [] <==> AllSpace(rest)
  {
    RunLineParts(line, indent, symbol, n, rest);
    RunLineIndent(line, indent, symbol, n, rest);
    hide LeadingRun, Strip;
    assert line[indent + n - 1] == symbol;
    assert forall i :: 0 <= i < indent ==> line[i] == ' ';
    hide IsRunLine, AllSpace;
    StartsBehind(line, indent);
    StrippedRest(line, indent, n);
  }

  // ---- a heading's title ----

  lemma StripOnce(s: string)
    ensures Strip(Strip(s)) == Strip(s)
  {
    hide IsSpace, TextStart, TextEnd;
    var r := Strip(s);
    if r != [] {
      assert r[0] == s[TextStart(s)] && r[|r| - 1] == s[TextEnd(s) - 1];
      assert TextStart(r) == 0 && TextEnd(r) == |r|;
    }
  }

  lemma StripBefore(s: string, c: char)
    requires IsSpace(c)
    ensures Strip(s + [c]) == Strip(s)
  {
    var t := s + [c];
    assert t[..|s|] == s && TextEnd(t) == TextEnd(s);
    hide IsSpace, TextStart, TextEnd;
    if TextStart(s) < |s| {
      var start := TextStart(s);
      assert t[start] == s[start] && forall i :: 0 <= i < start ==> t[i] == s[i];
      assert TextStart(t) == start;
      assert t[start..TextEnd(s)] == s[start..TextEnd(s)];
    } else {
      assert forall i :: 0 <= i < |t| ==> IsSpace(t[i]);
    }
  }

  /** A text, a space or tab, and hashes to the end. */
  predicate IsClosed(s: string, text: string, gap: char, n: nat) {
    n >= 1 && (gap == ' ' || gap == '\t') && s == text + [gap] + Repeated('#', n)
  }

  lemma ClosingHashes(s: string, text: string, gap: char, n: nat)
    requires IsClosed(s, text, gap, n)
    ensures DropClosingHashes(s) == text + [gap]
  {
    var run := TrailingRun(s, '#');
    assert s[|text|] == gap;
    assert forall i :: |text| < i < |s| ==> s[i] == '#';
    assert |s| - run == |text| + 1;
    assert s[..|text| + 1] == text + [gap];
  }

  lemma NoClosingHashes(s: string)
    requires forall text, gap, n: nat :: !IsClosed(s, text, gap, n)
    ensures DropClosingHashes(s) == s
  {
    var n := TrailingRun(s, '#');
    var rest := |s| - n;
    if 0 < rest < |s| && (s[rest - 1] == ' ' || s[rest - 1] == '\t') {
      assert s[rest..] == Repeated('#', n);
      assert s == s[..rest - 1] + [s[rest - 1]] + s[rest..];
      assert IsClosed(s, s[..rest - 1], s[rest - 1], n);
    }
  }

  /** The title is what stands behind the hashes, without closing hashes and the whitespace around it. */
  lemma HeadingTitle(line: string, indent: nat, level: nat, after: string)
    requires 1 <= level <= 6 && IsRunLine(line, indent, '#', level, after)
    requires after == [] || after[0] == ' ' || after[0] == '\t'
    ensures HeadingOf(line).Some? && HeadingOf(line).value.level == level && HeadingOf(line).value.line == line
    ensures forall text, gap, n: nat :: IsClosed(Strip(after), text, gap, n) ==>
              HeadingOf(line).value.title == Strip(text)
    ensures (forall text, gap, n: nat :: !IsClosed(Strip(after), text, gap, n)) ==>
              HeadingOf(line).value.title == Strip(after)
  {
    HeadingIs(line, indent, level, after);
    hide *;
    TitleIs(after);
  }

  lemma HeadingIs(line: string, indent: nat, level: nat, after: string)
    requires 1 <= level <= 6 && IsRunLine(line, indent, '#', level, after)
    requires after == [] || after[0] == ' ' || after[0] == '\t'
    ensures HeadingOf(line) == Some(Heading(level, TitleOf(after), line))
  {
    hide *;
    RunLineParts(line, indent, '#', level, after);
    RunLineIndent(line, indent, '#', level, after);
    HeadingByParts(line, indent, level, after);
  }

  lemma HeadingByParts(line: string, indent: nat, level: nat, after: string)
    requires LeadingRun(line, ' ') == indent <= 3 && LeadingRun(line[indent..], '#') == level && 1 <= level <= 6
    requires indent + level <= |line| && line[indent + level..] == after
    requires after == [] || after[0] == ' ' || after[0] == '\t'
    ensures HeadingOf(line) == Some(Heading(level, TitleOf(after), line))
  {
    hide TitleOf, LeadingRun;
  }

  lemma TitleIs(after: string)
    ensures var s := Strip(after);
            && (forall text, gap, n: nat :: IsClosed(s, text, gap, n) ==> TitleOf(after) == Strip(text))
            && ((forall text, gap, n: nat :: !IsClosed(s, text, gap, n)) ==> TitleOf(after) == s)
  {
    var s := Strip(after);
    assert TitleOf(after) == Strip(DropClosingHashes(s));
    hide *;
    forall text, gap, n: nat | IsClosed(s, text, gap, n)
      ensures Strip(DropClosingHashes(s)) == Strip(text)
    {
      ClosingHashes(s, text, gap, n);
      GapIsSpace(s, text, gap, n);
      StripBefore(text, gap);
    }
    if forall text, gap, n: nat :: !IsClosed(s, text, gap, n) {
      NoClosingHashes(s);
      StripOnce(after);
    }
  }

  lemma GapIsSpace(s: string, text: string, gap: char, n: nat)
    requires IsClosed(s, text, gap, n)
    ensures IsSpace(gap)
  {
  }
}
