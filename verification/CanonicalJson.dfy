/**
 The canonical JSON printer that invocation digests are computed over, and a
 parser that undoes it. Objects are maps, so key order in the input is gone
 before printing starts; numbers are the tokens the number formatter printed.
 */
module CanonicalJson {
  import opened Common

  predicate IsNumberChar(c: char) {
    '0' <= c <= '9' || c == '-' || c == '+' || c == '.' || c == 'e' || c == 'E'
  }

  predicate IsNumberToken(t: string) {
    t != [] && ('0' <= t[0] <= '9' || t[0] == '-') && forall i :: 0 <= i < |t| ==> IsNumberChar(t[i])
  }

  type Token = t: string | IsNumberToken(t) witness "0"

  datatype Json =
    | Null
    | Bool(b: bool)
    | Number(token: Token)
    | Str(s: string)
    | Arr(items: seq<Json>)
    | Obj(members: map<string, Json>)

  // ---- printing ----

  function HexDigit(n: nat): char
    requires n < 16
  {
    if n < 10 then '0' + n as char else 'a' + (n - 10) as char
  }

  /** String escapes of RFC 8259, section 7, as the serializer chooses them. */
  function EscapeChar(c: char): string {
    match c
    case '\"' => "\\\""
    case '\\' => "\\\\"
    case '\n' => "\\n"
    case '\r' => "\\r"
    case '\t' => "\\t"
    case _ =>
      if c as int == 8 then "\\b"
      else if c as int == 12 then "\\f"
      else if c as int < 32 then "\\u00" + [HexDigit(c as int / 16), HexDigit(c as int % 16)]
      else [c]
  }

  function Escape(s: string): string {
    if s == [] then [] else EscapeChar(s[0]) + Escape(s[1..])
  }

  function Quote(s: string): string {
    "\"" + Escape(s) + "\""
  }

  function Canonical(v: Json): string
    decreases v, 1
  {
    match v
    case Null => "null"
    case Bool(b) => if b then "true" else "false"
    case Number(token) => token
    case Str(s) => Quote(s)
    case Arr(items) => "[" + ItemsFrom(items, 0) + "]"
    case Obj(members) => "{" + MembersFrom(v, SortedKeys(members.Keys), 0) + "}"
  }

  function Comma(i: nat): string {
    if i > 0 then "," else ""
  }

  /** Items i and on, each behind its comma. */
  function ItemsFrom(items: seq<Json>, i: nat): string
    requires i <= |items|
    decreases items, |items| - i
  {
    if i == |items| then "" else Comma(i) + (Canonical(items[i]) + ItemsFrom(items, i + 1))
  }

  function MembersFrom(v: Json, keys: seq<string>, i: nat): string
    requires v.Obj? && i <= |keys| && forall k :: k in keys ==> k in v.members
    decreases v, 0, |keys| - i
  {
    if i == |keys| then "" else
      Comma(i) + (MemberText(v, keys, i) + MembersFrom(v, keys, i + 1))
  }

  function MemberText(v: Json, keys: seq<string>, i: nat): string
    requires v.Obj? && i < |keys| && forall k :: k in keys ==> k in v.members
    decreases v, 0, |keys| - i, 0
  {
    Quote(keys[i]) + ":" + Canonical(v.members[keys[i]])
  }

  /** The growing output of the printer. */
  class Output {
    var text: string

    constructor ()
      ensures text == ""
    {
      text := "";
    }
  }

  /** The printer itself: appends to `out` while it walks the value. */
  method WriteCanonical(value: Json, out: Output)
    modifies out
    ensures out.text == old(out.text) + Canonical(value)
    decreases value, 2
  {
    match value {
      case Null => out.text := out.text + "null";
      case Bool(b) => out.text := out.text + (if b then "true" else "false");
      case Number(token) => out.text := out.text + token;
      case Str(s) => out.text := out.text + Quote(s);
      case Arr(items) => WriteItems(items, out);
      case Obj(_) => WriteMembers(value, out);
    }
  }

  method WriteItems(items: seq<Json>, out: Output)
    modifies out
    ensures out.text == old(out.text) + ("[" + ItemsFrom(items, 0) + "]")
    decreases items, |items| + 1
  {
    ghost var start := out.text;
    out.text := out.text + "[";
    ghost var done := "[";
    for i := 0 to |items|
      invariant out.text == start + done
      invariant done + ItemsFrom(items, i) == "[" + ItemsFrom(items, 0)
    {
      ghost var before := done;
      if i > 0 {
        out.text := out.text + ",";
      }
      WriteCanonical(items[i], out);
      Appended(start, before, Comma(i), Canonical(items[i]), ItemsFrom(items, i + 1));
      done := before + (Comma(i) + Canonical(items[i]));
    }
    out.text := out.text + "]";
  }

  method WriteMembers(value: Json, out: Output)
    requires value.Obj?
    modifies out
    ensures out.text == old(out.text) + ("{" + MembersFrom(value, SortedKeys(value.members.Keys), 0) + "}")
    decreases value, 1
  {
    hide *;
    ghost var start := out.text;
    out.text := out.text + "{";
    var keys := SortedKeys(value.members.Keys);
    ghost var done := "{";
    for i := 0 to |keys|
      invariant out.text == start + done
      invariant done + MembersFrom(value, keys, i) == "{" + MembersFrom(value, keys, 0)
    {
      MemberWritten(value, keys, i, start, done);
      if i > 0 {
        out.text := out.text + ",";
      }
      out.text := out.text + (Quote(keys[i]) + ":");
      WriteCanonical(value.members[keys[i]], out);
      done := done + (Comma(i) + MemberText(value, keys, i));
    }
    MembersStep(value, keys, |keys|);
    assert done == "{" + MembersFrom(value, keys, 0);
    out.text := out.text + "}";
    assert start + done + "}" == start + (done + "}");
  }

  /** The three appends of one member, seen from the whole object's text. */
  lemma MemberWritten(v: Json, keys: seq<string>, i: nat, start: string, done: string)
    requires v.Obj? && i < |keys| && forall k :: k in keys ==> k in v.members
    ensures var before := if i > 0 then start + done + "," else start + done;
            before + (Quote(keys[i]) + ":") + Canonical(v.members[keys[i]])
            == start + (done + (Comma(i) + MemberText(v, keys, i)))
    ensures done + (Comma(i) + MemberText(v, keys, i)) + MembersFrom(v, keys, i + 1) == done + MembersFrom(v, keys, i)
  {
    hide Quote, Canonical, MembersFrom, MemberText;
    MembersStep(v, keys, i);
    MemberTextIs(v, keys, i);
    var comma, name, value := Comma(i), Quote(keys[i]) + ":", Canonical(v.members[keys[i]]);
    Appended(start, done, comma, name + value, MembersFrom(v, keys, i + 1));
    assert start + done + comma + (name + value) == start + done + comma + name + value;
    assert i == 0 ==> start + done + comma == start + done;
  }

  lemma Appended(start: string, done: string, comma: string, piece: string, rest: string)
    ensures start + done + comma + piece == start + (done + (comma + piece))
    ensures done + (comma + piece) + rest == done + (comma + (piece + rest))
  {
  }

  // ---- parsing ----

  function HexValue(c: char): Option<nat> {
    if '0' <= c <= '9' then Some((c - '0') as nat)
    else if 'a' <= c <= 'f' then Some((c - 'a') as nat + 10)
    else None
  }

  /** The number four hexadecimal digits stand for. */
  function HexNumber(s: string): Option<nat>
    requires |s| == 4
  {
    if HexValue(s[0]).None? || HexValue(s[1]).None? || HexValue(s[2]).None? || HexValue(s[3]).None? then None
    else Some(HexValue(s[0]).value * 4096 + HexValue(s[1]).value * 256 + HexValue(s[2]).value * 16
              + HexValue(s[3]).value)
  }

  /**
   One possibly escaped character and what follows it: any escape of RFC 8259, section 7, with digits in
   lower case; a control character has to be escaped. Two escapes for one character are not read.
   */
  function ReadChar(s: string): (r: Option<(char, string)>)
    ensures r.Some? ==> |r.value.1| < |s|
  {
    if s == [] || s[0] as int < 32 then None
    else if s[0] != '\\' then Some((s[0], s[1..]))
    else if |s| < 2 then None
    else match s[1]
         case '\"' => Some(('\"', s[2..]))
         case '\\' => Some(('\\', s[2..]))
         case '/' => Some(('/', s[2..]))
         case 'n' => Some(('\n', s[2..]))
         case 'r' => Some(('\r', s[2..]))
         case 't' => Some(('\t', s[2..]))
         case 'b' => Some((8 as char, s[2..]))
         case 'f' => Some((12 as char, s[2..]))
         case 'u' =>
           if |s| < 6 || HexNumber(s[2..6]).None? then None
           else
             var n := HexNumber(s[2..6]).value;
             if n < 0xD800 || 0xE000 <= n < 0x10000 then Some((n as char, s[6..])) else None
         case _ => None
  }

  /** The rest of a string whose opening quote has been read. */
  function ReadString(s: string): (r: Option<(string, string)>)
    ensures r.Some? ==> |r.value.1| < |s|
    decreases |s|
  {
    if s == [] then None
    else if s[0] == '\"' then Some(([], s[1..]))
    else match ReadChar(s)
         case None => None
         case Some((c, tail)) =>
           match ReadString(tail)
           case None => None
           case Some((t, rest)) => Some(([c] + t, rest))
  }

  function NumberPrefix(s: string): (n: nat)
    ensures n <= |s|
  {
    if s == [] || !IsNumberChar(s[0]) then 0 else 1 + NumberPrefix(s[1..])
  }

  function Expect(s: string, word: string, v: Json): (r: Option<(Json, string)>)
    requires word != []
    ensures r.Some? ==> |r.value.1| < |s|
  {
    if word <= s then Some((v, s[|word|..])) else None
  }

  function ParseValue(s: string): (r: Option<(Json, string)>)
    ensures r.Some? ==> |r.value.1| < |s|
    decreases |s|, 1
  {
    if s == [] then None
    else if s[0] == 'n' then Expect(s, "null", Null)
    else if s[0] == 't' then Expect(s, "true", Bool(true))
    else if s[0] == 'f' then Expect(s, "false", Bool(false))
    else if s[0] == '\"' then
      match ReadString(s[1..])
      case None => None
      case Some((t, rest)) => Some((Str(t), rest))
    else if s[0] == '[' then
      if |s| > 1 && s[1] == ']' then Some((Arr([]), s[2..]))
      else match ParseItems(s[1..])
           case None => None
           case Some((items, rest)) => Some((Arr(items), rest))
    else if s[0] == '{' then
      if |s| > 1 && s[1] == '}' then Some((Obj(map[]), s[2..]))
      else match ParseMembers(s[1..])
           case None => None
           case Some((members, rest)) => Some((Obj(members), rest))
    else
      var n := NumberPrefix(s);
      if IsNumberToken(s[..n]) then Some((Number(s[..n]), s[n..])) else None
  }

  /** One or more items up to and including the closing bracket. */
  function ParseItems(s: string): (r: Option<(seq<Json>, string)>)
    ensures r.Some? ==> |r.value.1| < |s|
    decreases |s|, 2
  {
    match ParseValue(s)
    case None => None
    case Some((v, tail)) =>
      if tail == [] then None
      else if tail[0] == ']' then Some(([v], tail[1..]))
      else if tail[0] != ',' then None
      else match ParseItems(tail[1..])
           case None => None
           case Some((items, rest)) => Some(([v] + items, rest))
  }

  function ParseMembers(s: string): (r: Option<(map<string, Json>, string)>)
    ensures r.Some? ==> |r.value.1| < |s|
    decreases |s|, 2
  {
    if s == [] || s[0] != '\"' then None
    else match ReadString(s[1..])
         case None => None
         case Some((key, tail)) =>
           if tail == [] || tail[0] != ':' then None
           else match ParseValue(tail[1..])
                case None => None
                case Some((v, after)) =>
                  if after == [] then None
                  else if after[0] == '}' then Some((map[key := v], after[1..]))
                  else if after[0] != ',' then None
                  else match ParseMembers(after[1..])
                       case None => None
                       case Some((members, rest)) => Some((map[key := v] + members, rest))
  }

  // ---- the parser undoes the printer ----

  lemma ReadCharUndoesEscapeChar(c: char, tail: string)
    ensures ReadChar(EscapeChar(c) + tail) == Some((c, tail))
    ensures EscapeChar(c) != [] && EscapeChar(c)[0] != '\"'
  {
    var e := EscapeChar(c);
    assert (e + tail)[|e|..] == tail;
    if c as int < 32 && e[1] == 'u' {
      var high, low := HexDigit(c as int / 16), HexDigit(c as int % 16);
      assert HexValue(high).value == c as int / 16 && HexValue(low).value == c as int % 16;
      assert (e + tail)[2..6] == ['0', '0', high, low];
    }
  }

  lemma {:induction false} ReadStringUndoesEscape(s: string, rest: string)
    ensures ReadString(Escape(s) + "\"" + rest) == Some((s, rest))
  {
    var text := Escape(s) + "\"" + rest;
    if s == [] {
      assert text[1..] == rest;
    } else {
      var tail := Escape(s[1..]) + "\"" + rest;
      assert text == EscapeChar(s[0]) + tail;
      ReadCharUndoesEscapeChar(s[0], tail);
      ReadStringUndoesEscape(s[1..], rest);
      assert text[0] == EscapeChar(s[0])[0];
      assert [s[0]] + s[1..] == s;
    }
  }

  // ---- of all texts of a string, the printed one is the shortest ----

  /** An escape of a character is never shorter than the printed one. */
  lemma ShortestChar(text: string)
    requires ReadChar(text).Some? && text[0] != '\"'
    ensures var (c, tail) := ReadChar(text).value;
            |EscapeChar(c)| + |tail| <= |text|
  {
    if text[0] == '\\' && text[1] != 'u' {
      assert ReadChar(text).value.1 == text[2..];
    }
  }

  /** No text that reads as this string is shorter than its printed text. */
  lemma {:induction false} PrintedIsShortest(text: string, s: string, rest: string)
    requires ReadString(text) == Some((s, rest))
    ensures |Quote(s) + rest| <= |"\"" + text|
    decreases |text|
  {
    if text[0] != '\"' {
      ShortestChar(text);
      var (c, tail) := ReadChar(text).value;
      PrintedIsShortest(tail, ReadString(tail).value.0, rest);
      assert s[0] == c && s[1..] == ReadString(tail).value.0;
    }
  }

  lemma {:induction false} NothingToEscape(s: string)
    requires forall i :: 0 <= i < |s| ==> s[i] != '\"' && s[i] != '\\' && s[i] as int >= 32
    ensures Escape(s) == s
  {
    if s != [] {
      NothingToEscape(s[1..]);
      assert s == [s[0]] + s[1..];
    }
  }

  /** A string without quotes, backslashes and control characters is printed as it is, between quotes. */
  lemma PlainPrintedAsIs(s: string)
    requires forall i :: 0 <= i < |s| ==> s[i] != '\"' && s[i] != '\\' && s[i] as int >= 32
    ensures Canonical(Str(s)) == "\"" + s + "\""
  {
    NothingToEscape(s);
  }

  /** Where a number cannot go on: what follows a value in printed text. */
  predicate Delimited(rest: string) {
    rest == [] || !IsNumberChar(rest[0])
  }

  lemma {:induction false} NumberPrefixOfToken(t: string, rest: string)
    requires Delimited(rest) && forall i :: 0 <= i < |t| ==> IsNumberChar(t[i])
    ensures NumberPrefix(t + rest) == |t|
  {
    if t == [] {
      assert t + rest == rest;
    } else {
      assert (t + rest)[1..] == t[1..] + rest;
      NumberPrefixOfToken(t[1..], rest);
    }
  }

  lemma CanonicalHead(v: Json)
    ensures Canonical(v) != []
    ensures var c := Canonical(v)[0]; c != ']' && c != '}'
  {
  }

  lemma {:induction false} ParseUndoesPrint(v: Json, rest: string)
    requires Delimited(rest)
    ensures ParseValue(Canonical(v) + rest) == Some((v, rest))
    decreases v, 1
  {
    hide ParseValue, ParseItems, ParseMembers, ItemsFrom, MembersFrom, MemberText;
    match v {
      case Null | Bool(_) | Number(_) | Str(_) => ScalarUndone(v, rest);
      case Arr(items) =>
        if items == [] {
          EmptyUndone(rest);
        } else {
          ItemsUndone(items, 0, rest);
          ArrayUndone(items, rest);
        }
      case Obj(members) =>
        var keys := SortedKeys(members.Keys);
        if keys == [] {
          assert members.Keys == {} && members == map[];
          EmptyUndone(rest);
        } else {
          MembersUndone(v, keys, 0, rest);
          ObjectUndone(v, keys, rest);
        }
    }
  }

  lemma ScalarUndone(v: Json, rest: string)
    requires Delimited(rest)
    requires v.Null? || v.Bool? || v.Number? || v.Str?
    ensures ParseValue(Canonical(v) + rest) == Some((v, rest))
  {
    match v {
      case Null => ExpectUndone("null", v, rest);
      case Bool(b) => ExpectUndone(if b then "true" else "false", v, rest);
      case Number(t) =>
        NumberPrefixOfToken(t, rest);
        assert (t + rest)[..|t|] == t && (t + rest)[|t|..] == rest;
      case Str(s) => StringUndone(s, rest);
      case _ =>
    }
  }

  lemma StringUndone(s: string, rest: string)
    ensures ParseValue(Quote(s) + rest) == Some((Str(s), rest))
  {
    hide Escape;
    ReadStringUndoesEscape(s, rest);
    var body := Escape(s) + "\"" + rest;
    assert Quote(s) + rest == "\"" + body;
    assert ("\"" + body)[1..] == body;
  }

  lemma ExpectUndone(word: string, v: Json, rest: string)
    requires word != []
    ensures Expect(word + rest, word, v) == Some((v, rest))
  {
    assert (word + rest)[|word|..] == rest;
    assert word <= word + rest;
  }

  /** Text pieces regrouped: head, body pieces, closing bracket, rest. */
  lemma Regroup(open: string, a: string, b: string, close: string, rest: string)
    ensures (open + (a + b) + close) + rest == open + (a + b + close + rest)
    ensures a + b + close + rest == a + (b + close + rest)
    ensures (open + (a + b + close + rest))[|open|..] == a + b + close + rest
    ensures (close + rest)[|close|..] == rest
  {
  }

  lemma ParseBracketed(body: string, items: seq<Json>, rest: string)
    requires body != [] && body[0] != ']' && ParseItems(body) == Some((items, rest))
    ensures ParseValue("[" + body) == Some((Arr(items), rest))
  {
    assert ("[" + body)[1..] == body;
  }

  lemma ParseBraced(body: string, members: map<string, Json>, rest: string)
    requires body != [] && body[0] != '}' && ParseMembers(body) == Some((members, rest))
    ensures ParseValue("{" + body) == Some((Obj(members), rest))
  {
    assert ("{" + body)[1..] == body;
  }

  lemma EmptyUndone(rest: string)
    ensures ParseValue(Canonical(Arr([])) + rest) == Some((Arr([]), rest))
    ensures ParseValue(Canonical(Obj(map[])) + rest) == Some((Obj(map[]), rest))
  {
    var none: map<string, Json> := map[];
    assert SortedKeys(none.Keys) == [];
    assert Canonical(Arr([])) == "[]" && Canonical(Obj(none)) == "{}";
    assert ("[]" + rest)[2..] == rest && ("{}" + rest)[2..] == rest;
  }

  lemma ArrayUndone(items: seq<Json>, rest: string)
    requires items != []
    requires ParseItems(Canonical(items[0]) + ItemsFrom(items, 1) + "]" + rest) == Some((items, rest))
    ensures ParseValue(Canonical(Arr(items)) + rest) == Some((Arr(items), rest))
  {
    assert ItemsFrom(items, 0) == Canonical(items[0]) + ItemsFrom(items, 1);
    Regroup("[", Canonical(items[0]), ItemsFrom(items, 1), "]", rest);
    CanonicalHead(items[0]);
    ParseBracketed(Canonical(items[0]) + ItemsFrom(items, 1) + "]" + rest, items, rest);
  }

  lemma WholeMap(m: map<string, Json>, keys: seq<string>)
    requires forall k :: k in keys <==> k in m
    ensures (map k | k in keys :: m[k]) == m
  {
  }

  lemma MembersStep(v: Json, keys: seq<string>, i: nat)
    requires v.Obj? && i <= |keys| && forall k :: k in keys ==> k in v.members
    ensures MembersFrom(v, keys, i) == if i == |keys| then "" else
              Comma(i) + (MemberText(v, keys, i) + MembersFrom(v, keys, i + 1))
    ensures i == 0 < |keys| ==> MembersFrom(v, keys, i) == MemberText(v, keys, i) + MembersFrom(v, keys, i + 1)
  {
    hide Canonical, Quote, MemberText;
  }

  lemma MemberTextIs(v: Json, keys: seq<string>, i: nat)
    requires v.Obj? && i < |keys| && forall k :: k in keys ==> k in v.members
    ensures MemberText(v, keys, i) == Quote(keys[i]) + ":" + Canonical(v.members[keys[i]])
  {
  }

  lemma CanonicalObject(v: Json)
    requires v.Obj?
    ensures Canonical(v) == "{" + MembersFrom(v, SortedKeys(v.members.Keys), 0) + "}"
  {
    hide MembersFrom, SortedKeys;
  }

  /** Members written out one after another: quoted names, colons, values, commas between. */
  function MemberList(members: seq<(string, string)>): string {
    if members == [] then ""
    else
      var first := "\"" + members[0].0 + "\":" + members[0].1;
      if |members| == 1 then first else first + "," + MemberList(members[1..])
  }

  /** These are the object's members in the order of their names, each with the text of its value. */
  ghost predicate AreMembers(v: Json, members: seq<(string, string)>)
    requires v.Obj?
  {
    var keys := SortedKeys(v.members.Keys);
    && |members| == |keys|
    && forall i :: 0 <= i < |keys| ==>
         members[i] == (keys[i], Canonical(v.members[keys[i]])) && Escape(keys[i]) == keys[i]
  }

  /** What an object's text holds from member i on. */
  ghost predicate ListedFrom(v: Json, members: seq<(string, string)>, i: nat)
    requires v.Obj? && i <= |SortedKeys(v.members.Keys)| == |members|
  {
    var text := MembersFrom(v, SortedKeys(v.members.Keys), i);
    text == if i < |members| then Comma(i) + MemberList(members[i..]) else ""
  }

  lemma {:induction false} MembersListed(v: Json, members: seq<(string, string)>, i: nat)
    requires v.Obj? && AreMembers(v, members) && i <= |members|
    ensures |SortedKeys(v.members.Keys)| == |members| && ListedFrom(v, members, i)
    decreases |members| - i
  {
    hide *;
    ListedLength(v, members);
    if i < |members| {
      MembersListed(v, members, i + 1);
      ListedMember(v, members, i);
      OneMoreListed(v, members, i);
    } else {
      NothingListed(v, members);
    }
  }

  lemma NothingListed(v: Json, members: seq<(string, string)>)
    requires v.Obj? && |SortedKeys(v.members.Keys)| == |members|
    ensures ListedFrom(v, members, |members|)
  {
    hide SortedKeys, Canonical, MemberText;
  }

  lemma OneMoreListed(v: Json, members: seq<(string, string)>, i: nat)
    requires v.Obj? && i < |members| == |SortedKeys(v.members.Keys)| && ListedFrom(v, members, i + 1)
    requires MemberText(v, SortedKeys(v.members.Keys), i) == "\"" + members[i].0 + "\":" + members[i].1
    ensures ListedFrom(v, members, i)
  {
    var keys := SortedKeys(v.members.Keys);
    hide SortedKeys, Canonical, MemberText, MembersFrom, MemberList, Comma;
    MembersStep(v, keys, i);
    Listed(members, i, MemberText(v, keys, i), MembersFrom(v, keys, i + 1));
  }

  lemma ListedLength(v: Json, members: seq<(string, string)>)
    requires v.Obj? && AreMembers(v, members)
    ensures |members| == |SortedKeys(v.members.Keys)|
  {
    hide Canonical, Escape;
  }

  lemma ListedMember(v: Json, members: seq<(string, string)>, i: nat)
    requires v.Obj? && AreMembers(v, members) && i < |members|
    ensures i < |SortedKeys(v.members.Keys)|
    ensures MemberText(v, SortedKeys(v.members.Keys), i) == "\"" + members[i].0 + "\":" + members[i].1
  {
    var keys := SortedKeys(v.members.Keys);
    hide Canonical, Escape, MemberText, SortedKeys, Quote;
    assert keys[i] == members[i].0 && Canonical(v.members[keys[i]]) == members[i].1 && Escape(keys[i]) == keys[i];
    hide AreMembers;
    MemberTextIs(v, keys, i);
    NameText(keys[i], members[i].1);
  }

  lemma NameText(name: string, text: string)
    requires Escape(name) == name
    ensures Quote(name) + ":" + text == "\"" + name + "\":" + text
  {
    hide Escape;
    assert "\"" + ":" == "\":";
    assert "\"" + name + "\"" + ":" == "\"" + name + "\":";
  }

  lemma Listed(members: seq<(string, string)>, i: nat, text: string, rest: string)
    requires i < |members| && text == "\"" + members[i].0 + "\":" + members[i].1
    requires rest == if i + 1 < |members| then Comma(i + 1) + MemberList(members[i + 1..]) else ""
    ensures text + rest == MemberList(members[i..])
  {
    MemberListStep(members[i..]);
    hide MemberList;
    assert members[i..][1..] == members[i + 1..] && members[i..][0] == members[i];
    assert text + "," + MemberList(members[i + 1..]) == text + ("," + MemberList(members[i + 1..]));
  }

  lemma MemberListStep(members: seq<(string, string)>)
    ensures MemberList(members) ==
            if members == [] then ""
            else
              var first := "\"" + members[0].0 + "\":" + members[0].1;
              if |members| == 1 then first else first + "," + MemberList(members[1..])
    ensures |members| == 1 ==> MemberList(members[1..]) == ""
  {
  }

  /** The text of an object whose names need no escapes. */
  lemma ObjectText(v: Json, members: seq<(string, string)>)
    requires v.Obj? && AreMembers(v, members)
    ensures Canonical(v) == "{" + MemberList(members) + "}"
  {
    MembersListed(v, members, 0);
    CanonicalObject(v);
    MemberListStep(members);
    hide MembersFrom, AreMembers, MemberList, SortedKeys;
    assert members[0..] == members;
    assert Comma(0) == "" && "" + MemberList(members) == MemberList(members);
  }

  lemma MemberStarts(v: Json, keys: seq<string>)
    requires v.Obj? && keys != [] && forall k :: k in keys ==> k in v.members
    ensures MemberText(v, keys, 0) != [] && MemberText(v, keys, 0)[0] == '\"'
  {
    hide *;
    MemberHead(keys[0], Canonical(v.members[keys[0]]));
    MemberTextIs(v, keys, 0);
  }

  lemma ObjectBody(v: Json, keys: seq<string>, rest: string)
    requires v.Obj? && keys == SortedKeys(v.members.Keys) && keys != []
    ensures Canonical(v) + rest == "{" + (MemberText(v, keys, 0) + MembersFrom(v, keys, 1) + "}" + rest)
  {
    hide *;
    FirstMember(v, keys);
    CanonicalObject(v);
    Braced(Canonical(v), MemberText(v, keys, 0), MembersFrom(v, keys, 1), rest);
  }

  lemma FirstMember(v: Json, keys: seq<string>)
    requires v.Obj? && keys != [] && forall k :: k in keys ==> k in v.members
    ensures MembersFrom(v, keys, 0) == MemberText(v, keys, 0) + MembersFrom(v, keys, 1)
  {
    hide *;
    MembersStep(v, keys, 0);
  }

  lemma Braced(text: string, first: string, others: string, rest: string)
    requires text == "{" + (first + others) + "}"
    ensures text + rest == "{" + (first + others + "}" + rest)
  {
  }

  lemma ObjectUndone(v: Json, keys: seq<string>, rest: string)
    requires v.Obj? && keys == SortedKeys(v.members.Keys) && keys != []
    requires ParseMembers(MemberText(v, keys, 0) + MembersFrom(v, keys, 1) + "}" + rest)
          == Some((map k | k in keys[0..] :: v.members[k], rest))
    ensures ParseValue(Canonical(v) + rest) == Some((v, rest))
  {
    hide *;
    ObjectBody(v, keys, rest);
    MemberStarts(v, keys);
    WholeMap(v.members, keys);
    assert keys[0..] == keys;
    var body := MemberText(v, keys, 0) + MembersFrom(v, keys, 1) + "}" + rest;
    assert body[0] == MemberText(v, keys, 0)[0];
    ParseBraced(body, v.members, rest);
  }

  lemma {:induction false} ItemsUndone(items: seq<Json>, i: nat, rest: string)
    requires i < |items|
    ensures ParseItems(Canonical(items[i]) + ItemsFrom(items, i + 1) + "]" + rest) == Some((items[i..], rest))
    decreases items, |items| - i
  {
    hide Canonical, ParseItems, ParseValue;
    var after := ItemsFrom(items, i + 1) + "]" + rest;
    Regroup("", Canonical(items[i]), ItemsFrom(items, i + 1), "]", rest);
    assert items[i..] == [items[i]] + items[i + 1..];
    if i + 1 == |items| {
      assert items[i..] == [items[i]];
      assert after == "]" + rest;
    } else {
      Regroup(",", Canonical(items[i + 1]), ItemsFrom(items, i + 2), "]", rest);
      ItemsUndone(items, i + 1, rest);
    }
    ParseUndoesPrint(items[i], after);
    ParseItem(items[i], after);
  }

  /** Reading one member leaves exactly the text after its value. */
  lemma MemberHead(key: string, valueText: string)
    ensures var text := Quote(key) + ":" + valueText;
            && text[0] == '\"'
            && ReadString(text[1..]) == Some((key, ":" + valueText))
            && (":" + valueText)[1..] == valueText
  {
    var text := Quote(key) + ":" + valueText;
    ReadStringUndoesEscape(key, ":" + valueText);
    assert text[1..] == Escape(key) + "\"" + (":" + valueText);
  }

  /** One item read, then the end of the array or the items after the comma. */
  lemma ParseItem(item: Json, after: string)
    requires after != [] && ParseValue(Canonical(item) + after) == Some((item, after))
    ensures var text := Canonical(item) + after;
            && (after[0] == ']' ==> ParseItems(text) == Some(([item], after[1..])))
            && (after[0] == ',' && ParseItems(after[1..]).Some? ==>
                  ParseItems(text) == Some(([item] + ParseItems(after[1..]).value.0,
                                            ParseItems(after[1..]).value.1)))
  {
    hide Canonical, ParseValue;
  }

  lemma MapFrom(m: map<string, Json>, keys: seq<string>, i: nat)
    requires i < |keys| && forall k :: k in keys ==> k in m
    ensures var one := map[keys[i] := m[keys[i]]];
            && (map k | k in keys[i..] :: m[k]) == one + (map k | k in keys[i + 1..] :: m[k])
            && (i + 1 == |keys| ==> (map k | k in keys[i..] :: m[k]) == one)
  {
    assert keys[i..] == [keys[i]] + keys[i + 1..];
  }

  /** One member read, then the end of the object or the members after the comma. */
  lemma ParseMember(key: string, value: Json, after: string)
    requires after != [] && ParseValue(Canonical(value) + after) == Some((value, after))
    ensures var text := Quote(key) + ":" + Canonical(value) + after;
            && (after[0] == '}' ==> ParseMembers(text) == Some((map[key := value], after[1..])))
            && (after[0] == ',' && ParseMembers(after[1..]).Some? ==>
                  ParseMembers(text) == Some((map[key := value] + ParseMembers(after[1..]).value.0,
                                              ParseMembers(after[1..]).value.1)))
  {
    MemberHead(key, Canonical(value) + after);
    hide Canonical, ParseValue, Quote, ReadString;
    assert Quote(key) + ":" + Canonical(value) + after == Quote(key) + ":" + (Canonical(value) + after);
  }

  lemma {:induction false} MembersUndone(v: Json, keys: seq<string>, i: nat, rest: string)
    requires v.Obj? && i < |keys| && forall k :: k in keys ==> k in v.members
    ensures ParseMembers(MemberText(v, keys, i) + MembersFrom(v, keys, i + 1) + "}" + rest)
         == Some((map k | k in keys[i..] :: v.members[k], rest))
    decreases v, 0, |keys| - i
  {
    hide Canonical, Quote, ParseMembers, ParseValue, SortedKeys, MembersFrom, MemberText, ParseItems, ReadString,
         ReadChar, ItemsFrom, IsNumberToken, NumberPrefix;
    MemberTextIs(v, keys, i);
    MembersStep(v, keys, i + 1);
    var value := v.members[keys[i]];
    var after := MembersFrom(v, keys, i + 1) + "}" + rest;
    Regroup("", MemberText(v, keys, i), MembersFrom(v, keys, i + 1), "}", rest);
    MapFrom(v.members, keys, i);
    if i + 1 == |keys| {
      assert after == "}" + rest;
    } else {
      Regroup(",", MemberText(v, keys, i + 1), MembersFrom(v, keys, i + 2), "}", rest);
      MembersUndone(v, keys, i + 1, rest);
    }
    ParseUndoesPrint(value, after);
    ParseMember(keys[i], value, after);
  }

  /** Equal canonical text means equal values, and nothing can be appended to blur that. */
  lemma CanonicalInjective(v: Json, w: Json)
    requires Canonical(v) == Canonical(w)
    ensures v == w
  {
    ParseUndoesPrint(v, "");
    ParseUndoesPrint(w, "");
    assert Canonical(v) + "" == Canonical(v) && Canonical(w) + "" == Canonical(w);
  }
}
