/**
 The bounded digest of one archive layer: hashes the stored bytes and, for gzip layers, the
 decompressed ones, without ever holding or hashing more than a cap allows. zlib is a parameter
 known only by its contract, and SHA-256 is an arbitrary function.
 */
module ArchiveStream {
  import opened Common

  type Byte = b: int | 0 <= b < 256
  type Bytes = seq<Byte>

  const CHUNK: nat := 1024 * 1024

  // ---- gzip ----

  /** A decompressor is what it has taken in and given out of the current member. */
  datatype Inflater = Inflater(consumed: Bytes, produced: Bytes, eof: bool)

  const FRESH := Inflater([], [], false)

  /** One call: either the data is corrupt, or so many bytes were taken and this came out. */
  datatype Inflated = Corrupt | Output(taken: nat, piece: Bytes, eof: bool)

  type Zlib = (Inflater, Bytes, nat) -> Inflated

  /** The plain bytes of a complete gzip member (section 2.2 of RFC 1952), if it is one. */
  type Members = Bytes -> Option<Bytes>

  /**
   What the zlib binding promises: output within the limit; input is left over before the end of a
   member only when the limit was reached; the end is reached by taking input, and then what was
   taken is a complete member and what came out is its content.
   */
  ghost predicate Contract(zlib: Zlib, members: Members) {
    forall st: Inflater, data: Bytes, limit: nat :: data != [] && limit > 0 && !st.eof ==>
      CallOk(zlib(st, data, limit), members, st, data, limit)
  }

  ghost predicate CallOk(r: Inflated, members: Members, st: Inflater, data: Bytes, limit: nat) {
    r.Output? ==>
      && r.taken <= |data| && |r.piece| <= limit
      && (!r.eof && r.taken < |data| ==> |r.piece| == limit)
      && (r.eof ==> r.taken > 0 && members(st.consumed + data[..r.taken]) == Some(st.produced + r.piece))
  }

  /**
   What it promises on good data: while the input is that of some member, it is not called corrupt,
   nothing is taken past the member's end, only the member's content comes out, and its last byte ends it.
   */
  ghost predicate Accurate(zlib: Zlib, members: Members) {
    forall st: Inflater, data: Bytes, limit: nat, m: Bytes ::
      data != [] && limit > 0 && members(m).Some? && Within(st, data, m, members(m).value) ==>
      GoesOn(zlib(st, data, limit), st, data, m, members(m).value)
  }

  /** In the middle of a member, with input that goes on as the member does. */
  predicate Within(st: Inflater, data: Bytes, m: Bytes, content: Bytes) {
    && !st.eof && st.consumed < m && st.produced <= content
    && (st.consumed + data <= m || m <= st.consumed + data)
  }

  predicate GoesOn(r: Inflated, st: Inflater, data: Bytes, m: Bytes, content: Bytes) {
    && r.Output? && r.taken <= |data|
    && st.consumed + data[..r.taken] <= m && st.produced + r.piece <= content
    && (st.consumed + data[..r.taken] == m ==> r.eof)
  }

  function Concat(parts: seq<Bytes>): Bytes {
    if parts == [] then [] else Concat(parts[..|parts| - 1]) + parts[|parts| - 1]
  }

  lemma ConcatOneMore(parts: seq<Bytes>, last: Bytes)
    ensures Concat(parts + [last]) == Concat(parts) + last
  {
    assert (parts + [last])[..|parts|] == parts;
  }

  /** These parts are non-empty gzip members with these contents. */
  ghost predicate MembersAre(members: Members, parts: seq<Bytes>, contents: seq<Bytes>) {
    && |parts| == |contents|
    && forall i :: 0 <= i < |parts| ==> parts[i] != [] && members(parts[i]) == Some(contents[i])
  }

  /** `stored` is one gzip member after another, and `plain` their contents in order. */
  ghost predicate Gunzips(members: Members, stored: Bytes, plain: Bytes) {
    exists parts, contents ::
      MembersAre(members, parts, contents) && Concat(parts) == stored && Concat(contents) == plain
  }

  predicate IsGzip(file: Bytes) {
    |file| >= 2 && file[0] == 0x1F && file[1] == 0x8B
  }

  predicate IsZstd(file: Bytes) {
    |file| >= 4 && file[0] == 0x28 && file[1] == 0xB5 && file[2] == 0x2F && file[3] == 0xFD
  }

  /** The uncompressed content of a layer file. */
  ghost predicate Unpacks(members: Members, file: Bytes, plain: Bytes) {
    if IsGzip(file) then Gunzips(members, file, plain) else plain == file
  }

  // ---- gzip members can be read in only one way ----

  /** No member starts with another one: a member says itself where it ends. */
  ghost predicate PrefixFree(members: Members) {
    forall a, b :: members(a).Some? && members(b).Some? && a <= b ==> a == b
  }

  function Front(parts: seq<Bytes>): Bytes {
    if parts == [] then [] else parts[0] + Front(parts[1..])
  }

  lemma {:induction false} FrontIsConcat(parts: seq<Bytes>)
    ensures Front(parts) == Concat(parts)
  {
    if |parts| > 1 {
      var n := |parts| - 1;
      FrontIsConcat(parts[1..]);
      FrontIsConcat(parts[..n]);
      FrontIsConcat(parts[1..][..n - 1]);
      assert parts[..n][1..] == parts[1..][..n - 1];
      assert parts[1..][n - 1] == parts[n];
      assert parts[..n][0] == parts[0];
    }
  }

  lemma OneFirst(members: Members, a: Bytes, b: Bytes, whole: Bytes)
    requires PrefixFree(members) && members(a).Some? && members(b).Some?
    requires a <= whole && b <= whole
    ensures a == b
  {
    assert a == whole[..|a|] && b == whole[..|b|];
  }

  lemma {:induction false} OneReading(members: Members, p: seq<Bytes>, c: seq<Bytes>, q: seq<Bytes>, d: seq<Bytes>)
    requires PrefixFree(members) && MembersAre(members, p, c) && MembersAre(members, q, d)
    requires Front(p) == Front(q)
    ensures p == q && c == d
  {
    if p != [] && q != [] {
      var whole := Front(p);
      OneFirst(members, p[0], q[0], whole);
      assert Front(p[1..]) == whole[|p[0]|..] == Front(q[1..]);
      OneReading(members, p[1..], c[1..], q[1..], d[1..]);
      assert c[0] == d[0];
      assert p == [p[0]] + p[1..] && q == [q[0]] + q[1..];
      assert c == [c[0]] + c[1..] && d == [d[0]] + d[1..];
    }
  }

  /** A layer file has one uncompressed content. */
  lemma UnpacksOnce(members: Members, file: Bytes, a: Bytes, b: Bytes)
    requires PrefixFree(members) && Unpacks(members, file, a) && Unpacks(members, file, b)
    ensures a == b
  {
    if IsGzip(file) {
      var p, c :| MembersAre(members, p, c) && Concat(p) == file && Concat(c) == a;
      var q, d :| MembersAre(members, q, d) && Concat(q) == file && Concat(d) == b;
      FrontIsConcat(p);
      FrontIsConcat(q);
      OneReading(members, p, c, q, d);
    }
  }

  // ---- good input is never refused ----

  /** With `remaining` still to come, the member at hand is begun, not complete, and decoded right so far. */
  ghost predicate OnTrack(members: Members, inflater: Inflater, remaining: Bytes) {
    !inflater.eof ==>
      forall m :: m != [] && members(m).Some? && m <= inflater.consumed + remaining ==>
        inflater.consumed < m && inflater.produced <= members(m).value
  }

  lemma StaysOnTrack(zlib: Zlib, members: Members, inflater: Inflater, data: Bytes, future: Bytes, limit: nat)
    requires Accurate(zlib, members) && OnTrack(members, inflater, data + future)
    requires !inflater.eof && data != [] && limit > 0
    requires zlib(inflater, data, limit).Output? && zlib(inflater, data, limit).taken <= |data|
    ensures var r := zlib(inflater, data, limit);
            OnTrack(members, Inflater(inflater.consumed + data[..r.taken], inflater.produced + r.piece, r.eof),
                    data[r.taken..] + future)
  {
    var r := zlib(inflater, data, limit);
    var next := Inflater(inflater.consumed + data[..r.taken], inflater.produced + r.piece, r.eof);
    assert next.consumed + (data[r.taken..] + future) == inflater.consumed + (data + future) by {
      assert data == data[..r.taken] + data[r.taken..];
    }
    forall m | m != [] && members(m).Some? && m <= next.consumed + (data[r.taken..] + future) && !r.eof
      ensures next.consumed < m && next.produced <= members(m).value
    {
      CompatiblePrefix(m, inflater.consumed + data, future);
      assert Within(inflater, data, m, members(m).value);
      assert GoesOn(r, inflater, data, m, members(m).value);
    }
  }

  lemma CompatiblePrefix(m: Bytes, a: Bytes, b: Bytes)
    requires m <= a + b
    ensures a <= m || m <= a
  {
    if |m| <= |a| {
      assert m == (a + b)[..|m|] == a[..|m|];
    } else {
      assert a == (a + b)[..|a|] == m[..|a|];
    }
  }

  lemma FreshOnTrack(members: Members, remaining: Bytes)
    ensures OnTrack(members, FRESH, remaining)
  {
  }

  /** Members read so far are the first ones of a good file, and its next one lies ahead. */
  lemma {:induction false} NextPart(members: Members, p: seq<Bytes>, c: seq<Bytes>, q: seq<Bytes>, d: seq<Bytes>,
                                    tail: Bytes)
    requires PrefixFree(members) && MembersAre(members, p, c) && MembersAre(members, q, d)
    requires Front(p) + tail == Front(q) && tail != []
    ensures |p| < |q| && p == q[..|p|] && c == d[..|p|] && q[|p|] <= tail
  {
    if p != [] {
      var whole := Front(q);
      assert whole == p[0] + (Front(p[1..]) + tail);
      OneFirst(members, p[0], q[0], whole);
      assert Front(p[1..]) + tail == whole[|p[0]|..] == Front(q[1..]);
      NextPart(members, p[1..], c[1..], q[1..], d[1..], tail);
      hide PrefixFree, Front;
      FrontOf(p, q, |p|);
      FrontOf(c, d, |c|);
    } else {
      assert tail == [] + tail == q[0] + Front(q[1..]);
    }
  }

  lemma FrontOf(p: seq<Bytes>, q: seq<Bytes>, n: nat)
    requires 0 < n == |p| <= |q| && p[0] == q[0] && p[1..] == q[1..][..n - 1]
    ensures p == q[..n]
  {
    assert p == [p[0]] + p[1..];
  }

  lemma {:induction false} PartsWeigh(d: seq<Bytes>, n: nat)
    requires n < |d|
    ensures |Concat(d[..n])| + |d[n]| <= |Concat(d)|
    decreases |d|
  {
    var last := |d| - 1;
    if n < last {
      PartsWeigh(d[..last], n);
      assert d[..last][..n] == d[..n];
    }
  }

  /** A file that unpacks to at most `cap` bytes. */
  ghost predicate Good(members: Members, file: Bytes, cap: nat) {
    exists plain :: Gunzips(members, file, plain) && |plain| <= cap
  }

  /** The member of a good file that the input at hand belongs to, and the room its content leaves. */
  lemma MemberAhead(members: Members, parts: seq<Bytes>, contents: seq<Bytes>, inflater: Inflater, data: Bytes,
                    future: Bytes, input: Bytes, output: Bytes, cap: nat) returns (m: Bytes)
    requires PrefixFree(members) && Good(members, input + future, cap)
    requires Reading(members, parts, contents, inflater, data, input, output)
    requires inflater.consumed + data + future != []
    ensures m != [] && members(m).Some? && m <= inflater.consumed + (data + future)
    ensures |output| - |inflater.produced| + |members(m).value| <= cap
  {
    var plain :| Gunzips(members, input + future, plain) && |plain| <= cap;
    var q, d :| MembersAre(members, q, d) && Concat(q) == input + future && Concat(d) == plain;
    FrontIsConcat(parts);
    FrontIsConcat(q);
    hide Concat, Front, PrefixFree;
    var tail := inflater.consumed + (data + future);
    Reassociate(Concat(parts), inflater.consumed, data, future);
    NextPart(members, parts, contents, q, d, tail);
    m := q[|parts|];
    PartsWeigh(d, |parts|);
    assert members(m) == Some(d[|parts|]);
  }

  lemma Reassociate(a: Bytes, b: Bytes, c: Bytes, d: Bytes)
    ensures a + b + c + d == a + (b + (c + d))
    ensures b + c + d == b + (c + d)
  {
  }

  /** On good input a call succeeds and stays within the cap. */
  lemma GoodCall(zlib: Zlib, members: Members, parts: seq<Bytes>, contents: seq<Bytes>, inflater: Inflater,
                 data: Bytes, future: Bytes, input: Bytes, output: Bytes, cap: nat)
    requires PrefixFree(members) && Accurate(zlib, members) && Good(members, input + future, cap)
    requires Reading(members, parts, contents, inflater, data, input, output)
    requires OnTrack(members, inflater, data + future) && !inflater.eof && data != []
    ensures var r := zlib(inflater, data, CHUNK); r.Output? && |output| + |r.piece| <= cap
  {
    hide Reading, Good, PrefixFree;
    Reassociate([], inflater.consumed, data, future);
    var m := MemberAhead(members, parts, contents, inflater, data, future, input, output, cap);
    hide *;
    MemberGoesOn(zlib, members, inflater, data, future, m);
  }

  lemma MemberGoesOn(zlib: Zlib, members: Members, inflater: Inflater, data: Bytes, future: Bytes, m: Bytes)
    requires Accurate(zlib, members) && OnTrack(members, inflater, data + future) && !inflater.eof && data != []
    requires m != [] && members(m).Some? && m <= inflater.consumed + (data + future)
    ensures var r := zlib(inflater, data, CHUNK); r.Output? && |inflater.produced| + |r.piece| <= |members(m).value|
  {
    Reassociate([], inflater.consumed, data, future);
    CompatiblePrefix(m, inflater.consumed + data, future);
    assert Within(inflater, data, m, members(m).value);
    assert GoesOn(zlib(inflater, data, CHUNK), inflater, data, m, members(m).value);
  }

  /** A good file that has been read to its end ends with a complete member. */
  lemma GoodEnds(members: Members, parts: seq<Bytes>, contents: seq<Bytes>, inflater: Inflater, file: Bytes,
                 output: Bytes, cap: nat)
    requires PrefixFree(members) && Good(members, file, cap)
    requires Reading(members, parts, contents, inflater, [], file, output)
    requires OnTrack(members, inflater, []) && inflater.consumed != []
    ensures inflater.eof
  {
    if !inflater.eof {
      assert file + [] == file && inflater.consumed + [] + [] == inflater.consumed;
      assert inflater.consumed + ([] + []) == inflater.consumed + [] == inflater.consumed;
      var m := MemberAhead(members, parts, contents, inflater, [], [], file, output, cap);
    }
  }

  // ---- the promises are consistent ----

  /** A code whose members are the single bytes, each its own content. */
  function OneByteMember(m: Bytes): Option<Bytes> {
    if |m| == 1 then Some(m) else None
  }

  function OneByteInflate(st: Inflater, data: Bytes, limit: nat): Inflated {
    if st.consumed != [] || data == [] || limit == 0 then Corrupt
    else if st.produced == [] then Output(1, [data[0]], true)
    else if st.produced == [data[0]] then Output(1, [], true)
    else Corrupt
  }

  lemma PromisesCanBeKept()
    ensures Contract(OneByteInflate, OneByteMember) && Accurate(OneByteInflate, OneByteMember)
    ensures PrefixFree(OneByteMember) && Good(OneByteMember, [7], 1)
  {
    forall st: Inflater, data: Bytes, limit: nat | data != [] && limit > 0 && !st.eof
      ensures CallOk(OneByteInflate(st, data, limit), OneByteMember, st, data, limit)
    {
      assert [] + data[..1] == [data[0]] && [] + [data[0]] == [data[0]] == [data[0]] + [];
    }
    forall st: Inflater, data: Bytes, limit: nat, m: Bytes |
      data != [] && limit > 0 && OneByteMember(m).Some? && Within(st, data, m, OneByteMember(m).value)
      ensures GoesOn(OneByteInflate(st, data, limit), st, data, m, OneByteMember(m).value)
    {
      OneByteGoesOn(st, data, limit, m);
    }
    OneByteIsGood();
  }

  lemma OneByteGoesOn(st: Inflater, data: Bytes, limit: nat, m: Bytes)
    requires data != [] && limit > 0 && |m| == 1 && Within(st, data, m, m)
    ensures GoesOn(OneByteInflate(st, data, limit), st, data, m, m)
  {
    assert st.consumed == [] && [] + data == data;
    assert m == [m[0]] == data[..1] == [] + data[..1];
    if st.produced != [] {
      assert st.produced == [m[0]] == st.produced + [];
    } else {
      assert [] + [m[0]] == [m[0]];
    }
  }

  lemma OneByteIsGood()
    ensures Good(OneByteMember, [7], 1)
  {
    var one: Bytes := [7];
    ConcatOneMore([], one);
    assert [] + [one] == [one] && Concat([]) + one == one;
    assert MembersAre(OneByteMember, [one], [one]);
    assert Gunzips(OneByteMember, one, one);
  }

  // ---- the streaming digest ----

  /** A running hash: what it has been fed. */
  class Hasher {
    var fed: Bytes

    constructor ()
      ensures fed == []
    {
      fed := [];
    }

    method Update(data: Bytes)
      modifies this
      ensures fed == old(fed) + data
    {
      fed := fed + data;
    }
  }

  function Digest(hash: Bytes -> string, data: Bytes): string {
    "sha256:" + hash(data)
  }

  function ReadChunk(file: Bytes, position: nat): Bytes
    requires position <= |file|
  {
    if |file| - position <= CHUNK then file[position..] else file[position..position + CHUNK]
  }

  /** Where the decompressor stands: members done, the one at hand, and input not taken yet. */
  ghost predicate Reading(members: Members, parts: seq<Bytes>, contents: seq<Bytes>, inflater: Inflater,
                          data: Bytes, input: Bytes, output: Bytes) {
    && MembersAre(members, parts, contents)
    && Concat(parts) + inflater.consumed + data == input
    && Concat(contents) + inflater.produced == output
    && (inflater.eof ==> inflater.consumed != [] && members(inflater.consumed) == Some(inflater.produced))
  }

  /** The next member starts once one is complete. */
  lemma NextMember(members: Members, parts: seq<Bytes>, contents: seq<Bytes>, inflater: Inflater, data: Bytes,
                   input: Bytes, output: Bytes)
    requires Reading(members, parts, contents, inflater, data, input, output) && inflater.eof
    ensures Reading(members, parts + [inflater.consumed], contents + [inflater.produced], FRESH, data, input, output)
  {
    ConcatOneMore(parts, inflater.consumed);
    ConcatOneMore(contents, inflater.produced);
  }

  lemma Taken(members: Members, parts: seq<Bytes>, contents: seq<Bytes>, inflater: Inflater, data: Bytes,
              input: Bytes, output: Bytes, r: Inflated, limit: nat)
    requires Reading(members, parts, contents, inflater, data, input, output)
    requires r.Output? && CallOk(r, members, inflater, data, limit)
    ensures Reading(members, parts, contents,
                    Inflater(inflater.consumed + data[..r.taken], inflater.produced + r.piece, r.eof),
                    data[r.taken..], input, output + r.piece)
  {
    hide Concat, MembersAre;
    assert data == data[..r.taken] + data[r.taken..];
    Reassociate(Concat(parts), inflater.consumed, data[..r.taken], data[r.taken..]);
    Reassociate([], Concat(contents), inflater.produced, r.piece);
  }

  lemma MoreInput(members: Members, parts: seq<Bytes>, contents: seq<Bytes>, inflater: Inflater, input: Bytes,
                  output: Bytes, chunk: Bytes)
    requires Reading(members, parts, contents, inflater, [], input, output)
    ensures Reading(members, parts, contents, inflater, chunk, input + chunk, output)
  {
    assert Concat(parts) + inflater.consumed + [] == Concat(parts) + inflater.consumed;
    assert Concat(parts) + inflater.consumed + chunk == input + chunk;
  }

  lemma AllRead(members: Members, parts: seq<Bytes>, contents: seq<Bytes>, inflater: Inflater, file: Bytes,
                output: Bytes)
    requires Reading(members, parts, contents, inflater, [], file, output) && inflater.eof
    ensures Gunzips(members, file, output)
  {
    NextMember(members, parts, contents, inflater, [], file, output);
    var allParts, allContents := parts + [inflater.consumed], contents + [inflater.produced];
    assert Concat(allParts) + [] + [] == file && Concat(allContents) + [] == output;
    assert Concat(allParts) == file && Concat(allContents) == output;
  }

  /** What has been hashed as plain: pieces of at most a chunk, together within the cap. */
  ghost predicate Bounded(pieces: seq<Bytes>, plain: Bytes, cap: nat) {
    Concat(pieces) == plain && |plain| <= cap && forall i :: 0 <= i < |pieces| ==> |pieces[i]| <= CHUNK
  }

  lemma BoundedOneMore(pieces: seq<Bytes>, plain: Bytes, cap: nat, piece: Bytes)
    requires Bounded(pieces, plain, cap) && |piece| <= CHUNK && |plain| + |piece| <= cap
    ensures Bounded(pieces + [piece], plain + piece, cap)
  {
    ConcatOneMore(pieces, piece);
  }

  /** A decompressor that keeps its promises, on a file that unpacks within the cap. */
  ghost predicate Sound(zlib: Zlib, members: Members, file: Bytes, cap: nat) {
    PrefixFree(members) && Accurate(zlib, members) && Good(members, file, cap)
  }

  /** Inflates one chunk of a gzip layer, member after member. */
  method InflateChunk(chunk: Bytes, cap: nat, zlib: Zlib, ghost members: Members, content: Hasher, plainTotal: nat,
                      inflater: Inflater, ghost parts: seq<Bytes>, ghost contents: seq<Bytes>,
                      ghost pieces: seq<Bytes>, ghost input: Bytes, ghost future: Bytes)
    returns (r: Result<()>, plainTotal': nat, inflater': Inflater, ghost parts': seq<Bytes>,
             ghost contents': seq<Bytes>, ghost pieces': seq<Bytes>)
    requires Contract(zlib, members)
    requires Bounded(pieces, content.fed, cap) && |content.fed| == plainTotal <= cap
    requires Reading(members, parts, contents, inflater, [], input, content.fed)
    modifies content
    ensures Bounded(pieces', content.fed, cap) && |content.fed| == plainTotal' <= cap
    ensures r.Ok? ==> Reading(members, parts', contents', inflater', [], input + chunk, content.fed)
    ensures r.Ok? && chunk != [] ==> inflater'.consumed != []
    ensures Sound(zlib, members, input + chunk + future, cap) && OnTrack(members, inflater, chunk + future) ==>
              r.Ok? && OnTrack(members, inflater', future)
  {
    hide Concat, MembersAre, Bounded, OnTrack, PrefixFree, Accurate, Good;
    ghost var good := Sound(zlib, members, input + chunk + future, cap) && OnTrack(members, inflater, chunk + future);
    plainTotal', inflater', parts', contents', pieces' := plainTotal, inflater, parts, contents, pieces;
    var data := chunk;
    MoreInput(members, parts, contents, inflater, input, content.fed, chunk);
    hide Reading;
    while data != []
      invariant Bounded(pieces', content.fed, cap) && |content.fed| == plainTotal' <= cap
      invariant Reading(members, parts', contents', inflater', data, input + chunk, content.fed)
      invariant good ==> OnTrack(members, inflater', data + future)
      invariant chunk != [] ==> data != [] || inflater'.consumed != []
      decreases |data|, cap - plainTotal'
    {
      if inflater'.eof {
        // Concatenated gzip members.
        NextMember(members, parts', contents', inflater', data, input + chunk, content.fed);
        parts', contents' := parts' + [inflater'.consumed], contents' + [inflater'.produced];
        inflater' := FRESH;
        FreshOnTrack(members, data + future);
      }
      var call := zlib(inflater', data, CHUNK);
      assert CallOk(call, members, inflater', data, CHUNK);
      if good {
        GoodCall(zlib, members, parts', contents', inflater', data, future, input + chunk, content.fed, cap);
        StaysOnTrack(zlib, members, inflater', data, future, CHUNK);
      }
      if call.Corrupt? {
        return Err("corrupt gzip layer"), plainTotal', inflater', parts', contents', pieces';
      }
      if plainTotal' + |call.piece| > cap {
        return Err("layer exceeds decompressed size cap"), plainTotal', inflater', parts', contents', pieces';
      }
      plainTotal' := plainTotal' + |call.piece|;
      Taken(members, parts', contents', inflater', data, input + chunk, content.fed, call, CHUNK);
      BoundedOneMore(pieces', content.fed, cap, call.piece);
      content.Update(call.piece);
      pieces' := pieces' + [call.piece];
      inflater' := Inflater(inflater'.consumed + data[..call.taken], inflater'.produced + call.piece, call.eof);
      var unconsumedTail := if call.eof then [] else data[call.taken..];
      var unusedData := if call.eof then data[call.taken..] else [];
      if unconsumedTail != [] {
        data := unconsumedTail;
      } else if inflater'.eof {
        data := unusedData;
      } else {
        data := [];
      }
    }
    assert [] + future == future;
    r := Ok(());
  }

  /**
   The digests of a layer file's stored bytes and of its uncompressed content. Whatever happens, the
   pieces hashed as plain never exceed the cap together nor a chunk each.
   */
  method StreamDigests(file: Bytes, cap: nat, zlib: Zlib, hash: Bytes -> string, ghost members: Members)
    returns (r: Result<(string, string)>, ghost plain: Bytes, ghost pieces: seq<Bytes>)
    requires Contract(zlib, members)
    ensures Bounded(pieces, plain, cap)
    ensures r.Ok? ==> Unpacks(members, file, plain) && r.value == (Digest(hash, file), Digest(hash, plain))
    ensures !IsGzip(file) ==> (r.Ok? <==> !IsZstd(file) && |file| <= cap)
    ensures IsGzip(file) && PrefixFree(members) && Accurate(zlib, members) ==> (r.Ok? <==> Good(members, file, cap))
  {
    hide Contract, Concat, MembersAre, Gunzips, Bounded, Digest, OnTrack, PrefixFree, Accurate;
    var stored := new Hasher();
    var content := new Hasher();
    var plainTotal: nat := 0;
    plain, pieces := [], [];
    NothingRead(members, cap);
    var chunk := ReadChunk(file, 0);
    var gzipped := IsGzip(chunk);
    if IsZstd(chunk) {
      return Err("zstd layers are not supported by the stdlib check"), plain, pieces;
    }
    hide Reading, ReadChunk, IsGzip, IsZstd;
    var inflater := FRESH;
    FreshOnTrack(members, file);
    assert file[0..] == file && file[..0] == [];
    ghost var parts: seq<Bytes>, contents: seq<Bytes> := [], [];
    var position := 0;
    while chunk != []
      invariant stored != content && fresh(stored) && fresh(content)
      invariant position <= |file| && chunk == ReadChunk(file, position) && stored.fed == file[..position]
      invariant content.fed == plain && |plain| == plainTotal <= cap && Bounded(pieces, plain, cap)
      invariant !gzipped ==> plain == file[..position]
      invariant gzipped ==> Reading(members, parts, contents, inflater, [], file[..position], plain)
      invariant gzipped && Sound(zlib, members, file, cap) ==> OnTrack(members, inflater, file[position..])
      invariant position > 0 ==> inflater.consumed != [] || !gzipped
      decreases |file| - position
    {
      stored.Update(chunk);
      ChunkRead(file, position);
      if !gzipped {
        plainTotal := plainTotal + |chunk|;
        if plainTotal > cap {
          return Err("layer exceeds decompressed size cap"), plain, pieces;
        }
        content.Update(chunk);
        BoundedOneMore(pieces, plain, cap, chunk);
        plain, pieces := plain + chunk, pieces + [chunk];
      } else {
        var step;
        step, plainTotal, inflater, parts, contents, pieces :=
          InflateChunk(chunk, cap, zlib, members, content, plainTotal, inflater, parts, contents, pieces,
                       file[..position], file[position + |chunk|..]);
        plain := content.fed;
        if step.Err? {
          return Err(step.error), plain, pieces;
        }
      }
      position := position + |chunk|;
      chunk := ReadChunk(file, position);
    }
    ChunkRead(file, position);
    if gzipped && Sound(zlib, members, file, cap) {
      GoodEnds(members, parts, contents, inflater, file, plain, cap);
    }
    if gzipped && !inflater.eof {
      return Err("truncated gzip layer"), plain, pieces;
    }
    if gzipped {
      AllRead(members, parts, contents, inflater, file, plain);
    }
    r := Ok((Digest(hash, stored.fed), Digest(hash, content.fed)));
  }

  lemma ChunkRead(file: Bytes, position: nat)
    requires position <= |file|
    ensures var chunk := ReadChunk(file, position);
            && |chunk| <= CHUNK && position + |chunk| <= |file|
            && (chunk == [] ==> file[..position] == file && file[position..] == [])
            && file[..position + |chunk|] == file[..position] + chunk
            && file[position..] == chunk + file[position + |chunk|..]
            && file[..position] + chunk + file[position + |chunk|..] == file
  {
  }

  lemma NothingRead(members: Members, cap: nat)
    ensures Bounded([], [], cap)
    ensures Reading(members, [], [], FRESH, [], [], [])
  {
  }
}
