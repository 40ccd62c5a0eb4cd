/**
 Reciprocal rank fusion of a lexical and a dense result list, with exact scores, proved to produce
 the one ranking that its definition allows.
 */
module RankFusion {
  import opened Common

  /** A chunk's identity: the source path and index, and the id. */
  datatype Key = Key(source: string, chunkIndex: int, id: string)

  datatype Hit = Hit(id: Option<string>, text: string, filename: string, source: string, chunkIndex: int, score: real)

  datatype Found = Found(rank: nat, score: real)

  datatype Fused = Fused(key: Key, text: string, filename: string, score: real, lexical: Option<Found>,
                         dense: Option<Found>)

  predicate HasId(h: Hit) {
    h.id.Some? && h.id.value != []
  }

  function KeyOf(h: Hit): Key
    requires HasId(h)
  {
    Key(h.source, h.chunkIndex, h.id.value)
  }

  predicate AllHaveIds(hits: seq<Hit>) {
    forall i :: 0 <= i < |hits| ==> HasId(hits[i])
  }

  // ---- the definition ----

  /** The 1-based rank of a key's first hit, 0 when there is none. */
  function FirstRank(hits: seq<Hit>, key: Key): (r: nat)
    requires AllHaveIds(hits)
    ensures r <= |hits| && (r > 0 ==> KeyOf(hits[r - 1]) == key)
    ensures forall i :: 0 <= i < |hits| && (r == 0 || i < r - 1) ==> KeyOf(hits[i]) != key
  {
    if hits == [] then 0
    else
      var n := |hits| - 1;
      var earlier := FirstRank(hits[..n], key);
      if earlier > 0 then earlier else if KeyOf(hits[n]) == key then n + 1 else 0
  }

  /** What one list adds to a key's score. */
  function Term(hits: seq<Hit>, key: Key, k: nat): (t: real)
    requires AllHaveIds(hits)
    ensures t >= 0.0 && (t > 0.0 <==> FirstRank(hits, key) > 0)
  {
    var rank := FirstRank(hits, key);
    if rank == 0 then 0.0 else 1.0 / (k + rank) as real
  }

  function FoundIn(hits: seq<Hit>, key: Key): Option<Found>
    requires AllHaveIds(hits)
  {
    var rank := FirstRank(hits, key);
    if rank == 0 then None else Some(Found(rank, hits[rank - 1].score))
  }

  predicate Occurs(lexical: seq<Hit>, dense: seq<Hit>, key: Key)
    requires AllHaveIds(lexical) && AllHaveIds(dense)
  {
    FirstRank(lexical, key) > 0 || FirstRank(dense, key) > 0
  }

  /** A key's entry: its text from its first hit, the lexical list first, and both lists' terms. */
  function EntryOf(lexical: seq<Hit>, dense: seq<Hit>, key: Key, k: nat): Fused
    requires AllHaveIds(lexical) && AllHaveIds(dense) && Occurs(lexical, dense, key)
  {
    var inLexical := FirstRank(lexical, key);
    var first := if inLexical > 0 then lexical[inLexical - 1] else dense[FirstRank(dense, key) - 1];
    Fused(key, first.text, first.filename, Term(lexical, key, k) + Term(dense, key, k),
          FoundIn(lexical, key), FoundIn(dense, key))
  }

  predicate KeyBefore(a: Key, b: Key) {
    if a.source != b.source then AtMost(a.source, b.source)
    else if a.chunkIndex != b.chunkIndex then a.chunkIndex < b.chunkIndex
    else a.id != b.id && AtMost(a.id, b.id)
  }

  /** Higher score first, then by key. */
  predicate Before(a: Fused, b: Fused) {
    a.score > b.score || (a.score == b.score && KeyBefore(a.key, b.key))
  }

  ghost predicate InOrder(r: seq<Fused>) {
    forall i, j :: 0 <= i < j < |r| ==> Before(r[i], r[j])
  }

  /** The ranking of two lists: every key that occurs, once, with its entry, in order. */
  ghost predicate IsRanking(lexical: seq<Hit>, dense: seq<Hit>, k: nat, r: seq<Fused>)
    requires AllHaveIds(lexical) && AllHaveIds(dense)
  {
    && InOrder(r)
    && (forall i :: 0 <= i < |r| ==>
          Occurs(lexical, dense, r[i].key) && r[i] == EntryOf(lexical, dense, r[i].key, k))
    && forall key :: Occurs(lexical, dense, key) ==> exists i :: 0 <= i < |r| && r[i].key == key
  }

  // ---- the order ----

  lemma KeyBeforeTotal(a: Key, b: Key)
    requires a != b
    ensures KeyBefore(a, b) || KeyBefore(b, a)
  {
    AtMostTotal(a.source, b.source);
    AtMostTotal(a.id, b.id);
  }

  lemma KeyBeforeAsymmetric(a: Key, b: Key)
    ensures !(KeyBefore(a, b) && KeyBefore(b, a))
  {
    if KeyBefore(a, b) && KeyBefore(b, a) {
      if a.source != b.source {
        AtMostAntisymmetric(a.source, b.source);
      } else {
        AtMostAntisymmetric(a.id, b.id);
      }
    }
  }

  lemma KeyBeforeTransitive(a: Key, b: Key, c: Key)
    requires KeyBefore(a, b) && KeyBefore(b, c)
    ensures KeyBefore(a, c)
  {
    hide AtMost;
    if a.source != b.source && b.source != c.source {
      AtMostTransitive(a.source, b.source, c.source);
      if a.source == c.source {
        AtMostAntisymmetric(a.source, b.source);
      }
    } else if a.source == b.source && b.source == c.source && a.chunkIndex == b.chunkIndex == c.chunkIndex {
      AtMostTransitive(a.id, b.id, c.id);
      if a.id == c.id {
        AtMostAntisymmetric(a.id, b.id);
      }
    }
  }

  lemma BeforeTransitive(a: Fused, b: Fused, c: Fused)
    requires Before(a, b) && Before(b, c)
    ensures Before(a, c)
  {
    if a.score == b.score == c.score {
      KeyBeforeTransitive(a.key, b.key, c.key);
    }
  }

  lemma BeforeTotal(a: Fused, b: Fused)
    requires a.key != b.key
    ensures Before(a, b) || Before(b, a)
  {
    KeyBeforeTotal(a.key, b.key);
  }

  lemma BeforeAsymmetric(a: Fused, b: Fused)
    ensures !(Before(a, b) && Before(b, a))
  {
    KeyBeforeAsymmetric(a.key, b.key);
  }

  // ---- sorting ----

  function Insert(e: Fused, r: seq<Fused>): (s: seq<Fused>)
    requires forall i :: 0 <= i < |r| ==> r[i].key != e.key
    ensures multiset(s) == multiset(r) + multiset{e}
  {
    if r == [] then [e]
    else
      assert r == [r[0]] + r[1..];
      if Before(e, r[0]) then [e] + r else [r[0]] + Insert(e, r[1..])
  }

  ghost predicate DistinctKeys(r: seq<Fused>) {
    forall i, j :: 0 <= i < j < |r| ==> r[i].key != r[j].key
  }

  /** The built-in sort by score and key. */
  function Sorted(r: seq<Fused>): (s: seq<Fused>)
    requires DistinctKeys(r)
    ensures multiset(s) == multiset(r)
  {
    if r == [] then []
    else
      assert r == [r[0]] + r[1..];
      var rest := Sorted(r[1..]);
      SameElements(rest, r[1..]);
      Insert(r[0], rest)
  }

  lemma SameElements(s: seq<Fused>, r: seq<Fused>)
    requires multiset(s) == multiset(r)
    ensures forall i :: 0 <= i < |s| ==> s[i] in r
    ensures forall i :: 0 <= i < |r| ==> r[i] in s
  {
    forall i | 0 <= i < |s|
      ensures s[i] in r
    {
      assert s[i] in multiset(s);
    }
    forall i | 0 <= i < |r|
      ensures r[i] in s
    {
      assert r[i] in multiset(r);
    }
  }

  lemma {:induction false} InsertKeepsOrder(e: Fused, r: seq<Fused>)
    requires InOrder(r) && forall i :: 0 <= i < |r| ==> r[i].key != e.key
    ensures InOrder(Insert(e, r))
  {
    if r != [] {
      if Before(e, r[0]) {
        forall i | 0 <= i < |r|
          ensures Before(e, r[i])
        {
          if i > 0 {
            BeforeTransitive(e, r[0], r[i]);
          }
        }
      } else {
        BeforeTotal(e, r[0]);
        InsertKeepsOrder(e, r[1..]);
        var s := Insert(e, r[1..]);
        SameElements(s, r[1..] + [e]);
        forall i | 0 <= i < |s|
          ensures Before(r[0], s[i])
        {
          assert s[i] in r[1..] + [e];
        }
      }
    }
  }

  lemma {:induction false} SortedInOrder(r: seq<Fused>)
    requires DistinctKeys(r)
    ensures InOrder(Sorted(r))
  {
    if r != [] {
      SortedInOrder(r[1..]);
      SameElements(Sorted(r[1..]), r[1..]);
      InsertKeepsOrder(r[0], Sorted(r[1..]));
    }
  }

  // ---- the fusion ----

  datatype Retriever = Lexical | Dense

  /** The dictionary of fused entries: its keys in insertion order, and their entries. */
  datatype Table = Table(order: seq<Key>, entries: map<Key, Fused>)

  /** Each key stands once in the order, and the entries are those of the keys in it. */
  ghost predicate WellFormed(t: Table) {
    && (forall i, j :: 0 <= i < j < |t.order| ==> t.order[i] != t.order[j])
    && forall key :: key in t.order <==> key in t.entries
  }

  /** The table holds exactly the entries of two lists. */
  ghost predicate Holds(t: Table, lexical: seq<Hit>, dense: seq<Hit>, k: nat)
    requires AllHaveIds(lexical) && AllHaveIds(dense)
  {
    && WellFormed(t)
    && (forall key :: key in t.entries <==> Occurs(lexical, dense, key))
    && forall key :: key in t.entries ==> t.entries[key] == EntryOf(lexical, dense, key, k)
  }

  function Add(t: Table, retriever: Retriever, h: Hit, rank: nat, k: nat): Table
    requires HasId(h) && rank > 0 && forall key :: key in t.order ==> key in t.entries
  {
    var key := KeyOf(h);
    var entry := if key in t.entries then t.entries[key] else Fused(key, h.text, h.filename, 0.0, None, None);
    var order := if key in t.entries then t.order else t.order + [key];
    var seen := if retriever.Lexical? then entry.lexical.Some? else entry.dense.Some?;
    if seen then t
    else
      var scored := entry.(score := entry.score + 1.0 / (k + rank) as real);
      var found := Some(Found(rank, h.score));
      Table(order, t.entries[key := if retriever.Lexical? then scored.(lexical := found) else scored.(dense := found)])
  }

  lemma AddKeepsForm(t: Table, retriever: Retriever, h: Hit, rank: nat, k: nat)
    requires HasId(h) && rank > 0 && WellFormed(t)
    ensures WellFormed(Add(t, retriever, h, rank, k))
  {
    hide KeyOf;
  }

  /** A hit changes only its own key's entry, and that only when this list has not found the key before. */
  lemma AddChanges(t: Table, retriever: Retriever, h: Hit, rank: nat, k: nat)
    requires HasId(h) && rank > 0 && WellFormed(t)
    ensures var r, own := Add(t, retriever, h, rank, k), KeyOf(h);
            && (forall key :: key in r.entries <==> key in t.entries || key == own)
            && (forall key :: key in t.entries && key != own ==> r.entries[key] == t.entries[key])
            && var e := if own in t.entries then t.entries[own] else Fused(own, h.text, h.filename, 0.0, None, None);
               var found := Some(Found(rank, h.score));
               var score := e.score + 1.0 / (k + rank) as real;
               r.entries[own] ==
                 if retriever.Lexical? then (if e.lexical.Some? then e else e.(score := score, lexical := found))
                 else if e.dense.Some? then e else e.(score := score, dense := found)
  {
    hide KeyOf;
  }

  lemma FirstRankOneMore(hits: seq<Hit>, h: Hit, key: Key)
    requires AllHaveIds(hits) && HasId(h)
    ensures AllHaveIds(hits + [h])
    ensures FirstRank(hits + [h], key) ==
              if FirstRank(hits, key) > 0 then FirstRank(hits, key) else if KeyOf(h) == key then |hits| + 1 else 0
  {
    assert (hits + [h])[..|hits|] == hits;
  }

  /** What one more hit changes for a key: only a key not found before, and only the hit's own. */
  lemma OneMoreHit(hits: seq<Hit>, h: Hit, key: Key, k: nat)
    requires AllHaveIds(hits) && HasId(h)
    ensures AllHaveIds(hits + [h])
    ensures if FirstRank(hits, key) == 0 && KeyOf(h) == key then
              && FirstRank(hits + [h], key) == |hits| + 1
              && Term(hits, key, k) == 0.0 && Term(hits + [h], key, k) == 1.0 / (k + |hits| + 1) as real
              && FoundIn(hits, key) == None && FoundIn(hits + [h], key) == Some(Found(|hits| + 1, h.score))
            else
              && FirstRank(hits + [h], key) == FirstRank(hits, key)
              && Term(hits + [h], key, k) == Term(hits, key, k)
              && FoundIn(hits + [h], key) == FoundIn(hits, key)
              && (FirstRank(hits, key) > 0 ==> (hits + [h])[FirstRank(hits, key) - 1] == hits[FirstRank(hits, key) - 1])
  {
    hide KeyOf;
    FirstRankOneMore(hits, h, key);
    hide FirstRank;
  }

  lemma LexicalEntry(lexical: seq<Hit>, h: Hit, key: Key, k: nat)
    requires AllHaveIds(lexical) && HasId(h)
    ensures AllHaveIds(lexical + [h])
    ensures Occurs(lexical + [h], [], key) <==> Occurs(lexical, [], key) || KeyOf(h) == key
    ensures Occurs(lexical, [], key) ==> EntryOf(lexical + [h], [], key, k) == EntryOf(lexical, [], key, k)
    ensures Occurs(lexical, [], key) ==> EntryOf(lexical, [], key, k).lexical.Some?
    ensures !Occurs(lexical, [], key) && KeyOf(h) == key ==>
              EntryOf(lexical + [h], [], key, k)
              == Fused(key, h.text, h.filename, 1.0 / (k + |lexical| + 1) as real,
                       Some(Found(|lexical| + 1, h.score)), None)
  {
    OneMoreHit(lexical, h, key, k);
    hide KeyOf, Term;
    assert Term([], key, k) == 0.0 by {
      EmptyTerm(key, k);
    }
  }

  lemma EmptyTerm(key: Key, k: nat)
    ensures Term([], key, k) == 0.0 && FoundIn([], key) == None
  {
  }

  lemma DenseEntry(lexical: seq<Hit>, dense: seq<Hit>, h: Hit, key: Key, k: nat)
    requires AllHaveIds(lexical) && AllHaveIds(dense) && HasId(h)
    ensures AllHaveIds(dense + [h])
    ensures Occurs(lexical, dense + [h], key) <==> Occurs(lexical, dense, key) || KeyOf(h) == key
    ensures Occurs(lexical, dense, key) && (KeyOf(h) != key || FoundIn(dense, key).Some?) ==>
              EntryOf(lexical, dense + [h], key, k) == EntryOf(lexical, dense, key, k)
    ensures Occurs(lexical, dense, key) && KeyOf(h) == key && FoundIn(dense, key).None? ==>
              var e := EntryOf(lexical, dense, key, k);
              EntryOf(lexical, dense + [h], key, k)
              == e.(score := e.score + 1.0 / (k + |dense| + 1) as real, dense := Some(Found(|dense| + 1, h.score)))
    ensures !Occurs(lexical, dense, key) && KeyOf(h) == key ==>
              EntryOf(lexical, dense + [h], key, k)
              == Fused(key, h.text, h.filename, 1.0 / (k + |dense| + 1) as real,
                       None, Some(Found(|dense| + 1, h.score)))
  {
    OneMoreHit(dense, h, key, k);
    hide KeyOf, FirstRank;
  }

  lemma AddLexical(t: Table, lexical: seq<Hit>, h: Hit, k: nat)
    requires AllHaveIds(lexical) && HasId(h) && Holds(t, lexical, [], k)
    ensures AllHaveIds(lexical + [h]) && Holds(Add(t, Lexical, h, |lexical| + 1, k), lexical + [h], [], k)
  {
    hide EntryOf, Occurs, KeyOf, Add;
    AddKeepsForm(t, Lexical, h, |lexical| + 1, k);
    AddChanges(t, Lexical, h, |lexical| + 1, k);
    LexicalEntry(lexical, h, KeyOf(h), k);
    var r := Add(t, Lexical, h, |lexical| + 1, k);
    forall key
      ensures key in r.entries <==> Occurs(lexical + [h], [], key)
      ensures key in r.entries ==> r.entries[key] == EntryOf(lexical + [h], [], key, k)
    {
      LexicalEntry(lexical, h, key, k);
    }
  }

  lemma AddDense(t: Table, lexical: seq<Hit>, dense: seq<Hit>, h: Hit, k: nat)
    requires AllHaveIds(lexical) && AllHaveIds(dense) && HasId(h) && Holds(t, lexical, dense, k)
    ensures AllHaveIds(dense + [h]) && Holds(Add(t, Dense, h, |dense| + 1, k), lexical, dense + [h], k)
  {
    hide EntryOf, Occurs, KeyOf, AllHaveIds, Add, FoundIn;
    AddKeepsForm(t, Dense, h, |dense| + 1, k);
    AddChanges(t, Dense, h, |dense| + 1, k);
    DenseEntry(lexical, dense, h, KeyOf(h), k);
    var r := Add(t, Dense, h, |dense| + 1, k);
    forall key
      ensures key in r.entries <==> Occurs(lexical, dense + [h], key)
      ensures key in r.entries ==> r.entries[key] == EntryOf(lexical, dense + [h], key, k)
    {
      DenseEntry(lexical, dense, h, key, k);
      EntryDense(lexical, dense, key, k);
    }
  }

  lemma EntryDense(lexical: seq<Hit>, dense: seq<Hit>, key: Key, k: nat)
    requires AllHaveIds(lexical) && AllHaveIds(dense)
    ensures Occurs(lexical, dense, key) ==>
              EntryOf(lexical, dense, key, k).key == key && EntryOf(lexical, dense, key, k).dense == FoundIn(dense, key)
  {
  }

  /** `items[:n]` as slices work there: a negative n counts from the end. */
  function Slice(r: seq<Fused>, n: int): seq<Fused> {
    if n >= |r| then r else if n >= 0 then r[..n] else if |r| + n > 0 then r[..|r| + n] else []
  }

  /** One list's hits entered into the table; a hit without an id stops the fusion. */
  method Enter(t: Table, retriever: Retriever, hits: seq<Hit>, k: nat, ghost lexical: seq<Hit>)
    returns (r: Result<Table>)
    requires retriever.Dense? ==> AllHaveIds(lexical)
    requires Holds(t, if retriever.Lexical? then [] else lexical, [], k)
    ensures r.Ok? <==> AllHaveIds(hits)
    ensures r.Ok? && retriever.Lexical? ==> Holds(r.value, hits, [], k)
    ensures r.Ok? && retriever.Dense? ==> Holds(r.value, lexical, hits, k)
  {
    hide Holds, Add, HasId;
    var table := t;
    for i := 0 to |hits|
      invariant AllHaveIds(hits[..i])
      invariant retriever.Lexical? ==> Holds(table, hits[..i], [], k)
      invariant retriever.Dense? ==> Holds(table, lexical, hits[..i], k)
    {
      if !HasId(hits[i]) {
        return Err("Hybrid retrieval requires every result to have a chunk id.");
      }
      assert hits[..i + 1] == hits[..i] + [hits[i]];
      if retriever.Lexical? {
        AddLexical(table, hits[..i], hits[i], k);
        TableOk(table, hits[..i], [], k);
      } else {
        AddDense(table, lexical, hits[..i], hits[i], k);
        TableOk(table, lexical, hits[..i], k);
      }
      table := Add(table, retriever, hits[i], i + 1, k);
    }
    assert hits[..|hits|] == hits;
    r := Ok(table);
  }

  lemma TableOk(t: Table, lexical: seq<Hit>, dense: seq<Hit>, k: nat)
    requires AllHaveIds(lexical) && AllHaveIds(dense) && Holds(t, lexical, dense, k)
    ensures forall key :: key in t.order ==> key in t.entries
  {
  }

  function Values(t: Table): (v: seq<Fused>)
    requires forall i :: 0 <= i < |t.order| ==> t.order[i] in t.entries
    ensures |v| == |t.order| && forall i :: 0 <= i < |v| ==> v[i] == t.entries[t.order[i]]
  {
    seq(|t.order|, i requires 0 <= i < |t.order| => t.entries[t.order[i]])
  }

  lemma ValuesOk(t: Table, lexical: seq<Hit>, dense: seq<Hit>, k: nat)
    requires AllHaveIds(lexical) && AllHaveIds(dense) && Holds(t, lexical, dense, k)
    ensures forall i :: 0 <= i < |t.order| ==> t.order[i] in t.entries
    ensures DistinctKeys(Values(t))
    ensures IsRanking(lexical, dense, k, Sorted(Values(t)))
  {
    hide *;
    ValueKeys(t, lexical, dense, k);
    SortedIsRanking(t, Values(t), lexical, dense, k);
  }

  lemma SortedIsRanking(t: Table, v: seq<Fused>, lexical: seq<Hit>, dense: seq<Hit>, k: nat)
    requires AllHaveIds(lexical) && AllHaveIds(dense) && Holds(t, lexical, dense, k)
    requires |v| == |t.order| && forall i :: 0 <= i < |v| ==> t.order[i] in t.entries && v[i] == t.entries[t.order[i]]
    requires forall i :: 0 <= i < |v| ==> v[i].key == t.order[i]
    requires DistinctKeys(v)
    ensures IsRanking(lexical, dense, k, Sorted(v))
  {
    hide Holds, Sorted, InOrder, DistinctKeys, Occurs, EntryOf, AllHaveIds;
    SortedInOrder(v);
    var r := Sorted(v);
    SameElements(r, v);
    SortedEntries(t, v, r, lexical, dense, k);
    SortedKeysAll(t, v, r, lexical, dense, k);
  }

  lemma ValueKeys(t: Table, lexical: seq<Hit>, dense: seq<Hit>, k: nat)
    requires AllHaveIds(lexical) && AllHaveIds(dense) && Holds(t, lexical, dense, k)
    ensures forall i :: 0 <= i < |t.order| ==> t.order[i] in t.entries
    ensures forall i :: 0 <= i < |t.order| ==> Values(t)[i].key == t.order[i]
    ensures DistinctKeys(Values(t))
  {
    EntriesKeepKeys(lexical, dense, k);
    hide EntryOf, Occurs, AllHaveIds;
  }

  lemma SortedEntries(t: Table, v: seq<Fused>, r: seq<Fused>, lexical: seq<Hit>, dense: seq<Hit>, k: nat)
    requires AllHaveIds(lexical) && AllHaveIds(dense) && Holds(t, lexical, dense, k)
    requires |v| == |t.order| && forall i :: 0 <= i < |v| ==> t.order[i] in t.entries && v[i] == t.entries[t.order[i]]
    requires forall i :: 0 <= i < |v| ==> v[i].key == t.order[i]
    requires forall i :: 0 <= i < |r| ==> r[i] in v
    ensures forall i :: 0 <= i < |r| ==>
              Occurs(lexical, dense, r[i].key) && r[i] == EntryOf(lexical, dense, r[i].key, k)
  {
    hide EntryOf, Occurs, AllHaveIds;
    forall i | 0 <= i < |r|
      ensures Occurs(lexical, dense, r[i].key) && r[i] == EntryOf(lexical, dense, r[i].key, k)
    {
      var j :| 0 <= j < |v| && v[j] == r[i];
    }
  }

  lemma SortedKeysAll(t: Table, v: seq<Fused>, r: seq<Fused>, lexical: seq<Hit>, dense: seq<Hit>, k: nat)
    requires AllHaveIds(lexical) && AllHaveIds(dense) && Holds(t, lexical, dense, k)
    requires |v| == |t.order| && forall i :: 0 <= i < |v| ==> v[i].key == t.order[i]
    requires forall i :: 0 <= i < |v| ==> v[i] in r
    ensures forall key :: Occurs(lexical, dense, key) ==> exists i :: 0 <= i < |r| && r[i].key == key
  {
    hide EntryOf, Occurs, AllHaveIds;
    forall key | Occurs(lexical, dense, key)
      ensures exists i :: 0 <= i < |r| && r[i].key == key
    {
      assert key in t.order;
      var j :| 0 <= j < |t.order| && t.order[j] == key;
      var i :| 0 <= i < |r| && r[i] == v[j];
    }
  }

  lemma EntriesKeepKeys(lexical: seq<Hit>, dense: seq<Hit>, k: nat)
    requires AllHaveIds(lexical) && AllHaveIds(dense)
    ensures forall key :: Occurs(lexical, dense, key) ==> EntryOf(lexical, dense, key, k).key == key
  {
  }

  /** The answer of the fusion: the first `topK` entries of the ranking. */
  ghost predicate IsAnswer(lexical: seq<Hit>, dense: seq<Hit>, topK: int, k: nat, answer: seq<Fused>)
    requires AllHaveIds(lexical) && AllHaveIds(dense)
  {
    exists ranking :: IsRanking(lexical, dense, k, ranking) && answer == Slice(ranking, topK)
  }

  /** The fusion returns that answer, unless some hit has no id. */
  method RrfFuse(lexical: seq<Hit>, dense: seq<Hit>, topK: int, k: nat) returns (r: Result<seq<Fused>>)
    ensures r.Ok? <==> AllHaveIds(lexical) && AllHaveIds(dense)
    ensures r.Err? <==> exists h :: h in lexical + dense && (h.id == None || h.id == Some(""))
    ensures r.Ok? ==> IsAnswer(lexical, dense, topK, k, r.value)
  {
    WithoutId(lexical, dense);
    hide Holds, IsRanking, Sorted, AllHaveIds;
    NoHits(k);
    var entered := Enter(Table([], map[]), Lexical, lexical, k, []);
    if entered.Err? {
      return Err(entered.error);
    }
    var both := Enter(entered.value, Dense, dense, k, lexical);
    if both.Err? {
      return Err(both.error);
    }
    ValuesOk(both.value, lexical, dense, k);
    var ranked := Sorted(Values(both.value));
    r := Ok(Slice(ranked, topK));
  }

  lemma WithoutId(lexical: seq<Hit>, dense: seq<Hit>)
    ensures !(AllHaveIds(lexical) && AllHaveIds(dense))
       <==> exists h :: h in lexical + dense && (h.id == None || h.id == Some(""))
  {
    forall h
      ensures HasId(h) <==> !(h.id == None || h.id == Some(""))
    {
    }
    hide HasId;
    if h :| h in lexical + dense && !HasId(h) {
      assert h in lexical || h in dense;
    }
    if !AllHaveIds(lexical) {
      var i :| 0 <= i < |lexical| && !HasId(lexical[i]);
      assert lexical[i] in lexical + dense;
    }
    if !AllHaveIds(dense) {
      var i :| 0 <= i < |dense| && !HasId(dense[i]);
      assert dense[i] in lexical + dense;
    }
  }

  lemma NoHits(k: nat)
    ensures AllHaveIds([]) && Holds(Table([], map[]), [], [], k)
  {
  }

  // ---- what the ranking is ----

  /** Two orderings of the same entries agree from the front. */
  lemma {:induction false} SameFront(r: seq<Fused>, s: seq<Fused>, n: nat)
    requires InOrder(r) && InOrder(s) && (forall e :: e in r <==> e in s) && n <= |r|
    ensures n <= |s| && r[..n] == s[..n]
  {
    hide Before;
    if n > 0 {
      var i := n - 1;
      SameFront(r, s, i);
      assert r[i] in s;
      var j :| 0 <= j < |s| && s[j] == r[i];
      BeforeAsymmetric(r[i], r[i]);
      assert j >= i;
      assert s[i] in r;
      var l :| 0 <= l < |r| && r[l] == s[i];
      BeforeAsymmetric(s[i], s[i]);
      assert l >= i;
      BeforeAsymmetric(s[i], r[i]);
      assert r[..n] == r[..i] + [r[i]] && s[..n] == s[..i] + [s[i]];
    }
  }

  /** Two lists have one ranking: the method's answer is determined by its definition. */
  lemma RankingUnique(lexical: seq<Hit>, dense: seq<Hit>, k: nat, r: seq<Fused>, s: seq<Fused>)
    requires AllHaveIds(lexical) && AllHaveIds(dense)
    requires IsRanking(lexical, dense, k, r) && IsRanking(lexical, dense, k, s)
    ensures r == s
  {
    hide EntryOf, Occurs, Before;
    Included(lexical, dense, k, r, s);
    Included(lexical, dense, k, s, r);
    SameFront(r, s, |r|);
    SameFront(s, r, |s|);
    assert r[..|r|] == r && s[..|s|] == s;
  }

  lemma Included(lexical: seq<Hit>, dense: seq<Hit>, k: nat, r: seq<Fused>, s: seq<Fused>)
    requires AllHaveIds(lexical) && AllHaveIds(dense)
    requires IsRanking(lexical, dense, k, r) && IsRanking(lexical, dense, k, s)
    ensures forall e :: e in r ==> e in s
  {
    hide EntryOf, Occurs, Before, InOrder;
    forall e | e in r
      ensures e in s
    {
      var i :| 0 <= i < |r| && r[i] == e;
      assert Occurs(lexical, dense, e.key);
      var j :| 0 <= j < |s| && s[j].key == e.key;
      assert s[j] == EntryOf(lexical, dense, e.key, k);
    }
  }

  /** Two answers over the same lists: the one for the smaller `topK` is a prefix of the other. */
  lemma SmallerIsPrefix(lexical: seq<Hit>, dense: seq<Hit>, k: nat, m: int, n: int, a: seq<Fused>, b: seq<Fused>)
    requires AllHaveIds(lexical) && AllHaveIds(dense)
    requires IsAnswer(lexical, dense, m, k, a) && IsAnswer(lexical, dense, n, k, b)
    requires 0 <= m <= n || m <= n < 0
    ensures a <= b
    ensures m == n ==> a == b
  {
    hide IsRanking;
    var r :| IsRanking(lexical, dense, k, r) && a == Slice(r, m);
    var s :| IsRanking(lexical, dense, k, s) && b == Slice(s, n);
    RankingUnique(lexical, dense, k, r, s);
  }

  lemma {:induction false} RankedKeysDiffer(r: seq<Fused>, i: nat, j: nat)
    requires InOrder(r) && i < j < |r|
    ensures Before(r[i], r[j]) && !Before(r[j], r[i])
  {
    BeforeAsymmetric(r[i], r[j]);
  }

  /**
   A key that stands ahead of another in every list that holds the other ranks above it in the
   fusion.
   */
  lemma AheadInEveryList(lexical: seq<Hit>, dense: seq<Hit>, k: nat, r: seq<Fused>, i: nat, j: nat)
    requires AllHaveIds(lexical) && AllHaveIds(dense) && IsRanking(lexical, dense, k, r)
    requires i < |r| && j < |r| && i != j
    requires FirstRank(lexical, r[j].key) > 0 ==> 0 < FirstRank(lexical, r[i].key) < FirstRank(lexical, r[j].key)
    requires FirstRank(dense, r[j].key) > 0 ==> 0 < FirstRank(dense, r[i].key) < FirstRank(dense, r[j].key)
    ensures i < j
  {
    AheadTerm(lexical, r[i].key, r[j].key, k);
    AheadTerm(dense, r[i].key, r[j].key, k);
    hide Term, FirstRank;
    assert r[i].score > r[j].score;
    if j < i {
      RankedKeysDiffer(r, j, i);
    }
  }

  lemma AheadTerm(hits: seq<Hit>, a: Key, b: Key, k: nat)
    requires AllHaveIds(hits)
    requires FirstRank(hits, b) > 0 ==> 0 < FirstRank(hits, a) < FirstRank(hits, b)
    ensures Term(hits, a, k) >= Term(hits, b, k)
    ensures FirstRank(hits, b) > 0 ==> Term(hits, a, k) > Term(hits, b, k)
  {
    if FirstRank(hits, b) > 0 {
      ReciprocalFalls(k + FirstRank(hits, a), k + FirstRank(hits, b));
    }
  }

  lemma ReciprocalFalls(m: nat, n: nat)
    requires 0 < m < n
    ensures 1.0 / m as real > 1.0 / n as real
  {
  }

  /** The same ranking with the two lists' roles exchanged. */
  function Exchanged(lexical: seq<Hit>, dense: seq<Hit>, k: nat, r: seq<Fused>): (s: seq<Fused>)
    requires AllHaveIds(lexical) && AllHaveIds(dense)
    requires forall i :: 0 <= i < |r| ==> Occurs(dense, lexical, r[i].key)
    ensures |s| == |r| && forall i :: 0 <= i < |r| ==> s[i] == EntryOf(dense, lexical, r[i].key, k)
  {
    seq(|r|, i requires 0 <= i < |r| => EntryOf(dense, lexical, r[i].key, k))
  }

  lemma ExchangedEntry(lexical: seq<Hit>, dense: seq<Hit>, key: Key, k: nat)
    requires AllHaveIds(lexical) && AllHaveIds(dense)
    ensures Occurs(lexical, dense, key) <==> Occurs(dense, lexical, key)
    ensures Occurs(lexical, dense, key) ==>
              var a, b := EntryOf(lexical, dense, key, k), EntryOf(dense, lexical, key, k);
              a.key == b.key == key && a.score == b.score
  {
    hide FirstRank, FoundIn, Term;
  }

  lemma ExchangedIsRanking(lexical: seq<Hit>, dense: seq<Hit>, k: nat, r: seq<Fused>) returns (e: seq<Fused>)
    requires AllHaveIds(lexical) && AllHaveIds(dense) && IsRanking(lexical, dense, k, r)
    ensures IsRanking(dense, lexical, k, e)
    ensures |e| == |r| && forall i :: 0 <= i < |r| ==> e[i].key == r[i].key && e[i].score == r[i].score
  {
    forall key
      ensures Occurs(lexical, dense, key) <==> Occurs(dense, lexical, key)
      ensures Occurs(lexical, dense, key) ==>
                var a, b := EntryOf(lexical, dense, key, k), EntryOf(dense, lexical, key, k);
                a.key == b.key == key && a.score == b.score
    {
      ExchangedEntry(lexical, dense, key, k);
    }
    hide EntryOf, Occurs, AllHaveIds, KeyBefore;
    e := Exchanged(lexical, dense, k, r);
    forall i, j | 0 <= i < j < |e|
      ensures Before(e[i], e[j])
    {
      assert Before(r[i], r[j]);
    }
  }

  /** Exchanging the lists changes neither the order of the keys nor their scores. */
  lemma ExchangeKeepsOrder(lexical: seq<Hit>, dense: seq<Hit>, k: nat, r: seq<Fused>, s: seq<Fused>)
    requires AllHaveIds(lexical) && AllHaveIds(dense)
    requires IsRanking(lexical, dense, k, r) && IsRanking(dense, lexical, k, s)
    ensures |r| == |s| && forall i :: 0 <= i < |r| ==> r[i].key == s[i].key && r[i].score == s[i].score
  {
    hide IsRanking;
    var e := ExchangedIsRanking(lexical, dense, k, r);
    RankingUnique(dense, lexical, k, e, s);
  }

  // ---- what an answer holds ----

  function Keys(hits: seq<Hit>): set<Key>
    requires AllHaveIds(hits)
  {
    set i | 0 <= i < |hits| :: Key(hits[i].source, hits[i].chunkIndex, hits[i].id.value)
  }

  lemma {:induction false} DistinctCount(r: seq<Fused>, keys: set<Key>)
    requires DistinctKeys(r) && forall key :: key in keys <==> exists i :: 0 <= i < |r| && r[i].key == key
    ensures |r| == |keys|
  {
    if r == [] {
      assert keys == {};
    } else {
      var n := |r| - 1;
      DistinctCount(r[..n], keys - {r[n].key});
      assert r[n].key in keys;
    }
  }

  lemma KeysAre(hits: seq<Hit>)
    requires AllHaveIds(hits)
    ensures forall key :: key in Keys(hits) <==> exists i :: 0 <= i < |hits| && KeyOf(hits[i]) == key
  {
  }

  lemma RankingLength(lexical: seq<Hit>, dense: seq<Hit>, k: nat, r: seq<Fused>)
    requires AllHaveIds(lexical) && AllHaveIds(dense) && IsRanking(lexical, dense, k, r)
    ensures |r| == |Keys(lexical) + Keys(dense)|
  {
    forall i, j | 0 <= i < j < |r|
      ensures r[i].key != r[j].key
    {
      RankedKeysDiffer(r, i, j);
    }
    KeysAre(lexical);
    KeysAre(dense);
    hide EntryOf, InOrder, KeyOf, Keys;
    assert forall key :: Occurs(lexical, dense, key) <==> key in Keys(lexical) + Keys(dense);
    DistinctCount(r, Keys(lexical) + Keys(dense));
  }

  /** An answer has `topK` entries, or one for each chunk found when those are fewer; a negative count drops some. */
  lemma AnswerLength(lexical: seq<Hit>, dense: seq<Hit>, topK: int, k: nat, answer: seq<Fused>)
    requires AllHaveIds(lexical) && AllHaveIds(dense) && IsAnswer(lexical, dense, topK, k, answer)
    ensures var found := |Keys(lexical) + Keys(dense)|;
            |answer| == if topK >= 0 then Min(topK, found) else if found + topK > 0 then found + topK else 0
  {
    hide IsRanking;
    var r: seq<Fused> :| IsRanking(lexical, dense, k, r) && answer == Slice(r, topK);
    RankingLength(lexical, dense, k, r);
  }

  /** A hit is for a chunk by its source, its index there and its id. */
  predicate IsHitFor(h: Hit, key: Key) {
    h.source == key.source && h.chunkIndex == key.chunkIndex && h.id == Some(key.id)
  }

  /** The first hit for a chunk in a list. */
  predicate FirstAt(hits: seq<Hit>, key: Key, i: int) {
    0 <= i < |hits| && IsHitFor(hits[i], key) && forall j :: 0 <= j < i ==> !IsHitFor(hits[j], key)
  }

  lemma RankOfFirst(hits: seq<Hit>, key: Key)
    requires AllHaveIds(hits)
    ensures forall i :: FirstAt(hits, key, i) <==> FirstRank(hits, key) > 0 && i == FirstRank(hits, key) - 1
  {
    assert forall i :: 0 <= i < |hits| ==> (IsHitFor(hits[i], key) <==> KeyOf(hits[i]) == key);
    hide KeyOf, IsHitFor;
  }

  /** A chunk found in both lists, or in one of them, with its text, score and provenance. */
  lemma EntryForm(lexical: seq<Hit>, dense: seq<Hit>, k: nat, key: Key)
    requires AllHaveIds(lexical) && AllHaveIds(dense) && Occurs(lexical, dense, key)
    ensures var e := EntryOf(lexical, dense, key, k);
            && e.key == key
            && (forall i, j :: FirstAt(lexical, key, i) && FirstAt(dense, key, j) ==>
                  && e.score == 1.0 / (k + i + 1) as real + 1.0 / (k + j + 1) as real
                  && e.text == lexical[i].text && e.filename == lexical[i].filename
                  && e.lexical == Some(Found(i + 1, lexical[i].score)) && e.dense == Some(Found(j + 1, dense[j].score)))
            && (forall i :: FirstAt(lexical, key, i) && key !in Keys(dense) ==>
                  && e.score == 1.0 / (k + i + 1) as real
                  && e.text == lexical[i].text && e.filename == lexical[i].filename
                  && e.lexical == Some(Found(i + 1, lexical[i].score)) && e.dense == None)
            && (forall j :: FirstAt(dense, key, j) && key !in Keys(lexical) ==>
                  && e.score == 1.0 / (k + j + 1) as real
                  && e.text == dense[j].text && e.filename == dense[j].filename
                  && e.lexical == None && e.dense == Some(Found(j + 1, dense[j].score)))
  {
    RankOfFirst(lexical, key);
    RankOfFirst(dense, key);
    KeysAre(lexical);
    KeysAre(dense);
    hide KeyOf, FirstRank, FirstAt, Keys;
  }

  /** A proper prefix, or smaller in the first place where the two differ. */
  ghost predicate Smaller(a: string, b: string) {
    a < b || exists n :: 0 <= n < |a| && n < |b| && a[..n] == b[..n] && a[n] < b[n]
  }

  /** The higher score, or with the same score the smaller source, then the smaller index, then the smaller id. */
  ghost predicate Outranks(a: Fused, b: Fused) {
    || a.score > b.score
    || (a.score == b.score
        && (|| Smaller(a.key.source, b.key.source)
            || (a.key.source == b.key.source && a.key.chunkIndex < b.key.chunkIndex)
            || (a.key.source == b.key.source && a.key.chunkIndex == b.key.chunkIndex
                && Smaller(a.key.id, b.key.id))))
  }

  lemma BeforeOutranks(a: Fused, b: Fused)
    requires Before(a, b)
    ensures Outranks(a, b)
  {
    AtMostIff(a.key.source, b.key.source);
    AtMostIff(a.key.id, b.key.id);
    hide AtMost;
  }

  /** An answer holds each of its chunks with its entry, and each outranks those behind it. */
  lemma AnswerOrder(lexical: seq<Hit>, dense: seq<Hit>, topK: int, k: nat, answer: seq<Fused>, i: nat, j: nat)
    requires AllHaveIds(lexical) && AllHaveIds(dense) && IsAnswer(lexical, dense, topK, k, answer)
    requires i < j < |answer|
    ensures Occurs(lexical, dense, answer[i].key) && answer[i] == EntryOf(lexical, dense, answer[i].key, k)
    ensures Outranks(answer[i], answer[j])
  {
    hide Before, EntryOf, Occurs, Outranks;
    var r: seq<Fused> :| IsRanking(lexical, dense, k, r) && answer == Slice(r, topK);
    BeforeOutranks(r[i], r[j]);
  }

  /** A chunk that did not make it into the answer is outranked by all that did. */
  lemma AnswerIsBest(lexical: seq<Hit>, dense: seq<Hit>, topK: int, k: nat, answer: seq<Fused>, i: nat, key: Key)
    requires AllHaveIds(lexical) && AllHaveIds(dense) && IsAnswer(lexical, dense, topK, k, answer)
    requires i < |answer| && Occurs(lexical, dense, key)
    requires forall j :: 0 <= j < |answer| ==> answer[j].key != key
    ensures Outranks(answer[i], EntryOf(lexical, dense, key, k))
  {
    hide Before, EntryOf, Occurs, Outranks;
    var r: seq<Fused> :| IsRanking(lexical, dense, k, r) && answer == Slice(r, topK);
    var j :| 0 <= j < |r| && r[j].key == key;
    assert j >= |answer|;
    BeforeOutranks(r[i], r[j]);
  }
}
