/**
 The retrieval metric: results collapsed to documents, and normalized discounted cumulative gain with
 binary relevance. The discount is any positive, strictly falling function of the rank, as the
 reciprocal logarithm is.
 */
module RetrievalMetric {
  import opened Common

  function FirstIndex(items: seq<string>, x: string): (i: nat)
    requires x in items
    ensures i < |items| && items[i] == x && forall j :: 0 <= j < i ==> items[j] != x
  {
    if items[0] == x then 0 else 1 + FirstIndex(items[1..], x)
  }

  predicate Distinct(docs: seq<string>) {
    forall i, j :: 0 <= i < j < |docs| ==> docs[i] != docs[j]
  }

  /** The documents of a result list, each once, in the order of their first result. */
  ghost predicate AreDocsOf(docs: seq<string>, results: seq<string>) {
    && Distinct(docs)
    && (forall d :: d in docs <==> d in results)
    && forall i, j :: 0 <= i < j < |docs| && docs[i] in results && docs[j] in results ==>
         FirstIndex(results, docs[i]) < FirstIndex(results, docs[j])
  }

  method RankedDocs(results: seq<string>) returns (seen: seq<string>)
    ensures AreDocsOf(seen, results)
  {
    seen := [];
    for i := 0 to |results|
      invariant AreDocsOf(seen, results[..i])
    {
      var before := results[..i];
      assert results[..i + 1] == before + [results[i]];
      forall d | d in before
        ensures FirstIndex(before + [results[i]], d) == FirstIndex(before, d)
      {
        FirstIndexStays(before, results[i], d);
      }
      if results[i] !in seen {
        assert FirstIndex(before + [results[i]], results[i]) == i by {
          assert forall j :: 0 <= j < i ==> (before + [results[i]])[j] in before;
        }
        seen := seen + [results[i]];
      }
    }
    assert results[..|results|] == results;
  }

  lemma FirstIndexStays(items: seq<string>, last: string, x: string)
    requires x in items
    ensures FirstIndex(items + [last], x) == FirstIndex(items, x)
  {
    var i, j := FirstIndex(items, x), FirstIndex(items + [last], x);
    assert (items + [last])[i] == x;
    assert forall l :: 0 <= l < |items| ==> (items + [last])[l] == items[l];
  }

  // ---- gain ----

  type Discount = nat -> real

  ghost predicate Falls(disc: Discount) {
    forall r: nat :: r >= 1 ==> disc(r) > 0.0 && disc(r) > disc(r + 1)
  }

  /** The gain of n relevant documents at the first n ranks. */
  function Ideal(disc: Discount, n: nat): real {
    if n == 0 then 0.0 else Ideal(disc, n - 1) + disc(n)
  }

  function Gain(disc: Discount, docs: seq<string>, relevant: set<string>): real {
    if docs == [] then 0.0
    else
      var n := |docs| - 1;
      Gain(disc, docs[..n], relevant) + (if docs[n] in relevant then disc(n + 1) else 0.0)
  }

  function Top(docs: seq<string>, k: nat): seq<string> {
    docs[..Min(k, |docs|)]
  }

  /** The gain of the first k documents against the best possible one; 0 when nothing could be gained. */
  function Ndcg(disc: Discount, docs: seq<string>, relevant: set<string>, k: int): real {
    var n := Min(k, |relevant|);
    if n <= 0 then 0.0
    else
      var ideal := Ideal(disc, n);
      if ideal == 0.0 then 0.0 else Gain(disc, Top(docs, k), relevant) / ideal
  }

  function Hits(docs: seq<string>, relevant: set<string>): (n: nat)
    ensures n <= |docs|
  {
    if docs == [] then 0
    else Hits(docs[..|docs| - 1], relevant) + (if docs[|docs| - 1] in relevant then 1 else 0)
  }

  lemma {:induction false} IdealRises(disc: Discount, m: nat, n: nat)
    requires Falls(disc) && m <= n
    ensures 0.0 <= Ideal(disc, m) <= Ideal(disc, n)
    ensures m < n ==> Ideal(disc, m) < Ideal(disc, n)
  {
    if m < n {
      IdealRises(disc, m, n - 1);
    } else if n > 0 {
      IdealRises(disc, n - 1, n - 1);
    }
  }

  lemma {:induction false} DiscountFalls(disc: Discount, m: nat, n: nat)
    requires Falls(disc) && 1 <= m <= n
    ensures disc(n) > 0.0 && disc(m) >= disc(n) && (m < n ==> disc(m) > disc(n))
    decreases n - m
  {
    if m < n {
      DiscountFalls(disc, m + 1, n);
    }
  }

  /** Relevant documents never gain more than at the first ranks, and as much only there. */
  lemma {:induction false} GainAtMostIdeal(disc: Discount, docs: seq<string>, relevant: set<string>)
    requires Falls(disc)
    ensures 0.0 <= Gain(disc, docs, relevant) <= Ideal(disc, Hits(docs, relevant))
    ensures Gain(disc, docs, relevant) == Ideal(disc, Hits(docs, relevant)) <==>
              forall i :: 0 <= i < Hits(docs, relevant) ==> docs[i] in relevant
  {
    if docs != [] {
      var n := |docs| - 1;
      var before := docs[..n];
      GainAtMostIdeal(disc, before, relevant);
      var h := Hits(before, relevant);
      if docs[n] in relevant {
        DiscountFalls(disc, h + 1, n + 1);
        if h == n {
          assert forall i :: 0 <= i < n ==> docs[i] == before[i];
        } else {
          assert forall i :: 0 <= i < n ==> docs[i] == before[i];
          if forall i :: 0 <= i < h ==> before[i] in relevant {
            AllHitsFirst(before, relevant);
          }
        }
      } else {
        assert forall i :: 0 <= i < h ==> docs[i] == before[i];
      }
    }
  }

  /** With fewer hits than documents, either some hit is not at the front or the next document is no hit. */
  lemma {:induction false} AllHitsFirst(docs: seq<string>, relevant: set<string>)
    requires Hits(docs, relevant) < |docs|
    requires forall i :: 0 <= i < Hits(docs, relevant) ==> docs[i] in relevant
    ensures docs[Hits(docs, relevant)] !in relevant
  {
    var n := |docs| - 1;
    var before := docs[..n];
    assert forall i :: 0 <= i < n ==> docs[i] == before[i];
    if docs[n] in relevant {
      if Hits(before, relevant) < n {
        AllHitsFirst(before, relevant);
      }
    } else if Hits(before, relevant) < n {
      AllHitsFirst(before, relevant);
    }
  }

  lemma {:induction false} HitsAtMostRelevant(docs: seq<string>, relevant: set<string>)
    requires Distinct(docs)
    ensures Hits(docs, relevant) <= |relevant|
  {
    if docs != [] {
      var n := |docs| - 1;
      if docs[n] in relevant {
        HitsAtMostRelevant(docs[..n], relevant - {docs[n]});
        HitsWithout(docs[..n], relevant, docs[n]);
      } else {
        HitsAtMostRelevant(docs[..n], relevant);
      }
    }
  }

  lemma {:induction false} HitsWithout(docs: seq<string>, relevant: set<string>, x: string)
    requires x !in docs
    ensures Hits(docs, relevant - {x}) == Hits(docs, relevant)
  {
    if docs != [] {
      HitsWithout(docs[..|docs| - 1], relevant, x);
    }
  }

  lemma {:induction false} AllHits(docs: seq<string>, relevant: set<string>, m: nat)
    requires m <= |docs| && forall i :: 0 <= i < m ==> docs[i] in relevant
    ensures Hits(docs, relevant) >= m
  {
    if docs != [] {
      var n := |docs| - 1;
      AllHits(docs[..n], relevant, if m > n then n else m);
    }
  }

  lemma TopIsDistinct(docs: seq<string>, k: nat)
    requires Distinct(docs)
    ensures Distinct(Top(docs, k))
  {
  }

  /**
   For the documents of any result list, any non-empty relevant set and any k from 1 up, the metric lies
   between 0 and 1, and is 1 exactly when the first min(k, number relevant) documents are all there and
   all relevant.
   */
  lemma NdcgRange(disc: Discount, docs: seq<string>, results: seq<string>, relevant: set<string>, k: int)
    requires Falls(disc) && AreDocsOf(docs, results) && relevant != {} && k >= 1
    ensures 0.0 <= Ndcg(disc, docs, relevant, k) <= 1.0
    ensures Ndcg(disc, docs, relevant, k) == 1.0 <==>
              var m := Min(k, |relevant|); m <= |docs| && forall i :: 0 <= i < m ==> docs[i] in relevant
  {
    var top, m := Top(docs, k), Min(k, |relevant|);
    TopIsDistinct(docs, k);
    HitsAtMostRelevant(top, relevant);
    var h := Hits(top, relevant);
    assert h <= m;
    IdealRises(disc, h, m);
    IdealRises(disc, 0, m);
    GainAtMostIdeal(disc, top, relevant);
    var gain, ideal := Gain(disc, top, relevant), Ideal(disc, m);
    assert 0.0 < ideal && 0.0 <= gain <= ideal;
    Quotient(gain, ideal);
    assert forall i :: 0 <= i < |top| ==> top[i] == docs[i];
    if m <= |docs| && forall i :: 0 <= i < m ==> docs[i] in relevant {
      AllHits(top, relevant, m);
    }
  }

  lemma Quotient(a: real, b: real)
    requires 0.0 <= a <= b && b > 0.0
    ensures 0.0 <= a / b <= 1.0 && (a / b == 1.0 <==> a == b)
  {
  }

  // ---- a relevant document moves up ----

  /** The documents with those at places i and i + 1 exchanged. */
  function Exchanged(docs: seq<string>, i: nat): (r: seq<string>)
    requires i + 1 < |docs|
    ensures |r| == |docs|
  {
    docs[i := docs[i + 1]][i + 1 := docs[i]]
  }

  lemma {:induction false} ExchangeGains(disc: Discount, docs: seq<string>, relevant: set<string>, i: nat)
    requires Falls(disc) && i + 1 < |docs| && docs[i] !in relevant && docs[i + 1] in relevant
    ensures Gain(disc, Exchanged(docs, i), relevant) > Gain(disc, docs, relevant)
  {
    var n, r := |docs| - 1, Exchanged(docs, i);
    if i + 1 < n {
      assert r[..n] == Exchanged(docs[..n], i) && r[n] == docs[n];
      ExchangeGains(disc, docs[..n], relevant, i);
    } else {
      assert r[..n] == docs[..i] + [docs[n]] && docs[..n] == docs[..i] + [docs[i]];
      assert r[..n][..i] == docs[..i] == docs[..n][..i];
      DiscountFalls(disc, i + 1, i + 2);
    }
  }

  /** Moving a relevant document one place up, past one that is not, raises the metric at every place up to k. */
  lemma MovingUpRaises(disc: Discount, docs: seq<string>, relevant: set<string>, k: int, i: nat)
    requires Falls(disc) && i < k && i + 1 < |docs| && docs[i] !in relevant && docs[i + 1] in relevant
    ensures Ndcg(disc, Exchanged(docs, i), relevant, k) > Ndcg(disc, docs, relevant, k)
  {
    var r := Exchanged(docs, i);
    if i + 1 < k {
      assert Top(r, k) == Exchanged(Top(docs, k), i);
      ExchangeGains(disc, Top(docs, k), relevant, i);
    } else {
      assert Top(r, k)[..i] == docs[..i] == Top(docs, k)[..i];
      DiscountFalls(disc, i + 1, i + 1);
    }
    assert relevant != {};
    IdealRises(disc, 0, Min(k, |relevant|));
    QuotientRises(Gain(disc, Top(docs, k), relevant), Gain(disc, Top(r, k), relevant), Ideal(disc, Min(k, |relevant|)));
  }

  lemma QuotientRises(a: real, b: real, c: real)
    requires a < b && c > 0.0
    ensures a / c < b / c
  {
  }
}
