/** Option and Result, the machine's unsigned integers, and the order the program sorts strings by. */
module Common {
  datatype Option<+T> = None | Some(value: T)

  datatype Result<+T> = Ok(value: T) | Err(error: string)

  const U64_MAX: int := 0xFFFF_FFFF_FFFF_FFFF

  type U64 = n: int | 0 <= n <= U64_MAX

  /** The result of a saturating sum. */
  function Saturated(n: nat): U64 {
    if n > U64_MAX then U64_MAX else n
  }

  function Min(a: int, b: int): int {
    if a < b then a else b
  }

  /** Code-point order on strings, which is also the byte order of their UTF-8 encodings. */
  predicate AtMost(a: string, b: string) {
    a == [] || (b != [] && (a[0] < b[0] || (a[0] == b[0] && AtMost(a[1..], b[1..]))))
  }

  lemma {:induction false} AtMostTotal(a: string, b: string)
    ensures AtMost(a, b) || AtMost(b, a)
  {
    if a != [] && b != [] && a[0] == b[0] {
      AtMostTotal(a[1..], b[1..]);
    }
  }

  lemma {:induction false} AtMostAntisymmetric(a: string, b: string)
    requires AtMost(a, b) && AtMost(b, a)
    ensures a == b
  {
    if a != [] {
      AtMostAntisymmetric(a[1..], b[1..]);
      assert a == [a[0]] + a[1..] && b == [b[0]] + b[1..];
    }
  }

  lemma {:induction false} AtMostTransitive(a: string, b: string, c: string)
    requires AtMost(a, b) && AtMost(b, c)
    ensures AtMost(a, c)
  {
    if a != [] && a[0] == b[0] && b[0] == c[0] {
      AtMostTransitive(a[1..], b[1..], c[1..]);
    }
  }

  /** One string is at most another exactly when it is a prefix of it or smaller where they first differ. */
  lemma {:induction false} AtMostIff(a: string, b: string)
    ensures AtMost(a, b) <==>
              a <= b || exists n :: 0 <= n < |a| && n < |b| && a[..n] == b[..n] && a[n] < b[n]
  {
    if a != [] && b != [] {
      AtMostIff(a[1..], b[1..]);
      if a[0] == b[0] {
        SameHead(a, b);
      } else if a[0] < b[0] {
        assert a[..0] == b[..0];
      }
    }
  }

  lemma SameHead(a: string, b: string)
    requires a != [] && b != [] && a[0] == b[0]
    ensures a <= b <==> a[1..] <= b[1..]
    ensures (exists n :: 0 <= n < |a| && n < |b| && a[..n] == b[..n] && a[n] < b[n])
       <==> exists n :: 0 <= n < |a[1..]| && n < |b[1..]| && a[1..][..n] == b[1..][..n] && a[1..][n] < b[1..][n]
  {
    assert a == [a[0]] + a[1..] && b == [b[0]] + b[1..];
    if n :| 0 <= n < |a| && n < |b| && a[..n] == b[..n] && a[n] < b[n] {
      assert a[1..][..n - 1] == a[..n][1..] && b[1..][..n - 1] == b[..n][1..];
      assert a[1..][n - 1] < b[1..][n - 1];
    }
    if n :| 0 <= n < |a[1..]| && n < |b[1..]| && a[1..][..n] == b[1..][..n] && a[1..][n] < b[1..][n] {
      assert a[..n + 1] == [a[0]] + a[1..][..n] && b[..n + 1] == [b[0]] + b[1..][..n];
      assert a[n + 1] < b[n + 1];
    }
  }

  predicate IsLeast(k: string, keys: set<string>) {
    k in keys && forall o :: o in keys ==> AtMost(k, o)
  }

  lemma {:induction false} LeastExists(keys: set<string>)
    requires keys != {}
    ensures exists k :: IsLeast(k, keys)
  {
    var x :| x in keys;
    if keys == {x} {
      AtMostTotal(x, x);
      assert IsLeast(x, keys);
    } else {
      LeastExists(keys - {x});
      var k :| IsLeast(k, keys - {x});
      AtMostTotal(x, k);
      AtMostTotal(x, x);
      var least := if AtMost(x, k) then x else k;
      forall o | o in keys
        ensures AtMost(least, o)
      {
        if least == x && o != x {
          AtMostTransitive(x, k, o);
        }
      }
      assert IsLeast(least, keys);
    }
  }

  lemma LeastUnique(keys: set<string>)
    ensures forall k, l :: IsLeast(k, keys) && IsLeast(l, keys) ==> k == l
  {
    forall k, l | IsLeast(k, keys) && IsLeast(l, keys)
      ensures k == l
    {
      AtMostAntisymmetric(k, l);
    }
  }

  function Least(keys: set<string>): (k: string)
    requires keys != {}
    ensures IsLeast(k, keys)
  {
    LeastExists(keys);
    LeastUnique(keys);
    var k :| IsLeast(k, keys);
    k
  }

  /** What sorting the keys of a map yields: each once, in order. */
  function SortedKeys(keys: set<string>): (s: seq<string>)
    ensures forall k :: k in s <==> k in keys
    ensures |s| == |keys|
    ensures forall i, j :: 0 <= i < j < |s| ==> s[i] != s[j] && AtMost(s[i], s[j])
  {
    if keys == {} then [] else
      var k := Least(keys);
      [k] + SortedKeys(keys - {k})
  }

  /** Distinct strings in order. */
  ghost predicate Ascending(s: seq<string>) {
    forall i, j :: 0 <= i < j < |s| ==> s[i] != s[j] && AtMost(s[i], s[j])
  }

  /** A set has only one ordering: any list of its elements in order is the sorted one. */
  lemma {:induction false} SortedOnce(keys: set<string>, s: seq<string>)
    requires Ascending(s) && forall k :: k in s <==> k in keys
    ensures s == SortedKeys(keys)
    decreases |s|
  {
    if s != [] {
      var k := s[0];
      forall o | o in keys
        ensures AtMost(k, o)
      {
        AtMostTotal(o, o);
      }
      LeastUnique(keys);
      assert IsLeast(k, keys) && Least(keys) == k;
      assert forall o :: o in s[1..] <==> o in keys - {k};
      SortedOnce(keys - {k}, s[1..]);
      assert s == [k] + s[1..];
    } else {
      assert forall k :: k !in keys;
    }
  }

  predicate NextIsLarger(s: seq<string>, i: nat)
    requires i + 1 < |s|
  {
    s[i] != s[i + 1] && AtMost(s[i], s[i + 1])
  }

  /** Neighbours in order put the whole list in order. */
  lemma {:induction false} NeighboursAscend(s: seq<string>)
    requires forall i :: 0 <= i < |s| - 1 ==> NextIsLarger(s, i)
    ensures Ascending(s)
  {
    hide AtMost;
    if |s| > 1 {
      var rest := s[1..];
      forall i | 0 <= i < |rest| - 1
        ensures NextIsLarger(rest, i)
      {
        assert NextIsLarger(s, i + 1);
      }
      NeighboursAscend(rest);
      assert NextIsLarger(s, 0);
      forall j | 0 < j < |s|
        ensures s[0] != s[j] && AtMost(s[0], s[j])
      {
        FirstSmaller(s, j);
      }
    }
  }

  lemma FirstSmaller(s: seq<string>, j: nat)
    requires 0 < j < |s| && NextIsLarger(s, 0) && Ascending(s[1..])
    ensures s[0] != s[j] && AtMost(s[0], s[j])
  {
    hide AtMost;
    if j > 1 {
      assert s[1..][0] == s[1] && s[1..][j - 1] == s[j];
      AtMostTransitive(s[0], s[1], s[j]);
      if s[0] == s[j] {
        AtMostAntisymmetric(s[0], s[1]);
      }
    }
  }
}
