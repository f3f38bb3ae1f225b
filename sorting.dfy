/** Python's `sorted(..., key=rank)` over the keys of a ZODB OOBTree.
    The tree yields its keys in ascending string order and `sorted` is
    stable, so records with equal rank keep that order: the result is
    ordered by rank first and by key second. With a constant rank this is
    plain `sorted(keys)`. */
module Sorting {
  import opened Strings

  /** `a` is sorted before `b`. */
  predicate Before(rank: string -> int, a: string, b: string)
  {
    rank(a) < rank(b) || (rank(a) == rank(b) && StrLt(a, b))
  }

  /** The rank under which only the key's own string order counts. */
  const ByName: string -> int := _ => 0

  predicate SortedBy(rank: string -> int, ks: seq<string>)
  {
    forall i, j :: 0 <= i < j < |ks| ==> Before(rank, ks[i], ks[j])
  }

  lemma BeforeIrreflexive(rank: string -> int, a: string)
    ensures !Before(rank, a, a)
  {
    StrLtIrreflexive(a);
  }

  lemma BeforeAsymmetric(rank: string -> int)
    ensures forall a, b :: Before(rank, a, b) ==> !Before(rank, b, a)
  {
    forall a, b ensures Before(rank, a, b) ==> !Before(rank, b, a) {
      StrLtAsymmetric(a, b);
    }
  }

  lemma BeforeTransitive(rank: string -> int, a: string, b: string, c: string)
    requires Before(rank, a, b) && Before(rank, b, c)
    ensures Before(rank, a, c)
  {
    if rank(a) == rank(b) == rank(c) {
      StrLtTransitive(a, b, c);
    }
  }

  lemma BeforeTotal(rank: string -> int, a: string, b: string)
    ensures a == b || Before(rank, a, b) || Before(rank, b, a)
  {
    StrLtTotal(a, b);
  }

  /** `k` is the element of `s` sorted first. */
  predicate IsFirst(rank: string -> int, k: string, s: set<string>)
  {
    k in s && forall j :: j in s && j != k ==> Before(rank, k, j)
  }

  lemma {:induction false} FirstExists(rank: string -> int, s: set<string>)
    requires s != {}
    ensures exists k :: IsFirst(rank, k, s)
    decreases s
  {
    var x :| x in s;
    if s != {x} {
      FirstExists(rank, s - {x});
      var m :| IsFirst(rank, m, s - {x});
      BeforeTotal(rank, x, m);
      if Before(rank, x, m) {
        forall j | j in s && j != x
          ensures Before(rank, x, j)
        {
          if j != m {
            BeforeTransitive(rank, x, m, j);
          }
        }
        assert IsFirst(rank, x, s);
      } else {
        assert IsFirst(rank, m, s);
      }
    } else {
      assert IsFirst(rank, x, s);
    }
  }

  /** Only one key of `s` is sorted first. */
  lemma FirstUnique(rank: string -> int, s: set<string>)
    ensures forall a, b :: IsFirst(rank, a, s) && IsFirst(rank, b, s) ==> a == b
  {
    BeforeAsymmetric(rank);
  }

  /** A key sorted before every key of a sorted sequence may lead it. */
  lemma SortedCons(rank: string -> int, k: string, rest: seq<string>)
    requires SortedBy(rank, rest)
    requires forall x :: x in rest ==> Before(rank, k, x)
    ensures SortedBy(rank, [k] + rest)
  {
    var r := [k] + rest;
    forall i, j | 0 <= i < j < |r|
      ensures Before(rank, r[i], r[j])
    {
      assert r[j] == rest[j - 1];
      if i > 0 {
        assert r[i] == rest[i - 1];
      }
    }
  }

  /** The keys of `s`, sorted; repeatedly takes the first remaining key. */
  function SortKeys(s: set<string>, rank: string -> int): (r: seq<string>)
    ensures |r| == |s|
    ensures forall k :: k in r <==> k in s
    ensures SortedBy(rank, r)
    decreases s
  {
    if s == {} then []
    else
      FirstExists(rank, s);
      FirstUnique(rank, s);
      var k :| IsFirst(rank, k, s);
      var rest := SortKeys(s - {k}, rank);
      SortedCons(rank, k, rest);
      [k] + rest
  }

  /** A sorted order is unique: two sorted sequences with the same elements
      are the same sequence. */
  lemma {:induction false} SortedUnique(rank: string -> int, a: seq<string>, b: seq<string>)
    requires SortedBy(rank, a) && SortedBy(rank, b)
    requires |a| == |b| && forall k :: k in a <==> k in b
    ensures a == b
    decreases |a|
  {
    if |a| > 0 {
      assert a[0] in b;
      assert |b| > 0;
      if a[0] != b[0] {
        assert b[0] in a;
        var i :| 0 <= i < |a| && a[i] == b[0];
        var j :| 0 <= j < |b| && b[j] == a[0];
        assert Before(rank, a[0], a[i]);
        assert Before(rank, b[0], b[j]);
        BeforeAsymmetric(rank);
        assert false;
      }
      forall k
        ensures k in a[1..] <==> k in b[1..]
      {
        assert a == [a[0]] + a[1..] && b == [b[0]] + b[1..];
        if k in a[1..] {
          var i :| 0 <= i < |a[1..]| && a[1..][i] == k;
          assert Before(rank, a[0], a[i + 1]);
          BeforeIrreflexive(rank, a[0]);
          assert k in b && k != b[0];
        }
        if k in b[1..] {
          var i :| 0 <= i < |b[1..]| && b[1..][i] == k;
          assert Before(rank, b[0], b[i + 1]);
          BeforeIrreflexive(rank, b[0]);
          assert k in a && k != a[0];
        }
      }
      SortedUnique(rank, a[1..], b[1..]);
      assert a == [a[0]] + a[1..] && b == [b[0]] + b[1..];
    }
  }

  /** Only the ranks of the keys being sorted matter. */
  lemma SortKeysRanksAgree(s: set<string>, rank1: string -> int, rank2: string -> int)
    requires forall k :: k in s ==> rank1(k) == rank2(k)
    ensures SortKeys(s, rank1) == SortKeys(s, rank2)
  {
    var b := SortKeys(s, rank2);
    assert SortedBy(rank1, b) by {
      forall i, j | 0 <= i < j < |b|
        ensures Before(rank1, b[i], b[j])
      {
        assert b[i] in s && b[j] in s;
      }
    }
    SortedUnique(rank1, SortKeys(s, rank1), b);
  }

  /** The last key of a sorted order comes after every other key. */
  lemma SortedLastIsGreatest(rank: string -> int, ks: seq<string>, k: string)
    requires SortedBy(rank, ks) && |ks| > 0
    requires k in ks && k != ks[|ks| - 1]
    ensures Before(rank, k, ks[|ks| - 1])
  {
  }
}
