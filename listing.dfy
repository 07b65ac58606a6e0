/** A deterministic, ordered read of a whole table: the result of `find()` with or without `.sort()`. */
module Listing {
  import opened Common

  /** `a` comes before `b`: higher rank first, and among equal ranks the smaller (older) id first. */
  predicate Precedes<T>(rank: T -> int, a: (Id, T), b: (Id, T))
  {
    rank(a.1) > rank(b.1) || (rank(a.1) == rank(b.1) && a.0 <= b.0)
  }

  /** `k` is the entry of `m` that a listing by `rank` starts with. */
  predicate IsFirst<T>(m: map<Id, T>, rank: T -> int, k: Id)
  {
    k in m && forall j :: j in m ==> Precedes(rank, (k, m[k]), (j, m[j]))
  }

  /** `r` lists exactly the entries of `m`, each once. */
  ghost predicate ListsExactly<T>(r: seq<(Id, T)>, m: map<Id, T>)
  {
    && (forall i :: 0 <= i < |r| ==> r[i].0 in m && r[i].1 == m[r[i].0])
    && (forall k :: k in m ==> exists i :: 0 <= i < |r| && r[i].0 == k)
    && (forall i, j :: 0 <= i < j < |r| ==> r[i].0 != r[j].0)
  }

  /** `r` is ordered by `rank` non-increasing, ties by ascending id. */
  predicate OrderedBy<T>(r: seq<(Id, T)>, rank: T -> int)
  {
    forall i, j :: 0 <= i < j < |r| ==> Precedes(rank, r[i], r[j])
  }

  function Unranked<T>(x: T): int { 0 }

  /** Every entry of `m`, each once, in ascending id order. This is the model's choice for a
      `find()` without a sort, whose order the database leaves open. */
  function InsertionOrder<T>(m: map<Id, T>): (r: seq<(Id, T)>)
    ensures |r| == |m|
    ensures ListsExactly(r, m)
    ensures forall i, j :: 0 <= i < j < |r| ==> r[i].0 < r[j].0
  {
    var r := Ordered(m, Unranked);
    forall i, j | 0 <= i < j < |r| ensures r[i].0 < r[j].0 {
      assert Precedes(Unranked, r[i], r[j]);
    }
    r
  }

  /** In an ordered listing the ranks never increase. */
  lemma RanksNonIncreasing<T>(r: seq<(Id, T)>, rank: T -> int)
    requires OrderedBy(r, rank)
    ensures forall i, j :: 0 <= i < j < |r| ==> rank(r[i].1) >= rank(r[j].1)
  {
    forall i, j | 0 <= i < j < |r| ensures rank(r[i].1) >= rank(r[j].1) {
      assert Precedes(rank, r[i], r[j]);
    }
  }

  lemma {:induction false} FirstExists<T>(m: map<Id, T>, rank: T -> int)
    requires |m| > 0
    ensures exists k :: IsFirst(m, rank, k)
    decreases |m|
  {
    var k0 :| k0 in m;
    if m.Keys == {k0} {
      assert IsFirst(m, rank, k0);
    } else {
      var rest := m - {k0};
      assert rest.Keys == m.Keys - {k0};
      assert |rest.Keys| == |m.Keys| - 1;
      assert |rest| > 0 by { var j :| j in m.Keys && j != k0; assert j in rest.Keys; }
      FirstExists(rest, rank);
      var k1 :| IsFirst(rest, rank, k1);
      if Precedes(rank, (k0, m[k0]), (k1, m[k1])) {
        forall j | j in m ensures Precedes(rank, (k0, m[k0]), (j, m[j])) {
          if j != k0 { assert j in rest; }
        }
        assert IsFirst(m, rank, k0);
      } else {
        forall j | j in m ensures Precedes(rank, (k1, m[k1]), (j, m[j])) {
          if j != k0 { assert j in rest; }
        }
        assert IsFirst(m, rank, k1);
      }
    }
  }

  /** Every entry of `m`, each once, ordered by `rank` non-increasing, ties by ascending id. */
  function Ordered<T>(m: map<Id, T>, rank: T -> int): (r: seq<(Id, T)>)
    ensures |r| == |m|
    ensures ListsExactly(r, m)
    ensures OrderedBy(r, rank)
    decreases |m|
  {
    if |m| == 0 then
      []
    else
      FirstExists(m, rank);
      FirstUnique(m, rank);
      var k :| IsFirst(m, rank, k);
      var rest := m - {k};
      assert rest.Keys == m.Keys - {k};
      var tail := Ordered(rest, rank);
      ConsLists(m, k, tail);
      ConsOrdered(m, rank, k, tail);
      [(k, m[k])] + tail
  }

  lemma FirstUnique<T>(m: map<Id, T>, rank: T -> int)
    ensures forall a, b :: IsFirst(m, rank, a) && IsFirst(m, rank, b) ==> a == b
  {
    forall a, b | IsFirst(m, rank, a) && IsFirst(m, rank, b) ensures a == b {
      assert Precedes(rank, (a, m[a]), (b, m[b]));
      assert Precedes(rank, (b, m[b]), (a, m[a]));
    }
  }

  lemma ConsLists<T>(m: map<Id, T>, k: Id, tail: seq<(Id, T)>)
    requires k in m && ListsExactly(tail, m - {k})
    ensures ListsExactly([(k, m[k])] + tail, m)
  {
    var r := [(k, m[k])] + tail;
    forall j | j in m ensures exists i :: 0 <= i < |r| && r[i].0 == j {
      if j == k {
        assert r[0].0 == j;
      } else {
        assert j in m - {k};
        var i :| 0 <= i < |tail| && tail[i].0 == j;
        assert r[i + 1].0 == j;
      }
    }
    forall i, j | 0 <= i < j < |r| ensures r[i].0 != r[j].0 {
      assert r[j] == tail[j - 1];
      if i > 0 {
        assert r[i] == tail[i - 1];
      }
    }
  }

  lemma ConsOrdered<T>(m: map<Id, T>, rank: T -> int, k: Id, tail: seq<(Id, T)>)
    requires IsFirst(m, rank, k)
    requires forall i :: 0 <= i < |tail| ==> tail[i].0 in m && tail[i].1 == m[tail[i].0]
    requires OrderedBy(tail, rank)
    ensures OrderedBy([(k, m[k])] + tail, rank)
  {
    var r := [(k, m[k])] + tail;
    forall i, j | 0 <= i < j < |r| ensures Precedes(rank, r[i], r[j]) {
      assert r[j] == tail[j - 1];
      if i > 0 {
        assert r[i] == tail[i - 1];
      }
    }
  }
}
