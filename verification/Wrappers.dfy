/** What all the models share: options in place of null pointers, and facts about collections. */
module Wrappers {
  datatype Option<+T> = None | Some(value: T)

  function One(b: bool): nat {
    if b then 1 else 0
  }

  /** `q` with its `k`-th element taken out. */
  function Without<T>(q: seq<T>, k: nat): seq<T>
    requires k < |q|
  {
    q[..k] + q[k + 1..]
  }

  ghost predicate Distinct<T>(q: seq<T>) {
    forall i, j :: 0 <= i < j < |q| ==> q[i] != q[j]
  }

  lemma WithoutElements<T>(q: seq<T>, k: nat)
    requires k < |q| && Distinct(q)
    ensures Distinct(Without(q, k))
    ensures forall x :: x in Without(q, k) <==> x in q && x != q[k]
  {
    var r := Without(q, k);
    forall i | 0 <= i < |r| ensures r[i] == q[if i < k then i else i + 1] {
    }
    forall x | x in q && x != q[k] ensures x in r {
      var i :| 0 <= i < |q| && q[i] == x;
      assert r[if i < k then i else i - 1] == x;
    }
  }

  lemma SubsetSize<T>(a: set<T>, b: set<T>)
    requires a <= b
    ensures |a| <= |b|
  {
    assert b == a + (b - a);
  }

  /** A set of numbers below `n`, and perhaps `n`. */
  lemma OneMoreIn(was: set<nat>, now: set<nat>, n: nat, grows: bool)
    requires forall i :: i in was ==> i < n
    requires forall i: nat :: i in now <==> i in was || (i == n && grows)
    ensures |now| == |was| + One(grows)
  {
    assert now == was + if grows then {n} else {};
  }
}
