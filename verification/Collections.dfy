/** Optional values, and what several modules need about sequences, sets and maps. */
module Collections {

  datatype Option<+T> = None | Some(value: T) {
    predicate IsFailure() { None? }
    function PropagateFailure<U>(): Option<U> requires None? { None }
    function Extract(): T requires Some? { value }
  }

  /** The last `n` elements of `s`, or all of `s` when it is shorter. */
  function Tail<T>(s: seq<T>, n: nat): (t: seq<T>) {
    if |s| <= n then s else s[|s| - n..]
  }

  /** `order` lists the elements of `all`, each of them once. */
  ghost predicate EachOnce<T>(order: seq<T>, all: set<T>) {
    && (forall x :: x in all ==> x in order) && (forall x :: x in order ==> x in all)
    && (forall i, j :: 0 <= i < j < |order| ==> order[i] != order[j])
  }

  lemma MapSet<K, V>(m: map<K, V>, n: map<K, V>, k: K, v: V)
    requires n.Keys == m.Keys + {k} && n[k] == v
    requires forall j :: j in m && j != k ==> n[j] == m[j]
    ensures n == m[k := v]
  {
  }

  lemma SubsetSize<T>(a: set<T>, b: set<T>)
    requires a <= b
    ensures |a| <= |b| && (|a| == |b| <==> a == b)
  {
    assert |b| == |a| + |b - a| by { assert b == a + (b - a); }
    if |a| == |b| { assert b - a == {}; }
  }
}
