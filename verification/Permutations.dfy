/** A sequence with the elements of another, as a renumbering of its places. */
module Permutations {

  /** order[k] is the place in b of the k-th element of a, and each place is taken once. */
  ghost predicate Renumbers<T>(order: seq<nat>, a: seq<T>, b: seq<T>) {
    && |order| == |a| == |b|
    && (forall k :: 0 <= k < |order| ==> order[k] < |b| && b[order[k]] == a[k])
    && Distinct(order)
    && (forall place: nat :: place < |b| ==> place in order)
  }

  ghost predicate Distinct(order: seq<nat>) {
    forall j, k :: 0 <= j < k < |order| ==> order[j] != order[k]
  }

  /** Where the i-th place is once a place has been put in at at. */
  function Shift(at: nat, i: nat): nat {
    if i < at then i else i + 1
  }

  function Without<T>(b: seq<T>, at: nat): (rest: seq<T>)
    requires at < |b|
    ensures |rest| == |b| - 1
    ensures forall i :: 0 <= i < |rest| ==> rest[i] == b[Shift(at, i)]
  {
    b[..at] + b[at + 1..]
  }

  lemma ElementsWithout<T>(b: seq<T>, at: nat)
    requires at < |b|
    ensures multiset(b) == multiset(Without(b, at)) + multiset{b[at]}
  {
    assert b == b[..at] + [b[at]] + b[at + 1..];
  }

  lemma ElementsSnoc<T>(a: seq<T>, n: nat)
    requires |a| == n + 1
    ensures multiset(a) == multiset(a[..n]) + multiset{a[n]}
  {
    assert a == a[..n] + [a[n]];
  }

  /** A renumbering of the places other than at, with at put last. */
  lemma PlaceLast<T>(earlier: seq<nat>, a: seq<T>, b: seq<T>, at: nat) returns (order: seq<nat>)
    requires a != [] && |a| == |b| && at < |b| && b[at] == a[|a| - 1]
    requires Renumbers(earlier, a[..|a| - 1], Without(b, at))
    ensures Renumbers(order, a, b)
  {
    var n := |a| - 1;
    order := seq(n, k requires 0 <= k < n => Shift(at, earlier[k])) + [at];
    forall k | 0 <= k < n ensures order[k] < |b| && b[order[k]] == a[k] && order[k] != at {
      assert Without(b, at)[earlier[k]] == a[..n][k];
    }
    forall place: nat | place < |b| ensures place in order {
      if place == at {
        assert order[n] == at;
      } else {
        var i: nat := if place < at then place else place - 1;
        assert i in earlier;
        var k :| 0 <= k < n && earlier[k] == i;
        assert order[k] == place;
      }
    }
  }

  lemma {:induction false} Renumbering<T>(a: seq<T>, b: seq<T>) returns (order: seq<nat>)
    requires multiset(a) == multiset(b)
    ensures Renumbers(order, a, b)
    decreases |a|
  {
    assert |multiset(a)| == |a| && |multiset(b)| == |b|;
    if a == [] {
      order := [];
    } else {
      var n := |a| - 1;
      assert a[n] in multiset(b);
      var at :| 0 <= at < |b| && b[at] == a[n];
      ElementsSnoc(a, n);
      ElementsWithout(b, at);
      assert multiset(a[..n]) == multiset(a) - multiset{a[n]} == multiset(Without(b, at));
      var earlier := Renumbering(a[..n], Without(b, at));
      order := PlaceLast(earlier, a, b, at);
    }
  }
}
