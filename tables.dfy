/**
 * A JavaScript `Map<number, R>` whose keys come from a post-incremented
 * counter: a Dafny `map` for the entries, the insertion order of its keys as
 * a sequence (a JS Map iterates in insertion order), and the next id.
 */
module Tables {

  /** Keys listed in strictly increasing order (hence without duplicates). */
  ghost predicate Increasing(order: seq<int>) {
    forall i, j | 0 <= i < j < |order| :: order[i] < order[j]
  }

  /**
   * The table invariant: `order` lists exactly the keys of `m`, in increasing
   * order, and every key was handed out by the counter (which starts at 1).
   */
  ghost predicate TableInv<R>(m: map<int, R>, order: seq<int>, next: nat) {
    && (forall i | 0 <= i < |order| :: order[i] in m)
    && (forall k | k in m :: k in order)
    && Increasing(order)
    && 1 <= next
    && (forall i | 0 <= i < |order| :: 1 <= order[i] < next)
  }

  /** `Array.from(m.values())`: the values of `m` in the iteration order `order`. */
  function Listing<R>(m: map<int, R>, order: seq<int>): (r: seq<R>)
    requires forall i | 0 <= i < |order| :: order[i] in m
    ensures |r| == |order|
    ensures forall i | 0 <= i < |order| :: r[i] == m[order[i]]
  {
    if order == [] then [] else [m[order[0]]] + Listing(m, order[1..])
  }

  /** The iteration order after `m.delete(k)`: `k` removed, the rest kept in order. */
  function Without(order: seq<int>, k: int): (r: seq<int>)
    ensures forall x :: x in r <==> x in order && x != k
    ensures k !in order ==> r == order
    ensures |r| <= |order|
  {
    if order == [] then []
    else if order[0] == k then Without(order[1..], k)
    else [order[0]] + Without(order[1..], k)
  }

  /** Removing a key keeps the remaining keys increasing. */
  lemma {:induction false} WithoutIncreasing(order: seq<int>, k: int)
    requires Increasing(order)
    ensures Increasing(Without(order, k))
  {
    if order != [] {
      WithoutIncreasing(order[1..], k);
      var rest := Without(order[1..], k);
      assert forall x | x in rest :: order[0] < x by {
        forall x | x in rest ensures order[0] < x {
          var j :| 0 <= j < |order[1..]| && order[1..][j] == x;
          assert order[j + 1] == x;
        }
      }
      if order[0] != k {
        var r := [order[0]] + rest;
        forall i, j | 0 <= i < j < |r| ensures r[i] < r[j] {
          if i == 0 {
            assert r[j] == rest[j - 1] && rest[j - 1] in rest;
          } else {
            assert r[i] == rest[i - 1] && r[j] == rest[j - 1];
          }
        }
      }
    }
  }

  /** A `set` of a fresh key (the counter's value) appends it and keeps the invariant. */
  lemma InsertKeepsInv<R>(m: map<int, R>, order: seq<int>, next: nat, v: R)
    requires TableInv(m, order, next)
    ensures next !in m && 1 <= next
    ensures forall k | k in m :: k < next
    ensures TableInv(m[next := v], order + [next], next + 1)
  {
    assert forall k | k in m :: k in order;
    var o := order + [next];
    forall i, j | 0 <= i < j < |o| ensures o[i] < o[j] {
      if j < |order| {
        assert o[i] == order[i] && o[j] == order[j];
      } else {
        assert o[i] == order[i] && order[i] in order;
      }
    }
  }

  /** A `set` on an existing key keeps the invariant and the iteration order. */
  lemma OverwriteKeepsInv<R>(m: map<int, R>, order: seq<int>, next: nat, k: int, v: R)
    requires TableInv(m, order, next) && k in m
    ensures TableInv(m[k := v], order, next)
  {
  }

  /** A `delete` keeps the invariant; the counter is not rewound. */
  lemma RemoveKeepsInv<R>(m: map<int, R>, order: seq<int>, next: nat, k: int)
    requires TableInv(m, order, next)
    ensures TableInv(m - {k}, Without(order, k), next)
  {
    WithoutIncreasing(order, k);
    var r := Without(order, k);
    forall i | 0 <= i < |r| ensures r[i] in m - {k} && 1 <= r[i] < next {
      assert r[i] in r;
      var j :| 0 <= j < |order| && order[j] == r[i];
    }
  }

  /** Appending a fresh key appends its value to the listing. */
  lemma ListingAppend<R>(m: map<int, R>, order: seq<int>, k: int, v: R)
    requires forall i | 0 <= i < |order| :: order[i] in m
    requires k !in order
    ensures Listing(m[k := v], order + [k]) == Listing(m, order) + [v]
  {
    var a := Listing(m[k := v], order + [k]);
    var b := Listing(m, order) + [v];
    assert |a| == |b|;
    forall i | 0 <= i < |a| ensures a[i] == b[i] {
      if i < |order| {
        assert (order + [k])[i] == order[i];
      }
    }
  }

  /**
   * Overwriting an existing key changes only that entry of the listing:
   * the record keeps its position and every other record is unchanged.
   */
  lemma ListingOverwrite<R>(m: map<int, R>, order: seq<int>, k: int, v: R, i: int)
    requires forall i | 0 <= i < |order| :: order[i] in m
    requires 0 <= i < |order|
    ensures |Listing(m[k := v], order)| == |Listing(m, order)|
    ensures Listing(m[k := v], order)[i] == if order[i] == k then v else Listing(m, order)[i]
  {
  }

  /**
   * When each value carries its key as `id`, a value is in the listing exactly
   * when it is stored under its own id, and the listing's ids increase.
   */
  lemma ListingHasEveryValue<R>(m: map<int, R>, order: seq<int>, next: nat, id: R -> int)
    requires TableInv(m, order, next)
    requires forall k | k in m :: id(m[k]) == k
    ensures forall x :: x in Listing(m, order) <==> id(x) in m && m[id(x)] == x
    ensures forall i, j | 0 <= i < j < |order| :: id(Listing(m, order)[i]) < id(Listing(m, order)[j])
  {
    var r := Listing(m, order);
    forall x | id(x) in m && m[id(x)] == x ensures x in r {
      var key := id(x);
      assert key in m;
      assert key in order;
      var i :| 0 <= i < |order| && order[i] == key;
      assert r[i] == x;
    }
  }
}
