/**
 * Go's `for k := range m` visits every key of `m` exactly once, in an order
 * the language leaves unspecified.  A loop over a map is modelled as a loop
 * over an arbitrary `KeyOrder` of its keys, so every property proved about
 * such a loop holds for every visiting order.
 */
module GoMaps {
  /** `order` lists every key of `keys` exactly once. */
  predicate IsKeyOrder<K(==,!new)>(order: seq<K>, keys: set<K>)
  {
    && (forall k :: k in keys ==> k in order)
    && (forall i :: 0 <= i < |order| ==> order[i] in keys)
    && (forall i, j :: 0 <= i < j < |order| ==> order[i] != order[j])
  }

  /** Every finite set of keys can be visited in some order. */
  lemma {:induction false} KeyOrderExists<K(!new)>(keys: set<K>)
    ensures exists order :: IsKeyOrder(order, keys)
    decreases |keys|
  {
    if keys == {} {
      assert IsKeyOrder([], keys);
    } else {
      var k :| k in keys;
      KeyOrderExists(keys - {k});
      var rest :| IsKeyOrder(rest, keys - {k});
      assert IsKeyOrder([k] + rest, keys);
    }
  }

  /** `f` applied to every element of `xs`, in order. */
  function MapSeq<A, B>(f: A -> B, xs: seq<A>): (r: seq<B>)
    ensures |r| == |xs|
  {
    if xs == [] then [] else [f(xs[0])] + MapSeq(f, xs[1..])
  }

  lemma {:induction false} MapSeqAppend<A, B>(f: A -> B, a: seq<A>, b: seq<A>)
    ensures MapSeq(f, a + b) == MapSeq(f, a) + MapSeq(f, b)
    decreases |a|
  {
    if a != [] {
      assert (a + b)[0] == a[0];
      assert (a + b)[1..] == a[1..] + b;
      MapSeqAppend(f, a[1..], b);
    } else {
      assert a + b == b;
    }
  }

  /**
   * Visiting the same elements in another order yields the same results in
   * another order: a loop over a Go map produces the same multiset of
   * results whatever order it visits the map in.
   */
  lemma {:induction false} MapSeqPermutation<A, B>(f: A -> B, a: seq<A>, b: seq<A>)
    requires multiset(a) == multiset(b)
    ensures multiset(MapSeq(f, a)) == multiset(MapSeq(f, b))
    decreases |a|
  {
    if a == [] {
      assert |b| == |multiset(b)| == 0;
    } else {
      var x := a[0];
      assert x in multiset(b);
      var k :| 0 <= k < |b| && b[k] == x;
      var rest := b[..k] + b[k + 1..];
      RemoveAt(b, k);
      assert a == [x] + a[1..];
      assert multiset(a[1..]) == multiset(a) - multiset{x};
      MapSeqPermutation(f, a[1..], rest);
      MapSeqRemoveAt(f, b, k);
      assert MapSeq(f, a) == [f(x)] + MapSeq(f, a[1..]);
    }
  }

  lemma RemoveAt<A>(b: seq<A>, k: nat)
    requires k < |b|
    ensures multiset(b[..k] + b[k + 1..]) == multiset(b) - multiset{b[k]}
  {
    assert b == b[..k] + [b[k]] + b[k + 1..];
  }

  lemma {:induction false} MapSeqRemoveAt<A, B>(f: A -> B, b: seq<A>, k: nat)
    requires k < |b|
    ensures multiset(MapSeq(f, b)) == multiset(MapSeq(f, b[..k] + b[k + 1..])) + multiset{f(b[k])}
  {
    var p, x, q := b[..k], b[k], b[k + 1..];
    MapSeqSplit(f, b, k);
    var mp, mq := MapSeq(f, p), MapSeq(f, q);
    assert multiset(mp + [f(x)] + mq) == multiset(mp) + multiset{f(x)} + multiset(mq);
  }

  lemma {:induction false} MapSeqSplit<A, B>(f: A -> B, b: seq<A>, k: nat)
    requires k < |b|
    ensures MapSeq(f, b) == MapSeq(f, b[..k]) + [f(b[k])] + MapSeq(f, b[k + 1..])
    ensures MapSeq(f, b[..k] + b[k + 1..]) == MapSeq(f, b[..k]) + MapSeq(f, b[k + 1..])
  {
    var p, x, q := b[..k], b[k], b[k + 1..];
    var px := p + [x];
    assert b == px + q;
    MapSeqAppend(f, p, q);
    MapSeqAppendSingleton(f, p, x, q);
  }

  lemma {:induction false} MapSeqAppendSingleton<A, B>(f: A -> B, p: seq<A>, x: A, q: seq<A>)
    ensures MapSeq(f, p + [x] + q) == MapSeq(f, p) + [f(x)] + MapSeq(f, q)
  {
    MapSeqAppend(f, p + [x], q);
    MapSeqAppend(f, p, [x]);
    MapSeqSingleton(f, x);
  }

  lemma {:induction false} MapSeqSingleton<A, B>(f: A -> B, x: A)
    ensures MapSeq(f, [x]) == [f(x)]
  {
    assert [x][1..] == [];
  }

  /**
   * The results a loop over the keys `order` of `m` appends: `f(k, m[k])`
   * for every key `k` it keeps, in visiting order.
   */
  function Collect<K, V, R>(m: map<K, V>, order: seq<K>, keep: K -> bool, f: (K, V) -> R): (r: seq<R>)
    requires forall i :: 0 <= i < |order| ==> order[i] in m
    ensures |r| <= |order|
  {
    if order == [] then []
    else
      var k := order[|order| - 1];
      Collect(m, order[..|order| - 1], keep, f) + (if keep(k) then [f(k, m[k])] else [])
  }

  /** One more visited key. */
  lemma {:induction false} CollectStep<K, V, R>(m: map<K, V>, order: seq<K>, i: nat, keep: K -> bool, f: (K, V) -> R)
    requires i < |order| && forall j :: 0 <= j < |order| ==> order[j] in m
    ensures Collect(m, order[..i + 1], keep, f) ==
      Collect(m, order[..i], keep, f) + (if keep(order[i]) then [f(order[i], m[order[i]])] else [])
  {
    assert order[..i + 1][..i] == order[..i];
  }

  /**
   * Whatever the visiting order, a value is collected exactly when it is
   * the result for some kept entry of the map.
   */
  lemma {:induction false} CollectMembers<K, V, R>(m: map<K, V>, order: seq<K>, keep: K -> bool, f: (K, V) -> R, x: R)
    requires forall i :: 0 <= i < |order| ==> order[i] in m
    ensures x in Collect(m, order, keep, f) <==> exists i :: 0 <= i < |order| && keep(order[i]) && x == f(order[i], m[order[i]])
    decreases |order|
  {
    if order != [] {
      var n := |order| - 1;
      var init := order[..n];
      CollectMembers(m, init, keep, f, x);
      if x in Collect(m, init, keep, f) {
        var i :| 0 <= i < |init| && keep(init[i]) && x == f(init[i], m[init[i]]);
        assert order[i] == init[i];
      }
      if exists i :: 0 <= i < |order| && keep(order[i]) && x == f(order[i], m[order[i]]) {
        var i :| 0 <= i < |order| && keep(order[i]) && x == f(order[i], m[order[i]]);
        if i < n {
          assert init[i] == order[i];
        }
      }
    }
  }

  /** Over a key order of `m`: a value is collected exactly when some kept entry of `m` yields it. */
  lemma {:induction false} CollectOverKeys<K(!new), V, R>(m: map<K, V>, order: seq<K>, keep: K -> bool, f: (K, V) -> R, x: R)
    requires IsKeyOrder(order, m.Keys)
    ensures x in Collect(m, order, keep, f) <==> exists k :: k in m && keep(k) && x == f(k, m[k])
  {
    CollectMembers(m, order, keep, f, x);
    if exists k :: k in m && keep(k) && x == f(k, m[k]) {
      var k :| k in m && keep(k) && x == f(k, m[k]);
      assert k in order;
    }
  }

  /** A visiting order is as long as the key set it covers. */
  lemma {:induction false} KeyOrderLength<K(!new)>(order: seq<K>, keys: set<K>)
    requires IsKeyOrder(order, keys)
    ensures |order| == |keys|
    decreases |order|
  {
    if order == [] {
      assert forall k :: k !in keys;
    } else {
      var n := |order| - 1;
      var k := order[n];
      var init := order[..n];
      forall k' | k' in keys - {k} ensures k' in init {
        var i :| 0 <= i < |order| && order[i] == k';
        assert i != n;
        assert init[i] == k';
      }
      forall i | 0 <= i < |init| ensures init[i] in keys - {k} {
        assert init[i] == order[i];
      }
      assert IsKeyOrder(init, keys - {k});
      KeyOrderLength(init, keys - {k});
    }
  }

  /** Keeping every visited key collects one result per key. */
  lemma {:induction false} CollectKeepAll<K, V, R>(m: map<K, V>, order: seq<K>, keep: K -> bool, f: (K, V) -> R)
    requires forall i :: 0 <= i < |order| ==> order[i] in m && keep(order[i])
    ensures |Collect(m, order, keep, f)| == |order|
    decreases |order|
  {
    if order != [] {
      var n := |order| - 1;
      assert forall i :: 0 <= i < n ==> order[..n][i] == order[i];
      CollectKeepAll(m, order[..n], keep, f);
    }
  }
}
