/**
 * The virtual-path trie of the virtual database client
 * (virtual_database_client/trie.go).  Nodes live in an arena: a node is its
 * index in `nodes`, node 0 is the root, and a child link is an index.
 */
module VdbTrie {
  import opened Wrappers

  datatype PathNode<M> = PathNode(
    val: string,
    depth: nat,
    term: bool,
    children: map<string, nat>,
    parent: Option<nat>,
    meta: Option<M>)

  /** The root node of a new trie: depth 0, no children, no meta data. */
  function RootNode<M>(): PathNode<M>
  {
    PathNode("", 0, false, map[], None, None)
  }

  /** The child reached by key `k` from node `i` is a later node, named `k`, one level deeper, whose parent is `i`. */
  predicate ChildOk<M>(ns: seq<PathNode<M>>, i: nat, k: string)
    requires i < |ns| && k in ns[i].children
  {
    var c := ns[i].children[k];
    i < c < |ns| && ns[c].val == k && ns[c].depth == ns[i].depth + 1 && ns[c].parent == Some(i)
  }

  /** The arena is a tree rooted at node 0, which has depth 0 and no parent. */
  ghost predicate ValidNodes<M>(ns: seq<PathNode<M>>)
  {
    && |ns| > 0
    && ns[0].depth == 0
    && ns[0].parent == None
    && forall i, k :: 0 <= i < |ns| && k in ns[i].children ==> ChildOk(ns, i, k)
  }

  /** Every child link of `a` is still present, unchanged, in `b`. */
  ghost predicate Grows<M>(a: seq<PathNode<M>>, b: seq<PathNode<M>>)
  {
    && |a| <= |b|
    && forall i, k :: 0 <= i < |a| && k in a[i].children ==>
         k in b[i].children && b[i].children[k] == a[i].children[k]
  }

  /** The node reached by following `keys` literally from node `i`. */
  function Follow<M>(ns: seq<PathNode<M>>, i: nat, keys: seq<string>): (r: Option<nat>)
    requires ValidNodes(ns) && i < |ns|
    ensures r.Some? ==> r.value < |ns|
    decreases |keys|
  {
    if keys == [] then Some(i)
    else if keys[0] in ns[i].children then
      assert ChildOk(ns, i, keys[0]);
      Follow(ns, ns[i].children[keys[0]], keys[1..])
    else None
  }

  /** The arena with a new node for `key` created below node `i` (term false, meta of the new entry). */
  function AddChild<M>(ns: seq<PathNode<M>>, i: nat, key: string, meta: M): (ns': seq<PathNode<M>>)
    requires ValidNodes(ns) && i < |ns| && key !in ns[i].children
    ensures ValidNodes(ns') && Grows(ns, ns') && |ns'| == |ns| + 1
    ensures key in ns'[i].children && ns'[i].children[key] == |ns|
    ensures ns'[|ns|] == PathNode(key, ns[i].depth + 1, false, map[], Some(i), Some(meta))
    ensures forall j :: 0 <= j < |ns| ==> ns'[j] == ns[j].(children := ns'[j].children)
  {
    var c := |ns|;
    var ns' := ns[i := ns[i].(children := ns[i].children[key := c])]
               + [PathNode(key, ns[i].depth + 1, false, map[], Some(i), Some(meta))];
    assert forall j, k :: 0 <= j < |ns'| && k in ns'[j].children ==> ChildOk(ns', j, k) by {
      forall j, k | 0 <= j < |ns'| && k in ns'[j].children ensures ChildOk(ns', j, k) {
        if j != i && j < |ns| { assert ChildOk(ns, j, k); }
        else if j == i && k != key { assert ChildOk(ns, j, k); }
      }
    }
    ns'
  }

  /**
   * The trie after adding `keys` below node `i`, and the node the keys end
   * at: missing nodes are created and the last node is marked terminating
   * with the new meta data.
   */
  function Insert<M>(ns: seq<PathNode<M>>, i: nat, keys: seq<string>, meta: M): (r: (seq<PathNode<M>>, nat))
    requires ValidNodes(ns) && i < |ns|
    ensures ValidNodes(r.0) && r.1 < |r.0| && Grows(ns, r.0)
    decreases |keys|
  {
    if keys == [] then
      (ns[i := ns[i].(term := true, meta := Some(meta))], i)
    else
      var key := keys[0];
      if key in ns[i].children then
        assert ChildOk(ns, i, key);
        Insert(ns, ns[i].children[key], keys[1..], meta)
      else
        Insert(AddChild(ns, i, key, meta), |ns|, keys[1..], meta)
  }

  lemma {:induction false} FollowGrows<M>(a: seq<PathNode<M>>, b: seq<PathNode<M>>, i: nat, keys: seq<string>)
    requires ValidNodes(a) && ValidNodes(b) && Grows(a, b) && i < |a|
    requires Follow(a, i, keys).Some?
    ensures Follow(b, i, keys) == Follow(a, i, keys)
    decreases |keys|
  {
    if keys != [] {
      assert ChildOk(a, i, keys[0]);
      FollowGrows(a, b, a[i].children[keys[0]], keys[1..]);
    }
  }

  /** Following one more key is one more child step. */
  lemma {:induction false} FollowAppend<M>(ns: seq<PathNode<M>>, i: nat, keys: seq<string>, k: string)
    requires ValidNodes(ns) && i < |ns|
    ensures Follow(ns, i, keys + [k]) ==
      match Follow(ns, i, keys)
      case None => None
      case Some(j) => if k in ns[j].children then Some(ns[j].children[k]) else None
    decreases |keys|
  {
    if keys == [] {
      assert [k][1..] == [];
    } else {
      assert (keys + [k])[1..] == keys[1..] + [k];
      if keys[0] in ns[i].children {
        assert ChildOk(ns, i, keys[0]);
        FollowAppend(ns, ns[i].children[keys[0]], keys[1..], k);
      }
    }
  }

  /** After an insert, following the keys reaches the returned node, which is terminating and carries the new meta data. */
  lemma {:induction false} InsertReaches<M>(ns: seq<PathNode<M>>, i: nat, keys: seq<string>, meta: M)
    requires ValidNodes(ns) && i < |ns|
    ensures Follow(Insert(ns, i, keys, meta).0, i, keys) == Some(Insert(ns, i, keys, meta).1)
    ensures Insert(ns, i, keys, meta).0[Insert(ns, i, keys, meta).1].term
    ensures Insert(ns, i, keys, meta).0[Insert(ns, i, keys, meta).1].meta == Some(meta)
    decreases |keys|
  {
    var r := Insert(ns, i, keys, meta);
    if keys != [] {
      var key := keys[0];
      var base: seq<PathNode<M>>;
      var c: nat;
      if key in ns[i].children {
        assert ChildOk(ns, i, key);
        base, c := ns, ns[i].children[key];
      } else {
        base, c := AddChild(ns, i, key, meta), |ns|;
      }
      assert r == Insert(base, c, keys[1..], meta);
      InsertReaches(base, c, keys[1..], meta);
      assert key in r.0[i].children && r.0[i].children[key] == c;
    }
  }

  /**
   * An insert along a path that already exists creates no node and changes
   * only the `term` and `meta` of the node the path ends at.
   */
  lemma {:induction false} InsertExisting<M>(ns: seq<PathNode<M>>, i: nat, keys: seq<string>, meta: M)
    requires ValidNodes(ns) && i < |ns| && Follow(ns, i, keys).Some?
    ensures var j := Follow(ns, i, keys).value;
      Insert(ns, i, keys, meta) == (ns[j := ns[j].(term := true, meta := Some(meta))], j)
    decreases |keys|
  {
    if keys != [] {
      assert ChildOk(ns, i, keys[0]);
      InsertExisting(ns, ns[i].children[keys[0]], keys[1..], meta);
    }
  }

  /**
   * Only the end node of an insert changes its `term` and `meta`; every node
   * created on the way is non-terminating and carries the new meta data.
   */
  lemma InsertTouchesOnlyEnd<M>(ns: seq<PathNode<M>>, i: nat, keys: seq<string>, meta: M)
    requires ValidNodes(ns) && i < |ns|
    ensures var (ns', n) := Insert(ns, i, keys, meta);
      && (forall j :: 0 <= j < |ns| && j != n ==>
            ns'[j].term == ns[j].term && ns'[j].meta == ns[j].meta && ns'[j].depth == ns[j].depth)
      && (forall j :: |ns| <= j < |ns'| && j != n ==> !ns'[j].term && ns'[j].meta == Some(meta))
  {
    InsertKeepsOld(ns, i, keys, meta);
    InsertFreshNodes(ns, i, keys, meta);
  }

  /**
   * An insert never replaces what is already there: every old child link
   * stays, so every old walk reaches the same node; old nodes keep their
   * parent, and all but the end node keep `term`, `meta` and depth.
   */
  lemma {:induction false} InsertKeepsOld<M>(ns: seq<PathNode<M>>, i: nat, keys: seq<string>, meta: M)
    requires ValidNodes(ns) && i < |ns|
    ensures var r := Insert(ns, i, keys, meta);
      && Grows(ns, r.0)
      && (forall j :: 0 <= j < |ns| ==> r.0[j].parent == ns[j].parent)
      && (forall j :: 0 <= j < |ns| && j != r.1 ==>
            r.0[j].term == ns[j].term && r.0[j].meta == ns[j].meta && r.0[j].depth == ns[j].depth)
      && (forall j, ks :: 0 <= j < |ns| && Follow(ns, j, ks).Some? ==> Follow(r.0, j, ks) == Follow(ns, j, ks))
  {
    var r := Insert(ns, i, keys, meta);
    InsertKeepsNodes(ns, i, keys, meta);
    forall j, ks | 0 <= j < |ns| && Follow(ns, j, ks).Some?
      ensures Follow(r.0, j, ks) == Follow(ns, j, ks)
    {
      FollowGrows(ns, r.0, j, ks);
    }
  }

  /** The node fields an insert keeps, by induction on the keys. */
  lemma {:induction false} InsertKeepsNodes<M>(ns: seq<PathNode<M>>, i: nat, keys: seq<string>, meta: M)
    requires ValidNodes(ns) && i < |ns|
    ensures var r := Insert(ns, i, keys, meta);
      && (forall j :: 0 <= j < |ns| ==> r.0[j].parent == ns[j].parent)
      && (forall j :: 0 <= j < |ns| && j != r.1 ==>
            r.0[j].term == ns[j].term && r.0[j].meta == ns[j].meta && r.0[j].depth == ns[j].depth)
    decreases |keys|
  {
    if keys != [] {
      var key := keys[0];
      if key in ns[i].children {
        assert ChildOk(ns, i, key);
        var c := ns[i].children[key];
        assert Insert(ns, i, keys, meta) == Insert(ns, c, keys[1..], meta);
        InsertKeepsNodes(ns, c, keys[1..], meta);
      } else {
        var ns1 := AddChild(ns, i, key, meta);
        assert Insert(ns, i, keys, meta) == Insert(ns1, |ns|, keys[1..], meta);
        InsertKeepsNodes(ns1, |ns|, keys[1..], meta);
      }
    }
  }

  /**
   * The nodes an insert creates are the new positions of the arena, at most
   * one per key: each hangs below an earlier node under its own name, and
   * all but the end node are non-terminating with the new meta data.
   */
  lemma {:induction false} InsertFreshNodes<M>(ns: seq<PathNode<M>>, i: nat, keys: seq<string>, meta: M)
    requires ValidNodes(ns) && i < |ns|
    ensures var r := Insert(ns, i, keys, meta);
      && |r.0| <= |ns| + |keys|
      && (forall j :: |ns| <= j < |r.0| && j != r.1 ==> !r.0[j].term && r.0[j].meta == Some(meta))
      && (forall j :: |ns| <= j < |r.0| ==> LinkedFromParent(r.0, j))
  {
    FreshNodesUnmarked(ns, i, keys, meta);
    FreshNodesLinked(ns, i, keys, meta);
  }

  /** Node `j` hangs below an earlier node, its parent, under its own name. */
  predicate LinkedFromParent<M>(ns: seq<PathNode<M>>, j: nat)
    requires j < |ns|
  {
    && ns[j].parent.Some? && ns[j].parent.value < j
    && ns[j].val in ns[ns[j].parent.value].children
    && ns[ns[j].parent.value].children[ns[j].val] == j
  }

  lemma {:induction false} FreshNodesUnmarked<M>(ns: seq<PathNode<M>>, i: nat, keys: seq<string>, meta: M)
    requires ValidNodes(ns) && i < |ns|
    ensures var r := Insert(ns, i, keys, meta);
      && |r.0| <= |ns| + |keys|
      && (forall j :: |ns| <= j < |r.0| && j != r.1 ==> !r.0[j].term && r.0[j].meta == Some(meta))
    decreases |keys|
  {
    if keys != [] {
      var key := keys[0];
      if key in ns[i].children {
        assert ChildOk(ns, i, key);
        var c := ns[i].children[key];
        assert Insert(ns, i, keys, meta) == Insert(ns, c, keys[1..], meta);
        FreshNodesUnmarked(ns, c, keys[1..], meta);
      } else {
        var ns1 := AddChild(ns, i, key, meta);
        var r := Insert(ns1, |ns|, keys[1..], meta);
        assert Insert(ns, i, keys, meta) == r;
        FreshNodesUnmarked(ns1, |ns|, keys[1..], meta);
        InsertKeepsNodes(ns1, |ns|, keys[1..], meta);
        forall j | |ns| <= j < |r.0| && j != r.1 ensures !r.0[j].term && r.0[j].meta == Some(meta) {
          if j == |ns| {
            assert !ns1[j].term && ns1[j].meta == Some(meta);
          } else {
            assert |ns1| <= j;
          }
        }
      }
    } else {
      assert |Insert(ns, i, keys, meta).0| == |ns|;
    }
  }

  lemma {:induction false} FreshNodesLinked<M>(ns: seq<PathNode<M>>, i: nat, keys: seq<string>, meta: M)
    requires ValidNodes(ns) && i < |ns|
    ensures var r := Insert(ns, i, keys, meta);
      forall j :: |ns| <= j < |r.0| ==> LinkedFromParent(r.0, j)
    decreases |keys|
  {
    if keys != [] {
      var key := keys[0];
      if key in ns[i].children {
        assert ChildOk(ns, i, key);
        var c := ns[i].children[key];
        assert Insert(ns, i, keys, meta) == Insert(ns, c, keys[1..], meta);
        FreshNodesLinked(ns, c, keys[1..], meta);
      } else {
        var ns1 := AddChild(ns, i, key, meta);
        var r := Insert(ns1, |ns|, keys[1..], meta);
        assert Insert(ns, i, keys, meta) == r;
        FreshNodesLinked(ns1, |ns|, keys[1..], meta);
        InsertKeepsNodes(ns1, |ns|, keys[1..], meta);
        InsertKeepsShape(ns1, |ns|, keys[1..], meta);
        assert r.0[|ns|].parent == Some(i) && r.0[|ns|].val == key;
        assert key in r.0[i].children && r.0[i].children[key] == |ns|;
        assert LinkedFromParent(r.0, |ns|);
      }
    } else {
      assert |Insert(ns, i, keys, meta).0| == |ns|;
    }
  }

  /** Leading keys that already lead somewhere only walk down: the insert goes on from where they lead. */
  lemma {:induction false} InsertAlong<M>(ns: seq<PathNode<M>>, i: nat, lit: seq<string>, rest: seq<string>, meta: M)
    requires ValidNodes(ns) && i < |ns| && Follow(ns, i, lit).Some?
    ensures Insert(ns, i, lit + rest, meta) == Insert(ns, Follow(ns, i, lit).value, rest, meta)
    decreases |lit|
  {
    if lit != [] {
      assert ChildOk(ns, i, lit[0]);
      assert (lit + rest)[0] == lit[0] && (lit + rest)[1..] == lit[1..] + rest;
      InsertAlong(ns, ns[i].children[lit[0]], lit[1..], rest, meta);
    } else {
      assert lit + rest == rest;
    }
  }

  /** Inserting one key that is not yet a child of node `i` adds one terminating leaf below it. */
  lemma AddLeaf<M>(ns: seq<PathNode<M>>, i: nat, key: string, meta: M)
    requires ValidNodes(ns) && i < |ns| && key !in ns[i].children
    ensures Insert(ns, i, [key], meta) ==
      (ns[i := ns[i].(children := ns[i].children[key := |ns|])]
       + [PathNode(key, ns[i].depth + 1, true, map[], Some(i), Some(meta))], |ns|)
  {
    var a := AddChild(ns, i, key, meta);
    var base := ns[i := ns[i].(children := ns[i].children[key := |ns|])];
    assert a == base + [PathNode(key, ns[i].depth + 1, false, map[], Some(i), Some(meta))];
    assert [key][1..] == [];
    assert Insert(ns, i, [key], meta) == Insert(a, |ns|, [], meta);
    assert a[|ns| := a[|ns|].(term := true, meta := Some(meta))]
        == base + [PathNode(key, ns[i].depth + 1, true, map[], Some(i), Some(meta))];
  }

  /** An insert keeps the name and depth of every node already present. */
  lemma {:induction false} InsertKeepsShape<M>(ns: seq<PathNode<M>>, i: nat, keys: seq<string>, meta: M)
    requires ValidNodes(ns) && i < |ns|
    ensures var ns' := Insert(ns, i, keys, meta).0;
      forall j :: 0 <= j < |ns| ==> ns'[j].val == ns[j].val && ns'[j].depth == ns[j].depth
    decreases |keys|
  {
    if keys != [] {
      var key := keys[0];
      if key in ns[i].children {
        assert ChildOk(ns, i, key);
        InsertKeepsShape(ns, ns[i].children[key], keys[1..], meta);
      } else {
        InsertKeepsShape(AddChild(ns, i, key, meta), |ns|, keys[1..], meta);
      }
    }
  }

  /** Following `keys` ends |keys| levels deeper, at a node named after the last key. */
  lemma {:induction false} FollowEnds<M>(ns: seq<PathNode<M>>, i: nat, keys: seq<string>)
    requires ValidNodes(ns) && i < |ns| && Follow(ns, i, keys).Some?
    ensures ns[Follow(ns, i, keys).value].depth == ns[i].depth + |keys|
    ensures keys != [] ==> ns[Follow(ns, i, keys).value].val == keys[|keys| - 1]
    decreases |keys|
  {
    if keys != [] {
      assert ChildOk(ns, i, keys[0]);
      FollowEnds(ns, ns[i].children[keys[0]], keys[1..]);
    }
  }

  /** The trie after adding each (keys, meta) pair of `ps`, in order, from the root. */
  function InsertAll<M>(ns: seq<PathNode<M>>, ps: seq<(seq<string>, M)>): (r: seq<PathNode<M>>)
    requires ValidNodes(ns)
    ensures ValidNodes(r) && |ns| <= |r|
    decreases |ps|
  {
    if ps == [] then ns
    else
      var last := ps[|ps| - 1];
      Insert(InsertAll(ns, ps[..|ps| - 1]), 0, last.0, last.1).0
  }

  /**
   * No two entries end at the same node and no entry ends on the way to
   * another: every path is non-empty, and the last key of a path never
   * appears at the same depth of another path at least as long.
   */
  predicate Separated<M>(ps: seq<(seq<string>, M)>)
  {
    && (forall j :: 0 <= j < |ps| ==> ps[j].0 != [])
    && (forall j, k :: 0 <= j < |ps| && 0 <= k < |ps| && j != k && |ps[k].0| <= |ps[j].0| ==>
          ps[j].0[|ps[k].0| - 1] != ps[k].0[|ps[k].0| - 1])
  }

  lemma SeparatedAt<M>(ps: seq<(seq<string>, M)>, j: nat, k: nat)
    requires Separated(ps) && j < |ps| && k < |ps| && j != k && |ps[k].0| <= |ps[j].0|
    ensures ps[j].0[|ps[k].0| - 1] != ps[k].0[|ps[k].0| - 1]
  {
  }

  ghost predicate NoTerm<M>(ns: seq<PathNode<M>>)
  {
    forall x :: 0 <= x < |ns| ==> !ns[x].term
  }

  /** `node` sits where some non-empty path of `ps` ends: at its depth, named after its last key. */
  ghost predicate EndOfSome<M>(ps: seq<(seq<string>, M)>, node: PathNode<M>)
  {
    exists k :: 0 <= k < |ps| && ps[k].0 != [] && node.depth == |ps[k].0| && node.val == ps[k].0[|ps[k].0| - 1]
  }

  /** One insert: a terminating node afterwards is the new end, or was terminating before with the same name and depth. */
  lemma InsertStepTerm<M>(mid: seq<PathNode<M>>, p: seq<string>, meta: M)
    requires ValidNodes(mid) && p != []
    ensures var r := Insert(mid, 0, p, meta).0;
      forall x :: 0 <= x < |r| && r[x].term ==>
        (r[x].depth == |p| && r[x].val == p[|p| - 1]) ||
        (x < |mid| && mid[x].term && r[x].depth == mid[x].depth && r[x].val == mid[x].val)
  {
    var (r, n) := Insert(mid, 0, p, meta);
    InsertReaches(mid, 0, p, meta);
    FollowEnds(r, 0, p);
    InsertTouchesOnlyEnd(mid, 0, p, meta);
    InsertKeepsShape(mid, 0, p, meta);
  }

  /** One insert keeps what an earlier path reaches, when the new path ends elsewhere. */
  lemma InsertStepKeeps<M>(mid: seq<PathNode<M>>, p: seq<string>, meta: M, q: seq<string>, qmeta: M)
    requires ValidNodes(mid) && p != [] && q != [] && Reaches(mid, q, qmeta)
    requires |q| != |p| || q[|q| - 1] != p[|p| - 1]
    ensures Reaches(Insert(mid, 0, p, meta).0, q, qmeta)
  {
    var (r, n) := Insert(mid, 0, p, meta);
    var x := Follow(mid, 0, q).value;
    InsertReaches(mid, 0, p, meta);
    FollowGrows(mid, r, 0, q);
    FollowEnds(mid, 0, q);
    FollowEnds(r, 0, p);
    InsertKeepsShape(mid, 0, p, meta);
    InsertTouchesOnlyEnd(mid, 0, p, meta);
  }

  /** Every terminating node of `r` ends a path of `ps`. */
  ghost predicate TermsEnd<M>(r: seq<PathNode<M>>, ps: seq<(seq<string>, M)>)
  {
    forall x :: 0 <= x < |r| && r[x].term ==> EndOfSome(ps, r[x])
  }

  lemma EndOfSomeAt<M>(ps: seq<(seq<string>, M)>, k: nat, node: PathNode<M>)
    requires k < |ps| && ps[k].0 != [] && node.depth == |ps[k].0| && node.val == ps[k].0[|ps[k].0| - 1]
    ensures EndOfSome(ps, node)
  {
  }

  lemma EndOfSomeGrows<M>(ps: seq<(seq<string>, M)>, m: nat, node: PathNode<M>)
    requires m <= |ps| && EndOfSome(ps[..m], node)
    ensures EndOfSome(ps, node)
  {
    var k :| 0 <= k < m && ps[..m][k].0 != [] && node.depth == |ps[..m][k].0| &&
             node.val == ps[..m][k].0[|ps[..m][k].0| - 1];
    EndOfSomeAt(ps, k, node);
  }

  /** Starting from a trie with no terminating node, every terminating node ends one of the inserted paths. */
  lemma {:induction false} InsertAllTerm<M>(ns: seq<PathNode<M>>, ps: seq<(seq<string>, M)>)
    requires ValidNodes(ns) && NoTerm(ns)
    requires forall j :: 0 <= j < |ps| ==> ps[j].0 != []
    ensures TermsEnd(InsertAll(ns, ps), ps)
    decreases |ps|
  {
    if ps != [] {
      var m := |ps| - 1;
      var init := ps[..m];
      var mid := InsertAll(ns, init);
      var q := ps[m].0;
      InsertAllTerm(ns, init);
      var r := Insert(mid, 0, q, ps[m].1).0;
      assert InsertAll(ns, ps) == r;
      InsertStepTerm(mid, q, ps[m].1);
      forall x | 0 <= x < |r| && r[x].term ensures EndOfSome(ps, r[x]) {
        if r[x].depth == |q| && r[x].val == q[|q| - 1] {
          EndOfSomeAt(ps, m, r[x]);
        } else {
          assert EndOfSome(init, mid[x]);
          EndOfSomeGrows(ps, m, r[x]);
        }
      }
    }
  }

  /** Each inserted path of a separated table leads to a terminating node carrying that entry's meta data. */
  lemma {:induction false} InsertAllReaches<M>(ns: seq<PathNode<M>>, ps: seq<(seq<string>, M)>, j: nat)
    requires ValidNodes(ns) && Separated(ps) && j < |ps|
    ensures Reaches(InsertAll(ns, ps), ps[j].0, ps[j].1)
    decreases |ps|
  {
    var m := |ps| - 1;
    var init := ps[..m];
    var mid := InsertAll(ns, init);
    var p, q := ps[j].0, ps[m].0;
    assert InsertAll(ns, ps) == Insert(mid, 0, q, ps[m].1).0;
    if j == m {
      InsertReaches(mid, 0, q, ps[m].1);
    } else {
      SeparatedPrefix(ps, m);
      InsertAllReaches(ns, init, j);
      assert init[j] == ps[j];
      if |q| <= |p| {
        SeparatedAt(ps, j, m);
      } else {
        SeparatedAt(ps, m, j);
      }
      InsertStepKeeps(mid, q, ps[m].1, p, ps[j].1);
    }
  }

  /** Following `p` from the root reaches a terminating node carrying `meta`. */
  ghost predicate Reaches<M>(r: seq<PathNode<M>>, p: seq<string>, meta: M)
    requires ValidNodes(r)
  {
    Follow(r, 0, p).Some? && r[Follow(r, 0, p).value].term && r[Follow(r, 0, p).value].meta == Some(meta)
  }

  lemma SeparatedPrefix<M>(ps: seq<(seq<string>, M)>, m: nat)
    requires Separated(ps) && m <= |ps|
    ensures Separated(ps[..m])
  {
    assert forall a :: 0 <= a < m ==> ps[..m][a] == ps[a];
  }

  /** A path is open when it starts at a non-terminating node and no terminating node sits where it passes. */
  lemma {:induction false} OpenWhenUnblocked<M>(ns: seq<PathNode<M>>, n: nat, p: seq<string>)
    requires ValidNodes(ns) && n < |ns| && Follow(ns, n, p).Some?
    requires p != [] ==> !ns[n].term
    requires forall x, t :: 0 <= x < |ns| && ns[x].term && 0 <= t < |p| - 1 ==>
      !(ns[x].depth == ns[n].depth + t + 1 && ns[x].val == p[t])
    ensures OpenPath(ns, n, p)
    decreases |p|
  {
    if p != [] {
      assert ChildOk(ns, n, p[0]);
      var c := ns[n].children[p[0]];
      forall x, t | 0 <= x < |ns| && ns[x].term && 0 <= t < |p[1..]| - 1
        ensures !(ns[x].depth == ns[c].depth + t + 1 && ns[x].val == p[1..][t])
      {
        assert p[1..][t] == p[t + 1];
      }
      OpenWhenUnblocked(ns, c, p[1..]);
    }
  }

  /** In a trie whose terminating nodes all end entries of a separated table, the way to each entry is open. */
  lemma OpenFromEnds<M>(r: seq<PathNode<M>>, ps: seq<(seq<string>, M)>, j: nat, p: seq<string>)
    requires ValidNodes(r) && Separated(ps) && j < |ps| && p == ps[j].0 && Follow(r, 0, p).Some?
    requires TermsEnd(r, ps)
    ensures OpenPath(r, 0, p)
  {
    OpenWhenUnblocked(r, 0, p);
  }

  /**
   * In a trie built from a separated table on a trie with no terminating
   * node, searching for an entry's literal path reports exactly one node,
   * and that node carries the entry's meta data.
   */
  lemma {:induction false} InsertAllFinds<M>(ns: seq<PathNode<M>>, ps: seq<(seq<string>, M)>, j: nat)
    requires ValidNodes(ns) && NoTerm(ns) && Separated(ps) && j < |ps|
    requires forall i :: 0 <= i < |ps[j].0| ==> !IsWildcard(ps[j].0[i])
    ensures var r := InsertAll(ns, ps);
      exists x :: 0 <= x < |r| && Find(r, 0, ps[j].0) == multiset{x} && r[x].meta == Some(ps[j].1)
  {
    var r := InsertAll(ns, ps);
    InsertAllReaches(ns, ps, j);
    assert Reaches(r, ps[j].0, ps[j].1);
    InsertAllTerm(ns, ps);
    OpenFromEnds(r, ps, j, ps[j].0);
    FindLiteralComplete(r, 0, ps[j].0);
  }

  /*
   * The wildcard search of findPathNode.  `Find` gives the multiset of nodes
   * reported from node `n` for `keys`; `SumFind` adds up the reports of the
   * children named in `names`, in whatever order a Go map yields them.
   */

  ghost function Find<M>(ns: seq<PathNode<M>>, n: nat, keys: seq<string>): multiset<nat>
    requires ValidNodes(ns) && n < |ns|
    decreases |keys|, |ns| - n, 1, 0
  {
    if keys == [] then
      (if ns[n].term then multiset{n} else multiset{})
    else if ns[n].term then
      (if |keys| == 1 && keys[0] == "..." then multiset{n} else multiset{})
    else if keys[0] == "..." then
      (if |keys| > 1 && keys[1] in ns[n].children then
         assert ChildOk(ns, n, keys[1]);
         Find(ns, ns[n].children[keys[1]], keys[2..])
       else multiset{})
      + SumFind(ns, n, ns[n].children.Keys, keys)
    else if keys[0] == "*" then
      SumFind(ns, n, ns[n].children.Keys, keys[1..])
    else if keys[0] in ns[n].children then
      assert ChildOk(ns, n, keys[0]);
      Find(ns, ns[n].children[keys[0]], keys[1..])
    else multiset{}
  }

  ghost function SumFind<M>(ns: seq<PathNode<M>>, n: nat, names: set<string>, keys: seq<string>): multiset<nat>
    requires ValidNodes(ns) && n < |ns| && names <= ns[n].children.Keys
    decreases |keys|, |ns| - n, 0, |names|
  {
    if names == {} then multiset{}
    else
      var k :| k in names;
      assert ChildOk(ns, n, k);
      Find(ns, ns[n].children[k], keys) + SumFind(ns, n, names - {k}, keys)
  }

  /** Every node the search reports is a terminating node of the trie. */
  lemma {:induction false} FindTerminating<M>(ns: seq<PathNode<M>>, n: nat, keys: seq<string>)
    requires ValidNodes(ns) && n < |ns|
    ensures forall x :: x in Find(ns, n, keys) ==> x < |ns| && ns[x].term
    decreases |keys|, |ns| - n, 1, 0
  {
    if keys != [] && !ns[n].term {
      if keys[0] == "..." {
        if |keys| > 1 && keys[1] in ns[n].children {
          assert ChildOk(ns, n, keys[1]);
          FindTerminating(ns, ns[n].children[keys[1]], keys[2..]);
        }
        SumFindTerminating(ns, n, ns[n].children.Keys, keys);
      } else if keys[0] == "*" {
        SumFindTerminating(ns, n, ns[n].children.Keys, keys[1..]);
      } else if keys[0] in ns[n].children {
        assert ChildOk(ns, n, keys[0]);
        FindTerminating(ns, ns[n].children[keys[0]], keys[1..]);
      }
    }
  }

  lemma {:induction false} SumFindTerminating<M>(ns: seq<PathNode<M>>, n: nat, names: set<string>, keys: seq<string>)
    requires ValidNodes(ns) && n < |ns| && names <= ns[n].children.Keys
    ensures forall x :: x in SumFind(ns, n, names, keys) ==> x < |ns| && ns[x].term
    decreases |keys|, |ns| - n, 0, |names|
  {
    if names != {} {
      var k :| k in names && ChildOk(ns, n, k) &&
        SumFind(ns, n, names, keys) == Find(ns, ns[n].children[k], keys) + SumFind(ns, n, names - {k}, keys);
      FindTerminating(ns, ns[n].children[k], keys);
      SumFindTerminating(ns, n, names - {k}, keys);
    }
  }

  /** The sum over children does not depend on the order they are taken in. */
  lemma {:induction false} SumFindPick<M>(ns: seq<PathNode<M>>, n: nat, names: set<string>, keys: seq<string>, k: string)
    requires ValidNodes(ns) && n < |ns| && names <= ns[n].children.Keys && k in names
    ensures ChildOk(ns, n, k)
    ensures SumFind(ns, n, names, keys) == Find(ns, ns[n].children[k], keys) + SumFind(ns, n, names - {k}, keys)
    decreases |names|
  {
    assert ChildOk(ns, n, k);
    var k' :| k' in names && ChildOk(ns, n, k') &&
      SumFind(ns, n, names, keys) == Find(ns, ns[n].children[k'], keys) + SumFind(ns, n, names - {k'}, keys);
    if k' != k {
      SumFindPick(ns, n, names - {k'}, keys, k);
      SumFindPick(ns, n, names - {k}, keys, k');
      assert names - {k'} - {k} == names - {k} - {k'};
    }
  }

  /** Taking one more child into the sum adds that child's reports. */
  lemma SumFindAdd<M>(ns: seq<PathNode<M>>, n: nat, names: set<string>, keys: seq<string>, k: string)
    requires ValidNodes(ns) && n < |ns| && names <= ns[n].children.Keys && k in ns[n].children && k !in names
    ensures ChildOk(ns, n, k)
    ensures SumFind(ns, n, names + {k}, keys) == SumFind(ns, n, names, keys) + Find(ns, ns[n].children[k], keys)
  {
    SumFindPick(ns, n, names + {k}, keys, k);
    assert names + {k} - {k} == names;
  }

  /** A path every node of which, before its end, is a non-terminating node with the next key as a child. */
  ghost predicate OpenPath<M>(ns: seq<PathNode<M>>, n: nat, p: seq<string>)
    requires ValidNodes(ns) && n < |ns|
    decreases |p|
  {
    p == [] ||
    (!ns[n].term && p[0] in ns[n].children &&
     (assert ChildOk(ns, n, p[0]); OpenPath(ns, ns[n].children[p[0]], p[1..])))
  }

  predicate IsWildcard(k: string) { k == "*" || k == "..." }

  /** With literal keys the search reports at most the node the keys lead to. */
  lemma {:induction false} FindLiteral<M>(ns: seq<PathNode<M>>, n: nat, keys: seq<string>)
    requires ValidNodes(ns) && n < |ns|
    requires forall i :: 0 <= i < |keys| ==> !IsWildcard(keys[i])
    ensures |Find(ns, n, keys)| <= 1
    ensures forall x :: x in Find(ns, n, keys) ==> Follow(ns, n, keys) == Some(x)
    decreases |keys|
  {
    if keys != [] && !ns[n].term && keys[0] in ns[n].children {
      assert ChildOk(ns, n, keys[0]);
      FindLiteral(ns, ns[n].children[keys[0]], keys[1..]);
    }
  }

  /** A literal path to a terminating node that passes no terminating node on the way is reported exactly once. */
  lemma {:induction false} FindLiteralComplete<M>(ns: seq<PathNode<M>>, n: nat, keys: seq<string>)
    requires ValidNodes(ns) && n < |ns|
    requires forall i :: 0 <= i < |keys| ==> !IsWildcard(keys[i])
    requires OpenPath(ns, n, keys) && Follow(ns, n, keys).Some?
    requires ns[Follow(ns, n, keys).value].term
    ensures Find(ns, n, keys) == multiset{Follow(ns, n, keys).value}
    decreases |keys|
  {
    if keys != [] {
      assert ChildOk(ns, n, keys[0]);
      FindLiteralComplete(ns, ns[n].children[keys[0]], keys[1..]);
    }
  }

  /** Literal leading keys only walk down: the search continues from the node they lead to. */
  lemma {:induction false} FindLiteralPrefix<M>(ns: seq<PathNode<M>>, n: nat, lit: seq<string>, rest: seq<string>)
    requires ValidNodes(ns) && n < |ns|
    requires forall i :: 0 <= i < |lit| ==> !IsWildcard(lit[i])
    requires OpenPath(ns, n, lit) && Follow(ns, n, lit).Some?
    requires rest != []
    ensures Find(ns, n, lit + rest) == Find(ns, Follow(ns, n, lit).value, rest)
    decreases |lit|
  {
    if lit != [] {
      assert ChildOk(ns, n, lit[0]);
      assert (lit + rest)[0] == lit[0] && (lit + rest)[1..] == lit[1..] + rest;
      FindLiteralPrefix(ns, ns[n].children[lit[0]], lit[1..], rest);
    } else {
      assert lit + rest == rest;
    }
  }

  /** `...` on its own reports every terminating node reachable along an open path, at any depth. */
  lemma {:induction false} EllipsisReaches<M>(ns: seq<PathNode<M>>, n: nat, p: seq<string>)
    requires ValidNodes(ns) && n < |ns|
    requires OpenPath(ns, n, p) && Follow(ns, n, p).Some?
    requires ns[Follow(ns, n, p).value].term
    ensures Follow(ns, n, p).value in Find(ns, n, ["..."])
    decreases |p|
  {
    if p != [] {
      var c := ns[n].children[p[0]];
      assert ChildOk(ns, n, p[0]);
      EllipsisReaches(ns, c, p[1..]);
      SumFindPick(ns, n, ns[n].children.Keys, ["..."], p[0]);
    }
  }

  /** `*` as the last key reports exactly the terminating children of a non-terminating node. */
  lemma {:induction false} StarOneLevel<M>(ns: seq<PathNode<M>>, n: nat)
    requires ValidNodes(ns) && n < |ns| && !ns[n].term
    ensures forall k :: k in ns[n].children && ns[ns[n].children[k]].term ==>
      ns[n].children[k] in Find(ns, n, ["*"])
    ensures forall x :: x in Find(ns, n, ["*"]) ==> exists k :: k in ns[n].children && ns[n].children[k] == x
  {
    assert ["*"][1..] == [];
    forall k | k in ns[n].children && ns[ns[n].children[k]].term
      ensures ns[n].children[k] in Find(ns, n, ["*"])
    {
      SumFindPick(ns, n, ns[n].children.Keys, [], k);
    }
    SumFindChildren(ns, n, ns[n].children.Keys);
  }

  /** With no keys left, the sum over children only reports the children themselves. */
  lemma {:induction false} SumFindChildren<M>(ns: seq<PathNode<M>>, n: nat, names: set<string>)
    requires ValidNodes(ns) && n < |ns| && names <= ns[n].children.Keys
    ensures forall x :: x in SumFind(ns, n, names, []) ==> exists k :: k in names && ns[n].children[k] == x
    decreases |names|
  {
    if names != {} {
      var k :| k in names && ChildOk(ns, n, k) &&
        SumFind(ns, n, names, []) == Find(ns, ns[n].children[k], []) + SumFind(ns, n, names - {k}, []);
      SumFindChildren(ns, n, names - {k});
      forall x | x in SumFind(ns, n, names, []) ensures exists k' :: k' in names && ns[n].children[k'] == x {
        if x in Find(ns, ns[n].children[k], []) {
          assert ns[n].children[k] == x;
        } else {
          assert x in SumFind(ns, n, names - {k}, []);
        }
      }
    }
  }

  /** A terminating node with keys left is reported only for a sole `...`, and nothing below it ever is. */
  lemma StopsAtTerminating<M>(ns: seq<PathNode<M>>, n: nat, keys: seq<string>)
    requires ValidNodes(ns) && n < |ns| && ns[n].term && keys != []
    ensures Find(ns, n, keys) == if keys == ["..."] then multiset{n} else multiset{}
  {
  }

  class PathTrie<M> {
    var nodes: seq<PathNode<M>>
    var size: int

    ghost predicate Valid()
      reads this
    {
      ValidNodes(nodes)
    }

    /** NewPathTrie: a lone root of depth 0, and size 0. */
    constructor ()
      ensures Valid() && nodes == [RootNode()] && size == 0
    {
      nodes := [RootNode()];
      size := 0;
    }

    /** Add: walks down from the root creating missing nodes, then marks the last node. */
    method Add(keys: seq<string>, meta: M) returns (n: nat)
      requires Valid()
      modifies this
      ensures Valid()
      ensures (nodes, n) == Insert(old(nodes), 0, keys, meta)
      ensures size == old(size)
    {
      ghost var was := nodes;
      var node: nat := 0;
      var i := 0;
      while i < |keys|
        invariant 0 <= i <= |keys|
        invariant ValidNodes(nodes) && node < |nodes|
        invariant Insert(nodes, node, keys[i..], meta) == Insert(was, 0, keys, meta)
        invariant size == old(size)
      {
        var key := keys[i];
        assert keys[i..][1..] == keys[i + 1..];
        if key !in nodes[node].children {
          nodes := AddChild(nodes, node, key, meta);
        }
        assert ChildOk(nodes, node, key);
        node := nodes[node].children[key];
        i := i + 1;
      }
      nodes := nodes[node := nodes[node].(term := true, meta := Some(meta))];
      n := node;
    }
  }

  /** findPathNode: appends to `result` every node the search from `node` reports. */
  method FindPathNode<M>(ns: seq<PathNode<M>>, node: nat, keys: seq<string>, result: seq<nat>) returns (out: seq<nat>)
    requires ValidNodes(ns) && node < |ns|
    ensures multiset(out) == multiset(result) + Find(ns, node, keys)
    decreases |keys|, |ns| - node, 1
  {
    if |keys| == 0 {
      out := if ns[node].term then result + [node] else result;
      return;
    }
    var key := keys[0];
    if ns[node].term {
      out := if |keys| == 1 && key == "..." then result + [node] else result;
      return;
    }
    var children := ns[node].children;
    out := result;
    if key == "..." {
      if |keys| > 1 && keys[1] in children {
        assert ChildOk(ns, node, keys[1]);
        out := FindPathNode(ns, children[keys[1]], keys[2..], out);
      }
      out := FindInChildren(ns, node, keys, out);
    } else if key == "*" {
      out := FindInChildren(ns, node, keys[1..], out);
    } else if key in children {
      assert ChildOk(ns, node, key);
      out := FindPathNode(ns, children[key], keys[1..], out);
    }
  }

  /** `out` holds what `result` held plus the reports of the children named in `done`. */
  ghost predicate Collected<M>(ns: seq<PathNode<M>>, node: nat, keys: seq<string>, result: seq<nat>, done: set<string>, out: seq<nat>)
    requires ValidNodes(ns) && node < |ns| && done <= ns[node].children.Keys
  {
    multiset(out) == multiset(result) + SumFind(ns, node, done, keys)
  }

  /** Visiting one more child adds what is found under it. */
  lemma CollectedStep<M>(ns: seq<PathNode<M>>, node: nat, keys: seq<string>, result: seq<nat>, done: set<string>,
                         k: string, out: seq<nat>, next: seq<nat>)
    requires ValidNodes(ns) && node < |ns| && done <= ns[node].children.Keys
    requires k in ns[node].children && k !in done && ChildOk(ns, node, k)
    requires Collected(ns, node, keys, result, done, out)
    requires multiset(next) == multiset(out) + Find(ns, ns[node].children[k], keys)
    ensures Collected(ns, node, keys, result, done + {k}, next)
  {
    SumFindAdd(ns, node, done, keys, k);
  }

  /** The `for _, child := range children` loops of findPathNode, in any order. */
  method FindInChildren<M>(ns: seq<PathNode<M>>, node: nat, keys: seq<string>, result: seq<nat>) returns (out: seq<nat>)
    requires ValidNodes(ns) && node < |ns|
    ensures multiset(out) == multiset(result) + SumFind(ns, node, ns[node].children.Keys, keys)
    decreases |keys|, |ns| - node, 0
  {
    var children := ns[node].children;
    var remaining := children.Keys;
    ghost var done: set<string> := {};
    out := result;
    while remaining != {}
      invariant remaining <= children.Keys && done == children.Keys - remaining
      invariant Collected(ns, node, keys, result, done, out)
      decreases |remaining|
    {
      var k :| k in remaining;
      assert ChildOk(ns, node, k);
      var next := FindPathNode(ns, children[k], keys, out);
      CollectedStep(ns, node, keys, result, done, k, out, next);
      out := next;
      done := done + {k};
      remaining := remaining - {k};
    }
    assert done == children.Keys;
  }
}
