/**
 * The handler table of the virtual database client
 * (virtual_database_client/handler_func.go): four virtual paths, each with
 * the handler that maps a request for it to COUNTERS_DB table paths; the
 * trie they populate; and the search that runs the handler of every
 * trie node a request reaches.
 */
module VdbHandlerFunc {
  import opened Wrappers
  import opened Gnmi
  import opened VdbTypes
  import opened VdbMapInit
  import opened VdbTrie
  import Pfcwd = VdbHandlerPfcwd
  import QueueCounter = VdbHandlerQueueCounter
  import PortCounter = VdbHandlerPortCounter
  import PfcCounter = VdbHandlerPfcCounter

  /** The handler funcs a trie node can carry. */
  datatype Handler = PortQueuePfcwdStats | PortQueueCounterStats | PortPfcCounterStats | PortBaseCounterStats

  /** path2HdlrFuncTbl: each virtual path, target first, with its handler. */
  const Path2HdlrFuncTbl: seq<(seq<string>, Handler)> := [
    (["SONiC_DB", "Interfaces", "Port", "Queue", "Pfcwd"], PortQueuePfcwdStats),
    (["SONiC_DB", "Interfaces", "Port", "Queue", "QueueCounter"], PortQueueCounterStats),
    (["SONiC_DB", "Interfaces", "Port", "PfcCounter"], PortPfcCounterStats),
    (["SONiC_DB", "Interfaces", "Port", "BaseCounter"], PortBaseCounterStats)]

  /* The request each handler builds from the client's path before popping it. */

  function QueueCounterRequest(path: Path): (r: Path)
    ensures |r.elem| == 4
  {
    Pfcwd.UpdatedTemplate(path, QueueCounter.QueueCounterTemplate(), Pfcwd.PfcwdParents)
  }

  function PfcCounterRequest(path: Path): (r: Path)
    ensures |r.elem| == 3
  {
    Pfcwd.UpdatedTemplate(path, PfcCounter.PfcCounterTemplate(), PortCounter.PortParents)
  }

  function BaseCounterRequest(path: Path): (r: Path)
    ensures |r.elem| == 3
  {
    Pfcwd.UpdatedTemplate(path, PortCounter.BaseCounterTemplate(), PortCounter.PortParents)
  }

  /** The statuses handler `h` may return for `path`. */
  ghost predicate Allows(h: Handler, maps: CounterMaps, path: Path, st: Status)
  {
    match h
    case PortQueuePfcwdStats => Pfcwd.Allows(maps, Pfcwd.PfcwdRequest(path), st)
    case PortQueueCounterStats =>
      QueueCounter.Allows(maps, QueueCounterRequest(path), Pfcwd.TargetFields(path, QueueCounter.QueueCounterLeaf.name, []), st)
    case PortPfcCounterStats =>
      PortCounter.Allows(maps, PfcCounterRequest(path), Pfcwd.TargetFields(path, PfcCounter.PfcCounterLeaf.name, []), st)
    case PortBaseCounterStats =>
      PortCounter.Allows(maps, BaseCounterRequest(path), Pfcwd.TargetFields(path, PortCounter.BaseCounterLeaf.name, []), st)
  }

  /** The entries handler `h` stands for when asked for `path`. */
  ghost predicate Expected(h: Handler, maps: CounterMaps, path: Path, e: Entry)
  {
    match h
    case PortQueuePfcwdStats =>
      Pfcwd.Expected(maps, Pfcwd.PfcwdRequest(path), Pfcwd.TargetFields(path, Pfcwd.PfcwdLeaf.name, []), e)
    case PortQueueCounterStats =>
      QueueCounter.Expected(maps, QueueCounterRequest(path), Pfcwd.TargetFields(path, QueueCounter.QueueCounterLeaf.name, []), e)
    case PortPfcCounterStats =>
      PortCounter.Expected(maps, PfcCounterRequest(path), Pfcwd.TargetFields(path, PfcCounter.PfcCounterLeaf.name, []),
                           PfcCounter.PfcCounterPatterns, e)
    case PortBaseCounterStats =>
      PortCounter.Expected(maps, BaseCounterRequest(path), Pfcwd.TargetFields(path, PortCounter.BaseCounterLeaf.name, []),
                           PortCounter.BaseCounterPatterns, e)
  }

  /** Every entry `h` stands for is among the writes. */
  ghost predicate Covers(h: Handler, maps: CounterMaps, path: Path, added: seq<Entry>)
  {
    forall e :: Expected(h, maps, path, e) ==> e in added
  }

  /**
   * What a handler call did: it only appended entries it stands for,
   * returned a status it allows, and on success wrote all it stands for.
   */
  ghost predicate Outcome(h: Handler, maps: CounterMaps, path: Path, st: Status, before: seq<Entry>, after: seq<Entry>)
  {
    && Extends(after, before)
    && (forall e :: e in Added(after, before) ==> Expected(h, maps, path, e))
    && Allows(h, maps, path, st)
    && (st.Success? ==> Covers(h, maps, path, Added(after, before)))
  }

  /** Calling the handler func a trie node carries. */
  method Dispatch(h: Handler, maps: CounterMaps, path: Path, g2s: seq<Entry>) returns (st: Status, g2s': seq<Entry>)
    ensures Outcome(h, maps, path, st, g2s, g2s')
  {
    match h
    case PortQueuePfcwdStats =>
      st, g2s' := Pfcwd.V2rPortQueuePfcwdStats(maps, path, g2s);
    case PortQueueCounterStats =>
      st, g2s' := QueueCounter.V2rPortQueueCounterStats(maps, path, g2s);
    case PortPfcCounterStats =>
      st, g2s' := PfcCounter.V2rPortPfcCounterStats(maps, path, g2s);
    case PortBaseCounterStats =>
      st, g2s' := PortCounter.V2rPortBaseCounterStats(maps, path, g2s);
  }

  /** The trie after TriePopulate on a new trie. */
  function HandlerTrie(): (ns: seq<PathNode<Handler>>)
    ensures ValidNodes(ns)
  {
    InsertAll([RootNode()], Path2HdlrFuncTbl)
  }

  /** TriePopulate: adds every path of the table, in order, with its handler. */
  method TriePopulate(t: PathTrie<Handler>)
    requires t.Valid()
    modifies t
    ensures t.Valid()
    ensures t.nodes == InsertAll(old(t.nodes), Path2HdlrFuncTbl)
    ensures t.size == old(t.size)
  {
    for i := 0 to |Path2HdlrFuncTbl|
      invariant t.Valid()
      invariant t.nodes == InsertAll(old(t.nodes), Path2HdlrFuncTbl[..i])
      invariant t.size == old(t.size)
    {
      var pf := Path2HdlrFuncTbl[i];
      var _ := t.Add(pf.0, pf.1);
      assert Path2HdlrFuncTbl[..i + 1][..i] == Path2HdlrFuncTbl[..i];
    }
    assert Path2HdlrFuncTbl[..|Path2HdlrFuncTbl|] == Path2HdlrFuncTbl;
  }

  /** init: a new trie, populated from the table. */
  method Init() returns (t: PathTrie<Handler>)
    ensures fresh(t) && t.Valid() && t.nodes == HandlerTrie()
  {
    t := new PathTrie();
    TriePopulate(t);
  }

  /** No path of the table ends on the way to another, and none holds a wildcard. */
  lemma TableSeparated()
    ensures Separated(Path2HdlrFuncTbl)
    ensures forall j, i :: 0 <= j < |Path2HdlrFuncTbl| && 0 <= i < |Path2HdlrFuncTbl[j].0| ==>
      !IsWildcard(Path2HdlrFuncTbl[j].0[i])
  {
  }

  /**
   * Searching the populated trie for one of the table's paths reports
   * exactly one node, and it carries that path's handler.
   */
  lemma TablePathFindsItsHandler(j: nat)
    requires j < |Path2HdlrFuncTbl|
    ensures exists x :: (0 <= x < |HandlerTrie()| && Find(HandlerTrie(), 0, Path2HdlrFuncTbl[j].0) == multiset{x}
                         && HandlerTrie()[x].meta == Some(Path2HdlrFuncTbl[j].1))
  {
    TableSeparated();
    InsertAllFinds([RootNode()], Path2HdlrFuncTbl, j);
  }

  /* The populated trie, node by node, after each path of the table. */

  const PfcwdPath := Path2HdlrFuncTbl[0].0
  const QueueCounterPath := Path2HdlrFuncTbl[1].0
  const PfcCounterPath := Path2HdlrFuncTbl[2].0
  const BaseCounterPath := Path2HdlrFuncTbl[3].0

  /** After the Pfcwd path: a chain of five new nodes below the root; the nodes on the way carry its handler. */
  const Trie1: seq<PathNode<Handler>> := [
    PathNode("", 0, false, map["SONiC_DB" := 1], None, None),
    PathNode("SONiC_DB", 1, false, map["Interfaces" := 2], Some(0), Some(PortQueuePfcwdStats)),
    PathNode("Interfaces", 2, false, map["Port" := 3], Some(1), Some(PortQueuePfcwdStats)),
    PathNode("Port", 3, false, map["Queue" := 4], Some(2), Some(PortQueuePfcwdStats)),
    PathNode("Queue", 4, false, map["Pfcwd" := 5], Some(3), Some(PortQueuePfcwdStats)),
    PathNode("Pfcwd", 5, true, map[], Some(4), Some(PortQueuePfcwdStats))]

  /** After the QueueCounter path: Trie1 with one new leaf, node 6, below Queue. */
  const Trie2: seq<PathNode<Handler>> :=
    Trie1[4 := Trie1[4].(children := Trie1[4].children["QueueCounter" := 6])]
    + [PathNode("QueueCounter", 5, true, map[], Some(4), Some(PortQueueCounterStats))]

  /** After the PfcCounter path: Trie2 with one new leaf, node 7, below Port. */
  const Trie3: seq<PathNode<Handler>> :=
    Trie2[3 := Trie2[3].(children := Trie2[3].children["PfcCounter" := 7])]
    + [PathNode("PfcCounter", 4, true, map[], Some(3), Some(PortPfcCounterStats))]

  /**
   * After the BaseCounter path: Trie3 with one new leaf, node 8, below Port.
   * This is the trie TriePopulate builds.
   */
  const Trie4: seq<PathNode<Handler>> :=
    Trie3[3 := Trie3[3].(children := Trie3[3].children["BaseCounter" := 8])]
    + [PathNode("BaseCounter", 4, true, map[], Some(3), Some(PortBaseCounterStats))]

  /** The first `n` nodes of the Pfcwd chain, before the last of them has a child or is marked. */
  function Chain(n: nat): seq<PathNode<Handler>>
    requires 1 <= n <= |Trie1|
  {
    Trie1[..n][n - 1 := Trie1[n - 1].(children := map[], term := false)]
  }

  /** Each key of the Pfcwd path adds the next node of the chain. */
  lemma ChainGrows(n: nat)
    requires 1 <= n < |Trie1| && ValidNodes(Chain(n))
    ensures PfcwdPath[n - 1] !in Chain(n)[n - 1].children
    ensures AddChild(Chain(n), n - 1, PfcwdPath[n - 1], PortQueuePfcwdStats) == Chain(n + 1)
  {
  }

  /** Inserting the rest of the Pfcwd path from the end of the chain completes Trie1. */
  lemma {:induction false} InsertChain(n: nat)
    requires 1 <= n <= |Trie1| && ValidNodes(Chain(n))
    ensures Insert(Chain(n), n - 1, PfcwdPath[n - 1..], PortQueuePfcwdStats).0 == Trie1
    decreases |Trie1| - n
  {
    var h := PortQueuePfcwdStats;
    if n < |Trie1| {
      ChainGrows(n);
      assert PfcwdPath[n - 1..][0] == PfcwdPath[n - 1] && PfcwdPath[n - 1..][1..] == PfcwdPath[n..];
      InsertChain(n + 1);
    } else {
      assert PfcwdPath[n - 1..] == [];
      assert Chain(n)[n - 1 := Chain(n)[n - 1].(term := true, meta := Some(h))] == Trie1;
    }
  }

  lemma PopulatePfcwd()
    ensures Insert([RootNode()], 0, PfcwdPath, PortQueuePfcwdStats).0 == Trie1
  {
    assert Chain(1) == [RootNode()];
    assert PfcwdPath[0..] == PfcwdPath;
    InsertChain(1);
  }

  /** In Trie1 the shared keys lead to Port (node 3) and Queue (node 4). */
  lemma Trie1Walks()
    requires ValidNodes(Trie1)
    ensures Follow(Trie1, 0, ["SONiC_DB", "Interfaces", "Port"]) == Some(3)
    ensures Follow(Trie1, 0, ["SONiC_DB", "Interfaces", "Port", "Queue"]) == Some(4)
  {
    assert Follow(Trie1, 3, ["Queue"]) == Follow(Trie1, 4, []) == Some(4);
    assert Follow(Trie1, 3, []) == Some(3);
    assert Follow(Trie1, 2, ["Port"]) == Some(3);
    assert Follow(Trie1, 2, ["Port", "Queue"]) == Some(4);
    assert Follow(Trie1, 1, ["Interfaces", "Port"]) == Some(3);
    assert Follow(Trie1, 1, ["Interfaces", "Port", "Queue"]) == Some(4);
  }

  /** The QueueCounter path walks the first four nodes of Trie1 and adds one leaf. */
  lemma PopulateQueueCounter()
    requires ValidNodes(Trie1)
    ensures Insert(Trie1, 0, QueueCounterPath, PortQueueCounterStats).0 == Trie2
  {
    var lit := ["SONiC_DB", "Interfaces", "Port", "Queue"];
    Trie1Walks();
    assert QueueCounterPath == lit + ["QueueCounter"];
    InsertAlong(Trie1, 0, lit, ["QueueCounter"], PortQueueCounterStats);
    AddLeaf(Trie1, 4, "QueueCounter", PortQueueCounterStats);
  }

  lemma Trie2Port()
    ensures |Trie2| == 7 && Trie2[3] == Trie1[3]
  {
  }

  lemma Trie3Port()
    ensures |Trie3| == 8 && Trie3[3] == Trie1[3].(children := map["Queue" := 4, "PfcCounter" := 7])
  {
    Trie2Port();
  }

  /** In any trie grown from Trie1, an insert below Port walks the three shared nodes first. */
  lemma PortWalk(t: seq<PathNode<Handler>>, leaf: string, h: Handler)
    requires ValidNodes(Trie1) && ValidNodes(t) && Grows(Trie1, t)
    ensures Insert(t, 0, ["SONiC_DB", "Interfaces", "Port", leaf], h) == Insert(t, 3, [leaf], h)
  {
    var lit := ["SONiC_DB", "Interfaces", "Port"];
    assert ["SONiC_DB", "Interfaces", "Port", leaf] == lit + [leaf];
    Trie1Walks();
    FollowGrows(Trie1, t, 0, lit);
    InsertAlong(t, 0, lit, [leaf], h);
  }

  /** The PfcCounter path walks to Port and adds one leaf. */
  lemma PopulatePfcCounter()
    requires ValidNodes(Trie1) && ValidNodes(Trie2) && Grows(Trie1, Trie2)
    ensures Insert(Trie2, 0, PfcCounterPath, PortPfcCounterStats).0 == Trie3
  {
    PortWalk(Trie2, "PfcCounter", PortPfcCounterStats);
    Trie2Port();
    AddLeaf(Trie2, 3, "PfcCounter", PortPfcCounterStats);
  }

  /** The BaseCounter path walks to Port and adds one leaf. */
  lemma PopulateBaseCounter()
    requires ValidNodes(Trie1) && ValidNodes(Trie3) && Grows(Trie1, Trie3)
    ensures Insert(Trie3, 0, BaseCounterPath, PortBaseCounterStats).0 == Trie4
  {
    PortWalk(Trie3, "BaseCounter", PortBaseCounterStats);
    Trie3Port();
    AddLeaf(Trie3, 3, "BaseCounter", PortBaseCounterStats);
  }

  /** The table's first `n` paths, inserted in order into a new trie. */
  function Populated(n: nat): seq<PathNode<Handler>>
    requires n <= |Path2HdlrFuncTbl|
  {
    InsertAll([RootNode()], Path2HdlrFuncTbl[..n])
  }

  /** One more path of the table is one more insert. */
  lemma PopulatedStep(n: nat)
    requires n < |Path2HdlrFuncTbl|
    ensures Populated(n + 1) == Insert(Populated(n), 0, Path2HdlrFuncTbl[n].0, Path2HdlrFuncTbl[n].1).0
    ensures Grows(Populated(n), Populated(n + 1))
  {
    assert Path2HdlrFuncTbl[..n + 1][..n] == Path2HdlrFuncTbl[..n];
  }

  lemma Populated2()
    ensures Populated(1) == Trie1 && Populated(2) == Trie2 && Grows(Trie1, Trie2)
    ensures ValidNodes(Trie1) && ValidNodes(Trie2)
  {
    assert Path2HdlrFuncTbl[..0] == [];
    PopulatedStep(0);
    PopulatePfcwd();
    PopulatedStep(1);
    PopulateQueueCounter();
  }

  lemma Populated3()
    ensures Populated(3) == Trie3 && Grows(Trie1, Trie3)
    ensures ValidNodes(Trie1) && ValidNodes(Trie3)
  {
    Populated2();
    PopulatedStep(2);
    PopulatePfcCounter();
    assert Grows(Trie2, Trie3);
  }

  /** TriePopulate builds Trie4. */
  lemma HandlerTrieIsTrie4()
    ensures HandlerTrie() == Trie4
  {
    assert Path2HdlrFuncTbl[..4] == Path2HdlrFuncTbl;
    assert HandlerTrie() == Populated(4);
    Populated3();
    PopulatedStep(3);
    PopulateBaseCounter();
  }

  /**
   * The shape of the handler trie: a chain SONiC_DB, Interfaces, Port below
   * the root; Port has the children Queue, PfcCounter and BaseCounter, Queue
   * has Pfcwd and QueueCounter, and those four are the terminating nodes 5 to 8.
   */
  ghost predicate PortShape(ns: seq<PathNode<Handler>>)
  {
    && ValidNodes(ns) && |ns| == 9
    && !ns[0].term && ns[0].children == map["SONiC_DB" := 1]
    && !ns[1].term && ns[1].children == map["Interfaces" := 2]
    && !ns[2].term && ns[2].children == map["Port" := 3]
    && !ns[3].term && ns[3].children == map["Queue" := 4, "PfcCounter" := 7, "BaseCounter" := 8]
    && !ns[4].term && ns[4].children == map["Pfcwd" := 5, "QueueCounter" := 6]
    && ns[5].term && ns[6].term && ns[7].term && ns[8].term
  }

  lemma Trie2Nodes()
    ensures |Trie2| == 7 && Trie2[..4] == Trie1[..4] && Trie2[5] == Trie1[5]
    ensures Trie2[4] == Trie1[4].(children := map["Pfcwd" := 5, "QueueCounter" := 6])
    ensures Trie2[6] == PathNode("QueueCounter", 5, true, map[], Some(4), Some(PortQueueCounterStats))
  {
    assert Trie1[4].children["QueueCounter" := 6] == map["Pfcwd" := 5, "QueueCounter" := 6];
  }

  lemma Trie4Nodes()
    ensures |Trie4| == 9 && Trie4[..3] == Trie1[..3] && Trie4[5] == Trie1[5] && Trie4[4] == Trie2[4] && Trie4[6] == Trie2[6]
    ensures Trie4[3] == Trie1[3].(children := map["Queue" := 4, "PfcCounter" := 7, "BaseCounter" := 8])
    ensures Trie4[7] == PathNode("PfcCounter", 4, true, map[], Some(3), Some(PortPfcCounterStats))
    ensures Trie4[8] == PathNode("BaseCounter", 4, true, map[], Some(3), Some(PortBaseCounterStats))
  {
    Trie2Nodes();
    Trie3Port();
    assert Trie3[3].children["BaseCounter" := 8] == map["Queue" := 4, "PfcCounter" := 7, "BaseCounter" := 8];
  }

  lemma Trie4Shape()
    ensures PortShape(Trie4)
    ensures Trie4[5].meta == Some(PortQueuePfcwdStats) && Trie4[6].meta == Some(PortQueueCounterStats)
    ensures Trie4[7].meta == Some(PortPfcCounterStats) && Trie4[8].meta == Some(PortBaseCounterStats)
  {
    Trie4Nodes();
    Trie2Nodes();
    assert Trie4[0] == Trie1[0] && Trie4[1] == Trie1[1] && Trie4[2] == Trie1[2];
    HandlerTrieIsTrie4();
  }

  /** The literal keys SONiC_DB, Interfaces and Port walk down the chain without passing a terminating node. */
  lemma PortShapeWalk(ns: seq<PathNode<Handler>>)
    requires PortShape(ns)
    ensures OpenPath(ns, 0, ["SONiC_DB", "Interfaces"]) && Follow(ns, 0, ["SONiC_DB", "Interfaces"]) == Some(2)
    ensures OpenPath(ns, 0, ["SONiC_DB", "Interfaces", "Port"]) && Follow(ns, 0, ["SONiC_DB", "Interfaces", "Port"]) == Some(3)
  {
    assert OpenPath(ns, 3, []) && Follow(ns, 3, []) == Some(3);
    assert OpenPath(ns, 2, ["Port"]) && Follow(ns, 2, ["Port"]) == Some(3);
    assert OpenPath(ns, 1, ["Interfaces"]) && Follow(ns, 1, ["Interfaces"]) == Some(2);
    assert OpenPath(ns, 1, ["Interfaces", "Port"]) && Follow(ns, 1, ["Interfaces", "Port"]) == Some(3);
  }

  /** The sum over a node's two children. */
  lemma SumFindTwo(ns: seq<PathNode<Handler>>, n: nat, keys: seq<string>, a: string, b: string)
    requires ValidNodes(ns) && n < |ns| && a != b && ns[n].children.Keys == {a, b}
    ensures ChildOk(ns, n, a) && ChildOk(ns, n, b)
    ensures SumFind(ns, n, {a, b}, keys) == Find(ns, ns[n].children[a], keys) + Find(ns, ns[n].children[b], keys)
  {
    assert {a, b} - {a} - {b} == {};
    SumFindPick(ns, n, {a, b}, keys, a);
    SumFindPick(ns, n, {a, b} - {a}, keys, b);
  }

  /** The sum over a node's three children. */
  lemma SumFindThree(ns: seq<PathNode<Handler>>, n: nat, keys: seq<string>, a: string, b: string, c: string)
    requires ValidNodes(ns) && n < |ns| && a != b && a != c && b != c && ns[n].children.Keys == {a, b, c}
    ensures ChildOk(ns, n, a) && ChildOk(ns, n, b) && ChildOk(ns, n, c)
    ensures SumFind(ns, n, {a, b, c}, keys) ==
      Find(ns, ns[n].children[a], keys) + Find(ns, ns[n].children[b], keys) + Find(ns, ns[n].children[c], keys)
  {
    assert {a, b, c} - {a} - {b} - {c} == {};
    SumFindPick(ns, n, {a, b, c}, keys, a);
    SumFindPick(ns, n, {a, b, c} - {a}, keys, b);
    SumFindPick(ns, n, {a, b, c} - {a} - {b}, keys, c);
  }

  /** A search that starts with `...` at Port, and does not name a child of Port next, sums up over Port's three children. */
  lemma EllipsisAtPort(ns: seq<PathNode<Handler>>, keys: seq<string>)
    requires PortShape(ns) && |keys| > 0 && keys[0] == "..."
    requires |keys| > 1 ==> keys[1] !in ns[3].children
    ensures Find(ns, 3, keys) == Find(ns, 4, keys) + Find(ns, 7, keys) + Find(ns, 8, keys)
  {
    assert ns[3].children.Keys == {"Queue", "PfcCounter", "BaseCounter"};
    SumFindThree(ns, 3, keys, "Queue", "PfcCounter", "BaseCounter");
  }

  /** `...` below Queue reports its two terminating children. */
  lemma EllipsisBelowQueue(ns: seq<PathNode<Handler>>)
    requires PortShape(ns)
    ensures Find(ns, 4, ["..."]) == multiset{5, 6}
  {
    var e := ["..."];
    assert ns[4].children.Keys == {"Pfcwd", "QueueCounter"};
    assert Find(ns, 5, e) == multiset{5} && Find(ns, 6, e) == multiset{6};
    SumFindTwo(ns, 4, e, "Pfcwd", "QueueCounter");
  }

  /** `...` below Port reports the four terminating nodes, each once. */
  lemma EllipsisBelowPort(ns: seq<PathNode<Handler>>)
    requires PortShape(ns)
    ensures Find(ns, 3, ["..."]) == multiset{5, 6, 7, 8}
  {
    var e := ["..."];
    assert Find(ns, 7, e) == multiset{7} && Find(ns, 8, e) == multiset{8};
    EllipsisAtPort(ns, e);
    EllipsisBelowQueue(ns);
  }

  /** `...` followed by Pfcwd, below Queue, reports the Pfcwd child only. */
  lemma EllipsisPfcwdBelowQueue(ns: seq<PathNode<Handler>>)
    requires PortShape(ns)
    ensures Find(ns, 4, ["...", "Pfcwd"]) == multiset{5}
  {
    var e := ["...", "Pfcwd"];
    assert ns[4].children.Keys == {"Pfcwd", "QueueCounter"};
    assert e[2..] == [];
    assert Find(ns, 5, e) == multiset{} && Find(ns, 6, e) == multiset{};
    SumFindTwo(ns, 4, e, "Pfcwd", "QueueCounter");
  }

  /** `...` followed by Pfcwd, below Port, reports the Pfcwd node only. */
  lemma EllipsisPfcwdBelowPort(ns: seq<PathNode<Handler>>)
    requires PortShape(ns)
    ensures Find(ns, 3, ["...", "Pfcwd"]) == multiset{5}
  {
    var e := ["...", "Pfcwd"];
    assert Find(ns, 7, e) == multiset{} && Find(ns, 8, e) == multiset{};
    EllipsisAtPort(ns, e);
    EllipsisPfcwdBelowQueue(ns);
  }

  /** `...` followed by Pfcwd, below Interfaces, reports the Pfcwd node only. */
  lemma EllipsisPfcwdBelowInterfaces(ns: seq<PathNode<Handler>>)
    requires PortShape(ns)
    ensures Find(ns, 2, ["...", "Pfcwd"]) == multiset{5}
  {
    var e := ["...", "Pfcwd"];
    assert ns[2].children.Keys - {"Port"} == {};
    EllipsisPfcwdBelowPort(ns);
    SumFindPick(ns, 2, ns[2].children.Keys, e, "Port");
  }

  /** In a trie of this shape, `SONiC_DB/Interfaces/Port/...` reports nodes 5 to 8. */
  lemma PortEllipsisInShape(ns: seq<PathNode<Handler>>)
    requires PortShape(ns)
    ensures Find(ns, 0, ["SONiC_DB", "Interfaces", "Port", "..."]) == multiset{5, 6, 7, 8}
  {
    var lit := ["SONiC_DB", "Interfaces", "Port"];
    assert lit + ["..."] == ["SONiC_DB", "Interfaces", "Port", "..."];
    PortShapeWalk(ns);
    FindLiteralPrefix(ns, 0, lit, ["..."]);
    EllipsisBelowPort(ns);
  }

  /** In a trie of this shape, `SONiC_DB/Interfaces/.../Pfcwd` reports node 5 only. */
  lemma EllipsisPfcwdInShape(ns: seq<PathNode<Handler>>)
    requires PortShape(ns)
    ensures Find(ns, 0, ["SONiC_DB", "Interfaces", "...", "Pfcwd"]) == multiset{5}
  {
    var lit := ["SONiC_DB", "Interfaces"];
    assert lit + ["...", "Pfcwd"] == ["SONiC_DB", "Interfaces", "...", "Pfcwd"];
    PortShapeWalk(ns);
    FindLiteralPrefix(ns, 0, lit, ["...", "Pfcwd"]);
    EllipsisPfcwdBelowInterfaces(ns);
  }

  /** Everything under a port, `Interfaces/Port[...]/...`, reaches each of the four handlers once. */
  lemma PortEllipsisFindsEveryHandler()
    ensures Find(HandlerTrie(), 0, ["SONiC_DB", "Interfaces", "Port", "..."]) == multiset{5, 6, 7, 8}
    ensures |HandlerTrie()| == 9
    ensures HandlerTrie()[5].meta == Some(PortQueuePfcwdStats) && HandlerTrie()[6].meta == Some(PortQueueCounterStats)
    ensures HandlerTrie()[7].meta == Some(PortPfcCounterStats) && HandlerTrie()[8].meta == Some(PortBaseCounterStats)
  {
    HandlerTrieIsTrie4();
    Trie4Shape();
    PortEllipsisInShape(Trie4);
  }

  /** `Interfaces/.../Pfcwd` reaches the Pfcwd handler only, once. */
  lemma EllipsisPfcwdFindsPfcwdHandler()
    ensures Find(HandlerTrie(), 0, ["SONiC_DB", "Interfaces", "...", "Pfcwd"]) == multiset{5}
    ensures |HandlerTrie()| == 9 && HandlerTrie()[5].meta == Some(PortQueuePfcwdStats)
  {
    HandlerTrieIsTrie4();
    Trie4Shape();
    EllipsisPfcwdInShape(Trie4);
  }

  /* The state of the node loop of searchPathTrie. */

  /** Node `n` carries a handler that stands for `e`. */
  ghost predicate NodeExpects(ns: seq<PathNode<Handler>>, n: nat, maps: CounterMaps, path: Path, e: Entry)
  {
    n < |ns| && ns[n].meta.Some? && Expected(ns[n].meta.value, maps, path, e)
  }

  /** Node `n` carries a handler that allows success and whose entries are all in `added`. */
  ghost predicate NodeDone(ns: seq<PathNode<Handler>>, n: nat, maps: CounterMaps, path: Path, added: seq<Entry>)
  {
    n < |ns| && ns[n].meta.Some? && Allows(ns[n].meta.value, maps, path, Success) && Covers(ns[n].meta.value, maps, path, added)
  }

  /** Node `n` is where a search could stop with `st`: it carries no handler, or one that allows `st`. */
  ghost predicate NodeFails(ns: seq<PathNode<Handler>>, n: nat, maps: CounterMaps, path: Path, st: Status)
  {
    n < |ns| && !st.Success? &&
    match ns[n].meta
    case None => st.Crash?
    case Some(h) => Allows(h, maps, path, st)
  }

  /** The writes between `before` and `after` all stand for entries of handlers at nodes of `done`. */
  ghost predicate WritesFrom(ns: seq<PathNode<Handler>>, done: seq<nat>, maps: CounterMaps, path: Path,
                             before: seq<Entry>, after: seq<Entry>)
  {
    Extends(after, before) &&
    forall e :: e in Added(after, before) ==> exists n :: n in done && NodeExpects(ns, n, maps, path, e)
  }

  /** The nodes of `done` all ran to success, with their entries among the writes between `before` and `after`. */
  ghost predicate NodesDone(ns: seq<PathNode<Handler>>, done: seq<nat>, maps: CounterMaps, path: Path,
                            before: seq<Entry>, after: seq<Entry>)
    requires Extends(after, before)
  {
    forall n :: n in done ==> NodeDone(ns, n, maps, path, Added(after, before))
  }

  /**
   * What searchPathTrie promises: the writes are entries that handlers of
   * reported nodes stand for; success means every reported node's handler
   * succeeded and wrote all it stands for; a failure is the status of one
   * reported node; and a search that reports nothing succeeds with no
   * writes.
   */
  ghost predicate SearchOutcome(ns: seq<PathNode<Handler>>, keys: seq<string>, maps: CounterMaps, path: Path,
                                st: Status, before: seq<Entry>, after: seq<Entry>)
    requires ValidNodes(ns)
  {
    && Extends(after, before)
    && (forall e :: e in Added(after, before) ==> Reported(ns, keys, maps, path, e))
    && (st.Success? ==> AllDone(ns, keys, maps, path, Added(after, before)))
    && (!st.Success? ==> SomeFails(ns, keys, maps, path, st))
    && (Find(ns, 0, keys) == multiset{} ==> st == Success && after == before)
  }

  /** Some node the search for `keys` reports carries a handler that stands for `e`. */
  ghost predicate Reported(ns: seq<PathNode<Handler>>, keys: seq<string>, maps: CounterMaps, path: Path, e: Entry)
    requires ValidNodes(ns)
  {
    exists n :: n in Find(ns, 0, keys) && NodeExpects(ns, n, maps, path, e)
  }

  /** Every node the search for `keys` reports has a handler that succeeds with its entries in `added`. */
  ghost predicate AllDone(ns: seq<PathNode<Handler>>, keys: seq<string>, maps: CounterMaps, path: Path, added: seq<Entry>)
    requires ValidNodes(ns)
  {
    forall n :: n in Find(ns, 0, keys) ==> NodeDone(ns, n, maps, path, added)
  }

  /** Some node the search for `keys` reports is one where the search may stop with `st`. */
  ghost predicate SomeFails(ns: seq<PathNode<Handler>>, keys: seq<string>, maps: CounterMaps, path: Path, st: Status)
    requires ValidNodes(ns)
  {
    exists n :: n in Find(ns, 0, keys) && NodeFails(ns, n, maps, path, st)
  }

  /** Finished searches stay finished when more is written. */
  lemma AllDoneGrows(ns: seq<PathNode<Handler>>, keys: seq<string>, maps: CounterMaps, path: Path,
                     a: seq<Entry>, b: seq<Entry>)
    requires ValidNodes(ns) && AllDone(ns, keys, maps, path, a) && forall e :: e in a ==> e in b
    ensures AllDone(ns, keys, maps, path, b)
  {
    forall n | n in Find(ns, 0, keys) ensures NodeDone(ns, n, maps, path, b) {
      CoversGrows(ns, n, maps, path, a, b);
    }
  }

  /**
   * searchPathTrie: runs the handler of every node the search for `keys`
   * reports, in the order findPathNode reports them, and stops at the first
   * failure.  A node without a handler fails the type assertion of the
   * source and is a crash.
   */
  method SearchPathTrie(t: PathTrie<Handler>, maps: CounterMaps, keys: seq<string>, path: Path, g2s: seq<Entry>)
    returns (st: Status, g2s': seq<Entry>)
    requires t.Valid()
    ensures SearchOutcome(t.nodes, keys, maps, path, st, g2s, g2s')
  {
    var ns := t.nodes;
    var nodes := FindPathNode(ns, 0, keys, []);
    FindTerminating(ns, 0, keys);
    forall n | n in nodes ensures n < |ns| {
      assert n in multiset(nodes);
    }
    st, g2s' := Success, g2s;
    ghost var failed: nat := 0;
    var i := 0;
    while i < |nodes|
      invariant 0 <= i <= |nodes|
      invariant forall n :: n in nodes ==> n < |ns|
      invariant st == Success
      invariant i == 0 ==> g2s' == g2s
      invariant WritesFrom(ns, nodes[..i], maps, path, g2s, g2s')
      invariant NodesDone(ns, nodes[..i], maps, path, g2s, g2s')
    {
      var node := nodes[i];
      assert node in nodes;
      match ns[node].meta
      case None =>
        st := Crash("interface conversion: interface is nil, not handlerFunc");
        WritesFromGrows(ns, nodes, i, maps, path, g2s, g2s');
        failed := node;
        break;
      case Some(h) =>
        var s, after := Dispatch(h, maps, path, g2s');
        NodeStep(ns, nodes, i, h, maps, path, s, g2s, g2s', after);
        g2s' := after;
        if !s.Success? {
          st := s;
          WritesFromGrows(ns, nodes, i + 1, maps, path, g2s, g2s');
          failed := node;
          break;
        }
        i := i + 1;
    }
    if st.Success? {
      assert nodes[..i] == nodes;
    }
    SearchClose(ns, keys, nodes, failed, maps, path, st, g2s, g2s');
  }

  /** The node loop's final state, read back in terms of the search's reports. */
  lemma SearchClose(ns: seq<PathNode<Handler>>, keys: seq<string>, nodes: seq<nat>, failed: nat, maps: CounterMaps,
                    path: Path, st: Status, before: seq<Entry>, after: seq<Entry>)
    requires ValidNodes(ns) && multiset(nodes) == Find(ns, 0, keys)
    requires WritesFrom(ns, nodes, maps, path, before, after)
    requires st.Success? ==> NodesDone(ns, nodes, maps, path, before, after)
    requires !st.Success? ==> failed in nodes && NodeFails(ns, failed, maps, path, st)
    requires nodes == [] ==> st == Success && after == before
    ensures SearchOutcome(ns, keys, maps, path, st, before, after)
  {
    forall e | e in Added(after, before) ensures Reported(ns, keys, maps, path, e) {
      var n :| n in nodes && NodeExpects(ns, n, maps, path, e);
      assert n in multiset(nodes);
    }
    if !st.Success? {
      assert failed in multiset(nodes);
    }
    if Find(ns, 0, keys) == multiset{} {
      assert |nodes| == 0;
    }
  }

  /** The writes of the prefix before the failing node also come from the nodes of the whole list. */
  lemma WritesFromGrows(ns: seq<PathNode<Handler>>, nodes: seq<nat>, i: nat, maps: CounterMaps, path: Path,
                        before: seq<Entry>, after: seq<Entry>)
    requires i <= |nodes| && WritesFrom(ns, nodes[..i], maps, path, before, after)
    ensures WritesFrom(ns, nodes, maps, path, before, after)
  {
    forall e | e in Added(after, before) ensures exists n :: n in nodes && NodeExpects(ns, n, maps, path, e) {
      var n :| n in nodes[..i] && NodeExpects(ns, n, maps, path, e);
    }
  }

  /** One turn of the node loop: the handler's outcome extends the loop's record of writes and finished nodes. */
  lemma NodeStep(ns: seq<PathNode<Handler>>, nodes: seq<nat>, i: nat, h: Handler, maps: CounterMaps, path: Path,
                 s: Status, g2s: seq<Entry>, mid: seq<Entry>, after: seq<Entry>)
    requires i < |nodes| && nodes[i] < |ns| && ns[nodes[i]].meta == Some(h)
    requires WritesFrom(ns, nodes[..i], maps, path, g2s, mid)
    requires NodesDone(ns, nodes[..i], maps, path, g2s, mid)
    requires Outcome(h, maps, path, s, mid, after)
    ensures WritesFrom(ns, nodes[..i + 1], maps, path, g2s, after)
    ensures s.Success? ==> NodesDone(ns, nodes[..i + 1], maps, path, g2s, after)
    ensures !s.Success? ==> NodeFails(ns, nodes[i], maps, path, s)
  {
    WritesStep(ns, nodes, i, maps, path, g2s, mid, after);
    if s.Success? {
      DoneStep(ns, nodes, i, maps, path, g2s, mid, after);
    }
  }

  lemma WritesStep(ns: seq<PathNode<Handler>>, nodes: seq<nat>, i: nat, maps: CounterMaps, path: Path,
                   g2s: seq<Entry>, mid: seq<Entry>, after: seq<Entry>)
    requires i < |nodes|
    requires WritesFrom(ns, nodes[..i], maps, path, g2s, mid)
    requires Extends(after, mid) && forall e :: e in Added(after, mid) ==> NodeExpects(ns, nodes[i], maps, path, e)
    ensures WritesFrom(ns, nodes[..i + 1], maps, path, g2s, after)
  {
    ExtendsTrans(g2s, mid, after);
    var done := nodes[..i + 1];
    assert done == nodes[..i] + [nodes[i]];
    forall e | e in Added(after, g2s) ensures exists n :: n in done && NodeExpects(ns, n, maps, path, e) {
      if e in Added(mid, g2s) {
        var n :| n in nodes[..i] && NodeExpects(ns, n, maps, path, e);
        assert n in done;
      } else {
        assert NodeExpects(ns, nodes[i], maps, path, e);
      }
    }
  }

  lemma DoneStep(ns: seq<PathNode<Handler>>, nodes: seq<nat>, i: nat, maps: CounterMaps, path: Path,
                 g2s: seq<Entry>, mid: seq<Entry>, after: seq<Entry>)
    requires i < |nodes| && Extends(mid, g2s) && Extends(after, mid)
    requires NodesDone(ns, nodes[..i], maps, path, g2s, mid)
    requires NodeDone(ns, nodes[i], maps, path, Added(after, mid))
    ensures Extends(after, g2s) && NodesDone(ns, nodes[..i + 1], maps, path, g2s, after)
  {
    ExtendsTrans(g2s, mid, after);
    var done := nodes[..i + 1];
    assert done == nodes[..i] + [nodes[i]];
    forall n | n in done ensures NodeDone(ns, n, maps, path, Added(after, g2s)) {
      if n in nodes[..i] {
        CoversGrows(ns, n, maps, path, Added(mid, g2s), Added(after, g2s));
      } else {
        CoversGrows(ns, n, maps, path, Added(after, mid), Added(after, g2s));
      }
    }
  }

  lemma CoversGrows(ns: seq<PathNode<Handler>>, n: nat, maps: CounterMaps, path: Path, a: seq<Entry>, b: seq<Entry>)
    requires NodeDone(ns, n, maps, path, a) && forall e :: e in a ==> e in b
    ensures NodeDone(ns, n, maps, path, b)
  {
  }
}
