/**
 * The queue-counter handler (new_sonic_data_client/handler_queue_counter.go):
 * a request for Interfaces/Port[name=<port>]/Queue[name=<queue>]/QueueCounter
 * reads four SAI queue counters of each queue it names.  Ports are checked
 * against the per-port queue map, and both `*` levels recurse once per
 * port or queue, the first failure ending the loop.
 */
module VdbHandlerQueueCounter {
  import opened Wrappers
  import opened GoStrings
  import opened GoMaps
  import opened Gnmi
  import opened VdbTypes
  import opened VdbMapInit
  import P = VdbHandlerPfcwd

  /** GetTmpl_PortQueueCounterStats: Interfaces/Port[name=*]/Queue[name=*]/QueueCounter. */
  function QueueCounterTemplate(): (t: Path)
    ensures |t.elem| == 4 && P.RequestedPort(t) == "*" && P.RequestedQueue(t) == "*"
  {
    Path("", "", [PathElem("Interfaces", map[]), PathElem("Port", map["name" := "*"]),
                  PathElem("Queue", map["name" := "*"]), PathElem("QueueCounter", map[])])
  }

  const QueueCounterLeaf: P.LeafConfig := P.LeafConfig(3, "QueueCounter")

  /** The counters read for every queue, in this order. */
  const QueueFields: seq<string> := [
    "SAI_QUEUE_STAT_PACKETS", "SAI_QUEUE_STAT_BYTES",
    "SAI_QUEUE_STAT_DROPPED_PACKETS", "SAI_QUEUE_STAT_DROPPED_BYTES"]

  /** The SONiC port a request path names. */
  function PortOf(maps: CounterMaps, path: Path): string
    requires |path.elem| >= 3
  {
    Resolve(maps, P.RequestedPort(path))
  }

  /** The `port:index` key a concrete queue request names. */
  function QueueKeyOf(maps: CounterMaps, path: Path): string
    requires |path.elem| >= 3
  {
    PortOf(maps, path) + CountersSeparator() + TrimPrefix(P.RequestedQueue(path), "Queue")
  }

  /**
   * The outcome for a concrete port and queue: the queue must be named
   * `Queue<n>`, `port:n` must be one of the port's queues, and no field
   * list may be given.
   */
  function LeafStatus(maps: CounterMaps, path: Path, fields: seq<string>): Status
    requires |path.elem| >= 3 && PortOf(maps, path) in maps.queueName
  {
    var queName := P.RequestedQueue(path);
    if !HasPrefix(queName, "Queue") then Failure(queName + " not a vaild queue name in request. Use format 'Queue<Num>'")
    else if QueueKeyOf(maps, path) !in maps.queueName[PortOf(maps, path)] then
      Failure(QueueKeyOf(maps, path) + " not a valid queue name in redis db.")
    else if |fields| > 0 then Failure("Subscribe to particular field of path not supported")
    else Success
  }

  /** The write for a concrete port and queue: the queue's four counters. */
  function LeafEntries(maps: CounterMaps, path: Path, fields: seq<string>): (r: seq<Entry>)
    requires |path.elem| >= 3 && PortOf(maps, path) in maps.queueName
    ensures r != [] <==> LeafStatus(maps, path, fields) == Success
    ensures forall e :: e in r ==> e.path == path && |e.tablePaths| == 1 && e.tablePaths[0].fields == QueueFields
  {
    if LeafStatus(maps, path, fields) == Success then
      [Entry(path, [P.CountersTable(maps.queueName[PortOf(maps, path)][QueueKeyOf(maps, path)], QueueFields)])]
    else []
  }

  /** The outcome for queue `q` of a `*` queue: a key without an index panics. */
  function QueueStatus(maps: CounterMaps, path: Path, fields: seq<string>, q: string): Status
    requires |path.elem| >= 3 && PortOf(maps, path) in maps.queueName
  {
    if !P.HasQueueIndex(q) then Crash("index out of range")
    else LeafStatus(maps, P.QueueCopy(path, q), fields)
  }

  /** Pop succeeds on a path naming one port. */
  predicate ConcreteOk(maps: CounterMaps, path: Path, fields: seq<string>)
    requires |path.elem| >= 3
  {
    && PortOf(maps, path) in maps.queueName
    && if P.RequestedQueue(path) == "*" then
         forall q :: q in maps.queueName[PortOf(maps, path)] ==> QueueStatus(maps, path, fields, q) == Success
       else LeafStatus(maps, path, fields) == Success
  }

  /**
   * The statuses pop may end with on a path naming one port: an unknown
   * port fails; a `*` queue succeeds exactly when every queue does and
   * otherwise ends with the status of one of them.
   */
  ghost predicate ConcreteAllows(maps: CounterMaps, path: Path, fields: seq<string>, st: Status)
    requires |path.elem| >= 3
  {
    var name := PortOf(maps, path);
    if name !in maps.queueName then st == Failure(name + " not a valid sonic interface. Vendor alias is " + P.RequestedPort(path))
    else if P.RequestedQueue(path) == "*" then
      && (st.Success? <==> ConcreteOk(maps, path, fields))
      && (!st.Success? ==> exists q :: q in maps.queueName[name] && st == QueueStatus(maps, path, fields, q))
    else st == LeafStatus(maps, path, fields)
  }

  /** Port `p` of a `*` port succeeds. */
  predicate PortOk(maps: CounterMaps, path: Path, fields: seq<string>, p: string)
    requires |path.elem| >= 3
  {
    PortAlias(maps, p) != "*" && ConcreteOk(maps, P.PortCopy(maps, path, p), fields)
  }

  /** The statuses port `p` of a `*` port may end with; an alias `*` recurses without end. */
  ghost predicate PortAllows(maps: CounterMaps, path: Path, fields: seq<string>, p: string, st: Status)
    requires |path.elem| >= 3
  {
    if PortAlias(maps, p) == "*" then st == Crash("stack overflow")
    else ConcreteAllows(maps, P.PortCopy(maps, path, p), fields, st)
  }

  /** The writes a path naming one port may make. */
  ghost predicate ConcreteEntry(maps: CounterMaps, path: Path, fields: seq<string>, e: Entry)
    requires |path.elem| >= 3
  {
    var name := PortOf(maps, path);
    && name in maps.queueName
    && if P.RequestedQueue(path) == "*" then
         exists q :: q in maps.queueName[name] && P.HasQueueIndex(q) && e in LeafEntries(maps, P.QueueCopy(path, q), fields)
       else e in LeafEntries(maps, path, fields)
  }

  /** The writes pop may make for `path`. */
  ghost predicate Expected(maps: CounterMaps, path: Path, fields: seq<string>, e: Entry)
    requires |path.elem| >= 3
  {
    if P.RequestedPort(path) == "*" then
      exists p :: p in maps.portName && PortAlias(maps, p) != "*" && ConcreteEntry(maps, P.PortCopy(maps, path, p), fields, e)
    else ConcreteEntry(maps, path, fields, e)
  }

  ghost predicate WritesExpected(maps: CounterMaps, path: Path, fields: seq<string>, before: seq<Entry>, after: seq<Entry>)
    requires |path.elem| >= 3
  {
    Extends(after, before) && forall e :: e in Added(after, before) ==> Expected(maps, path, fields, e)
  }

  lemma WritesExpectedTrans(maps: CounterMaps, path: Path, fields: seq<string>, a: seq<Entry>, b: seq<Entry>, c: seq<Entry>)
    requires |path.elem| >= 3
    requires WritesExpected(maps, path, fields, a, b) && WritesExpected(maps, path, fields, b, c)
    ensures WritesExpected(maps, path, fields, a, c)
    ensures forall e :: e in Added(b, a) ==> e in Added(c, a)
  {
    ExtendsTrans(a, b, c);
  }

  /**
   * The outcome of pop: only expected entries are written; the status is
   * one the path allows (for a `*` port: success exactly when every port
   * succeeds, else a status one of them allows); on success every expected
   * entry is written.
   */
  /** The statuses a pop of `path` may return. */
  ghost predicate Allows(maps: CounterMaps, path: Path, fields: seq<string>, st: Status)
    requires |path.elem| >= 3
  {
    && (P.RequestedPort(path) != "*" ==> ConcreteAllows(maps, path, fields, st))
    && (P.RequestedPort(path) == "*" ==>
          (st.Success? <==> forall p :: p in maps.portName ==> PortOk(maps, path, fields, p))
          && (!st.Success? ==> exists p :: p in maps.portName && PortAllows(maps, path, fields, p, st)))
  }

  /** Every entry the request stands for was written between `before` and `after`. */
  ghost predicate Covers(maps: CounterMaps, path: Path, fields: seq<string>, before: seq<Entry>, after: seq<Entry>)
    requires |path.elem| >= 3
    requires Extends(after, before)
  {
    forall e :: Expected(maps, path, fields, e) ==> e in Added(after, before)
  }

  ghost predicate PopOutcome(maps: CounterMaps, path: Path, fields: seq<string>, st: Status,
                             before: seq<Entry>, after: seq<Entry>)
    requires |path.elem| >= 3
  {
    && WritesExpected(maps, path, fields, before, after)
    && Allows(maps, path, fields, st)
    && (st.Success? ==> Covers(maps, path, fields, before, after))
  }

  /** pop_PortQueueCounterStats: expands `*` ports and queues and writes each queue's counters. */
  method PopPortQueueCounterStats(maps: CounterMaps, path: Path, fields: seq<string>, g2s: seq<Entry>)
    returns (st: Status, g2s': seq<Entry>)
    requires |path.elem| >= 3
    ensures PopOutcome(maps, path, fields, st, g2s, g2s')
    decreases P.Wild(path), 2
  {
    if P.RequestedPort(path) == "*" {
      st, g2s' := ExpandPorts(maps, path, fields, g2s);
      return;
    }
    var alias := P.RequestedPort(path);
    var name := Resolve(maps, alias);
    g2s' := g2s;
    if name !in maps.queueName {
      st := Failure(name + " not a valid sonic interface. Vendor alias is " + alias);
      UnchangedOutcome(maps, path, fields, st, g2s);
      return;
    }
    var queName := P.RequestedQueue(path);
    if queName == "*" {
      st, g2s' := ExpandQueues(maps, path, name, fields, g2s);
      return;
    }
    if !HasPrefix(queName, "Queue") {
      st := Failure(queName + " not a vaild queue name in request. Use format 'Queue<Num>'");
      UnchangedOutcome(maps, path, fields, st, g2s);
      return;
    }
    var queNum := TrimPrefix(queName, "Queue");
    var que := name + CountersSeparator() + queNum;
    if que !in maps.queueName[name] {
      st := Failure(que + " not a valid queue name in redis db.");
      UnchangedOutcome(maps, path, fields, st, g2s);
      return;
    }
    if |fields| > 0 {
      st := Failure("Subscribe to particular field of path not supported");
      UnchangedOutcome(maps, path, fields, st, g2s);
      return;
    }
    var table := P.CountersTable(maps.queueName[name][que], QueueFields);
    st, g2s' := Success, g2s + [Entry(path, [table])];
    LeafOutcome(maps, path, fields, g2s, g2s');
  }

  /** A concrete path pop leaves with a failure it allows and no write. */
  lemma UnchangedOutcome(maps: CounterMaps, path: Path, fields: seq<string>, st: Status, g2s: seq<Entry>)
    requires |path.elem| >= 3 && P.RequestedPort(path) != "*"
    requires ConcreteAllows(maps, path, fields, st) && !st.Success?
    ensures PopOutcome(maps, path, fields, st, g2s, g2s)
  {
    assert Added(g2s, g2s) == [];
  }

  /** A concrete port and queue that succeed: pop writes exactly the leaf entry. */
  lemma LeafOutcome(maps: CounterMaps, path: Path, fields: seq<string>, g2s: seq<Entry>, g2s': seq<Entry>)
    requires |path.elem| >= 3 && P.RequestedPort(path) != "*" && P.RequestedQueue(path) != "*"
    requires PortOf(maps, path) in maps.queueName && LeafStatus(maps, path, fields) == Success
    requires g2s' == g2s + LeafEntries(maps, path, fields)
    ensures PopOutcome(maps, path, fields, Success, g2s, g2s')
  {
    assert g2s'[..|g2s|] == g2s;
    assert Added(g2s', g2s) == LeafEntries(maps, path, fields);
  }

  /** Every write expected for port `p` of a `*` port is among `added`. */
  ghost predicate PortCovered(maps: CounterMaps, path: Path, fields: seq<string>, p: string, added: seq<Entry>)
    requires |path.elem| >= 3
  {
    forall e :: ConcreteEntry(maps, P.PortCopy(maps, path, p), fields, e) ==> e in added
  }

  ghost predicate PortsDone(maps: CounterMaps, path: Path, fields: seq<string>, done: seq<string>, added: seq<Entry>)
    requires |path.elem| >= 3
  {
    forall t :: 0 <= t < |done| ==> PortOk(maps, path, fields, done[t]) && PortCovered(maps, path, fields, done[t], added)
  }

  /** The `*` port loop of pop: one recursive call per port, the first failure ends it. */
  method ExpandPorts(maps: CounterMaps, path: Path, fields: seq<string>, g2s: seq<Entry>)
    returns (st: Status, g2s': seq<Entry>)
    requires |path.elem| >= 3 && P.RequestedPort(path) == "*"
    ensures PopOutcome(maps, path, fields, st, g2s, g2s')
    decreases P.Wild(path), 1
  {
    KeyOrderExists(maps.portName.Keys);
    var order :| IsKeyOrder(order, maps.portName.Keys);
    g2s' := g2s;
    st := Success;
    ghost var failed := "";
    for i := 0 to |order|
      invariant WritesExpected(maps, path, fields, g2s, g2s')
      invariant PortsDone(maps, path, fields, order[..i], Added(g2s', g2s))
      invariant st == Success
    {
      var s, next := ExpandPort(maps, path, fields, order[i], g2s');
      WritesExpectedTrans(maps, path, fields, g2s, g2s', next);
      if !s.Success? {
        st, g2s', failed := s, next, order[i];
        break;
      }
      PortsDoneStep(maps, path, fields, order, i, Added(g2s', g2s), Added(next, g2s'), Added(next, g2s));
      g2s' := next;
    }
    if st.Success? {
      assert order[..|order|] == order;
      PortsAllDone(maps, path, fields, order, g2s, g2s');
    } else {
      PortFailed(maps, path, fields, failed, st, g2s, g2s');
    }
  }

  lemma PortFailed(maps: CounterMaps, path: Path, fields: seq<string>, port: string, s: Status,
                   g2s: seq<Entry>, g2s': seq<Entry>)
    requires |path.elem| >= 3 && P.RequestedPort(path) == "*" && port in maps.portName
    requires PortAllows(maps, path, fields, port, s) && !s.Success? && !PortOk(maps, path, fields, port)
    requires WritesExpected(maps, path, fields, g2s, g2s')
    ensures PopOutcome(maps, path, fields, s, g2s, g2s')
  {
  }

  lemma PortsDoneStep(maps: CounterMaps, path: Path, fields: seq<string>, order: seq<string>, i: nat,
                      a: seq<Entry>, c: seq<Entry>, b: seq<Entry>)
    requires |path.elem| >= 3 && i < |order|
    requires PortsDone(maps, path, fields, order[..i], a)
    requires forall e :: e in a ==> e in b
    requires forall e :: e in c ==> e in b
    requires PortOk(maps, path, fields, order[i]) && PortCovered(maps, path, fields, order[i], c)
    ensures PortsDone(maps, path, fields, order[..i + 1], b)
  {
    var done := order[..i + 1];
    forall t | 0 <= t < |done|
      ensures PortOk(maps, path, fields, done[t]) && PortCovered(maps, path, fields, done[t], b)
    {
      var p := done[t];
      if t < i {
        assert p == order[..i][t];
        assert PortOk(maps, path, fields, p) && PortCovered(maps, path, fields, p, a);
        CoveredGrows(maps, path, fields, p, a, b);
      } else {
        assert p == order[i];
        CoveredGrows(maps, path, fields, p, c, b);
      }
    }
  }

  lemma CoveredGrows(maps: CounterMaps, path: Path, fields: seq<string>, p: string, a: seq<Entry>, b: seq<Entry>)
    requires |path.elem| >= 3
    requires PortCovered(maps, path, fields, p, a) && forall e :: e in a ==> e in b
    ensures PortCovered(maps, path, fields, p, b)
  {
  }

  lemma PortsAllDone(maps: CounterMaps, path: Path, fields: seq<string>, order: seq<string>,
                     g2s: seq<Entry>, g2s': seq<Entry>)
    requires |path.elem| >= 3 && P.RequestedPort(path) == "*"
    requires IsKeyOrder(order, maps.portName.Keys)
    requires WritesExpected(maps, path, fields, g2s, g2s')
    requires PortsDone(maps, path, fields, order, Added(g2s', g2s))
    ensures PopOutcome(maps, path, fields, Success, g2s, g2s')
  {
    forall p | p in maps.portName
      ensures PortOk(maps, path, fields, p)
    {
      var t :| 0 <= t < |order| && order[t] == p;
    }
    forall e | Expected(maps, path, fields, e)
      ensures e in Added(g2s', g2s)
    {
      var p :| p in maps.portName && PortAlias(maps, p) != "*" && ConcreteEntry(maps, P.PortCopy(maps, path, p), fields, e);
      var t :| 0 <= t < |order| && order[t] == p;
      assert PortCovered(maps, path, fields, order[t], Added(g2s', g2s));
    }
  }

  /** One port of the `*` port loop: a copy of the path named by its alias, popped recursively. */
  method ExpandPort(maps: CounterMaps, path: Path, fields: seq<string>, port: string, g2s: seq<Entry>)
    returns (s: Status, g2s': seq<Entry>)
    requires |path.elem| >= 3 && P.RequestedPort(path) == "*" && port in maps.portName
    ensures WritesExpected(maps, path, fields, g2s, g2s')
    ensures PortAllows(maps, path, fields, port, s)
    ensures s.Success? <==> PortOk(maps, path, fields, port)
    ensures s.Success? ==> PortCovered(maps, path, fields, port, Added(g2s', g2s))
    decreases P.Wild(path), 0
  {
    var oport := PortAlias(maps, port);
    if oport == "*" {
      assert Added(g2s, g2s) == [];
      return Crash("stack overflow"), g2s;
    }
    var copy := P.Deepcopy(path);
    copy := copy.(elem := copy.elem[1 := PathElem(copy.elem[1].name, copy.elem[1].key["name" := oport])]);
    assert copy == P.PortCopy(maps, path, port);
    s, g2s' := PopPortQueueCounterStats(maps, copy, fields, g2s);
    forall e | e in Added(g2s', g2s)
      ensures Expected(maps, path, fields, e)
    {
      assert ConcreteEntry(maps, P.PortCopy(maps, path, port), fields, e);
    }
  }

  /** Every write expected for queue `q` of a `*` queue is among `added`. */
  ghost predicate QueueCovered(maps: CounterMaps, path: Path, fields: seq<string>, q: string, added: seq<Entry>)
    requires |path.elem| >= 3 && PortOf(maps, path) in maps.queueName
  {
    P.HasQueueIndex(q) && forall e :: e in LeafEntries(maps, P.QueueCopy(path, q), fields) ==> e in added
  }

  ghost predicate QueuesDone(maps: CounterMaps, path: Path, fields: seq<string>, done: seq<string>, added: seq<Entry>)
    requires |path.elem| >= 3 && PortOf(maps, path) in maps.queueName
  {
    forall t :: 0 <= t < |done| ==>
      QueueStatus(maps, path, fields, done[t]) == Success && QueueCovered(maps, path, fields, done[t], added)
  }

  /** The `*` queue loop of pop: one recursive call per queue of the port, the first failure ends it. */
  method ExpandQueues(maps: CounterMaps, path: Path, name: string, fields: seq<string>, g2s: seq<Entry>)
    returns (st: Status, g2s': seq<Entry>)
    requires |path.elem| >= 3 && P.RequestedPort(path) != "*" && P.RequestedQueue(path) == "*"
    requires name == PortOf(maps, path) && name in maps.queueName
    ensures PopOutcome(maps, path, fields, st, g2s, g2s')
    decreases P.Wild(path), 1
  {
    var queues := maps.queueName[name];
    KeyOrderExists(queues.Keys);
    var order :| IsKeyOrder(order, queues.Keys);
    g2s' := g2s;
    st := Success;
    ghost var failed := "";
    for i := 0 to |order|
      invariant WritesExpected(maps, path, fields, g2s, g2s')
      invariant QueuesDone(maps, path, fields, order[..i], Added(g2s', g2s))
      invariant st == Success
    {
      var q := order[i];
      if |Split(q, CountersSeparator())| < 2 {
        st, failed := Crash("index out of range"), q;
        break;
      }
      var s, next := ExpandQueue(maps, path, name, fields, q, g2s');
      WritesExpectedTrans(maps, path, fields, g2s, g2s', next);
      if !s.Success? {
        st, g2s', failed := s, next, q;
        break;
      }
      QueuesDoneStep(maps, path, fields, order, i, Added(g2s', g2s), Added(next, g2s'), Added(next, g2s));
      g2s' := next;
    }
    if st.Success? {
      assert order[..|order|] == order;
      QueuesAllDone(maps, path, fields, order, g2s, g2s');
    } else {
      QueueFailed(maps, path, fields, failed, st, g2s, g2s');
    }
  }

  lemma QueueFailed(maps: CounterMaps, path: Path, fields: seq<string>, q: string, s: Status,
                    g2s: seq<Entry>, g2s': seq<Entry>)
    requires |path.elem| >= 3 && P.RequestedPort(path) != "*" && P.RequestedQueue(path) == "*"
    requires PortOf(maps, path) in maps.queueName && q in maps.queueName[PortOf(maps, path)]
    requires s == QueueStatus(maps, path, fields, q) && !s.Success?
    requires WritesExpected(maps, path, fields, g2s, g2s')
    ensures PopOutcome(maps, path, fields, s, g2s, g2s')
  {
  }

  lemma QueuesDoneStep(maps: CounterMaps, path: Path, fields: seq<string>, order: seq<string>, i: nat,
                       a: seq<Entry>, c: seq<Entry>, b: seq<Entry>)
    requires |path.elem| >= 3 && PortOf(maps, path) in maps.queueName && i < |order|
    requires QueuesDone(maps, path, fields, order[..i], a)
    requires forall e :: e in a ==> e in b
    requires forall e :: e in c ==> e in b
    requires QueueStatus(maps, path, fields, order[i]) == Success && QueueCovered(maps, path, fields, order[i], c)
    ensures QueuesDone(maps, path, fields, order[..i + 1], b)
  {
    assert order[..i + 1] == order[..i] + [order[i]];
  }

  lemma QueuesAllDone(maps: CounterMaps, path: Path, fields: seq<string>, order: seq<string>,
                      g2s: seq<Entry>, g2s': seq<Entry>)
    requires |path.elem| >= 3 && P.RequestedPort(path) != "*" && P.RequestedQueue(path) == "*"
    requires PortOf(maps, path) in maps.queueName
    requires IsKeyOrder(order, maps.queueName[PortOf(maps, path)].Keys)
    requires WritesExpected(maps, path, fields, g2s, g2s')
    requires QueuesDone(maps, path, fields, order, Added(g2s', g2s))
    ensures PopOutcome(maps, path, fields, Success, g2s, g2s')
  {
    var queues := maps.queueName[PortOf(maps, path)];
    forall q | q in queues
      ensures QueueStatus(maps, path, fields, q) == Success
    {
      var t :| 0 <= t < |order| && order[t] == q;
    }
    forall e | ConcreteEntry(maps, path, fields, e)
      ensures e in Added(g2s', g2s)
    {
      var q :| q in queues && P.HasQueueIndex(q) && e in LeafEntries(maps, P.QueueCopy(path, q), fields);
      var t :| 0 <= t < |order| && order[t] == q;
      assert QueueCovered(maps, path, fields, order[t], Added(g2s', g2s));
    }
  }

  /** One queue of the `*` queue loop: a copy of the path named `Queue<n>`, popped recursively. */
  method ExpandQueue(maps: CounterMaps, path: Path, name: string, fields: seq<string>, q: string, g2s: seq<Entry>)
    returns (s: Status, g2s': seq<Entry>)
    requires |path.elem| >= 3 && P.RequestedPort(path) != "*" && P.RequestedQueue(path) == "*"
    requires name == PortOf(maps, path) && name in maps.queueName
    requires q in maps.queueName[name] && P.HasQueueIndex(q)
    ensures WritesExpected(maps, path, fields, g2s, g2s')
    ensures s == QueueStatus(maps, path, fields, q)
    ensures s.Success? ==> QueueCovered(maps, path, fields, q, Added(g2s', g2s))
    decreases P.Wild(path), 0
  {
    var parts := Split(q, CountersSeparator());
    var copy := P.Deepcopy(path);
    copy := copy.(elem := copy.elem[2 := PathElem(copy.elem[2].name, copy.elem[2].key["name" := "Queue" + parts[1]])]);
    assert copy == P.QueueCopy(path, q);
    QueueCopyFacts(maps, path, q);
    s, g2s' := PopPortQueueCounterStats(maps, copy, fields, g2s);
    forall e | e in Added(g2s', g2s)
      ensures ConcreteEntry(maps, path, fields, e)
    {
      assert e in LeafEntries(maps, P.QueueCopy(path, q), fields);
    }
  }

  /** A queue copy names the same port and a concrete queue. */
  lemma QueueCopyFacts(maps: CounterMaps, path: Path, q: string)
    requires |path.elem| >= 3 && P.HasQueueIndex(q) && P.RequestedPort(path) != "*"
    ensures P.RequestedPort(P.QueueCopy(path, q)) == P.RequestedPort(path)
    ensures PortOf(maps, P.QueueCopy(path, q)) == PortOf(maps, path)
    ensures P.RequestedQueue(P.QueueCopy(path, q)) != "*"
    ensures P.Wild(P.QueueCopy(path, q)) == 0
  {
    var x := Split(q, CountersSeparator())[1];
    assert |"Queue" + x| >= 5;
  }

  /** v2rPortQueueCounterStats: fill the template from the request, then pop it. */
  method V2rPortQueueCounterStats(maps: CounterMaps, path: Path, g2s: seq<Entry>) returns (st: Status, g2s': seq<Entry>)
    ensures PopOutcome(maps, P.UpdatedTemplate(path, QueueCounterTemplate(), P.PfcwdParents),
                       P.TargetFields(path, QueueCounterLeaf.name, []), st, g2s, g2s')
  {
    var tmpl := QueueCounterTemplate();
    var request, fields := P.UpdatePath(path, tmpl, P.PfcwdParents, QueueCounterLeaf, []);
    st, g2s' := PopPortQueueCounterStats(maps, request, fields, g2s);
  }

  /**
   * A request for queue `Queue<k>` of a port whose queue map holds
   * `port:k`, with no field list, succeeds and writes exactly the queue's
   * four counters.
   */
  lemma {:induction false} KnownQueueRequest(maps: CounterMaps, path: Path, pe: PathElem, qe: PathElem, k: string,
                                             st: Status, g2s: seq<Entry>, g2s': seq<Entry>)
    requires P.FirstNamed(path.elem, "Port") == Some(pe) && P.FirstNamed(path.elem, "Queue") == Some(qe)
    requires KeyOf(pe, "name") != "*" && KeyOf(qe, "name") == "Queue" + k
    requires P.LastField(path.elem, "QueueCounter") == None
    requires var n := Resolve(maps, KeyOf(pe, "name")); n in maps.queueName && n + ":" + k in maps.queueName[n]
    requires PopOutcome(maps, P.UpdatedTemplate(path, QueueCounterTemplate(), P.PfcwdParents),
                        P.TargetFields(path, "QueueCounter", []), st, g2s, g2s')
    ensures st == Success
    ensures var n := Resolve(maps, KeyOf(pe, "name"));
      forall e :: e in Added(g2s', g2s) <==>
        e == Entry(P.UpdatedTemplate(path, QueueCounterTemplate(), P.PfcwdParents),
                   [P.CountersTable(maps.queueName[n][n + ":" + k], QueueFields)])
  {
    var r := P.UpdatedTemplate(path, QueueCounterTemplate(), P.PfcwdParents);
    P.RequestNames(path, QueueCounterTemplate(), pe, qe);
    var n := Resolve(maps, KeyOf(pe, "name"));
    assert |"Queue" + k| >= 5;
    assert HasPrefix("Queue" + k, "Queue");
    assert TrimPrefix("Queue" + k, "Queue") == k;
    assert P.TargetFields(path, "QueueCounter", []) == [];
    var e0 := Entry(r, [P.CountersTable(maps.queueName[n][n + ":" + k], QueueFields)]);
    assert LeafEntries(maps, r, []) == [e0];
    assert Expected(maps, r, [], e0);
  }
}
