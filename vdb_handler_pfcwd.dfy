/**
 * The PFC watchdog handler of the virtual database client
 * (virtual_database_client/handler_pfcwd.go), together with the path
 * helpers `contains`, `deepcopy` and `updatePath` that every handler uses.
 * A request path is laid over a template, `*` ports and queues are expanded
 * one recursive call per known port or queue, and each concrete path gets
 * the COUNTERS_DB table paths of its PFC-WD queue and its port.
 */
module VdbHandlerPfcwd {
  import opened Wrappers
  import opened GoStrings
  import opened GoMaps
  import opened Gnmi
  import opened VdbTypes
  import opened VdbMapInit

  /** contains: whether `x` is one of the strings of `a`. */
  method Contains(a: seq<string>, x: string) returns (r: bool)
    ensures r <==> x in a
  {
    for i := 0 to |a|
      invariant x !in a[..i]
    {
      if a[i] == x {
        return true;
      }
      assert a[..i + 1] == a[..i] + [a[i]];
    }
    assert a[..|a|] == a;
    return false;
  }

  /** The inner loop of deepcopy: a fresh key map with the same entries. */
  method CopyKey(key: map<string, string>) returns (r: map<string, string>)
    ensures r == key
  {
    KeyOrderExists(key.Keys);
    var order :| IsKeyOrder(order, key.Keys);
    r := map[];
    for j := 0 to |order|
      invariant forall k :: k in r <==> k in order[..j]
      invariant forall k :: k in r ==> r[k] == key[k]
    {
      assert order[..j + 1] == order[..j] + [order[j]];
      r := r[order[j] := key[order[j]]];
    }
    assert order[..|order|] == order;
  }

  /**
   * deepcopy: a new path (no origin, no target) whose elements carry the
   * same names and equal, separately allocated key maps.  Values have no
   * identity here, so a later change to the copy cannot reach `path`.
   */
  method Deepcopy(path: Path) returns (copy: Path)
    ensures copy.origin == "" && copy.target == ""
    ensures copy.elem == path.elem
  {
    var elems: seq<PathElem> := [];
    for i := 0 to |path.elem|
      invariant elems == path.elem[..i]
    {
      var key := CopyKey(path.elem[i].key);
      elems := elems + [PathElem(path.elem[i].name, key)];
    }
    assert path.elem[..|path.elem|] == path.elem;
    copy := Path("", "", elems);
  }

  /** leafConfig: the template position and name of the leaf element. */
  datatype LeafConfig = LeafConfig(idx: nat, name: string)

  /** The first element of `elems` called `name`. */
  function FirstNamed(elems: seq<PathElem>, name: string): (r: Option<PathElem>)
    ensures r.Some? ==> r.value in elems && r.value.name == name
    ensures r.None? <==> forall e :: e in elems ==> e.name != name
  {
    if elems == [] then None
    else if elems[0].name == name then Some(elems[0])
    else
      assert forall e :: e in elems ==> e == elems[0] || e in elems[1..];
      FirstNamed(elems[1..], name)
  }

  /** The `field` key of the last element called `leafName` that has one. */
  function LastField(elems: seq<PathElem>, leafName: string): (r: Option<string>)
    ensures r.Some? ==> exists e :: e in elems && e.name == leafName && "field" in e.key && e.key["field"] == r.value
    ensures r.None? <==> forall e :: e in elems && e.name == leafName ==> "field" !in e.key
    decreases |elems|
  {
    if elems == [] then None
    else
      var last := elems[|elems| - 1];
      assert forall e :: e in elems ==> e == last || e in elems[..|elems| - 1];
      if last.name == leafName && "field" in last.key then Some(last.key["field"])
      else LastField(elems[..|elems| - 1], leafName)
  }

  /** Template element `t` at position `i` after updatePath: its name key copied from the request. */
  function UpdatedElem(path: Path, t: PathElem, i: nat, parentConfig: map<nat, string>): PathElem
  {
    if i in parentConfig && FirstNamed(path.elem, parentConfig[i]).Some? then
      PathElem(t.name, t.key["name" := KeyOf(FirstNamed(path.elem, parentConfig[i]).value, "name")])
    else t
  }

  /**
   * The template after updatePath: each position listed in `parentConfig`
   * takes the name key of the first request element with the listed name;
   * every other position is left as it was.
   */
  function UpdatedTemplate(path: Path, tmpl: Path, parentConfig: map<nat, string>): (r: Path)
    ensures r.origin == tmpl.origin && r.target == tmpl.target && |r.elem| == |tmpl.elem|
    ensures forall i :: 0 <= i < |tmpl.elem| ==> r.elem[i] == UpdatedElem(path, tmpl.elem[i], i, parentConfig)
  {
    Path(tmpl.origin, tmpl.target, seq(|tmpl.elem|, i requires 0 <= i < |tmpl.elem| => UpdatedElem(path, tmpl.elem[i], i, parentConfig)))
  }

  /** The target fields after updatePath: the comma-split `field` key of the leaf, if any. */
  function TargetFields(path: Path, leafName: string, fields: seq<string>): seq<string>
  {
    match LastField(path.elem, leafName)
    case Some(f) => Split(f, ",")
    case None => fields
  }

  /** Scanning `elems[..j]` for `name` found nothing; `elems[j]` is the first match. */
  lemma {:induction false} FirstNamedAt(elems: seq<PathElem>, name: string, j: nat)
    requires j < |elems| && elems[j].name == name
    requires forall t :: 0 <= t < j ==> elems[t].name != name
    ensures FirstNamed(elems, name) == Some(elems[j])
    decreases j
  {
    if j > 0 {
      FirstNamedAt(elems[1..], name, j - 1);
    }
  }

  /** updatePath: fills the template's name keys from the request and reads the leaf's fields. */
  method UpdatePath(path: Path, tmpl: Path, parentConfig: map<nat, string>, leaf: LeafConfig, fields: seq<string>)
    returns (tmpl': Path, fields': seq<string>)
    requires forall idx :: idx in parentConfig ==> idx < |tmpl.elem|
    ensures tmpl' == UpdatedTemplate(path, tmpl, parentConfig)
    ensures fields' == TargetFields(path, leaf.name, fields)
  {
    KeyOrderExists(parentConfig.Keys);
    var order :| IsKeyOrder(order, parentConfig.Keys);
    tmpl' := tmpl;
    for k := 0 to |order|
      invariant tmpl'.origin == tmpl.origin && tmpl'.target == tmpl.target && |tmpl'.elem| == |tmpl.elem|
      invariant forall i :: 0 <= i < |tmpl.elem| ==>
        tmpl'.elem[i] == if i in order[..k] then UpdatedElem(path, tmpl.elem[i], i, parentConfig) else tmpl.elem[i]
    {
      var idx := order[k];
      var name := parentConfig[idx];
      ghost var before := tmpl';
      for j := 0 to |path.elem|
        invariant forall t :: 0 <= t < j ==> path.elem[t].name != name
        invariant tmpl' == before
      {
        if path.elem[j].name == name {
          FirstNamedAt(path.elem, name, j);
          var e := tmpl'.elem[idx];
          tmpl' := tmpl'.(elem := tmpl'.elem[idx := PathElem(e.name, e.key["name" := KeyOf(path.elem[j], "name")])]);
          break;
        }
      }
      assert tmpl'.elem[idx] == UpdatedElem(path, tmpl.elem[idx], idx, parentConfig) by {
        assert idx !in order[..k] by {
          forall t | 0 <= t < k ensures order[t] != idx { }
        }
      }
      assert forall i :: i in order[..k + 1] <==> i in order[..k] || i == idx by {
        assert order[..k + 1] == order[..k] + [idx];
      }
    }
    assert order[..|order|] == order;
    assert tmpl'.elem == UpdatedTemplate(path, tmpl, parentConfig).elem;
    fields' := fields;
    for j := 0 to |path.elem|
      invariant fields' == TargetFields(Path("", "", path.elem[..j]), leaf.name, fields)
    {
      assert path.elem[..j + 1][..j] == path.elem[..j];
      if path.elem[j].name == leaf.name && "field" in path.elem[j].key {
        fields' := Split(path.elem[j].key["field"], ",");
      }
    }
    assert path.elem[..|path.elem|] == path.elem;
  }

  /** GetTmpl_PortQueuePfcwdStats: Interfaces/Port[name=*]/Queue[name=*]/Pfcwd. */
  function PfcwdTemplate(): (t: Path)
    ensures |t.elem| == 4 && t.origin == "" && t.target == ""
    ensures KeyOf(t.elem[1], "name") == "*" && KeyOf(t.elem[2], "name") == "*"
  {
    Path("", "", [PathElem("Interfaces", map[]), PathElem("Port", map["name" := "*"]),
                  PathElem("Queue", map["name" := "*"]), PathElem("Pfcwd", map[])])
  }

  /** The parent positions v2rPortQueuePfcwdStats fills from the request. */
  const PfcwdParents: map<nat, string> := map[1 := "Port", 2 := "Queue"]
  const PfcwdLeaf: LeafConfig := LeafConfig(3, "Pfcwd")

  /** The requested fields a table provides, in request order. */
  function Kept(full: seq<string>, targets: seq<string>): (r: seq<string>)
    ensures forall f :: f in r <==> f in targets && f in full
    ensures |r| <= |targets|
    decreases |targets|
  {
    if targets == [] then []
    else
      var last := targets[|targets| - 1];
      assert forall f :: f in targets <==> f in targets[..|targets| - 1] || f == last;
      Kept(full, targets[..|targets| - 1]) + (if last in full then [last] else [])
  }

  /**
   * The fields one table path reads: every field of `full` when no field
   * was requested, else the requested ones `full` lists (possibly none).
   */
  function Narrow(full: seq<string>, targets: seq<string>): (r: seq<string>)
    ensures |targets| == 0 ==> r == full
    ensures |targets| > 0 ==> forall f :: f in r <==> f in targets && f in full
  {
    if |targets| == 0 then full else Kept(full, targets)
  }

  /** The target-field filter loop of pop_PortQueuePfcwdStats. */
  method NarrowFields(full: seq<string>, targets: seq<string>) returns (r: seq<string>)
    ensures r == Narrow(full, targets)
  {
    r := full;
    if |targets| > 0 {
      var kept: seq<string> := [];
      for i := 0 to |targets|
        invariant kept == Kept(full, targets[..i])
      {
        assert targets[..i + 1][..i] == targets[..i];
        var c := Contains(full, targets[i]);
        if c {
          kept := kept + [targets[i]];
        }
      }
      assert targets[..|targets|] == targets;
      r := kept;
    }
  }

  /** The fields under a PFC-WD queue oid (the fifth keeps the source's spelling). */
  const PfcwdQueueFields: seq<string> := [
    "PFC_WD_QUEUE_STATS_DEADLOCK_DETECTED",
    "PFC_WD_QUEUE_STATS_TX_DROPPED_PACKETS",
    "PFC_WD_QUEUE_STATS_RX_DROPPED_PACKETS",
    "PFC_WD_QUEUE_STATS_DEADLOCK_RESTORED",
    "PFC_wD_QUEUE_STATS_TX_PACKETS",
    "PFC_WD_QUEUE_STATS_RX_PACKETS",
    "PFC_WD_STATUS"]

  /** The field under the port oid for queue `queNum`. */
  function PortPfcField(queNum: string): string
  {
    "SAI_PORT_STAT_PFC_" + queNum + "_RX_PKTS"
  }

  /** A COUNTERS_DB table path reading `fields` of the hash of `oid`. */
  function CountersTable(oid: string, fields: seq<string>): TablePath
  {
    TablePath(CountersDb, "COUNTERS" + CountersSeparator() + oid, CountersSeparator(), fields, [])
  }

  /** The queue a request path names at position 1 (port) and 2 (queue). */
  function RequestedPort(path: Path): string
    requires |path.elem| >= 3
  {
    KeyOf(path.elem[1], "name")
  }

  function RequestedQueue(path: Path): string
    requires |path.elem| >= 3
  {
    KeyOf(path.elem[2], "name")
  }

  /**
   * The table paths of PFC-WD queue `queNum` of SONiC port `name`: the
   * queue's counters and the port's PFC receive counter, each only when it
   * keeps some field; nothing when PFC-WD is not enabled on that queue.
   */
  function PfcwdTablePaths(maps: CounterMaps, name: string, queNum: string, fields: seq<string>): (r: seq<TablePath>)
    requires name in maps.portName
    ensures |r| <= 2
    ensures r != [] ==> name in maps.pfcwdName && name + ":" + queNum in maps.pfcwdName[name]
    ensures forall t :: t in r ==> t.dbName == CountersDb && t.delimitor == ":" && t.fields != [] && t.patterns == []
    ensures |fields| == 0 && name in maps.pfcwdName && name + ":" + queNum in maps.pfcwdName[name] ==>
      r == [CountersTable(maps.pfcwdName[name][name + ":" + queNum], PfcwdQueueFields),
            CountersTable(maps.portName[name], [PortPfcField(queNum)])]
    ensures forall t, f :: t in r && f in t.fields && |fields| > 0 ==> f in fields
  {
    var pfcque := name + CountersSeparator() + queNum;
    if name in maps.pfcwdName && pfcque in maps.pfcwdName[name] then
      var qf := Narrow(PfcwdQueueFields, fields);
      var pf := Narrow([PortPfcField(queNum)], fields);
      (if |qf| > 0 then [CountersTable(maps.pfcwdName[name][pfcque], qf)] else [])
      + (if |pf| > 0 then [CountersTable(maps.portName[name], pf)] else [])
    else []
  }

  /** The write a concrete request path makes: one entry, or none when no table path is left. */
  function LeafEntries(maps: CounterMaps, path: Path, fields: seq<string>): (r: seq<Entry>)
    requires |path.elem| >= 3
    ensures |r| <= 1
    ensures forall e :: e in r ==> e.path == path && e.tablePaths != []
  {
    var name := Resolve(maps, RequestedPort(path));
    var que := RequestedQueue(path);
    if name in maps.portName && HasPrefix(que, "Queue") then
      var tps := PfcwdTablePaths(maps, name, TrimPrefix(que, "Queue"), fields);
      if tps != [] then [Entry(path, tps)] else []
    else []
  }

  /** A PFC-WD queue key `port:index` has an index after the separator. */
  predicate HasQueueIndex(q: string)
  {
    |Split(q, CountersSeparator())| >= 2
  }

  /** The request path for one PFC-WD queue `q` of the expanded port. */
  function QueueCopy(path: Path, q: string): Path
    requires |path.elem| >= 3 && HasQueueIndex(q)
  {
    CopyWithName(path, 2, "Queue" + Split(q, CountersSeparator())[1])
  }

  /** The request path for SONiC port `p`, named by its vendor alias. */
  function PortCopy(maps: CounterMaps, path: Path, p: string): Path
    requires |path.elem| >= 3
  {
    CopyWithName(path, 1, PortAlias(maps, p))
  }

  /**
   * The outcome of pop for a path naming one port: an unknown port fails,
   * a `*` queue panics on a PFC-WD queue key without an index, a queue not
   * named `Queue<n>` fails, and everything else succeeds.
   */
  function ConcreteStatus(maps: CounterMaps, path: Path): Status
    requires |path.elem| >= 3
  {
    var alias := RequestedPort(path);
    var name := Resolve(maps, alias);
    var que := RequestedQueue(path);
    if name !in maps.portName then Failure(name + " not a valid sonic interface. Vendor alias is " + alias)
    else if que == "*" then
      if forall q :: q in QueuesOf(maps.pfcwdName, name) ==> HasQueueIndex(q) then Success
      else Crash("index out of range")
    else if !HasPrefix(que, "Queue") then Failure(que + " not a vaild queue name. Use format 'Queue<Num>'")
    else Success
  }

  /**
   * The outcome for port `p` of a `*` port: its own concrete outcome; an
   * alias `*` recurses without end.
   */
  function ExpandedPortStatus(maps: CounterMaps, path: Path, p: string): Status
    requires |path.elem| >= 3
  {
    if PortAlias(maps, p) == "*" then Crash("stack overflow")
    else ConcreteStatus(maps, PortCopy(maps, path, p))
  }

  /** The writes a path naming one port may make. */
  ghost predicate ConcreteEntry(maps: CounterMaps, path: Path, fields: seq<string>, e: Entry)
    requires |path.elem| >= 3
  {
    if RequestedQueue(path) == "*" then
      exists q :: q in QueuesOf(maps.pfcwdName, Resolve(maps, RequestedPort(path))) && HasQueueIndex(q) &&
        e in LeafEntries(maps, QueueCopy(path, q), fields)
    else e in LeafEntries(maps, path, fields)
  }

  /** The writes pop may make for `path`: those of every port a `*` port stands for. */
  ghost predicate Expected(maps: CounterMaps, path: Path, fields: seq<string>, e: Entry)
    requires |path.elem| >= 3
  {
    if RequestedPort(path) == "*" then
      exists p :: p in maps.portName && PortAlias(maps, p) != "*" && ConcreteEntry(maps, PortCopy(maps, path, p), fields, e)
    else ConcreteEntry(maps, path, fields, e)
  }

  /** `after` extends `before` with expected writes only. */
  ghost predicate WritesExpected(maps: CounterMaps, path: Path, fields: seq<string>, before: seq<Entry>, after: seq<Entry>)
    requires |path.elem| >= 3
  {
    Extends(after, before) && forall e :: e in Added(after, before) ==> Expected(maps, path, fields, e)
  }

  /** Expected writes in two steps are expected writes, and the later writes keep the earlier ones. */
  lemma WritesExpectedTrans(maps: CounterMaps, path: Path, fields: seq<string>, a: seq<Entry>, b: seq<Entry>, c: seq<Entry>)
    requires |path.elem| >= 3
    requires WritesExpected(maps, path, fields, a, b) && WritesExpected(maps, path, fields, b, c)
    ensures WritesExpected(maps, path, fields, a, c)
    ensures forall e :: e in Added(b, a) ==> e in Added(c, a)
  {
    ExtendsTrans(a, b, c);
  }

  /**
   * The outcome of pop on `path`: only expected entries are written; the
   * status is the path's own (for a `*` port: success exactly when every
   * port succeeds, else the failure of one of them); and on success every
   * expected entry is written.
   */
  /** The statuses a pop of `path` may return. */
  ghost predicate Allows(maps: CounterMaps, path: Path, st: Status)
    requires |path.elem| >= 3
  {
    && (RequestedPort(path) != "*" ==> st == ConcreteStatus(maps, path))
    && (RequestedPort(path) == "*" ==>
          (st.Success? <==> forall p :: p in maps.portName ==> ExpandedPortStatus(maps, path, p) == Success)
          && (!st.Success? ==> exists p :: p in maps.portName && st == ExpandedPortStatus(maps, path, p)))
  }

  /** Every entry the request stands for was written between `before` and `after`. */
  ghost predicate Covers(maps: CounterMaps, path: Path, fields: seq<string>, before: seq<Entry>, after: seq<Entry>)
    requires |path.elem| >= 3
    requires Extends(after, before)
  {
    forall e :: Expected(maps, path, fields, e) ==> e in Added(after, before)
  }

  ghost predicate PopOutcome(maps: CounterMaps, path: Path, fields: seq<string>, st: Status,
                             before: seq<Entry>, after: seq<Entry>)
    requires |path.elem| >= 3
  {
    && WritesExpected(maps, path, fields, before, after)
    && Allows(maps, path, st)
    && (st.Success? ==> Covers(maps, path, fields, before, after))
  }

  /** The wildcards left in a request path: the recursion of pop removes one per level. */
  function Wild(path: Path): nat
    requires |path.elem| >= 3
  {
    (if RequestedPort(path) == "*" then 2 else 0) + (if RequestedQueue(path) == "*" then 1 else 0)
  }

  /** The table paths pop builds for PFC-WD queue `queNum` of port `name`. */
  method QueueTablePaths(maps: CounterMaps, name: string, queNum: string, fields: seq<string>)
    returns (out: seq<TablePath>)
    requires name in maps.portName
    ensures out == PfcwdTablePaths(maps, name, queNum, fields)
  {
    out := [];
    var pfcque := name + CountersSeparator() + queNum;
    if name in maps.pfcwdName && pfcque in maps.pfcwdName[name] {
      var full := NarrowFields(PfcwdQueueFields, fields);
      if |full| > 0 {
        out := out + [CountersTable(maps.pfcwdName[name][pfcque], full)];
      }
      full := NarrowFields([PortPfcField(queNum)], fields);
      if |full| > 0 {
        out := out + [CountersTable(maps.portName[name], full)];
      }
    }
  }

  /** pop_PortQueuePfcwdStats: expands `*` ports and queues and writes the table paths of each queue. */
  method PopPortQueuePfcwdStats(maps: CounterMaps, path: Path, fields: seq<string>, g2s: seq<Entry>)
    returns (st: Status, g2s': seq<Entry>)
    requires |path.elem| >= 3
    ensures PopOutcome(maps, path, fields, st, g2s, g2s')
    decreases Wild(path), 2
  {
    if RequestedPort(path) == "*" {
      st, g2s' := ExpandPorts(maps, path, fields, g2s);
      return;
    }
    var alias := RequestedPort(path);
    var name := Resolve(maps, alias);
    if name !in maps.portName {
      st, g2s' := Failure(name + " not a valid sonic interface. Vendor alias is " + alias), g2s;
      UnchangedOutcome(maps, path, fields, st, g2s);
      return;
    }
    var que := RequestedQueue(path);
    if que == "*" {
      st, g2s' := ExpandQueues(maps, path, name, fields, g2s);
      return;
    }
    if !HasPrefix(que, "Queue") {
      st, g2s' := Failure(que + " not a vaild queue name. Use format 'Queue<Num>'"), g2s;
      UnchangedOutcome(maps, path, fields, st, g2s);
      return;
    }
    var queNum := TrimPrefix(que, "Queue");
    var out := QueueTablePaths(maps, name, queNum, fields);
    g2s' := g2s;
    if |out| > 0 {
      g2s' := g2s' + [Entry(path, out)];
    }
    st := Success;
    LeafOutcome(maps, path, fields, g2s, g2s');
  }

  /** A concrete path pop leaves without writing: its outcome is its own status. */
  lemma UnchangedOutcome(maps: CounterMaps, path: Path, fields: seq<string>, st: Status, g2s: seq<Entry>)
    requires |path.elem| >= 3 && RequestedPort(path) != "*"
    requires st == ConcreteStatus(maps, path) && !st.Success?
    ensures PopOutcome(maps, path, fields, st, g2s, g2s)
  {
    assert Added(g2s, g2s) == [];
  }

  /** A concrete port and queue: pop writes exactly the leaf entry, if any. */
  lemma LeafOutcome(maps: CounterMaps, path: Path, fields: seq<string>, g2s: seq<Entry>, g2s': seq<Entry>)
    requires |path.elem| >= 3 && RequestedPort(path) != "*" && RequestedQueue(path) != "*"
    requires Resolve(maps, RequestedPort(path)) in maps.portName && HasPrefix(RequestedQueue(path), "Queue")
    requires g2s' == g2s + LeafEntries(maps, path, fields)
    ensures PopOutcome(maps, path, fields, Success, g2s, g2s')
  {
    assert g2s'[..|g2s|] == g2s;
    assert Added(g2s', g2s) == LeafEntries(maps, path, fields);
  }

  /** The ports of a `*` port already expanded, all successfully and with all their writes made. */
  ghost predicate PortsDone(maps: CounterMaps, path: Path, fields: seq<string>, done: seq<string>, added: seq<Entry>)
    requires |path.elem| >= 3
  {
    forall t :: 0 <= t < |done| ==>
      ExpandedPortStatus(maps, path, done[t]) == Success && PortCovered(maps, path, fields, done[t], added)
  }

  /** Every write expected for port `p` of a `*` port is among `added`. */
  ghost predicate PortCovered(maps: CounterMaps, path: Path, fields: seq<string>, p: string, added: seq<Entry>)
    requires |path.elem| >= 3
  {
    forall e :: ConcreteEntry(maps, PortCopy(maps, path, p), fields, e) ==> e in added
  }

  /** The `*` port loop of pop: one recursive call per port, the first failure ends it. */
  method ExpandPorts(maps: CounterMaps, path: Path, fields: seq<string>, g2s: seq<Entry>)
    returns (st: Status, g2s': seq<Entry>)
    requires |path.elem| >= 3 && RequestedPort(path) == "*"
    ensures PopOutcome(maps, path, fields, st, g2s, g2s')
    decreases Wild(path), 1
  {
    KeyOrderExists(maps.portName.Keys);
    var order :| IsKeyOrder(order, maps.portName.Keys);
    g2s' := g2s;
    st := Success;
    ghost var failed := "";
    for i := 0 to |order|
      invariant WritesExpected(maps, path, fields, g2s, g2s')
      invariant PortsDone(maps, path, fields, order[..i], Added(g2s', g2s))
      invariant st == Success
    {
      var s, next := ExpandPort(maps, path, fields, order[i], g2s');
      WritesExpectedTrans(maps, path, fields, g2s, g2s', next);
      if !s.Success? {
        st, g2s', failed := s, next, order[i];
        break;
      }
      PortsDoneStep(maps, path, fields, order, i, Added(g2s', g2s), Added(next, g2s'), Added(next, g2s));
      g2s' := next;
    }
    if st.Success? {
      assert order[..|order|] == order;
      PortsAllDone(maps, path, fields, order, g2s, g2s');
    } else {
      PortFailed(maps, path, fields, failed, st, g2s, g2s');
    }
  }

  /** A port that fails ends the `*` port loop with its own status. */
  lemma PortFailed(maps: CounterMaps, path: Path, fields: seq<string>, port: string, s: Status,
                   g2s: seq<Entry>, g2s': seq<Entry>)
    requires |path.elem| >= 3 && RequestedPort(path) == "*" && port in maps.portName
    requires s == ExpandedPortStatus(maps, path, port) && !s.Success?
    requires WritesExpected(maps, path, fields, g2s, g2s')
    ensures PopOutcome(maps, path, fields, s, g2s, g2s')
  {
  }

  /** One more port done: its writes join those of the earlier ports. */
  lemma PortsDoneStep(maps: CounterMaps, path: Path, fields: seq<string>, order: seq<string>, i: nat,
                      a: seq<Entry>, c: seq<Entry>, b: seq<Entry>)
    requires |path.elem| >= 3 && i < |order|
    requires PortsDone(maps, path, fields, order[..i], a)
    requires forall e :: e in a ==> e in b
    requires forall e :: e in c ==> e in b
    requires ExpandedPortStatus(maps, path, order[i]) == Success
    requires PortCovered(maps, path, fields, order[i], c)
    ensures PortsDone(maps, path, fields, order[..i + 1], b)
  {
    assert order[..i + 1] == order[..i] + [order[i]];
  }

  /** Every port done: the `*` port succeeds and has made every expected write. */
  lemma PortsAllDone(maps: CounterMaps, path: Path, fields: seq<string>, order: seq<string>,
                     g2s: seq<Entry>, g2s': seq<Entry>)
    requires |path.elem| >= 3 && RequestedPort(path) == "*"
    requires IsKeyOrder(order, maps.portName.Keys)
    requires WritesExpected(maps, path, fields, g2s, g2s')
    requires PortsDone(maps, path, fields, order, Added(g2s', g2s))
    ensures PopOutcome(maps, path, fields, Success, g2s, g2s')
  {
    forall p | p in maps.portName
      ensures ExpandedPortStatus(maps, path, p) == Success
    {
      var t :| 0 <= t < |order| && order[t] == p;
    }
    forall e | Expected(maps, path, fields, e)
      ensures e in Added(g2s', g2s)
    {
      var p :| p in maps.portName && PortAlias(maps, p) != "*" && ConcreteEntry(maps, PortCopy(maps, path, p), fields, e);
      var t :| 0 <= t < |order| && order[t] == p;
      assert PortCovered(maps, path, fields, order[t], Added(g2s', g2s));
    }
  }

  /** One port of the `*` port loop: a copy of the path named by its alias, popped recursively. */
  method ExpandPort(maps: CounterMaps, path: Path, fields: seq<string>, port: string, g2s: seq<Entry>)
    returns (s: Status, g2s': seq<Entry>)
    requires |path.elem| >= 3 && RequestedPort(path) == "*" && port in maps.portName
    ensures WritesExpected(maps, path, fields, g2s, g2s')
    ensures s == ExpandedPortStatus(maps, path, port)
    ensures s.Success? ==> PortCovered(maps, path, fields, port, Added(g2s', g2s))
    decreases Wild(path), 0
  {
    var oport := PortAlias(maps, port);
    if oport == "*" {
      assert Added(g2s, g2s) == [];
      return Crash("stack overflow"), g2s;
    }
    var copy := Deepcopy(path);
    copy := copy.(elem := copy.elem[1 := PathElem(copy.elem[1].name, copy.elem[1].key["name" := oport])]);
    assert copy == PortCopy(maps, path, port);
    s, g2s' := PopPortQueuePfcwdStats(maps, copy, fields, g2s);
    forall e | e in Added(g2s', g2s)
      ensures Expected(maps, path, fields, e)
    {
      assert ConcreteEntry(maps, PortCopy(maps, path, port), fields, e);
    }
  }

  /** The queues of a `*` queue already expanded, all with an index and with their writes made. */
  ghost predicate QueuesDone(maps: CounterMaps, path: Path, fields: seq<string>, done: seq<string>, added: seq<Entry>)
    requires |path.elem| >= 3
  {
    forall t :: 0 <= t < |done| ==>
      && HasQueueIndex(done[t])
      && forall e :: e in LeafEntries(maps, QueueCopy(path, done[t]), fields) ==> e in added
  }

  /** The `*` queue loop of pop: one recursive call per PFC-WD queue of the port. */
  method ExpandQueues(maps: CounterMaps, path: Path, name: string, fields: seq<string>, g2s: seq<Entry>)
    returns (st: Status, g2s': seq<Entry>)
    requires |path.elem| >= 3 && RequestedPort(path) != "*" && RequestedQueue(path) == "*"
    requires name == Resolve(maps, RequestedPort(path)) && name in maps.portName
    ensures PopOutcome(maps, path, fields, st, g2s, g2s')
    decreases Wild(path), 1
  {
    var queues := QueuesOf(maps.pfcwdName, name);
    KeyOrderExists(queues.Keys);
    var order :| IsKeyOrder(order, queues.Keys);
    g2s' := g2s;
    for i := 0 to |order|
      invariant WritesExpected(maps, path, fields, g2s, g2s')
      invariant QueuesDone(maps, path, fields, order[..i], Added(g2s', g2s))
    {
      var q := order[i];
      if |Split(q, CountersSeparator())| < 2 {
        st := Crash("index out of range");
        QueueFailed(maps, path, fields, q, g2s, g2s');
        return;
      }
      var next := ExpandQueue(maps, path, name, fields, q, g2s');
      QueueLoopStep(maps, path, fields, order, i, g2s, g2s', next);
      g2s' := next;
    }
    st := Success;
    assert order[..|order|] == order;
    QueuesAllDone(maps, path, fields, order, g2s, g2s');
  }

  /** A PFC-WD queue key without an index ends the `*` queue loop with a panic. */
  lemma QueueFailed(maps: CounterMaps, path: Path, fields: seq<string>, q: string,
                    g2s: seq<Entry>, g2s': seq<Entry>)
    requires |path.elem| >= 3 && RequestedPort(path) != "*" && RequestedQueue(path) == "*"
    requires Resolve(maps, RequestedPort(path)) in maps.portName
    requires q in QueuesOf(maps.pfcwdName, Resolve(maps, RequestedPort(path))) && !HasQueueIndex(q)
    requires WritesExpected(maps, path, fields, g2s, g2s')
    ensures PopOutcome(maps, path, fields, Crash("index out of range"), g2s, g2s')
  {
  }

  /** One more queue done: its write joins those of the earlier queues. */
  lemma QueuesDoneStep(maps: CounterMaps, path: Path, fields: seq<string>, done: seq<string>, q: string,
                       a: seq<Entry>, b: seq<Entry>)
    requires |path.elem| >= 3
    requires QueuesDone(maps, path, fields, done, a) && forall e :: e in a ==> e in b
    requires HasQueueIndex(q)
    requires forall e :: e in LeafEntries(maps, QueueCopy(path, q), fields) ==> e in b
    ensures QueuesDone(maps, path, fields, done + [q], b)
  {
  }

  /** One iteration of the `*` queue loop keeps both of its invariants. */
  lemma QueueLoopStep(maps: CounterMaps, path: Path, fields: seq<string>, order: seq<string>, i: nat,
                      g2s: seq<Entry>, cur: seq<Entry>, next: seq<Entry>)
    requires |path.elem| >= 3 && i < |order| && HasQueueIndex(order[i])
    requires WritesExpected(maps, path, fields, g2s, cur) && WritesExpected(maps, path, fields, cur, next)
    requires QueuesDone(maps, path, fields, order[..i], Added(cur, g2s))
    requires forall e :: e in LeafEntries(maps, QueueCopy(path, order[i]), fields) ==> e in Added(next, cur)
    ensures WritesExpected(maps, path, fields, g2s, next)
    ensures QueuesDone(maps, path, fields, order[..i + 1], Added(next, g2s))
  {
    WritesExpectedTrans(maps, path, fields, g2s, cur, next);
    assert forall e :: e in Added(next, cur) ==> e in Added(next, g2s) by {
      assert Added(next, g2s) == Added(cur, g2s) + Added(next, cur);
    }
    QueuesDoneStep(maps, path, fields, order[..i], order[i], Added(cur, g2s), Added(next, g2s));
    assert order[..i + 1] == order[..i] + [order[i]];
  }

  /** Every queue done: the `*` queue succeeds and has made every expected write. */
  lemma QueuesAllDone(maps: CounterMaps, path: Path, fields: seq<string>, order: seq<string>,
                      g2s: seq<Entry>, g2s': seq<Entry>)
    requires |path.elem| >= 3 && RequestedPort(path) != "*" && RequestedQueue(path) == "*"
    requires Resolve(maps, RequestedPort(path)) in maps.portName
    requires IsKeyOrder(order, QueuesOf(maps.pfcwdName, Resolve(maps, RequestedPort(path))).Keys)
    requires WritesExpected(maps, path, fields, g2s, g2s')
    requires QueuesDone(maps, path, fields, order, Added(g2s', g2s))
    ensures PopOutcome(maps, path, fields, Success, g2s, g2s')
  {
    var queues := QueuesOf(maps.pfcwdName, Resolve(maps, RequestedPort(path)));
    forall q | q in queues
      ensures HasQueueIndex(q)
    {
      var t :| 0 <= t < |order| && order[t] == q;
    }
    forall e | ConcreteEntry(maps, path, fields, e)
      ensures e in Added(g2s', g2s)
    {
      var q :| q in queues && HasQueueIndex(q) && e in LeafEntries(maps, QueueCopy(path, q), fields);
      var t :| 0 <= t < |order| && order[t] == q;
    }
  }

  /** One queue of the `*` queue loop: a copy of the path named `Queue<n>`, popped recursively. */
  method ExpandQueue(maps: CounterMaps, path: Path, name: string, fields: seq<string>, q: string, g2s: seq<Entry>)
    returns (g2s': seq<Entry>)
    requires |path.elem| >= 3 && RequestedPort(path) != "*" && RequestedQueue(path) == "*"
    requires name == Resolve(maps, RequestedPort(path)) && name in maps.portName
    requires q in QueuesOf(maps.pfcwdName, name) && HasQueueIndex(q)
    ensures WritesExpected(maps, path, fields, g2s, g2s')
    ensures forall e :: e in LeafEntries(maps, QueueCopy(path, q), fields) ==> e in Added(g2s', g2s)
    decreases Wild(path), 0
  {
    var parts := Split(q, CountersSeparator());
    var copy := Deepcopy(path);
    copy := copy.(elem := copy.elem[2 := PathElem(copy.elem[2].name, copy.elem[2].key["name" := "Queue" + parts[1]])]);
    assert copy == QueueCopy(path, q);
    QueueCopyIsConcrete(maps, path, q);
    var s;
    s, g2s' := PopPortQueuePfcwdStats(maps, copy, fields, g2s);
    forall e | e in Added(g2s', g2s)
      ensures ConcreteEntry(maps, path, fields, e)
    {
      assert e in LeafEntries(maps, QueueCopy(path, q), fields);
    }
  }

  /** A queue copy names the same port and a concrete `Queue<n>` queue, so pop succeeds on it. */
  lemma QueueCopyIsConcrete(maps: CounterMaps, path: Path, q: string)
    requires |path.elem| >= 3 && HasQueueIndex(q) && RequestedPort(path) != "*"
    requires Resolve(maps, RequestedPort(path)) in maps.portName
    ensures RequestedPort(QueueCopy(path, q)) == RequestedPort(path)
    ensures RequestedQueue(QueueCopy(path, q)) != "*"
    ensures HasPrefix(RequestedQueue(QueueCopy(path, q)), "Queue")
    ensures ConcreteStatus(maps, QueueCopy(path, q)) == Success
    ensures Wild(QueueCopy(path, q)) == 0
  {
    var x := Split(q, CountersSeparator())[1];
    assert HasPrefix("Queue" + x, "Queue");
    assert |"Queue" + x| >= 5;
  }

  /** The template after updatePath fills its port and queue from `path`. */
  function PfcwdRequest(path: Path): (r: Path)
    ensures |r.elem| == 4
  {
    UpdatedTemplate(path, PfcwdTemplate(), PfcwdParents)
  }

  /** v2rPortQueuePfcwdStats: fill the template from the request, then pop it. */
  method V2rPortQueuePfcwdStats(maps: CounterMaps, path: Path, g2s: seq<Entry>) returns (st: Status, g2s': seq<Entry>)
    ensures PopOutcome(maps, PfcwdRequest(path), TargetFields(path, PfcwdLeaf.name, []), st, g2s, g2s')
  {
    var tmpl := PfcwdTemplate();
    var request, fields := UpdatePath(path, tmpl, PfcwdParents, PfcwdLeaf, []);
    st, g2s' := PopPortQueuePfcwdStats(maps, request, fields, g2s);
  }

  /** The request's port and queue land at positions 1 and 2 of a template filled by updatePath. */
  lemma {:induction false} RequestNames(path: Path, tmpl: Path, pe: PathElem, qe: PathElem)
    requires |tmpl.elem| >= 3
    requires FirstNamed(path.elem, "Port") == Some(pe) && FirstNamed(path.elem, "Queue") == Some(qe)
    ensures RequestedPort(UpdatedTemplate(path, tmpl, PfcwdParents)) == KeyOf(pe, "name")
    ensures RequestedQueue(UpdatedTemplate(path, tmpl, PfcwdParents)) == KeyOf(qe, "name")
  {
    var r := UpdatedTemplate(path, tmpl, PfcwdParents);
    assert r.elem[1] == UpdatedElem(path, tmpl.elem[1], 1, PfcwdParents);
    assert r.elem[2] == UpdatedElem(path, tmpl.elem[2], 2, PfcwdParents);
  }

  /**
   * A request for queue `Queue<k>` of a known port on which PFC-WD is
   * enabled for that queue, with no field list, succeeds and writes exactly
   * the queue's PFC-WD counters and the port's PFC receive counter.
   */
  lemma {:induction false} ConcreteQueueRequest(maps: CounterMaps, path: Path, pe: PathElem, qe: PathElem, k: string,
                                                st: Status, g2s: seq<Entry>, g2s': seq<Entry>)
    requires FirstNamed(path.elem, "Port") == Some(pe) && FirstNamed(path.elem, "Queue") == Some(qe)
    requires KeyOf(pe, "name") != "*" && KeyOf(qe, "name") == "Queue" + k
    requires LastField(path.elem, "Pfcwd") == None
    requires Resolve(maps, KeyOf(pe, "name")) in maps.portName
    requires var n := Resolve(maps, KeyOf(pe, "name")); n in maps.pfcwdName && n + ":" + k in maps.pfcwdName[n]
    requires PopOutcome(maps, PfcwdRequest(path), TargetFields(path, "Pfcwd", []), st, g2s, g2s')
    ensures st == Success
    ensures var n := Resolve(maps, KeyOf(pe, "name"));
      forall e :: e in Added(g2s', g2s) <==>
        e == Entry(PfcwdRequest(path), [CountersTable(maps.pfcwdName[n][n + ":" + k], PfcwdQueueFields),
                                        CountersTable(maps.portName[n], [PortPfcField(k)])])
  {
    RequestNames(path, PfcwdTemplate(), pe, qe);
    var r := PfcwdRequest(path);
    var n := Resolve(maps, KeyOf(pe, "name"));
    assert |"Queue" + k| >= 5;
    assert HasPrefix("Queue" + k, "Queue");
    assert TrimPrefix("Queue" + k, "Queue") == k;
    assert TargetFields(path, "Pfcwd", []) == [];
    var e0 := Entry(r, [CountersTable(maps.pfcwdName[n][n + ":" + k], PfcwdQueueFields),
                        CountersTable(maps.portName[n], [PortPfcField(k)])]);
    assert LeafEntries(maps, r, []) == [e0];
    assert Expected(maps, r, [], e0);
  }

  /**
   * With aliases that translate back to their ports, no port aliased `*`
   * and an index in every PFC-WD queue key, a request for every queue of
   * every port succeeds.
   */
  lemma {:induction false} WildcardRequestSucceeds(maps: CounterMaps, path: Path, fields: seq<string>,
                                                   st: Status, g2s: seq<Entry>, g2s': seq<Entry>)
    requires |path.elem| >= 3 && RequestedPort(path) == "*" && RequestedQueue(path) == "*"
    requires forall p :: p in maps.portName ==> PortAlias(maps, p) != "*" && Resolve(maps, PortAlias(maps, p)) == p
    requires forall p :: p in maps.pfcwdName ==> forall q :: q in maps.pfcwdName[p] ==> HasQueueIndex(q)
    requires PopOutcome(maps, path, fields, st, g2s, g2s')
    ensures st == Success
  {
    forall p | p in maps.portName
      ensures ExpandedPortStatus(maps, path, p) == Success
    {
      var c := PortCopy(maps, path, p);
      assert RequestedPort(c) == PortAlias(maps, p);
      assert RequestedQueue(c) == "*";
    }
  }
}
