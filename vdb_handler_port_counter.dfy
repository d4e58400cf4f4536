/**
 * The port base-counter handler of the virtual database client
 * (virtual_database_client/handler_port_counter.go): a request for
 * Interfaces/Port[name=<port>]/BaseCounter reads, for each port it names,
 * the fields of the port's COUNTERS_DB hash that match two patterns.  The
 * port-level pop here also serves the PFC counter handler, whose code
 * differs only in its leaf name and its patterns.
 */
module VdbHandlerPortCounter {
  import opened Wrappers
  import opened GoMaps
  import opened Gnmi
  import opened VdbTypes
  import opened VdbMapInit
  import VdbHandlerPfcwd

  /** GetTmpl_PortBaseCounterStats: Interfaces/Port[name=*]/BaseCounter. */
  function BaseCounterTemplate(): (t: Path)
    ensures |t.elem| == 3 && KeyOf(t.elem[1], "name") == "*"
  {
    Path("", "", [PathElem("Interfaces", map[]), PathElem("Port", map["name" := "*"]), PathElem("BaseCounter", map[])])
  }

  const PortParents: map<nat, string> := map[1 := "Port"]
  const BaseCounterLeaf: VdbHandlerPfcwd.LeafConfig := VdbHandlerPfcwd.LeafConfig(2, "BaseCounter")
  const BaseCounterPatterns: seq<string> := ["SAI_PORT_STAT_I.*", "SAI_PORT_STAT_ETHER.*"]

  /** The port a request path names at position 1. */
  function RequestedPort(path: Path): string
    requires |path.elem| >= 2
  {
    KeyOf(path.elem[1], "name")
  }

  /** A COUNTERS_DB table path reading the fields of `oid` that match `patterns`. */
  function PatternTable(oid: string, patterns: seq<string>): TablePath
  {
    TablePath(CountersDb, "COUNTERS" + CountersSeparator() + oid, CountersSeparator(), [], patterns)
  }

  /**
   * The outcome of the port-level pop for a path naming one port: an
   * unknown port fails, and so does any request for particular fields.
   */
  function PortStatus(maps: CounterMaps, path: Path, fields: seq<string>): Status
    requires |path.elem| >= 2
  {
    var alias := RequestedPort(path);
    var name := Resolve(maps, alias);
    if name !in maps.portName then Failure(name + " not a valid sonic interface. Vendor alias is " + alias)
    else if |fields| > 0 then Failure("Subscribe to field of Path not supported")
    else Success
  }

  /** The write the port-level pop makes for a path naming one port. */
  function PortEntries(maps: CounterMaps, path: Path, fields: seq<string>, patterns: seq<string>): (r: seq<Entry>)
    requires |path.elem| >= 2
    ensures r != [] <==> PortStatus(maps, path, fields) == Success
    ensures forall e :: e in r ==> e.path == path && |e.tablePaths| == 1 && e.tablePaths[0].patterns == patterns
  {
    if PortStatus(maps, path, fields) == Success then
      [Entry(path, [PatternTable(maps.portName[Resolve(maps, RequestedPort(path))], patterns)])]
    else []
  }

  function PortCopy(maps: CounterMaps, path: Path, p: string): Path
    requires |path.elem| >= 2
  {
    CopyWithName(path, 1, PortAlias(maps, p))
  }

  /** The outcome for port `p` of a `*` port; an alias `*` recurses without end. */
  function ExpandedStatus(maps: CounterMaps, path: Path, fields: seq<string>, p: string): Status
    requires |path.elem| >= 2
  {
    if PortAlias(maps, p) == "*" then Crash("stack overflow")
    else PortStatus(maps, PortCopy(maps, path, p), fields)
  }

  /** The writes the port-level pop may make for `path`. */
  ghost predicate Expected(maps: CounterMaps, path: Path, fields: seq<string>, patterns: seq<string>, e: Entry)
    requires |path.elem| >= 2
  {
    if RequestedPort(path) == "*" then
      exists p :: p in maps.portName && PortAlias(maps, p) != "*" && e in PortEntries(maps, PortCopy(maps, path, p), fields, patterns)
    else e in PortEntries(maps, path, fields, patterns)
  }

  ghost predicate WritesExpected(maps: CounterMaps, path: Path, fields: seq<string>, patterns: seq<string>,
                                 before: seq<Entry>, after: seq<Entry>)
    requires |path.elem| >= 2
  {
    Extends(after, before) && forall e :: e in Added(after, before) ==> Expected(maps, path, fields, patterns, e)
  }

  lemma WritesExpectedTrans(maps: CounterMaps, path: Path, fields: seq<string>, patterns: seq<string>,
                            a: seq<Entry>, b: seq<Entry>, c: seq<Entry>)
    requires |path.elem| >= 2
    requires WritesExpected(maps, path, fields, patterns, a, b) && WritesExpected(maps, path, fields, patterns, b, c)
    ensures WritesExpected(maps, path, fields, patterns, a, c)
    ensures forall e :: e in Added(b, a) ==> e in Added(c, a)
  {
    ExtendsTrans(a, b, c);
  }

  /**
   * The outcome of the port-level pop: only expected entries are written;
   * the status is the port's own (for a `*` port: success exactly when
   * every port succeeds, else the failure of one of them); on success every
   * expected entry is written.
   */
  /** The statuses a pop of `path` may return. */
  ghost predicate Allows(maps: CounterMaps, path: Path, fields: seq<string>, st: Status)
    requires |path.elem| >= 2
  {
    && (RequestedPort(path) != "*" ==> st == PortStatus(maps, path, fields))
    && (RequestedPort(path) == "*" ==>
          (st.Success? <==> forall p :: p in maps.portName ==> ExpandedStatus(maps, path, fields, p) == Success)
          && (!st.Success? ==> exists p :: p in maps.portName && st == ExpandedStatus(maps, path, fields, p)))
  }

  /** Every entry the request stands for was written between `before` and `after`. */
  ghost predicate Covers(maps: CounterMaps, path: Path, fields: seq<string>, patterns: seq<string>,
                         before: seq<Entry>, after: seq<Entry>)
    requires |path.elem| >= 2
    requires Extends(after, before)
  {
    forall e :: Expected(maps, path, fields, patterns, e) ==> e in Added(after, before)
  }

  ghost predicate PopOutcome(maps: CounterMaps, path: Path, fields: seq<string>, patterns: seq<string>, st: Status,
                             before: seq<Entry>, after: seq<Entry>)
    requires |path.elem| >= 2
  {
    && WritesExpected(maps, path, fields, patterns, before, after)
    && Allows(maps, path, fields, st)
    && (st.Success? ==> Covers(maps, path, fields, patterns, before, after))
  }

  function Wild(path: Path): nat
    requires |path.elem| >= 2
  {
    if RequestedPort(path) == "*" then 1 else 0
  }

  /**
   * pop_PortBaseCounterStats (and pop_PortPfcCounterStats, with their own
   * patterns): a `*` port recurses once per port; a known port with no
   * field list writes one table path matching `patterns`.
   */
  method PopPortCounterStats(maps: CounterMaps, path: Path, fields: seq<string>, patterns: seq<string>, g2s: seq<Entry>)
    returns (st: Status, g2s': seq<Entry>)
    requires |path.elem| >= 2
    ensures PopOutcome(maps, path, fields, patterns, st, g2s, g2s')
    decreases Wild(path), 1
  {
    if RequestedPort(path) == "*" {
      st, g2s' := ExpandPorts(maps, path, fields, patterns, g2s);
      return;
    }
    var alias := RequestedPort(path);
    var name := Resolve(maps, alias);
    if name !in maps.portName {
      st, g2s' := Failure(name + " not a valid sonic interface. Vendor alias is " + alias), g2s;
    } else if |fields| > 0 {
      st, g2s' := Failure("Subscribe to field of Path not supported"), g2s;
    } else {
      var table := PatternTable(maps.portName[name], patterns);
      st, g2s' := Success, g2s + [Entry(path, [table])];
    }
    assert g2s'[..|g2s|] == g2s;
    assert Added(g2s', g2s) == PortEntries(maps, path, fields, patterns);
  }

  ghost predicate PortCovered(maps: CounterMaps, path: Path, fields: seq<string>, patterns: seq<string>,
                              p: string, added: seq<Entry>)
    requires |path.elem| >= 2
  {
    forall e :: e in PortEntries(maps, PortCopy(maps, path, p), fields, patterns) ==> e in added
  }

  /** The ports of a `*` port already expanded, all successfully and with their writes made. */
  ghost predicate PortsDone(maps: CounterMaps, path: Path, fields: seq<string>, patterns: seq<string>,
                            done: seq<string>, added: seq<Entry>)
    requires |path.elem| >= 2
  {
    forall t :: 0 <= t < |done| ==>
      ExpandedStatus(maps, path, fields, done[t]) == Success && PortCovered(maps, path, fields, patterns, done[t], added)
  }

  /** The `*` port loop: one recursive call per port, the first failure ends it. */
  method ExpandPorts(maps: CounterMaps, path: Path, fields: seq<string>, patterns: seq<string>, g2s: seq<Entry>)
    returns (st: Status, g2s': seq<Entry>)
    requires |path.elem| >= 2 && RequestedPort(path) == "*"
    ensures PopOutcome(maps, path, fields, patterns, st, g2s, g2s')
    decreases Wild(path), 0
  {
    KeyOrderExists(maps.portName.Keys);
    var order :| IsKeyOrder(order, maps.portName.Keys);
    g2s' := g2s;
    st := Success;
    ghost var failed := "";
    for i := 0 to |order|
      invariant WritesExpected(maps, path, fields, patterns, g2s, g2s')
      invariant PortsDone(maps, path, fields, patterns, order[..i], Added(g2s', g2s))
      invariant st == Success
    {
      var port := order[i];
      var oport := PortAlias(maps, port);
      if oport == "*" {
        st, failed := Crash("stack overflow"), port;
        break;
      }
      var copy := VdbHandlerPfcwd.Deepcopy(path);
      copy := copy.(elem := copy.elem[1 := PathElem(copy.elem[1].name, copy.elem[1].key["name" := oport])]);
      assert copy == PortCopy(maps, path, port);
      var s, next := PopPortCounterStats(maps, copy, fields, patterns, g2s');
      PortStep(maps, path, fields, patterns, port, g2s', next);
      WritesExpectedTrans(maps, path, fields, patterns, g2s, g2s', next);
      if !s.Success? {
        st, g2s', failed := s, next, port;
        break;
      }
      PortsDoneStep(maps, path, fields, patterns, order, i, Added(g2s', g2s), Added(next, g2s'), Added(next, g2s));
      g2s' := next;
    }
    if st.Success? {
      assert order[..|order|] == order;
      PortsAllDone(maps, path, fields, patterns, order, g2s, g2s');
    }
  }

  /** The writes of one port's recursive call are expected writes of the `*` port. */
  lemma PortStep(maps: CounterMaps, path: Path, fields: seq<string>, patterns: seq<string>, port: string,
                 g2s: seq<Entry>, g2s': seq<Entry>)
    requires |path.elem| >= 2 && RequestedPort(path) == "*" && port in maps.portName && PortAlias(maps, port) != "*"
    requires Extends(g2s', g2s)
    requires forall e :: e in Added(g2s', g2s) ==> Expected(maps, PortCopy(maps, path, port), fields, patterns, e)
    ensures WritesExpected(maps, path, fields, patterns, g2s, g2s')
  {
    forall e | e in Added(g2s', g2s)
      ensures Expected(maps, path, fields, patterns, e)
    {
      assert e in PortEntries(maps, PortCopy(maps, path, port), fields, patterns);
    }
  }

  lemma PortsDoneStep(maps: CounterMaps, path: Path, fields: seq<string>, patterns: seq<string>, order: seq<string>, i: nat,
                      a: seq<Entry>, c: seq<Entry>, b: seq<Entry>)
    requires |path.elem| >= 2 && i < |order|
    requires PortsDone(maps, path, fields, patterns, order[..i], a)
    requires forall e :: e in a ==> e in b
    requires forall e :: e in c ==> e in b
    requires ExpandedStatus(maps, path, fields, order[i]) == Success
    requires PortCovered(maps, path, fields, patterns, order[i], c)
    ensures PortsDone(maps, path, fields, patterns, order[..i + 1], b)
  {
    assert order[..i + 1] == order[..i] + [order[i]];
  }

  lemma PortsAllDone(maps: CounterMaps, path: Path, fields: seq<string>, patterns: seq<string>, order: seq<string>,
                     g2s: seq<Entry>, g2s': seq<Entry>)
    requires |path.elem| >= 2 && RequestedPort(path) == "*"
    requires IsKeyOrder(order, maps.portName.Keys)
    requires WritesExpected(maps, path, fields, patterns, g2s, g2s')
    requires PortsDone(maps, path, fields, patterns, order, Added(g2s', g2s))
    ensures PopOutcome(maps, path, fields, patterns, Success, g2s, g2s')
  {
    forall p | p in maps.portName
      ensures ExpandedStatus(maps, path, fields, p) == Success
    {
      var t :| 0 <= t < |order| && order[t] == p;
    }
    forall e | Expected(maps, path, fields, patterns, e)
      ensures e in Added(g2s', g2s)
    {
      var p :| p in maps.portName && PortAlias(maps, p) != "*" && e in PortEntries(maps, PortCopy(maps, path, p), fields, patterns);
      var t :| 0 <= t < |order| && order[t] == p;
      assert PortCovered(maps, path, fields, patterns, order[t], Added(g2s', g2s));
    }
  }

  /** v2rPortBaseCounterStats: fill the template's port from the request, then pop it. */
  method V2rPortBaseCounterStats(maps: CounterMaps, path: Path, g2s: seq<Entry>) returns (st: Status, g2s': seq<Entry>)
    ensures PopOutcome(maps, VdbHandlerPfcwd.UpdatedTemplate(path, BaseCounterTemplate(), PortParents),
                       VdbHandlerPfcwd.TargetFields(path, BaseCounterLeaf.name, []), BaseCounterPatterns, st, g2s, g2s')
  {
    var tmpl := BaseCounterTemplate();
    var request, fields := VdbHandlerPfcwd.UpdatePath(path, tmpl, PortParents, BaseCounterLeaf, []);
    st, g2s' := PopPortCounterStats(maps, request, fields, BaseCounterPatterns, g2s);
  }

  /**
   * Port counters cannot be narrowed to fields: a field list fails for a
   * known port or a non-empty `*` port, and nothing is written.
   */
  lemma {:induction false} FieldRequestsFail(maps: CounterMaps, path: Path, fields: seq<string>, patterns: seq<string>,
                                             st: Status, g2s: seq<Entry>, g2s': seq<Entry>)
    requires |path.elem| >= 2 && |fields| > 0
    requires RequestedPort(path) != "*" || maps.portName != map[]
    requires PopOutcome(maps, path, fields, patterns, st, g2s, g2s')
    ensures !st.Success?
    ensures g2s' == g2s
  {
    if RequestedPort(path) == "*" {
      var p :| p in maps.portName;
      assert ExpandedStatus(maps, path, fields, p) != Success;
    }
    NothingExpected(maps, path, fields, patterns);
    NoWrites(g2s', g2s);
  }

  /** With a field list no write is expected. */
  lemma NothingExpected(maps: CounterMaps, path: Path, fields: seq<string>, patterns: seq<string>)
    requires |path.elem| >= 2 && |fields| > 0
    ensures forall e :: !Expected(maps, path, fields, patterns, e)
  {
  }

  /**
   * A request naming one known port and no fields succeeds and writes only
   * the port's pattern table path, under the template filled from the request.
   */
  lemma {:induction false} KnownPortRequest(maps: CounterMaps, path: Path, tmpl: Path, leaf: string, patterns: seq<string>,
                                            pe: PathElem, st: Status, g2s: seq<Entry>, g2s': seq<Entry>)
    requires |tmpl.elem| >= 2
    requires VdbHandlerPfcwd.FirstNamed(path.elem, "Port") == Some(pe)
    requires KeyOf(pe, "name") != "*" && Resolve(maps, KeyOf(pe, "name")) in maps.portName
    requires VdbHandlerPfcwd.LastField(path.elem, leaf) == None
    requires PopOutcome(maps, VdbHandlerPfcwd.UpdatedTemplate(path, tmpl, PortParents),
                        VdbHandlerPfcwd.TargetFields(path, leaf, []), patterns, st, g2s, g2s')
    ensures st == Success
    ensures forall e :: e in Added(g2s', g2s) <==>
      e == Entry(VdbHandlerPfcwd.UpdatedTemplate(path, tmpl, PortParents),
                 [PatternTable(maps.portName[Resolve(maps, KeyOf(pe, "name"))], patterns)])
  {
    var r := VdbHandlerPfcwd.UpdatedTemplate(path, tmpl, PortParents);
    assert r.elem[1] == VdbHandlerPfcwd.UpdatedElem(path, tmpl.elem[1], 1, PortParents);
    assert RequestedPort(r) == KeyOf(pe, "name");
    assert VdbHandlerPfcwd.TargetFields(path, leaf, []) == [];
    var e0 := Entry(r, [PatternTable(maps.portName[Resolve(maps, KeyOf(pe, "name"))], patterns)]);
    assert PortEntries(maps, r, [], patterns) == [e0];
    assert Expected(maps, r, [], patterns, e0);
  }
}
