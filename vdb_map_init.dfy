/**
 * The package-level name maps of the virtual database client and their
 * loaders (virtual_database_client/map_init.go).  The CONFIG_DB and
 * COUNTERS_DB contents are abstract `RedisDb` inputs.
 */
module VdbMapInit {
  import opened Wrappers
  import opened GoStrings
  import opened Redis
  import opened GoMaps

  /** A snapshot of the five package-level maps that the path handlers read. */
  datatype CounterMaps = CounterMaps(
    portName: map<string, string>,                 // countersPortNameMap: port name to oid
    queueName: map<string, map<string, string>>,   // countersQueueNameMap: port to (port:index to oid)
    alias2name: map<string, string>,               // vendor alias to SONiC name
    name2alias: map<string, string>,               // SONiC name to vendor alias
    pfcwdName: map<string, map<string, string>>)   // port to its PFC-WD queues (port:index to oid)

  /** The vendor alias of SONiC port `port`, or the port itself when it has none. */
  function PortAlias(maps: CounterMaps, port: string): string
  {
    if port in maps.name2alias then maps.name2alias[port] else port
  }

  /** The SONiC name of a requested port: its alias translation, or the request itself. */
  function Resolve(maps: CounterMaps, requested: string): string
  {
    if requested in maps.alias2name then maps.alias2name[requested] else requested
  }

  const PfcwdTablePrefix: string := "PFC_WD_TABLE|"
  const PortTablePrefix: string := "PORT|"

  /**
   * The port part of a queue name `port:index`: the text before the first
   * `:`, which is `strings.Split(k, ":")[0]` (GoStrings.SplitFirstPiece).
   */
  function QueuePort(k: string): string { BeforeChar(k, ':') }

  /**
   * `g` holds every entry of `m` whose key is in `done` under the group
   * `port` names for that key, and nothing else; no group is empty.
   */
  ghost predicate GroupedUpTo(m: map<string, string>, g: map<string, map<string, string>>, done: set<string>,
                              port: string -> string)
  {
    && (forall k :: k in done ==> k in m && port(k) in g && k in g[port(k)] && g[port(k)][k] == m[k])
    && (forall p :: p in g ==> g[p] != map[] && forall k :: k in g[p] ==> k in done && port(k) == p)
  }

  /** `g` holds every entry of `m` under its port, and nothing else. */
  ghost predicate Grouped(m: map<string, string>, g: map<string, map<string, string>>)
  {
    GroupedUpTo(m, g, m.Keys, QueuePort)
  }

  /** The grouping loop of initCountersQueueNameMap, over the map in any order. */
  method GroupQueues(m: map<string, string>) returns (g: map<string, map<string, string>>)
    ensures Grouped(m, g)
  {
    g := map[];
    var remaining := m.Keys;
    ghost var done: set<string> := {};
    while remaining != {}
      invariant remaining !! done && remaining + done == m.Keys
      invariant GroupedUpTo(m, g, done, QueuePort)
      decreases |remaining|
    {
      var k :| k in remaining;
      GroupStep(m, g, done, k, QueuePort);
      g := AddToGroup(g, k, m[k], QueuePort);
      done := done + {k};
      remaining := remaining - {k};
    }
    GroupedAll(m, g, done, remaining);
  }

  lemma GroupedAll(m: map<string, string>, g: map<string, map<string, string>>, done: set<string>, remaining: set<string>)
    requires remaining == {} && remaining + done == m.Keys
    requires GroupedUpTo(m, g, done, QueuePort)
    ensures Grouped(m, g)
  {
    assert done == m.Keys;
  }

  /** `g` with `k` and its value added to the group `port` names for it. */
  function AddToGroup(g: map<string, map<string, string>>, k: string, v: string, port: string -> string): (g': map<string, map<string, string>>)
  {
    var p := port(k);
    g[p := (if p in g then g[p] else map[])[k := v]]
  }

  /** One grouping step keeps the grouping of the keys handled so far. */
  lemma {:induction false} GroupStep(m: map<string, string>, g: map<string, map<string, string>>, done: set<string>, k: string,
                  port: string -> string)
    requires k in m && k !in done
    requires GroupedUpTo(m, g, done, port)
    ensures GroupedUpTo(m, AddToGroup(g, k, m[k], port), done + {k}, port)
  {
    var g' := AddToGroup(g, k, m[k], port);
    var p := port(k);
    assert k in g'[p];
    forall x | x in done + {k}
      ensures x in m && port(x) in g' && x in g'[port(x)] && g'[port(x)][x] == m[x]
    {
      if x != k && port(x) == p {
        assert x in g[p];
      }
    }
  }

  /** The queue indices of the PFC-enabled priorities, in priority order, skipping unmapped ones. */
  function PfcIndices(priorities: seq<string>, pq: map<string, string>): (r: seq<string>)
    ensures |r| <= |priorities|
    ensures forall x :: x in r <==> exists p :: p in priorities && p in pq && pq[p] == x
  {
    if priorities == [] then []
    else
      var rest := PfcIndices(priorities[1..], pq);
      assert forall p :: p in priorities[1..] ==> p in priorities;
      assert forall p :: p in priorities ==> p == priorities[0] || p in priorities[1..];
      (if priorities[0] in pq then [pq[priorities[0]]] else []) + rest
  }

  /** The queue key `port:index` of COUNTERS_QUEUE_NAME_MAP. */
  function QueueKey(port: string, index: string): string { port + ":" + index }

  /** The PFC-WD queue map of one port: every index's queue key, with its oid. */
  function QueueMap(port: string, indices: seq<string>, q: map<string, string>): (r: map<string, string>)
    requires forall i :: i in indices ==> QueueKey(port, i) in q
    ensures forall i :: i in indices ==> QueueKey(port, i) in r
    ensures forall k :: k in r ==> k in q && r[k] == q[k]
    decreases |indices|
  {
    if indices == [] then map[]
    else
      var last := indices[|indices| - 1];
      var init := indices[..|indices| - 1];
      assert forall i :: i in init ==> i in indices;
      assert forall i :: i in indices ==> i in init || i == last;
      QueueMap(port, init, q)[QueueKey(port, last) := q[QueueKey(port, last)]]
  }

  /** The queues of `port` in COUNTERS_QUEUE_NAME_MAP; none for an unknown port. */
  function QueuesOf(qn: map<string, map<string, string>>, port: string): map<string, string>
  {
    if port in qn then qn[port] else map[]
  }

  /** Every enabled index of `port` is a queue in COUNTERS_QUEUE_NAME_MAP. */
  ghost predicate PortQueuesKnown(port: string, indices: seq<string>, qn: map<string, map<string, string>>)
  {
    forall i :: i in indices ==> QueueKey(port, i) in QueuesOf(qn, port)
  }

  /** A port's PFC-WD queue map holds the queue keys of the enabled indices and nothing else. */
  lemma {:induction false} QueueMapKeys(port: string, indices: seq<string>, q: map<string, string>)
    requires forall i :: i in indices ==> QueueKey(port, i) in q
    ensures forall k :: k in QueueMap(port, indices, q) <==> exists i :: i in indices && k == QueueKey(port, i)
    decreases |indices|
  {
    if indices != [] {
      var init := indices[..|indices| - 1];
      assert forall i :: i in init ==> i in indices;
      assert forall i :: i in indices ==> i in init || i == indices[|indices| - 1];
      QueueMapKeys(port, init, q);
    }
  }

  /** Every PFC-WD port has every enabled index as a queue in COUNTERS_QUEUE_NAME_MAP. */
  ghost predicate AllQueuesKnown(ports: set<string>, indices: seq<string>, qn: map<string, map<string, string>>)
  {
    forall p :: p in ports ==> PortQueuesKnown(p, indices, qn)
  }

  /** The ports named by the PFC_WD_TABLE keys. */
  function PfcwdPorts(db: RedisDb): set<string>
  {
    set k | k in KeysWithPrefix(db, PfcwdTablePrefix) :: TrimPrefix(k, PfcwdTablePrefix)
  }

  /** The PORT_QOS_MAP keys, the first of which holds `pfc_enable`. */
  function QosKeys(db: RedisDb): seq<string> { KeysWithPrefix(db, "PORT_QOS_MAP") }

  function PriorityToQueue(db: RedisDb): map<string, string> { HGetAll(db, "MAP_PFC_PRIORITY_TO_QUEUE|AZURE") }

  /**
   * What getPfcwdMap yields for CONFIG_DB `db` and the queue map `qn`:
   * whether it succeeds (`ok`) and the map it returns, `nil` read as empty.
   * Without PFC_WD_TABLE keys, without PORT_QOS_MAP keys, or with an empty
   * queue map, it succeeds with nothing; without `pfc_enable` it fails;
   * otherwise it succeeds exactly when every PFC-WD port has a queue for
   * every enabled index, and then maps each port to those queues.
   */
  ghost predicate PfcwdOutcome(db: RedisDb, qn: map<string, map<string, string>>, ok: bool, m: map<string, map<string, string>>)
  {
    if KeysWithPrefix(db, PfcwdTablePrefix) == [] || QosKeys(db) == [] then ok && m == map[]
    else
      var pri := HGet(db, QosKeys(db)[0], "pfc_enable");
      if pri.Err? then !ok && m == map[]
      else if |qn| == 0 then ok && m == map[]
      else
        var indices := PfcIndices(Split(pri.value, ","), PriorityToQueue(db));
        && (ok <==> AllQueuesKnown(PfcwdPorts(db), indices, qn))
        && (ok ==> m.Keys == PfcwdPorts(db) && Filled(m, PfcwdPorts(db), indices, qn))
        && (!ok ==> m == map[])
  }

  /** getPfcwdMap, with CONFIG_DB as `db` and the loaded queue map as `qn`. */
  method GetPfcwdMap(db: RedisDb, qn: map<string, map<string, string>>) returns (r: Result<map<string, map<string, string>>>)
    ensures PfcwdOutcome(db, qn, r.Ok?, if r.Ok? then r.value else map[])
    ensures r.Ok? || r.Err?
  {
    var keys := KeysWithPrefix(db, PfcwdTablePrefix);
    if |keys| == 0 {
      return Ok(map[]);
    }
    var names := PfcwdNames(keys);
    var qos := QosKeys(db);
    if |qos| == 0 {
      return Ok(map[]);
    }
    var pri := HGet(db, qos[0], "pfc_enable");
    if !pri.Ok? {
      return Err(pri.msg);
    }
    var indices := EnabledIndices(Split(pri.value, ","), PriorityToQueue(db));
    if |qn| == 0 {
      return Ok(map[]);
    }
    assert names.Keys == PfcwdPorts(db);
    r := FillPfcwdQueues(names, indices, qn);
  }

  /** The ports in `done` have all their queues known, and their queue maps in `out`. */
  ghost predicate Filled(out: map<string, map<string, string>>, done: set<string>, indices: seq<string>,
                         qn: map<string, map<string, string>>)
  {
    forall p :: p in done ==> p in out && PortQueuesKnown(p, indices, qn) && out[p] == QueueMap(p, indices, QueuesOf(qn, p))
  }

  /** The first loop of getPfcwdMap: an empty queue map for every PFC_WD_TABLE port. */
  method PfcwdNames(keys: seq<string>) returns (names: map<string, map<string, string>>)
    ensures names.Keys == set k | k in keys :: TrimPrefix(k, PfcwdTablePrefix)
    ensures forall p :: p in names ==> names[p] == map[]
  {
    names := map[];
    for j := 0 to |keys|
      invariant names.Keys == set k | k in keys[..j] :: TrimPrefix(k, PfcwdTablePrefix)
      invariant forall p :: p in names ==> names[p] == map[]
    {
      assert keys[..j + 1] == keys[..j] + [keys[j]];
      names := names[TrimPrefix(keys[j], PfcwdTablePrefix) := map[]];
    }
    assert keys[..|keys|] == keys;
  }

  /** The priority loop of getPfcwdMap: the queue index of each enabled priority that has one. */
  method EnabledIndices(priorities: seq<string>, pq: map<string, string>) returns (indices: seq<string>)
    ensures indices == PfcIndices(priorities, pq)
  {
    indices := [];
    for t := 0 to |priorities|
      invariant indices + PfcIndices(priorities[t..], pq) == PfcIndices(priorities, pq)
    {
      assert priorities[t..][1..] == priorities[t + 1..];
      ghost var rest := PfcIndices(priorities[t + 1..], pq);
      assert PfcIndices(priorities[t..], pq) == (if priorities[t] in pq then [pq[priorities[t]]] else []) + rest;
      if priorities[t] in pq {
        assert indices + ([pq[priorities[t]]] + rest) == (indices + [pq[priorities[t]]]) + rest;
        indices := indices + [pq[priorities[t]]];
      } else {
        assert [] + rest == rest;
      }
    }
    assert PfcIndices(priorities[|priorities|..], pq) == [];
  }

  /** The outer loop of getPfcwdMap: every PFC-WD port's queue map, or the first missing queue. */
  method FillPfcwdQueues(names: map<string, map<string, string>>, indices: seq<string>, qn: map<string, map<string, string>>)
    returns (r: Result<map<string, map<string, string>>>)
    ensures r.Ok? <==> AllQueuesKnown(names.Keys, indices, qn)
    ensures r.Ok? ==> r.value.Keys == names.Keys && Filled(r.value, names.Keys, indices, qn)
    ensures r.Ok? || r.Err?
  {
    KeyOrderExists(names.Keys);
    var order :| IsKeyOrder(order, names.Keys);
    var out := names;
    for i := 0 to |order|
      invariant out.Keys == names.Keys
      invariant forall t :: 0 <= t < i ==> PortQueuesKnown(order[t], indices, qn)
      invariant forall t :: 0 <= t < i ==> out[order[t]] == QueueMap(order[t], indices, QueuesOf(qn, order[t]))
    {
      var m := PortQueues(order[i], indices, qn);
      if !m.Ok? {
        return Err(m.msg);
      }
      out := out[order[i] := m.value];
    }
    return Ok(out);
  }

  /** The inner loop of getPfcwdMap: the queue map of one port, or None at the first unknown queue. */
  method PortQueues(port: string, indices: seq<string>, qn: map<string, map<string, string>>)
    returns (m: Result<map<string, string>>)
    ensures m.Ok? <==> PortQueuesKnown(port, indices, qn)
    ensures m.Ok? ==> m.value == QueueMap(port, indices, QueuesOf(qn, port))
    ensures m.Ok? || m.Err?
  {
    var q := QueuesOf(qn, port);
    var acc: map<string, string> := map[];
    var s := 0;
    while s < |indices|
      invariant 0 <= s <= |indices|
      invariant forall i :: i in indices[..s] ==> QueueKey(port, i) in q
      invariant acc == QueueMap(port, indices[..s], q)
    {
      var key := QueueKey(port, indices[s]);
      if key !in q {
        assert indices[s] in indices;
        return Err("key " + key + " not exists in COUNTERS_QUEUE_NAME_MAP");
      }
      ghost var next := indices[..s + 1];
      assert next[..s] == indices[..s] && next[s] == indices[s];
      assert forall i :: i in next ==> i in indices[..s] || i == indices[s];
      assert QueueMap(port, next, q) == acc[key := q[key]];
      acc := acc[key := q[key]];
      s := s + 1;
    }
    assert indices[..s] == indices;
    return Ok(acc);
  }

  /** Every alias and every name of the port table, as the PORT keys list them. */
  ghost predicate AliasesRead(db: RedisDb)
  {
    forall k :: k in KeysWithPrefix(db, PortTablePrefix) ==> HGet(db, k, "alias").Ok?
  }

  /** Both alias maps after recording that port `name` has alias `alias`. */
  function AddAlias(maps: (map<string, string>, map<string, string>), alias: string, name: string): (map<string, string>, map<string, string>)
  {
    (maps.0[alias := name], maps.1[name := alias])
  }

  /** The alias maps built from the PORT keys `keys` in order; a later key overwrites an earlier one. */
  function AliasMaps(db: RedisDb, keys: seq<string>): (map<string, string>, map<string, string>)
    requires forall k :: k in keys ==> HGet(db, k, "alias").Ok?
    decreases |keys|
  {
    if keys == [] then (map[], map[])
    else
      var k := keys[|keys| - 1];
      AddAlias(AliasMaps(db, keys[..|keys| - 1]), HGet(db, k, "alias").value, TrimPrefix(k, PortTablePrefix))
  }

  /** getAliasMap, with CONFIG_DB as `db`: any alias read failure gives an error and no maps. */
  method GetAliasMap(db: RedisDb) returns (r: Result<(map<string, string>, map<string, string>)>)
    ensures r.Ok? <==> AliasesRead(db)
    ensures r.Ok? ==> r.value == AliasMaps(db, KeysWithPrefix(db, PortTablePrefix))
    ensures r.Ok? || r.Err?
  {
    var keys := KeysWithPrefix(db, PortTablePrefix);
    var maps: (map<string, string>, map<string, string>) := (map[], map[]);
    for i := 0 to |keys|
      invariant forall k :: k in keys[..i] ==> HGet(db, k, "alias").Ok?
      invariant maps == AliasMaps(db, keys[..i])
    {
      var alias := HGet(db, keys[i], "alias");
      if !alias.Ok? {
        assert keys[i] in keys;
        return Err(alias.msg);
      }
      ghost var next := keys[..i + 1];
      assert next[..i] == keys[..i] && next[i] == keys[i];
      assert forall k :: k in next ==> k in keys[..i] || k == keys[i];
      maps := AddAlias(maps, alias.value, TrimPrefix(keys[i], PortTablePrefix));
      assert maps == AliasMaps(db, next);
    }
    assert keys[..|keys|] == keys;
    return Ok(maps);
  }

  /**
   * With distinct PORT keys, translating an alias to its name and back gives
   * the alias again; every name has an alias and every alias a name.
   */
  lemma {:induction false} AliasRoundTrip(db: RedisDb, keys: seq<string>)
    requires forall k :: k in keys ==> HGet(db, k, "alias").Ok? && HasPrefix(k, PortTablePrefix)
    requires forall i, j :: 0 <= i < j < |keys| ==> keys[i] != keys[j]
    ensures var (a2n, n2a) := AliasMaps(db, keys);
      && (forall a :: a in a2n ==> a2n[a] in n2a && n2a[a2n[a]] == a)
      && (forall k :: k in keys ==> TrimPrefix(k, PortTablePrefix) in n2a && n2a[TrimPrefix(k, PortTablePrefix)] == HGet(db, k, "alias").value)
    decreases |keys|
  {
    if keys != [] {
      var init := keys[..|keys| - 1];
      var k := keys[|keys| - 1];
      assert forall x :: x in init ==> x in keys;
      AliasRoundTrip(db, init);
      var name := TrimPrefix(k, PortTablePrefix);
      forall x | x in init ensures TrimPrefix(x, PortTablePrefix) != name {
        var i :| 0 <= i < |init| && init[i] == x;
        assert keys[i] == x && x != k;
        assert PortTablePrefix + TrimPrefix(x, PortTablePrefix) == x;
        assert PortTablePrefix + name == k;
      }
      var (a0, n0) := AliasMaps(db, init);
      forall a | a in a0 && a0[a] == name ensures false {
        NameComesFromKey(db, init, a);
      }
    }
  }

  lemma {:induction false} NameComesFromKey(db: RedisDb, keys: seq<string>, a: string)
    requires forall k :: k in keys ==> HGet(db, k, "alias").Ok?
    requires a in AliasMaps(db, keys).0
    ensures exists k :: k in keys && AliasMaps(db, keys).0[a] == TrimPrefix(k, PortTablePrefix)
    decreases |keys|
  {
    var init := keys[..|keys| - 1];
    var k := keys[|keys| - 1];
    assert forall x :: x in init ==> x in keys;
    if HGet(db, k, "alias").value != a {
      NameComesFromKey(db, init, a);
    }
  }

  /** The package-level maps, loaded lazily by the `init*` functions. */
  class PackageMaps {
    var portName: map<string, string>
    var queueName: map<string, map<string, string>>
    var alias2name: map<string, string>
    var name2alias: map<string, string>
    var pfcwdName: map<string, map<string, string>>

    constructor ()
      ensures portName == map[] && queueName == map[] && alias2name == map[]
      ensures name2alias == map[] && pfcwdName == map[]
    {
      portName, queueName, alias2name, name2alias, pfcwdName := map[], map[], map[], map[], map[];
    }

    function Snapshot(): CounterMaps
      reads this
    {
      CounterMaps(portName, queueName, alias2name, name2alias, pfcwdName)
    }

    /** initCountersPortNameMap: loads COUNTERS_PORT_NAME_MAP only when the map is empty. */
    method InitCountersPortNameMap(countersDb: RedisDb) returns (st: Status)
      modifies this
      ensures st == Success
      ensures |old(portName)| == 0 ==> portName == HGetAll(countersDb, "COUNTERS_PORT_NAME_MAP")
      ensures |old(portName)| != 0 ==> portName == old(portName)
      ensures queueName == old(queueName) && alias2name == old(alias2name)
      ensures name2alias == old(name2alias) && pfcwdName == old(pfcwdName)
    {
      if |portName| == 0 {
        portName := HGetAll(countersDb, "COUNTERS_PORT_NAME_MAP");
      }
      return Success;
    }

    /** initCountersQueueNameMap: groups COUNTERS_QUEUE_NAME_MAP by port, only when the map is empty. */
    method InitCountersQueueNameMap(countersDb: RedisDb) returns (st: Status)
      modifies this
      ensures st == Success
      ensures |old(queueName)| == 0 ==> Grouped(HGetAll(countersDb, "COUNTERS_QUEUE_NAME_MAP"), queueName)
      ensures |old(queueName)| != 0 ==> queueName == old(queueName)
      ensures portName == old(portName) && alias2name == old(alias2name)
      ensures name2alias == old(name2alias) && pfcwdName == old(pfcwdName)
    {
      if |queueName| == 0 {
        queueName := GroupQueues(HGetAll(countersDb, "COUNTERS_QUEUE_NAME_MAP"));
      }
      return Success;
    }

    /** initAliasMap: loads both alias maps when alias2name is empty; a failed load leaves them empty. */
    method InitAliasMap(configDb: RedisDb) returns (st: Status)
      modifies this
      ensures |old(alias2name)| != 0 ==> st == Success && alias2name == old(alias2name) && name2alias == old(name2alias)
      ensures !st.Crash?
      ensures |old(alias2name)| == 0 ==> (st.Success? <==> AliasesRead(configDb))
      ensures |old(alias2name)| == 0 && st.Success? ==>
        (alias2name, name2alias) == AliasMaps(configDb, KeysWithPrefix(configDb, PortTablePrefix))
      ensures |old(alias2name)| == 0 && !st.Success? ==> alias2name == map[] && name2alias == map[]
      ensures portName == old(portName) && queueName == old(queueName) && pfcwdName == old(pfcwdName)
    {
      if |alias2name| == 0 {
        var r := GetAliasMap(configDb);
        if r.Ok? {
          alias2name, name2alias := r.value.0, r.value.1;
        } else {
          alias2name, name2alias := map[], map[];
          return Failure(r.msg);
        }
      }
      return Success;
    }

    /** initCountersPfcwdNameMap: loads the PFC-WD map when it is empty; a failed load leaves it empty. */
    method InitCountersPfcwdNameMap(configDb: RedisDb) returns (st: Status)
      modifies this
      ensures |old(pfcwdName)| != 0 ==> st == Success && pfcwdName == old(pfcwdName)
      ensures |old(pfcwdName)| == 0 ==> PfcwdOutcome(configDb, queueName, st.Success?, pfcwdName)
      ensures !st.Crash?
      ensures portName == old(portName) && queueName == old(queueName)
      ensures alias2name == old(alias2name) && name2alias == old(name2alias)
    {
      if |pfcwdName| != 0 {
        return Success;
      }
      var r := GetPfcwdMap(configDb, queueName);
      pfcwdName := if r.Ok? then r.value else map[];
      st := if r.Ok? then Success else Failure(r.msg);
    }
  }
}
