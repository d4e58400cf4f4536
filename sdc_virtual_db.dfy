/**
 * Virtual-path translation of the SONiC data client, virtual_db.go
 * revision: port and queue paths of COUNTERS_DB are expanded into COUNTERS
 * table entries, translating vendor port aliases to SONiC names on the way
 * in and back on the way out.
 *
 * The package-level maps are the class `VirtualDbMaps`, loaded lazily from
 * COUNTERS_DB and CONFIG_DB; the translators read a snapshot of them.  The
 * translation trie (sonic_data_client/trie.go) is not part of this model:
 * its lookup is the parameter `find`.
 */
module SdcVirtualDb {
  import opened Wrappers
  import opened GoStrings
  import opened GoMaps
  import opened Redis
  import opened SdcDbTypes
  import SdcPath
  import VdbMapInit

  /** The four package-level maps the translators read. */
  datatype V2rMaps = V2rMaps(
    portName: map<string, string>,    // countersPortNameMap: SONiC port name to oid
    queueName: map<string, string>,   // countersQueueNameMap: "port:index" to oid
    e2i: map<string, string>,         // vendor alias to SONiC name
    i2e: map<string, string>)         // SONiC name to vendor alias

  /** The name a SONiC port is reported under: its alias, or itself when it has none. */
  function ExternalName(maps: V2rMaps, port: string): string
  {
    if port in maps.i2e then maps.i2e[port] else port
  }

  /** The SONiC name of a requested port: its alias translation, or the request itself. */
  function InternalName(maps: V2rMaps, requested: string): string
  {
    if requested in maps.e2i then maps.e2i[requested] else requested
  }

  /** The translated alias, when the request was one; "" otherwise. */
  function AliasRequested(maps: V2rMaps, requested: string): string
  {
    if requested in maps.e2i then requested else ""
  }

  /** A translator's input: a registered COUNTERS_DB path of three elements or more. */
  predicate Registered(paths: seq<string>)
  {
    3 <= |paths| && paths[0] == "COUNTERS_DB"
  }

  function KeepAll(name: string): bool { true }

  /**
   * The table path of one port of a wildcard: keyed by the port's oid and
   * reported under the port's external name.
   */
  function PortEntry(maps: V2rMaps, paths: seq<string>, field: string): (string, string) -> DbTablePath
    requires |paths| >= 2
  {
    var db, tbl, sep := paths[0], paths[1], SdcPath.Separator(paths[0]);
    (port, oid) => DbTablePath(db, tbl, oid, sep, field, "", ExternalName(maps, port), "", field)
  }

  /**
   * The port translators for a visiting order of the port map: a wildcard
   * expands to every port, a single port (possibly an alias) to its own
   * entry.  `field` is "" for v2rEthPortStats and the requested field for
   * v2rEthPortFieldStats; `pad` is the space that only the latter's error
   * message has around it.
   */
  function PortStats(maps: V2rMaps, paths: seq<string>, field: string, pad: string, order: seq<string>): (r: Result<seq<DbTablePath>>)
    requires Registered(paths) && IsKeyOrder(order, maps.portName.Keys)
  {
    if HasSuffix(paths[2], "*") then Ok(Collect(maps.portName, order, KeepAll, PortEntry(maps, paths, field)))
    else
      var iport := InternalName(maps, paths[2]);
      if iport !in maps.portName then
        Err(pad + iport + " not a valid internal port, external port is " + AliasRequested(maps, paths[2]) + pad)
      else Ok([DbTablePath(paths[0], paths[1], maps.portName[iport], SdcPath.Separator(paths[0]), field, "", "", "", "")])
  }

  /**
   * A wildcard yields one table path per port, reported under the port's
   * alias when it has one and its SONiC name otherwise.
   */
  lemma PortStatsWildcard(maps: V2rMaps, paths: seq<string>, field: string, pad: string, order: seq<string>, x: DbTablePath)
    requires Registered(paths) && IsKeyOrder(order, maps.portName.Keys) && HasSuffix(paths[2], "*")
    ensures PortStats(maps, paths, field, pad, order).Ok?
    ensures |PortStats(maps, paths, field, pad, order).value| == |maps.portName|
    ensures x in PortStats(maps, paths, field, pad, order).value <==>
              exists port :: port in maps.portName
                && x == DbTablePath(paths[0], paths[1], maps.portName[port], ":", field, "",
                                    if port in maps.i2e then maps.i2e[port] else port, "", field)
  {
    CollectOverKeys(maps.portName, order, KeepAll, PortEntry(maps, paths, field), x);
    CollectKeepAll(maps.portName, order, KeepAll, PortEntry(maps, paths, field));
    KeyOrderLength(order, maps.portName.Keys);
  }

  /**
   * A single port, requested by SONiC name or by alias, is found under its
   * SONiC name; the one table path it yields has no JSON key or field.
   */
  lemma PortStatsSingle(maps: V2rMaps, paths: seq<string>, field: string, pad: string, order: seq<string>)
    requires Registered(paths) && IsKeyOrder(order, maps.portName.Keys) && !HasSuffix(paths[2], "*")
    ensures var r := PortStats(maps, paths, field, pad, order);
            var iport := if paths[2] in maps.e2i then maps.e2i[paths[2]] else paths[2];
            && (r.Ok? <==> iport in maps.portName)
            && (r.Ok? ==> |r.value| == 1 && r.value[0].tableKey == maps.portName[iport] && r.value[0].field == field
                          && r.value[0].jsonTableKey == "" && r.value[0].jsonField == "")
            && !r.Panic?
  {
  }

  /** v2rEthPortStats (`field` is "") and v2rEthPortFieldStats (`field` is the fourth element). */
  method V2rPortStats(maps: V2rMaps, paths: seq<string>, field: string, pad: string)
    returns (r: Result<seq<DbTablePath>>, ghost order: seq<string>)
    requires Registered(paths)
    ensures IsKeyOrder(order, maps.portName.Keys)
    ensures r == PortStats(maps, paths, field, pad, order)
  {
    var separator := SdcPath.Separator(paths[0]);
    KeyOrderExists(maps.portName.Keys);
    var visit: seq<string> :| IsKeyOrder(visit, maps.portName.Keys);
    order := visit;
    if HasSuffix(paths[2], "*") {
      ghost var f := PortEntry(maps, paths, field);
      var tblPaths := [];
      for i := 0 to |visit|
        invariant tblPaths == Collect(maps.portName, visit[..i], KeepAll, f)
      {
        CollectStep(maps.portName, visit, i, KeepAll, f);
        var port := visit[i];
        var oport := port;
        if port in maps.i2e {
          oport := maps.i2e[port];
        }
        tblPaths := tblPaths + [DbTablePath(paths[0], paths[1], maps.portName[port], separator, field, "", oport, "", field)];
      }
      assert visit[..|visit|] == visit;
      return Ok(tblPaths), order;
    }
    var eport, iport := "", paths[2];
    if iport in maps.e2i {
      eport := iport;
      iport := maps.e2i[iport];
    }
    if iport !in maps.portName {
      return Err(pad + iport + " not a valid internal port, external port is " + eport + pad), order;
    }
    return Ok([DbTablePath(paths[0], paths[1], maps.portName[iport], separator, field, "", "", "", "")]), order;
  }

  /** The queue index of a queue name "port:index": the text between its first and second `:`. */
  function QueueIndex(q: string): string
  {
    match AfterChar(q, ':')
    case None => ""
    case Some(rest) => BeforeChar(rest, ':')
  }

  /** A request keeps a queue: every queue for a wildcard, else those of the port's SONiC name. */
  predicate Kept(maps: V2rMaps, requested: string, q: string)
  {
    HasSuffix(requested, "*") || VdbMapInit.QueuePort(q) == InternalName(maps, requested)
  }

  function QueueFilter(maps: V2rMaps, requested: string): string -> bool
  {
    q => Kept(maps, requested, q)
  }

  /**
   * The JSON key of a queue, "port:index": the external name of the
   * queue's port for a wildcard, the port as requested otherwise.
   */
  function JsonQueueName(maps: V2rMaps, requested: string, q: string): string
  {
    var port := if HasSuffix(requested, "*") then ExternalName(maps, VdbMapInit.QueuePort(q)) else requested;
    port + ":" + QueueIndex(q)
  }

  /** The table path of one queue, keyed by its oid. */
  function QueueEntry(maps: V2rMaps, paths: seq<string>): (string, string) -> DbTablePath
    requires |paths| >= 3
  {
    var db, tbl, sep, requested := paths[0], paths[1], SdcPath.Separator(paths[0]), paths[2];
    (q, oid) => DbTablePath(db, tbl, oid, sep, "", "", JsonQueueName(maps, requested, q), "", "")
  }

  /** A kept queue name without a `:` makes the lookup of its index panic. */
  predicate NoIndex(maps: V2rMaps, requested: string, q: string)
  {
    Kept(maps, requested, q) && ':' !in q
  }

  /** Some queue visited has no index. */
  predicate SomeNoIndex(maps: V2rMaps, requested: string, order: seq<string>)
  {
    exists i :: 0 <= i < |order| && NoIndex(maps, requested, order[i])
  }

  /** v2rEthPortQueStats for a visiting order of the queue map. */
  function QueStats(maps: V2rMaps, paths: seq<string>, order: seq<string>): (r: Result<seq<DbTablePath>>)
    requires Registered(paths) && IsKeyOrder(order, maps.queueName.Keys)
  {
    if SomeNoIndex(maps, paths[2], order) then Panic("index out of range")
    else Ok(Collect(maps.queueName, order, QueueFilter(maps, paths[2]), QueueEntry(maps, paths)))
  }

  /** Whatever the visiting order, the request panics exactly when a kept queue name has no index. */
  lemma QueStatsPanics(maps: V2rMaps, paths: seq<string>, order: seq<string>)
    requires Registered(paths) && IsKeyOrder(order, maps.queueName.Keys)
    ensures QueStats(maps, paths, order).Panic? <==> exists q :: q in maps.queueName && NoIndex(maps, paths[2], q)
    ensures !QueStats(maps, paths, order).Err?
  {
    if exists q :: q in maps.queueName && NoIndex(maps, paths[2], q) {
      var q :| q in maps.queueName && NoIndex(maps, paths[2], q);
      var i :| 0 <= i < |order| && order[i] == q;
      assert NoIndex(maps, paths[2], order[i]);
    }
  }

  /**
   * A queue request collects exactly the queues of the requested port (of
   * every port for a wildcard), whatever the visiting order.
   */
  lemma QueStatsContents(maps: V2rMaps, paths: seq<string>, order: seq<string>, x: DbTablePath)
    requires Registered(paths) && IsKeyOrder(order, maps.queueName.Keys)
    requires QueStats(maps, paths, order).Ok?
    ensures x in QueStats(maps, paths, order).value <==>
              exists q :: q in maps.queueName && Kept(maps, paths[2], q)
                          && x == DbTablePath(paths[0], paths[1], maps.queueName[q], ":", "", "", JsonQueueName(maps, paths[2], q), "", "")
  {
    CollectOverKeys(maps.queueName, order, QueueFilter(maps, paths[2]), QueueEntry(maps, paths), x);
  }

  /** v2rEthPortQueStats: the queue map is ranged over in `order`. */
  method V2rEthPortQueStats(maps: V2rMaps, paths: seq<string>)
    returns (r: Result<seq<DbTablePath>>, ghost order: seq<string>)
    requires Registered(paths)
    ensures IsKeyOrder(order, maps.queueName.Keys)
    ensures r == QueStats(maps, paths, order)
  {
    KeyOrderExists(maps.queueName.Keys);
    var visit: seq<string> :| IsKeyOrder(visit, maps.queueName.Keys);
    order := visit;
    r := CollectQueues(maps, paths, visit);
  }

  /** The loop of v2rEthPortQueStats over the visiting order `visit`. */
  method CollectQueues(maps: V2rMaps, paths: seq<string>, visit: seq<string>) returns (r: Result<seq<DbTablePath>>)
    requires Registered(paths) && IsKeyOrder(visit, maps.queueName.Keys)
    ensures r == QueStats(maps, paths, visit)
  {
    var separator := SdcPath.Separator(paths[0]);
    assert separator == ":";
    ghost var keep := QueueFilter(maps, paths[2]);
    ghost var f := QueueEntry(maps, paths);
    var all := HasSuffix(paths[2], "*");
    var portName := paths[2];
    var iport := InternalName(maps, portName);
    var tblPaths := [];
    for i := 0 to |visit|
      invariant tblPaths == Collect(maps.queueName, visit[..i], keep, f)
      invariant forall j :: 0 <= j < i ==> !NoIndex(maps, portName, visit[j])
    {
      CollectStep(maps.queueName, visit, i, keep, f);
      var q := visit[i];
      var names := Split(q, separator);
      SplitTwoPieces(q, ':');
      if !all && iport != names[0] {
        continue;
      }
      if |names| < 2 {
        assert NoIndex(maps, portName, visit[i]);
        return Panic("index out of range");
      }
      var oname := if all then ExternalName(maps, names[0]) else portName;
      tblPaths := tblPaths + [DbTablePath(paths[0], paths[1], maps.queueName[q], separator, "", "", oname + ":" + names[1], "", "")];
    }
    assert visit[..|visit|] == visit;
    return Ok(tblPaths);
  }

  /** The translators the table registers. */
  datatype Translator = EthPortStats | EthPortFieldStats | EthPortQueStats

  /** pathTransFuncTbl: each registered path with its translator. */
  const PathTransFuncTbl: seq<(seq<string>, Translator)> := [
    (["COUNTERS_DB", "COUNTERS", "Ethernet*"], EthPortStats),
    (["COUNTERS_DB", "COUNTERS", "Ethernet*", "*"], EthPortFieldStats),
    (["COUNTERS_DB", "COUNTERS", "Ethernet*", "Queues"], EthPortQueStats)]

  /** The paths a translator is registered for: the field translator's have a field element. */
  predicate Accepts(t: Translator, paths: seq<string>)
  {
    Registered(paths) && (t == EthPortFieldStats ==> |paths| >= 4)
  }

  /** Every registered path is accepted by its translator. */
  lemma RegisteredPaths()
    ensures forall i :: 0 <= i < |PathTransFuncTbl| ==> Accepts(PathTransFuncTbl[i].1, PathTransFuncTbl[i].0)
  {
  }

  /** The map a translator ranges over. */
  function TranslatorMap(maps: V2rMaps, t: Translator): map<string, string>
  {
    if t == EthPortQueStats then maps.queueName else maps.portName
  }

  /** The result of translator `t` for a visiting order of its map. */
  function Translate(maps: V2rMaps, t: Translator, paths: seq<string>, order: seq<string>): Result<seq<DbTablePath>>
    requires Accepts(t, paths) && IsKeyOrder(order, TranslatorMap(maps, t).Keys)
  {
    match t
    case EthPortStats => PortStats(maps, paths, "", "", order)
    case EthPortFieldStats => PortStats(maps, paths, paths[3], " ", order)
    case EthPortQueStats => QueStats(maps, paths, order)
  }

  /**
   * lookupV2R: a path the trie does not know is an error; otherwise the
   * registered translator's result.
   */
  method LookupV2R(find: seq<string> -> Option<Translator>, maps: V2rMaps, paths: seq<string>)
    returns (r: Result<seq<DbTablePath>>, ghost order: seq<string>)
    requires find(paths).Some? ==> Accepts(find(paths).value, paths)
    ensures find(paths).None? ==> r == Err(SdcPath.SliceString(paths) + " not found in virtual path tree")
    ensures find(paths).Some? ==> && IsKeyOrder(order, TranslatorMap(maps, find(paths).value).Keys)
                                  && r == Translate(maps, find(paths).value, paths, order)
  {
    var n := find(paths);
    if n.None? {
      return Err(SdcPath.SliceString(paths) + " not found in virtual path tree"), [];
    }
    match n.value
    case EthPortStats =>
      r, order := V2rPortStats(maps, paths, "", "");
    case EthPortFieldStats =>
      r, order := V2rPortStats(maps, paths, paths[3], " ");
    case EthPortQueStats =>
      r, order := V2rEthPortQueStats(maps, paths);
  }

  /** The package-level maps of virtual_db.go and their lazy loaders. */
  class VirtualDbMaps {
    var portName: map<string, string>
    var queueName: map<string, string>
    var e2i: map<string, string>
    var i2e: map<string, string>

    constructor ()
      ensures portName == map[] && queueName == map[] && e2i == map[] && i2e == map[]
    {
      portName, queueName, e2i, i2e := map[], map[], map[], map[];
    }

    function Snapshot(): V2rMaps
      reads this
    {
      V2rMaps(portName, queueName, e2i, i2e)
    }

    /** initCountersQueueNameMap: loads COUNTERS_QUEUE_NAME_MAP only when the map is empty. */
    method InitCountersQueueNameMap(countersDb: RedisDb) returns (st: Status)
      modifies this
      ensures st == Success
      ensures old(queueName) == map[] ==> queueName == HGetAll(countersDb, "COUNTERS_QUEUE_NAME_MAP")
      ensures old(queueName) != map[] ==> queueName == old(queueName)
      ensures portName == old(portName) && e2i == old(e2i) && i2e == old(i2e)
    {
      if |queueName| == 0 {
        queueName := HGetAll(countersDb, "COUNTERS_QUEUE_NAME_MAP");
      }
      return Success;
    }

    /** initCountersPortNameMap: loads COUNTERS_PORT_NAME_MAP only when the map is empty. */
    method InitCountersPortNameMap(countersDb: RedisDb) returns (st: Status)
      modifies this
      ensures st == Success
      ensures old(portName) == map[] ==> portName == HGetAll(countersDb, "COUNTERS_PORT_NAME_MAP")
      ensures old(portName) != map[] ==> portName == old(portName)
      ensures queueName == old(queueName) && e2i == old(e2i) && i2e == old(i2e)
    {
      if |portName| == 0 {
        portName := HGetAll(countersDb, "COUNTERS_PORT_NAME_MAP");
      }
      return Success;
    }

    /**
     * initAliasMap: loads both alias maps from the PORT table of CONFIG_DB
     * when e2i is empty; a failed load leaves both empty.
     */
    method InitAliasMap(configDb: RedisDb) returns (st: Status)
      modifies this
      ensures !st.Crash?
      ensures old(e2i) != map[] ==> st == Success && e2i == old(e2i) && i2e == old(i2e)
      ensures old(e2i) == map[] ==> (st.Success? <==> VdbMapInit.AliasesRead(configDb))
      ensures old(e2i) == map[] && st.Success? ==>
        (e2i, i2e) == VdbMapInit.AliasMaps(configDb, KeysWithPrefix(configDb, VdbMapInit.PortTablePrefix))
      ensures old(e2i) == map[] && !st.Success? ==> e2i == map[] && i2e == map[]
      ensures portName == old(portName) && queueName == old(queueName)
    {
      if |e2i| == 0 {
        var r := VdbMapInit.GetAliasMap(configDb);
        if r.Ok? {
          e2i, i2e := r.value.0, r.value.1;
        } else {
          e2i, i2e := map[], map[];
          return Failure(r.msg);
        }
      }
      return Success;
    }
  }
}
