/**
 * The virtual database client (virtual_database_client/db_client.go): the
 * priority order of queued values, the conversion of a queued value into a
 * subscribe response, client construction with its lazy map loading, and
 * the one-shot Get.
 *
 * The Redis connections are the map `dbs` from target name to database; a
 * target without a connection is a nil client, whose use panics.  The
 * clock is the parameter `ts`.
 */
module VdbDbClient {
  import opened Wrappers
  import opened Gnmi
  import opened GoMaps
  import opened Redis
  import opened VdbTypes
  import opened VdbMapInit
  import opened VdbTrie
  import opened VdbHandlerFunc
  import opened VdbPath
  import opened SonicProto

  /** Value.Compare: the priority queue orders values by timestamp. */
  function Compare(v: Value, other: Value): (r: int)
    ensures r == 1 <==> v.timestamp > other.timestamp
    ensures r == 0 <==> v.timestamp == other.timestamp
    ensures r == -1 <==> v.timestamp < other.timestamp
  {
    if v.timestamp > other.timestamp then 1
    else if v.timestamp == other.timestamp then 0
    else -1
  }

  /** Compare is a total preorder: antisymmetric and transitive. */
  lemma CompareOrders(a: Value, b: Value, c: Value)
    ensures Compare(a, b) == -Compare(b, a)
    ensures Compare(a, b) >= 0 && Compare(b, c) >= 0 ==> Compare(a, c) >= 0
    ensures Compare(a, a) == 0
  {
  }

  /** The value enqueFatalMsg queues. */
  function FatalValue(ts: int, msg: string): (v: Value)
    ensures v.timestamp == ts && v.fatal == msg && !v.syncResponse
  {
    Value(None, None, ts, None, false, msg)
  }

  /** The value StreamRun queues once every path has been sent. */
  function SyncValue(ts: int): (v: Value)
    ensures v.timestamp == ts && v.syncResponse && v.fatal == ""
  {
    Value(None, None, ts, None, true, "")
  }

  /**
   * ValToResp: a sync value becomes the sync response, a value carrying a
   * fatal message becomes that error, and any other value one notification
   * holding exactly its path and value.
   */
  function ValToResp(v: Value): (r: Result<SubscribeResponse>)
    ensures !r.Panic?
    ensures v.syncResponse ==> r == Ok(SyncResponse)
    ensures r.Err? <==> !v.syncResponse && v.fatal != ""
    ensures r.Err? ==> r.msg == v.fatal
    ensures r.Ok? && !v.syncResponse ==>
      && r.value.UpdateResponse?
      && r.value.notification.timestamp == v.timestamp
      && r.value.notification.prefix == v.prefix
      && r.value.notification.update == [Update(v.path, v.val)]
  {
    if v.syncResponse then Ok(SyncResponse)
    else if v.fatal != "" then Err(v.fatal)
    else Ok(UpdateResponse(Notification(v.timestamp, v.prefix, [Update(v.path, v.val)])))
  }

  /** A fatal message reaches the subscriber as the error it carries; the sync marker as the sync response. */
  lemma QueuedMessagesRespond(ts: int, msg: string)
    requires msg != ""
    ensures ValToResp(FatalValue(ts, msg)) == Err(msg)
    ensures ValToResp(SyncValue(ts)) == Ok(SyncResponse)
  {
  }

  /** The JSON object a field map is encoded as. */
  function MsiJson(msi: map<string, string>): (j: JsonValue)
    ensures j.JObject? && j.members.Keys == msi.Keys
    ensures forall k :: k in msi ==> j.members[k] == JString(msi[k])
  {
    JObject(map k | k in msi :: JString(msi[k]))
  }

  /** Every table path of `e` names a database with a connection. */
  predicate Readable(dbs: map<string, RedisDb>, e: Entry)
  {
    forall i :: 0 <= i < |e.tablePaths| ==> e.tablePaths[i].dbName in dbs
  }

  predicate AllReadable(dbs: map<string, RedisDb>, g2s: seq<Entry>)
  {
    forall j :: 0 <= j < |g2s| ==> Readable(dbs, g2s[j])
  }

  /**
   * The value Get returns for entry `e`: the request prefix, the entry's
   * path, the time of the request and the merged fields of the entry's
   * table paths as a JSON_IETF value.  (An entry with an unconnected
   * database has no value: Get panics on it.)
   */
  function EntryValue(prefix: Path, ts: int, dbs: map<string, RedisDb>, matches: (string, string) -> bool,
                      e: Entry): Value
  {
    var msi := if Readable(dbs, e) then MergeAll(dbs, e.tablePaths, matches) else map[];
    Value(Some(prefix), Some(e.path), ts, Some(JsonIetfVal(MsiJson(msi))), false, "")
  }

  /** The error value a failed status becomes. */
  function StatusResult<T>(st: Status): (r: Result<T>)
    requires !st.Success?
    ensures st.Failure? <==> r.Err?
    ensures st.Failure? ==> r.msg == st.msg
    ensures st.Crash? ==> r == Panic(st.reason)
  {
    if st.Failure? then Err(st.msg) else Panic(st.reason)
  }

  const NoDbPathsMessage: string := "Failed to map to real db paths"

  /** A DbClient: the request prefix and paths it serves. */
  class DbClient {
    const prefix: Path
    const paths: seq<Path>

    constructor (prefix: Path, paths: seq<Path>)
      ensures this.prefix == prefix && this.paths == paths
    {
      this.prefix := prefix;
      this.paths := paths;
    }

    /**
     * Get: maps the paths to table paths (the first failure is the
     * error), fails when they map to nothing, and otherwise returns one
     * value per mapped path, in the unspecified order of a Go map.  A
     * table path on an unconnected database panics.  `st` and `g2s` are
     * the outcome of the mapping.
     */
    method Get(t: PathTrie<Handler>, maps: CounterMaps, dbs: map<string, RedisDb>,
               matches: (string, string) -> bool, ts: int)
      returns (r: Result<seq<Value>>, ghost st: Status, ghost g2s: seq<Entry>)
      requires t.Valid()
      ensures AllOutcome(t.nodes, prefix, paths, maps, st, [], g2s)
      ensures !st.Success? ==> r == StatusResult(st)
      ensures st.Success? && g2s == [] ==> r == Err(NoDbPathsMessage)
      ensures st.Success? && g2s != [] ==> (r.Ok? <==> AllReadable(dbs, g2s))
      ensures st.Success? && g2s != [] && !r.Ok? ==> r.Panic?
      ensures r.Ok? ==>
        && st.Success? && g2s != []
        && multiset(r.value) == multiset(MapSeq((e: Entry) => EntryValue(prefix, ts, dbs, matches, e), g2s))
    {
      var s, pathG2S := PopulateAlltablePaths(t, maps, prefix, paths, []);
      st, g2s := s, pathG2S;
      if !s.Success? {
        return StatusResult(s), st, g2s;
      }
      if |pathG2S| == 0 {
        return Err(NoDbPathsMessage), st, g2s;
      }
      // The order in which `range` visits the map.
      var order: seq<Entry> :| multiset(order) == multiset(pathG2S);
      var f := (e: Entry) => EntryValue(prefix, ts, dbs, matches, e);
      r := ReadValues(prefix, order, dbs, matches, ts);
      GetValues(f, order, pathG2S, dbs);
    }
  }

  /** The loop of Get: one value per entry in `order`, or a panic at the first unconnected database. */
  method ReadValues(prefix: Path, order: seq<Entry>, dbs: map<string, RedisDb>,
                    matches: (string, string) -> bool, ts: int)
    returns (r: Result<seq<Value>>)
    ensures !r.Err?
    ensures r.Ok? <==> AllReadable(dbs, order)
    ensures r.Ok? ==> r.value == MapSeq((e: Entry) => EntryValue(prefix, ts, dbs, matches, e), order)
  {
    var f := (e: Entry) => EntryValue(prefix, ts, dbs, matches, e);
    var values: seq<Value> := [];
    for i := 0 to |order|
      invariant values == MapSeq(f, order[..i])
      invariant forall j :: 0 <= j < i ==> Readable(dbs, order[j])
    {
      var e := order[i];
      var vs, msi := TableData2TypedValue(dbs, e.tablePaths, matches);
      if !vs.Success? {
        return Panic(vs.reason);
      }
      assert Readable(dbs, e);
      values := values + [Value(Some(prefix), Some(e.path), ts, Some(JsonIetfVal(MsiJson(msi))), false, "")];
      ReadStep(f, order, i, values);
    }
    assert order[..|order|] == order;
    r := Ok(values);
  }

  lemma {:induction false} ReadStep(f: Entry -> Value, order: seq<Entry>, i: nat, values: seq<Value>)
    requires i < |order|
    requires values == MapSeq(f, order[..i]) + [f(order[i])]
    ensures values == MapSeq(f, order[..i + 1])
  {
    MapSeqAppend(f, order[..i], [order[i]]);
    assert order[..i + 1] == order[..i] + [order[i]];
  }

  /** Closing step of Get: every entry was read, and the values are a reordering. */
  lemma {:induction false} GetValues(f: Entry -> Value, order: seq<Entry>, g2s: seq<Entry>, dbs: map<string, RedisDb>)
    requires multiset(order) == multiset(g2s)
    ensures AllReadable(dbs, g2s) <==> AllReadable(dbs, order)
    ensures multiset(MapSeq(f, order)) == multiset(MapSeq(f, g2s))
  {
    ReadableReordered(order, g2s, dbs);
    ReadableReordered(g2s, order, dbs);
    MapSeqPermutation(f, order, g2s);
  }

  lemma ReadableReordered(a: seq<Entry>, b: seq<Entry>, dbs: map<string, RedisDb>)
    requires multiset(a) == multiset(b)
    ensures AllReadable(dbs, a) ==> AllReadable(dbs, b)
  {
    if AllReadable(dbs, a) {
      forall j | 0 <= j < |b|
        ensures Readable(dbs, b[j])
      {
        assert b[j] in multiset(a);
        var k :| 0 <= k < |a| && a[k] == b[j];
      }
    }
  }

  /** Whether initAliasMap succeeds: the map is loaded already, or every alias can be read. */
  ghost predicate AliasLoads(aliasBefore: map<string, string>, configDb: RedisDb)
  {
    |aliasBefore| != 0 || AliasesRead(configDb)
  }

  /**
   * NewDbClient: loads the port, queue, alias and PFC-WD maps in that
   * order, each only when empty, and stops at the first error; the client
   * is made only when all four loads succeed.
   */
  method NewDbClient(pm: PackageMaps, countersDb: RedisDb, configDb: RedisDb, paths: seq<Path>, prefix: Path)
    returns (st: Status, c: DbClient?)
    modifies pm
    ensures !st.Crash?
    ensures st.Success? <==> c != null
    ensures c != null ==> fresh(c) && c.prefix == prefix && c.paths == paths
    ensures |old(pm.portName)| == 0 ==> pm.portName == HGetAll(countersDb, "COUNTERS_PORT_NAME_MAP")
    ensures |old(pm.portName)| != 0 ==> pm.portName == old(pm.portName)
    ensures |old(pm.queueName)| == 0 ==> Grouped(HGetAll(countersDb, "COUNTERS_QUEUE_NAME_MAP"), pm.queueName)
    ensures |old(pm.queueName)| != 0 ==> pm.queueName == old(pm.queueName)
    ensures |old(pm.alias2name)| != 0 ==> pm.alias2name == old(pm.alias2name) && pm.name2alias == old(pm.name2alias)
    ensures |old(pm.alias2name)| == 0 && AliasesRead(configDb) ==>
      (pm.alias2name, pm.name2alias) == AliasMaps(configDb, KeysWithPrefix(configDb, PortTablePrefix))
    ensures !AliasLoads(old(pm.alias2name), configDb) ==>
      && st.Failure? && pm.alias2name == map[] && pm.name2alias == map[]
      && pm.pfcwdName == old(pm.pfcwdName)
    ensures AliasLoads(old(pm.alias2name), configDb) && |old(pm.pfcwdName)| != 0 ==>
      st.Success? && pm.pfcwdName == old(pm.pfcwdName)
    ensures AliasLoads(old(pm.alias2name), configDb) && |old(pm.pfcwdName)| == 0 ==>
      PfcwdOutcome(configDb, pm.queueName, st.Success?, pm.pfcwdName)
  {
    c := null;
    st := pm.InitCountersPortNameMap(countersDb);
    st := pm.InitCountersQueueNameMap(countersDb);
    st := pm.InitAliasMap(configDb);
    if !st.Success? {
      return;
    }
    st := pm.InitCountersPfcwdNameMap(configDb);
    if !st.Success? {
      return;
    }
    c := new DbClient(prefix, paths);
  }
}
