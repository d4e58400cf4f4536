/**
 * Virtual-path translation of the SONiC data client, vpath.go revision:
 * a path registered in the translation table is expanded into the COUNTERS
 * table entries of the ports or queues it names, using the counters
 * name-to-oid maps of COUNTERS_DB and the counter fields each kind of
 * object supports.
 *
 * The translation trie (sonic_data_client/trie.go) is not part of this
 * model: its lookup is the parameter `find`.  The table registers only
 * paths that start with COUNTERS_DB and have three to five elements, so a
 * translator is only ever called on such a path.
 */
module SdcVpath {
  import opened Wrappers
  import opened GoStrings
  import opened GoMaps
  import opened Redis
  import opened SdcPath

  const PortNameMap := "COUNTERS_PORT_NAME_MAP"
  const QueueNameMap := "COUNTERS_QUEUE_NAME_MAP"

  /**
   * countersNameOidTbls and supportedCounterFields, as loaded from
   * COUNTERS_DB.  A name present in `supported` has a non-nil field list.
   */
  datatype CounterTables = CounterTables(nameOid: map<string, map<string, string>>, supported: map<string, seq<string>>)

  /** The name-to-oid map called `name`; a missing one reads as empty. */
  function NameMap(tables: CounterTables, name: string): map<string, string>
  {
    if name in tables.nameOid then tables.nameOid[name] else map[]
  }

  /** The requested field is a wildcard over SAI counter names. */
  predicate IsSaiWildcard(field: string)
  {
    HasPrefix(field, "SAI") && HasSuffix(field, "*")
  }

  /** A SAI wildcard has a non-empty prefix before its `*`. */
  lemma WildcardPrefixNonEmpty(field: string)
    requires IsSaiWildcard(field)
    ensures |TrimSuffix(field, "*")| >= 3 && HasPrefix(TrimSuffix(field, "*"), "SAI")
  {
    assert field[2] == 'I';
    assert |field| >= 4;
    assert TrimSuffix(field, "*")[..3] == field[..3];
  }

  /**
   * getMatchFields: the counter fields a requested field stands for, as a
   * comma-separated list.  Names outside SAI give "", a SAI name without a
   * trailing `*` is itself, and a SAI wildcard lists the supported fields
   * with its prefix; when none has it the request is an error.
   */
  function MatchFields(tables: CounterTables, field: string, name: string): (r: Result<string>)
    ensures !r.Panic?
    ensures !HasPrefix(field, "SAI") ==> r == Ok("")
    ensures HasPrefix(field, "SAI") && !HasSuffix(field, "*") ==> r == Ok(field)
    ensures IsSaiWildcard(field) && name !in tables.supported ==> r == Ok("")
    ensures r.Err? <==> IsSaiWildcard(field) && name in tables.supported
                        && forall f :: f in tables.supported[name] ==> !HasPrefix(f, TrimSuffix(field, "*"))
    ensures r.Err? ==> r.msg == field + " has no match fields"
  {
    if !HasPrefix(field, "SAI") then Ok("")
    else if !HasSuffix(field, "*") then Ok(field)
    else if name !in tables.supported then Ok("")
    else
      var matches := Filter(tables.supported[name], TrimSuffix(field, "*"));
      if matches == [] then Err(field + " has no match fields")
      else assert matches[0] in matches; Ok(Join(matches, ","))
  }

  /**
   * The list a SAI wildcard yields splits back, at its commas, into exactly
   * the supported fields with the wildcard's prefix, in supported order.
   */
  lemma MatchFieldsList(tables: CounterTables, field: string, name: string)
    requires IsSaiWildcard(field) && name in tables.supported
    requires forall f :: f in tables.supported[name] ==> ',' !in f
    requires MatchFields(tables, field, name).Ok?
    ensures Split(MatchFields(tables, field, name).value, ",") == Filter(tables.supported[name], TrimSuffix(field, "*"))
    ensures forall f :: f in Split(MatchFields(tables, field, name).value, ",") <==>
                          f in tables.supported[name] && HasPrefix(f, TrimSuffix(field, "*"))
  {
    var matches := Filter(tables.supported[name], TrimSuffix(field, "*"));
    SplitJoin(matches, ',');
  }

  /** getMatchFields: the filter loop and then the join loop. */
  method GetMatchFields(tables: CounterTables, field: string, name: string) returns (r: Result<string>)
    ensures r == MatchFields(tables, field, name)
  {
    if !HasPrefix(field, "SAI") {
      return Ok("");
    }
    if !HasSuffix(field, "*") {
      return Ok(field);
    }
    var fs := "";
    if name in tables.supported {
      var prefix := TrimSuffix(field, "*");
      var matches := FilterFields(tables.supported[name], prefix);
      if |matches| <= 0 {
        return Err(field + " has no match fields");
      }
      WildcardPrefixNonEmpty(field);
      fs := JoinFields(matches, prefix);
    }
    return Ok(fs);
  }

  /** The loop of getMatchFields that keeps the supported fields with `prefix`. */
  method FilterFields(supported: seq<string>, prefix: string) returns (matches: seq<string>)
    ensures matches == Filter(supported, prefix)
  {
    matches := [];
    for i := 0 to |supported|
      invariant matches == Filter(supported[..i], prefix)
    {
      FilterSnoc(supported[..i], supported[i], prefix);
      assert supported[..i + 1] == supported[..i] + [supported[i]];
      if HasPrefix(supported[i], prefix) {
        matches := matches + [supported[i]];
      }
    }
    assert supported[..|supported|] == supported;
  }

  /**
   * The loop of getMatchFields that separates the matched fields with
   * commas; every field has the non-empty prefix, so none is "".
   */
  method JoinFields(matches: seq<string>, prefix: string) returns (fs: string)
    requires |prefix| > 0 && forall f :: f in matches ==> HasPrefix(f, prefix)
    ensures fs == Join(matches, ",")
  {
    fs := "";
    for i := 0 to |matches|
      invariant fs == Join(matches[..i], ",")
      invariant i > 0 ==> fs != ""
    {
      var f := matches[i];
      assert HasPrefix(f, prefix);
      if fs != "" {
        JoinSnoc(matches[..i], f, ",");
        fs := fs + "," + f;
      } else {
        fs := f;
      }
      assert matches[..i + 1] == matches[..i] + [f];
    }
    assert matches[..|matches|] == matches;
  }

  /**
   * The table path of one expanded port or queue: its oid is the key in the
   * COUNTERS table and its name is the key of the JSON reply.
   */
  function StatPath(paths: seq<string>, fields: string): (string, string) -> TablePath
    requires |paths| >= 2
  {
    var db, tbl, sep := paths[0], paths[1], Separator(paths[0]);
    (name, oid) => TablePath(db, tbl, oid, sep, fields, "", name, fields)
  }

  function KeepAll(name: string): bool { true }

  /** A translator's input: a path the translation table registers. */
  predicate Registered(paths: seq<string>)
  {
    3 <= |paths| && paths[0] == "COUNTERS_DB"
  }

  /**
   * v2rEthPortStats for a visiting order of the port map: a port wildcard
   * expands to every port, a single port to its own entry.
   */
  function EthPortStats(tables: CounterTables, paths: seq<string>, order: seq<string>): (r: Result<seq<TablePath>>)
    requires Registered(paths)
    requires IsKeyOrder(order, NameMap(tables, PortNameMap).Keys)
    ensures !r.Panic?
  {
    match MatchFields(tables, paths[|paths| - 1], PortNameMap)
    case Err(msg) => Err(msg)
    case Panic(reason) => Panic(reason)
    case Ok(fields) =>
      var ports := NameMap(tables, PortNameMap);
      var port := paths[2];
      if HasSuffix(port, "*") then Ok(Collect(ports, order, KeepAll, StatPath(paths, fields)))
      else if port !in ports then Err(" " + port + " not a valid port ")
      else
        var jf := if Contains(fields, ",") then fields else "";
        Ok([TablePath(paths[0], paths[1], ports[port], Separator(paths[0]), fields, "", "", jf)])
  }

  /**
   * A port wildcard yields one table path per port, keyed by the port's
   * oid, with the port name as JSON key and the matched fields.
   */
  lemma EthPortStatsWildcard(tables: CounterTables, paths: seq<string>, order: seq<string>, x: TablePath)
    requires Registered(paths) && IsKeyOrder(order, NameMap(tables, PortNameMap).Keys)
    requires HasSuffix(paths[2], "*") && MatchFields(tables, paths[|paths| - 1], PortNameMap).Ok?
    ensures EthPortStats(tables, paths, order).Ok?
    ensures |EthPortStats(tables, paths, order).value| == |NameMap(tables, PortNameMap)|
    ensures var fields := MatchFields(tables, paths[|paths| - 1], PortNameMap).value;
            var ports := NameMap(tables, PortNameMap);
            x in EthPortStats(tables, paths, order).value <==>
              exists port :: port in ports && x == TablePath(paths[0], paths[1], ports[port], ":", fields, "", port, fields)
  {
    var fields := MatchFields(tables, paths[|paths| - 1], PortNameMap).value;
    var ports := NameMap(tables, PortNameMap);
    CollectOverKeys(ports, order, KeepAll, StatPath(paths, fields), x);
    CollectKeepAll(ports, order, KeepAll, StatPath(paths, fields));
    KeyOrderLength(order, ports.Keys);
  }

  /**
   * A single port must be in the port map; a known one yields exactly its
   * own entry, with JSON fields only when several fields matched.
   */
  lemma EthPortStatsSingle(tables: CounterTables, paths: seq<string>, order: seq<string>)
    requires Registered(paths) && IsKeyOrder(order, NameMap(tables, PortNameMap).Keys)
    requires !HasSuffix(paths[2], "*")
    ensures var r := EthPortStats(tables, paths, order);
            var mf := MatchFields(tables, paths[|paths| - 1], PortNameMap);
            && (r.Ok? <==> mf.Ok? && paths[2] in NameMap(tables, PortNameMap))
            && (mf.Ok? && paths[2] !in NameMap(tables, PortNameMap) ==> r == Err(" " + paths[2] + " not a valid port "))
            && (r.Ok? ==> |r.value| == 1 && r.value[0].tableKey == NameMap(tables, PortNameMap)[paths[2]]
                          && r.value[0].fields == mf.value && r.value[0].jsonTableKey == ""
                          && (r.value[0].jsonFields != "" ==> r.value[0].jsonFields == mf.value && ',' in mf.value))
  {
    var mf := MatchFields(tables, paths[|paths| - 1], PortNameMap);
    if mf.Ok? {
      ContainsChar(mf.value, ',');
    }
  }

  /** v2rEthPortStats: the port map is ranged over in `order`. */
  method V2rEthPortStats(tables: CounterTables, paths: seq<string>) returns (r: Result<seq<TablePath>>, ghost order: seq<string>)
    requires Registered(paths)
    ensures IsKeyOrder(order, NameMap(tables, PortNameMap).Keys)
    ensures r == EthPortStats(tables, paths, order)
  {
    var separator := Separator(paths[0]);
    var ports := NameMap(tables, PortNameMap);
    KeyOrderExists(ports.Keys);
    var visit: seq<string> :| IsKeyOrder(visit, ports.Keys);
    order := visit;
    var mf := GetMatchFields(tables, paths[|paths| - 1], PortNameMap);
    if mf.Err? {
      return Err(mf.msg), order;
    }
    var fields := mf.value;
    var port := paths[2];
    if HasSuffix(port, "*") {
      ghost var f := StatPath(paths, fields);
      var tblPaths := [];
      for i := 0 to |visit|
        invariant tblPaths == Collect(ports, visit[..i], KeepAll, f)
      {
        CollectStep(ports, visit, i, KeepAll, f);
        var p := visit[i];
        tblPaths := tblPaths + [TablePath(paths[0], paths[1], ports[p], separator, fields, "", p, fields)];
      }
      assert visit[..|visit|] == visit;
      return Ok(tblPaths), order;
    }
    if port !in ports {
      return Err(" " + port + " not a valid port "), order;
    }
    var jf := "";
    if Contains(fields, ",") {
      jf := fields;
    }
    return Ok([TablePath(paths[0], paths[1], ports[port], separator, fields, "", "", jf)]), order;
  }

  /** The queue names a request keeps: all of them, or those of one port. */
  function QueueFilter(port: string): string -> bool
  {
    if HasSuffix(port, "*") then KeepAll else q => Split(q, ":")[0] == port
  }

  /**
   * v2rQStatsGeneric for a visiting order of the map `mapName`: every
   * object of a wildcard port, or the objects named after one port.
   */
  function QStatsGeneric(tables: CounterTables, paths: seq<string>, mapName: string, order: seq<string>): (r: Result<seq<TablePath>>)
    requires Registered(paths)
    requires IsKeyOrder(order, NameMap(tables, mapName).Keys)
    ensures !r.Panic?
  {
    match MatchFields(tables, paths[|paths| - 1], mapName)
    case Err(msg) => Err(msg)
    case Panic(reason) => Panic(reason)
    case Ok(fields) => Ok(Collect(NameMap(tables, mapName), order, QueueFilter(paths[2]), StatPath(paths, fields)))
  }

  /**
   * A queue request collects exactly the queues of the requested port (of
   * every port for a wildcard), each keyed by its oid with its own name as
   * JSON key; only a field wildcard without matches is an error.
   */
  lemma QStatsGenericContents(tables: CounterTables, paths: seq<string>, mapName: string, order: seq<string>, x: TablePath)
    requires Registered(paths) && IsKeyOrder(order, NameMap(tables, mapName).Keys)
    ensures QStatsGeneric(tables, paths, mapName, order).Ok? <==> MatchFields(tables, paths[|paths| - 1], mapName).Ok?
    ensures var r := QStatsGeneric(tables, paths, mapName, order);
            r.Ok? ==>
              var fields := MatchFields(tables, paths[|paths| - 1], mapName).value;
              var queues := NameMap(tables, mapName);
              (x in r.value <==> exists q :: q in queues && (HasSuffix(paths[2], "*") || BeforeChar(q, ':') == paths[2])
                                           && x == TablePath(paths[0], paths[1], queues[q], ":", fields, "", q, fields))
  {
    var r := QStatsGeneric(tables, paths, mapName, order);
    if r.Ok? {
      var fields := MatchFields(tables, paths[|paths| - 1], mapName).value;
      var queues := NameMap(tables, mapName);
      CollectOverKeys(queues, order, QueueFilter(paths[2]), StatPath(paths, fields), x);
      forall q | q in queues
        ensures QueueFilter(paths[2])(q) <==> HasSuffix(paths[2], "*") || BeforeChar(q, ':') == paths[2]
      {
        SplitFirstPiece(q, ':');
      }
    }
  }

  /** v2rQStatsGeneric: the name map is ranged over in `order`. */
  method V2rQStatsGeneric(tables: CounterTables, paths: seq<string>, mapName: string)
    returns (r: Result<seq<TablePath>>, ghost order: seq<string>)
    requires Registered(paths)
    ensures IsKeyOrder(order, NameMap(tables, mapName).Keys)
    ensures r == QStatsGeneric(tables, paths, mapName, order)
  {
    var separator := Separator(paths[0]);
    var queues := NameMap(tables, mapName);
    KeyOrderExists(queues.Keys);
    var visit: seq<string> :| IsKeyOrder(visit, queues.Keys);
    order := visit;
    var mf := GetMatchFields(tables, paths[|paths| - 1], mapName);
    if mf.Err? {
      return Err(mf.msg), order;
    }
    var tblPaths := CollectQueues(queues, visit, paths, separator, mf.value);
    return Ok(tblPaths), order;
  }

  /** The loop of v2rQStatsGeneric over the visiting order `visit`. */
  method CollectQueues(queues: map<string, string>, visit: seq<string>, paths: seq<string>, separator: string, fields: string)
    returns (tblPaths: seq<TablePath>)
    requires Registered(paths) && separator == Separator(paths[0])
    requires forall i :: 0 <= i < |visit| ==> visit[i] in queues
    ensures tblPaths == Collect(queues, visit, QueueFilter(paths[2]), StatPath(paths, fields))
  {
    assert separator == ":";
    ghost var f := StatPath(paths, fields);
    ghost var keep := QueueFilter(paths[2]);
    var all := HasSuffix(paths[2], "*");
    var portName := paths[2];
    tblPaths := [];
    for i := 0 to |visit|
      invariant tblPaths == Collect(queues, visit[..i], keep, f)
    {
      CollectStep(queues, visit, i, keep, f);
      var q := visit[i];
      if !all {
        var names := Split(q, separator);
        if portName != names[0] {
          assert !keep(q);
          continue;
        }
      }
      assert keep(q);
      tblPaths := tblPaths + [TablePath(paths[0], paths[1], queues[q], separator, fields, "", q, fields)];
    }
    assert visit[..|visit|] == visit;
  }

  /** The translators the table registers. */
  datatype Translator = EthPortStatsTranslator | EthPortQueStatsTranslator

  /** pathTransFuncTbl: each registered path with its translator. */
  const PathTransFuncTbl: seq<(seq<string>, Translator)> := [
    (["COUNTERS_DB", "COUNTERS", "Ethernet*"], EthPortStatsTranslator),
    (["COUNTERS_DB", "COUNTERS", "Ethernet*", "*"], EthPortStatsTranslator),
    (["COUNTERS_DB", "COUNTERS", "Ethernet*", "Queues"], EthPortQueStatsTranslator),
    (["COUNTERS_DB", "COUNTERS", "Ethernet*", "Queues", "*"], EthPortQueStatsTranslator)]

  /** Every registered path is one a translator accepts. */
  lemma RegisteredPaths()
    ensures forall i :: 0 <= i < |PathTransFuncTbl| ==> Registered(PathTransFuncTbl[i].0) && |PathTransFuncTbl[i].0| <= 5
  {
  }

  /** The name map a translator ranges over. */
  function TranslatorMap(t: Translator): string
  {
    match t
    case EthPortStatsTranslator => PortNameMap
    case EthPortQueStatsTranslator => QueueNameMap
  }

  /** The result of the translator `t` for a visiting order of its map. */
  function Translate(t: Translator, tables: CounterTables, paths: seq<string>, order: seq<string>): (r: Result<seq<TablePath>>)
    requires Registered(paths) && IsKeyOrder(order, NameMap(tables, TranslatorMap(t)).Keys)
    ensures !r.Panic?
  {
    match t
    case EthPortStatsTranslator => EthPortStats(tables, paths, order)
    case EthPortQueStatsTranslator => QStatsGeneric(tables, paths, QueueNameMap, order)
  }

  /**
   * getv2rPath: a path the trie does not know is an error; otherwise the
   * registered translator's result.
   */
  method GetV2rPath(find: seq<string> -> Option<Translator>, tables: CounterTables, paths: seq<string>)
    returns (r: Result<seq<TablePath>>, ghost order: seq<string>)
    requires find(paths).Some? ==> Registered(paths)
    ensures find(paths).None? ==> r == Err(SliceString(paths) + " not found in virtual path tree")
    ensures find(paths).Some? ==> && IsKeyOrder(order, NameMap(tables, TranslatorMap(find(paths).value)).Keys)
                                  && r == Translate(find(paths).value, tables, paths, order)
    ensures !r.Panic?
  {
    var n := find(paths);
    if n.None? {
      return Err(SliceString(paths) + " not found in virtual path tree"), [];
    }
    match n.value
    case EthPortStatsTranslator =>
      r, order := V2rEthPortStats(tables, paths);
    case EthPortQueStatsTranslator =>
      r, order := V2rQStatsGeneric(tables, paths, QueueNameMap);
  }
}
