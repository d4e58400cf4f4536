/**
 * The SONiC data client for Redis targets (sonic_data_client/db_client.go):
 * resolving request paths to table paths (virtual-path translation first,
 * then the shape of the path), rendering Redis hashes as the JSON document
 * of a reply, the one-shot Get, client construction, and the keyspace
 * pattern a table subscription listens on.
 *
 * `Value.Compare`, `ValToResp`, `GetTableKeySeparator` and `gnmiFullPath`
 * of this file are the same code as in the virtual database client and are
 * modelled once, by VdbDbClient.Compare, VdbDbClient.ValToResp,
 * VdbTypes.GetTableKeySeparator and VdbPath.GnmiFullPath.
 *
 * The Redis connections are the map `dbs` from target name to database; a
 * name without a connection is a nil client, whose use panics.  The trie
 * of registered virtual paths is the lookup `find`, the outcome of the
 * PFC-WD map load is the parameter `pfcwd`, and the clock is `ts`.
 */
module SdcDbClient {
  import opened Wrappers
  import opened Gnmi
  import opened GoMaps
  import opened GoStrings
  import opened Redis
  import opened SdcDbTypes
  import opened SonicProto
  import SdcPath
  import SdcVirtualDb
  import VdbPath
  import VdbDbClient
  import VdbMapInit

  /* makeJSON_redis */

  /**
   * makeJSON_redis as a map transformer: without key and op the hash's
   * fields are merged into `msi`; otherwise the hash becomes one JSON
   * object stored under the key (or the op), nested under the op when both
   * are given.  Every other entry of `msi` is kept.
   */
  function MakeJson(msi: map<string, JsonValue>, key: Option<string>, op: Option<string>,
                    mfv: map<string, string>): (r: map<string, JsonValue>)
    ensures key.None? && op.None? ==>
      && r.Keys == msi.Keys + mfv.Keys
      && (forall f :: f in mfv ==> r[f] == JString(mfv[f]))
      && (forall k :: k in msi && k !in mfv ==> r[k] == msi[k])
    ensures key.Some? || op.Some? ==>
      var slot := if key.Some? then key.value else op.value;
      && r.Keys == msi.Keys + {slot}
      && (forall k :: k in msi && k != slot ==> r[k] == msi[k])
      && r[slot] == if key.Some? && op.Some? then JObject(map[op.value := VdbDbClient.MsiJson(mfv)])
                    else VdbDbClient.MsiJson(mfv)
  {
    var fp := VdbDbClient.MsiJson(mfv);
    if key.None? && op.None? then msi + fp.members
    else if key.None? then msi[op.value := fp]
    else if op.None? then msi[key.value := fp]
    else msi[key.value := JObject(map[op.value := fp])]
  }

  /** makeJSON_redis: renders one hash into `msi`; it never fails. */
  method MakeJsonRedis(msi: map<string, JsonValue>, key: Option<string>, op: Option<string>, mfv: map<string, string>)
    returns (r: map<string, JsonValue>)
    ensures r == MakeJson(msi, key, op, mfv)
  {
    if key.None? && op.None? {
      r := CopyFields(msi, mfv);
      return;
    }
    var fp := CopyFields(map[], mfv);
    assert fp == VdbDbClient.MsiJson(mfv).members;
    if key.None? {
      r := msi[op.value := JObject(fp)];
    } else if op.None? {
      r := msi[key.value := JObject(fp)];
    } else {
      var of: map<string, JsonValue> := map[];
      of := of[op.value := JObject(fp)];
      r := msi[key.value := JObject(of)];
    }
  }

  /** The `for f, v := range mfv` loop: every field of the hash, as a string, over `dst`. */
  method CopyFields(dst: map<string, JsonValue>, mfv: map<string, string>) returns (r: map<string, JsonValue>)
    ensures r == dst + VdbDbClient.MsiJson(mfv).members
  {
    KeyOrderExists(mfv.Keys);
    var visit: seq<string> :| IsKeyOrder(visit, mfv.Keys);
    r := dst;
    for i := 0 to |visit|
      invariant forall f :: f in r <==> f in dst || f in visit[..i]
      invariant forall f :: f in r ==> r[f] == if f in visit[..i] then JString(mfv[f]) else dst[f]
    {
      assert visit[..i + 1] == visit[..i] + [visit[i]];
      r := r[visit[i] := JString(mfv[visit[i]])];
    }
    assert visit[..|visit|] == visit;
  }

  /* The shape switch of populateDbtablePath */

  /** The path string errors report: the element names joined by the target's separator. */
  function DbPath(names: seq<string>): string
    requires |names| >= 1
  {
    Join(names[1..], SdcPath.Separator(names[0]))
  }

  /** The switch on the number of names: the table path it builds, or its error. */
  function Shaped(names: seq<string>, db: RedisDb): Result<DbTablePath>
    requires |names| >= 2
  {
    var sep := SdcPath.Separator(names[0]);
    var tp := TableOnly(names[0], names[1], sep);
    if |names| == 2 then
      if |KeysWithPrefix(db, names[1])| < 1 then Err("Failed to find " + names[0] + " " + DbPath(names) + " <nil> []")
      else Ok(tp)
    else if |names| == 3 then
      if Exists(db, names[1] + sep + names[2]) then Ok(tp.(tableKey := names[2]))
      else Ok(tp.(field := names[2]))
    else if |names| == 4 then
      if Exists(db, names[1] + sep + (names[2] + sep + names[3])) then Ok(tp.(tableKey := names[2] + sep + names[3]))
      else Ok(tp.(tableKey := names[2], field := names[3]))
    else if |names| == 5 then Ok(tp.(tableKey := names[2] + sep + names[3], field := names[4]))
    else Err("Invalid db table Path " + DbPath(names))
  }

  /**
   * The table path `names` stands for in `db`, the target followed by the
   * element names: the shape switch, then the check that a resolved key
   * exists.
   */
  function ShapeTablePath(names: seq<string>, db: RedisDb): (r: Result<DbTablePath>)
    requires |names| >= 2
    ensures !r.Panic?
    ensures r.Ok? ==> && r.value.dbName == names[0] && r.value.tableName == names[1]
                      && r.value.delimitor == SdcPath.Separator(names[0])
                      && r.value.jsonTableKey == "" && r.value.jsonField == ""
    ensures r.Ok? && r.value.tableKey != "" ==> Exists(db, names[1] + r.value.delimitor + r.value.tableKey)
  {
    var s := Shaped(names, db);
    if s.Ok? && s.value.tableKey != "" && !Exists(db, names[1] + s.value.delimitor + s.value.tableKey) then
      Err("No valid entry found on " + DbPath(names) + " with key " + names[1] + s.value.delimitor + s.value.tableKey)
    else s
  }

  /** A bare table must have some key starting with its name; it names the whole table. */
  lemma ShapeTable(names: seq<string>, db: RedisDb)
    requires |names| == 2
    ensures ShapeTablePath(names, db).Ok? <==> |KeysWithPrefix(db, names[1])| >= 1
    ensures ShapeTablePath(names, db).Ok? ==>
      ShapeTablePath(names, db).value.tableKey == "" && ShapeTablePath(names, db).value.field == ""
    ensures !ShapeTablePath(names, db).Ok? ==>
      ShapeTablePath(names, db) == Err("Failed to find " + names[0] + " " + DbPath(names) + " <nil> []")
  {
  }

  /** A third name is the key when that key exists, and otherwise a field of the table itself. */
  lemma ShapeKeyOrField(names: seq<string>, db: RedisDb)
    requires |names| == 3
    ensures ShapeTablePath(names, db).Ok?
    ensures var tp := ShapeTablePath(names, db).value;
      if Exists(db, names[1] + SdcPath.Separator(names[0]) + names[2]) then tp.tableKey == names[2] && tp.field == ""
      else tp.tableKey == "" && tp.field == names[2]
  {
  }

  /**
   * Four names: the last two form the key when that key exists; otherwise
   * the third is the key, which must exist, and the fourth the field.
   */
  lemma ShapeKeyKeyOrKeyField(names: seq<string>, db: RedisDb)
    requires |names| == 4
    ensures var sep := SdcPath.Separator(names[0]);
      var r := ShapeTablePath(names, db);
      && (Exists(db, names[1] + sep + names[2] + sep + names[3]) ==>
            r.Ok? && r.value.tableKey == names[2] + sep + names[3] && r.value.field == "")
      && (!Exists(db, names[1] + sep + names[2] + sep + names[3]) ==>
            && (r.Ok? <==> names[2] == "" || Exists(db, names[1] + sep + names[2]))
            && (r.Ok? ==> r.value.tableKey == names[2] && r.value.field == names[3]))
  {
    var sep := SdcPath.Separator(names[0]);
    assert names[1] + sep + names[2] + sep + names[3] == names[1] + sep + (names[2] + sep + names[3]);
  }

  /** Five names: a two-part key that must exist, and a field. */
  lemma ShapeKeyKeyField(names: seq<string>, db: RedisDb)
    requires |names| == 5
    ensures var sep := SdcPath.Separator(names[0]);
      var key := names[2] + sep + names[3];
      var r := ShapeTablePath(names, db);
      && (r.Ok? <==> key == "" || Exists(db, names[1] + sep + key))
      && (r.Ok? ==> r.value.tableKey == key && r.value.field == names[4])
      && (!r.Ok? ==> r == Err("No valid entry found on " + DbPath(names) + " with key " + names[1] + sep + key))
  {
  }

  /** A path of more than five names is an error. */
  lemma ShapeTooLong(names: seq<string>, db: RedisDb)
    requires |names| > 5
    ensures ShapeTablePath(names, db) == Err("Invalid db table Path " + DbPath(names))
  {
  }

  /* populateDbtablePath and populateAllDbtablePath */

  /** The names a request path is resolved under: the prefix's target, then the full path's element names. */
  function RequestNames(prefix: Path, path: Path): (names: seq<string>)
    ensures |names| == 1 + |VdbPath.GnmiFullPath(prefix, path).elem| && names[0] == prefix.target
  {
    [prefix.target] + Names(VdbPath.GnmiFullPath(prefix, path).elem)
  }

  /**
   * What populateDbtablePath yields when no virtual path translates: a
   * path without elements panics on `stringSlice[1]`, any other gets the
   * table path of its shape.
   */
  function ByShape(names: seq<string>, db: RedisDb): (r: Result<seq<DbTablePath>>)
    requires |names| >= 1
    ensures r.Panic? <==> |names| < 2
    ensures r.Ok? ==> |names| >= 2 && |r.value| == 1 && ShapeTablePath(names, db) == Ok(r.value[0])
    ensures r.Err? ==> |names| >= 2 && ShapeTablePath(names, db) == Err(r.msg)
  {
    if |names| < 2 then Panic("index out of range")
    else
      var s := ShapeTablePath(names, db);
      if s.Ok? then Ok([s.value]) else Err(s.msg)
  }

  /** The trie yields a translator only for a path that translator is registered under. */
  ghost predicate TrieSound(find: seq<string> -> Option<SdcVirtualDb.Translator>)
  {
    forall names :: find(names).Some? ==> SdcVirtualDb.Accepts(find(names).value, names)
  }

  /**
   * Translator `t` visiting its map in `order`, then the shape switch when
   * the translation is an error.
   */
  predicate V2rThenShape(maps: SdcVirtualDb.V2rMaps, t: SdcVirtualDb.Translator, names: seq<string>,
                         order: seq<string>, db: RedisDb, r: Result<seq<DbTablePath>>)
  {
    && SdcVirtualDb.Accepts(t, names)
    && IsKeyOrder(order, SdcVirtualDb.TranslatorMap(maps, t).Keys)
    && var v := SdcVirtualDb.Translate(maps, t, names, order);
       r == if v.Err? then ByShape(names, db) else v
  }

  /** What populateDbtablePath yields for `path` under `prefix`, for some visiting order of the translator's map. */
  ghost predicate Populated(find: seq<string> -> Option<SdcVirtualDb.Translator>, maps: SdcVirtualDb.V2rMaps,
                            dbs: map<string, RedisDb>, prefix: Path, path: Path, r: Result<seq<DbTablePath>>)
  {
    var target := prefix.target;
    var names := RequestNames(prefix, path);
    if target !in dbs then r == Err("Invalid target name " + target)
    else match find(names)
      case None => r == ByShape(names, dbs[target])
      case Some(t) => exists order :: V2rThenShape(maps, t, names, order, dbs[target], r)
  }

  /**
   * populateDbtablePath: an unknown target is an error; a virtual path
   * whose translation succeeds (or panics) gives that result; otherwise
   * the path's shape decides.
   */
  method PopulateDbtablePath(find: seq<string> -> Option<SdcVirtualDb.Translator>, maps: SdcVirtualDb.V2rMaps,
                             dbs: map<string, RedisDb>, prefix: Path, path: Path)
    returns (r: Result<seq<DbTablePath>>)
    requires TrieSound(find)
    ensures Populated(find, maps, dbs, prefix, path, r)
  {
    var target := prefix.target;
    if target !in dbs {
      return Err("Invalid target name " + target);
    }
    var fullPath := VdbPath.GnmiFullPath(prefix, path);
    var elems := fullPath.elem;
    var stringSlice := [target];
    for i := 0 to |elems|
      invariant stringSlice == [target] + Names(elems[..i])
    {
      NamesSnoc(elems[..i], elems[i]);
      assert elems[..i + 1] == elems[..i] + [elems[i]];
      stringSlice := stringSlice + [elems[i].name];
    }
    assert elems[..|elems|] == elems;
    var v2r;
    ghost var order;
    v2r, order := SdcVirtualDb.LookupV2R(find, maps, stringSlice);
    if !v2r.Err? {
      assert V2rThenShape(maps, find(stringSlice).value, stringSlice, order, dbs[target], v2r);
      return v2r;
    }
    r := ByShape(stringSlice, dbs[target]);
    if find(stringSlice).Some? {
      assert V2rThenShape(maps, find(stringSlice).value, stringSlice, order, dbs[target], r);
    }
  }

  /** A path without elements panics unless the target is unknown: no translator is registered for a bare target. */
  lemma {:induction false} BarePathPanics(find: seq<string> -> Option<SdcVirtualDb.Translator>, maps: SdcVirtualDb.V2rMaps,
                       dbs: map<string, RedisDb>, prefix: Path, path: Path, r: Result<seq<DbTablePath>>)
    requires TrieSound(find) && path.elem == [] && prefix.target in dbs
    requires Populated(find, maps, dbs, prefix, path, r)
    ensures r.Panic?
  {
    var names := RequestNames(prefix, path);
    assert |names| == 1;
    assert find(names).None?;
  }

  /** One write of pathG2S: a request path and its table paths. */
  datatype G2sEntry = G2sEntry(path: Path, tablePaths: seq<DbTablePath>)

  /** The error result a failed status stands for. */
  function StatusResult<T>(st: Status): (r: Result<T>)
    requires !st.Success?
    ensures !r.Ok?
  {
    if st.Failure? then Err(st.msg) else Panic(st.reason)
  }

  /**
   * The outcome of populateAllDbtablePath: the paths before the first
   * failing one are written in order, and the failure is that path's error.
   */
  ghost predicate PopulatedAll(find: seq<string> -> Option<SdcVirtualDb.Translator>, maps: SdcVirtualDb.V2rMaps,
                               dbs: map<string, RedisDb>, prefix: Path, paths: seq<Path>, st: Status, g2s: seq<G2sEntry>)
  {
    && |g2s| <= |paths|
    && (forall i :: 0 <= i < |g2s| ==>
          g2s[i].path == paths[i] && Populated(find, maps, dbs, prefix, paths[i], Ok(g2s[i].tablePaths)))
    && (st.Success? <==> |g2s| == |paths|)
    && (!st.Success? ==> Populated(find, maps, dbs, prefix, paths[|g2s|], StatusResult(st)))
  }

  /** populateAllDbtablePath: populates the paths in order and stops at the first error. */
  method PopulateAllDbtablePath(find: seq<string> -> Option<SdcVirtualDb.Translator>, maps: SdcVirtualDb.V2rMaps,
                                dbs: map<string, RedisDb>, prefix: Path, paths: seq<Path>)
    returns (st: Status, g2s: seq<G2sEntry>)
    requires TrieSound(find)
    ensures PopulatedAll(find, maps, dbs, prefix, paths, st, g2s)
  {
    g2s := [];
    for i := 0 to |paths|
      invariant |g2s| == i
      invariant forall j :: 0 <= j < i ==>
        g2s[j].path == paths[j] && Populated(find, maps, dbs, prefix, paths[j], Ok(g2s[j].tablePaths))
    {
      var r := PopulateDbtablePath(find, maps, dbs, prefix, paths[i]);
      if !r.Ok? {
        st := if r.Err? then Failure(r.msg) else Crash(r.reason);
        assert StatusResult<seq<DbTablePath>>(st) == r;
        return;
      }
      g2s := g2s + [G2sEntry(paths[i], r.value)];
    }
    st := Success;
  }

  /* tableData2Msi */

  /**
   * The keys tableData2Msi reads: the one key of a keyed table path;
   * otherwise the table's keys, where a COUNTERS_DB table other than
   * COUNTERS is itself the only key.
   */
  function DbKeys(db: RedisDb, tp: DbTablePath): (keys: seq<string>)
    ensures tp.tableKey != "" ==> keys == [tp.tableName + tp.delimitor + tp.tableKey]
    ensures tp.tableKey == "" && tp.dbName == "COUNTERS_DB" && tp.tableName != "COUNTERS" ==>
      forall k :: k in keys <==> k in db.keys && k == tp.tableName
    ensures tp.tableKey == "" && (tp.dbName != "COUNTERS_DB" || tp.tableName == "COUNTERS") ==>
      forall k :: k in keys <==> k in db.keys && HasPrefix(k, tp.tableName + tp.delimitor)
  {
    if tp.tableKey != "" then [tp.tableName + tp.delimitor + tp.tableKey]
    else if tp.dbName == "COUNTERS_DB" && tp.tableName != "COUNTERS" then KeysExact(db, tp.tableName)
    else KeysWithPrefix(db, tp.tableName + tp.delimitor)
  }

  /**
   * One key of the loop: under the prepared JSON key, merged flat for a
   * keyed path or the table's own key, and otherwise under the DB key
   * past the first delimiter (a key without one panics).
   */
  function KeyStep(tp: DbTablePath, useKey: bool, op: Option<string>, msi: map<string, JsonValue>,
                   dbkey: string, fv: map<string, string>): (r: Result<map<string, JsonValue>>)
    ensures !r.Err?
    ensures r.Ok? ==> msi.Keys <= r.value.Keys
  {
    if tp.jsonTableKey != "" then Ok(MakeJson(msi, Some(tp.jsonTableKey), op, fv))
    else if (tp.tableKey != "" && !useKey) || tp.tableName == dbkey then Ok(MakeJson(msi, None, op, fv))
    else match SplitNSecond(dbkey, tp.delimitor)
      case None => Panic("index out of range")
      case Some(k) => Ok(MakeJson(msi, Some(k), op, fv))
  }

  /** The loop over `keys`, from `msi` on; the first panic ends it. */
  function MsiFrom(db: RedisDb, tp: DbTablePath, useKey: bool, op: Option<string>, keys: seq<string>,
                   msi: map<string, JsonValue>): (r: Result<map<string, JsonValue>>)
    ensures !r.Err?
    ensures r.Ok? ==> msi.Keys <= r.value.Keys
    decreases |keys|
  {
    if keys == [] then Ok(msi)
    else
      var step := KeyStep(tp, useKey, op, msi, keys[0], HGetAll(db, keys[0]));
      if step.Ok? then MsiFrom(db, tp, useKey, op, keys[1..], step.value) else step
  }

  /**
   * tableData2Msi: the table path's hashes rendered into `msi`.  A path
   * with both a JSON field and a JSON key reads that one field of the first
   * key, and a missing field leaves `msi` as it is.
   */
  function TableMsi(dbs: map<string, RedisDb>, tp: DbTablePath, useKey: bool, op: Option<string>,
                    msi: map<string, JsonValue>): (r: Result<map<string, JsonValue>>)
    ensures !r.Err?
    ensures tp.dbName !in dbs ==> r.Panic?
    ensures r.Ok? ==> msi.Keys <= r.value.Keys
  {
    if tp.dbName !in dbs then Panic("invalid memory address or nil pointer dereference")
    else
      var db := dbs[tp.dbName];
      var dbkeys := DbKeys(db, tp);
      if tp.jsonField != "" && tp.jsonTableKey != "" then
        if dbkeys == [] then Panic("index out of range")
        else match HGet(db, dbkeys[0], tp.field)
          case Ok(v) => Ok(MakeJson(msi, Some(tp.jsonTableKey), op, map[tp.jsonField := v]))
          case _ => Ok(msi)
      else MsiFrom(db, tp, useKey, op, dbkeys, msi)
  }

  /** tableData2Msi, with the loop over the keys. */
  method TableData2Msi(dbs: map<string, RedisDb>, tp: DbTablePath, useKey: bool, op: Option<string>,
                       msi: map<string, JsonValue>)
    returns (r: Result<map<string, JsonValue>>)
    ensures r == TableMsi(dbs, tp, useKey, op, msi)
  {
    if tp.dbName !in dbs {
      return Panic("invalid memory address or nil pointer dereference");
    }
    var db := dbs[tp.dbName];
    var dbkeys;
    if tp.tableKey == "" {
      if tp.dbName == "COUNTERS_DB" && tp.tableName != "COUNTERS" {
        dbkeys := KeysExact(db, tp.tableName);
      } else {
        dbkeys := KeysWithPrefix(db, tp.tableName + tp.delimitor);
      }
    } else {
      dbkeys := [tp.tableName + tp.delimitor + tp.tableKey];
    }
    if tp.jsonField != "" && tp.jsonTableKey != "" {
      if |dbkeys| == 0 {
        return Panic("index out of range");
      }
      var v := HGet(db, dbkeys[0], tp.field);
      if !v.Ok? {
        return Ok(msi);
      }
      var m := MakeJsonRedis(msi, Some(tp.jsonTableKey), op, map[tp.jsonField := v.value]);
      return Ok(m);
    }
    assert dbkeys == DbKeys(db, tp);
    r := RenderKeys(db, tp, useKey, op, dbkeys, msi);
  }

  /** The loop of tableData2Msi over the keys it read. */
  method RenderKeys(db: RedisDb, tp: DbTablePath, useKey: bool, op: Option<string>, dbkeys: seq<string>,
                    msi: map<string, JsonValue>)
    returns (r: Result<map<string, JsonValue>>)
    ensures r == MsiFrom(db, tp, useKey, op, dbkeys, msi)
  {
    var acc := msi;
    assert dbkeys[0..] == dbkeys;
    for i := 0 to |dbkeys|
      invariant MsiFrom(db, tp, useKey, op, dbkeys, msi) == MsiFrom(db, tp, useKey, op, dbkeys[i..], acc)
    {
      assert dbkeys[i..][1..] == dbkeys[i + 1..];
      var fv := HGetAll(db, dbkeys[i]);
      if tp.jsonTableKey != "" {
        acc := MakeJsonRedis(acc, Some(tp.jsonTableKey), op, fv);
      } else if (tp.tableKey != "" && !useKey) || tp.tableName == dbkeys[i] {
        acc := MakeJsonRedis(acc, None, op, fv);
      } else {
        var key := SplitNSecond(dbkeys[i], tp.delimitor);
        if key.None? {
          return Panic("index out of range");
        }
        acc := MakeJsonRedis(acc, key, op, fv);
      }
    }
    assert dbkeys[|dbkeys|..] == [];
    return Ok(acc);
  }

  /** A keyed table path without a JSON key merges exactly its key's hash into `msi`. */
  lemma KeyedRead(dbs: map<string, RedisDb>, tp: DbTablePath, op: Option<string>, msi: map<string, JsonValue>)
    requires tp.dbName in dbs && tp.tableKey != "" && tp.jsonTableKey == ""
    ensures TableMsi(dbs, tp, false, op, msi) ==
      Ok(MakeJson(msi, None, op, HGetAll(dbs[tp.dbName], tp.tableName + tp.delimitor + tp.tableKey)))
  {
    var k := tp.tableName + tp.delimitor + tp.tableKey;
    var db := dbs[tp.dbName];
    var m := MakeJson(msi, None, op, HGetAll(db, k));
    assert [k][1..] == [];
    assert MsiFrom(db, tp, false, op, [], m) == Ok(m);
    assert MsiFrom(db, tp, false, op, [k], msi) == Ok(m);
  }

  /**
   * Rendering table keys that all carry the delimiter: every key lands
   * under its part past the first delimiter, and nothing else is added.
   */
  lemma {:induction false} MsiFromTable(db: RedisDb, tp: DbTablePath, op: Option<string>, keys: seq<string>,
                                        msi: map<string, JsonValue>)
    requires tp.tableKey == "" && tp.jsonTableKey == "" && tp.delimitor != ""
    requires forall i :: 0 <= i < |keys| ==> keys[i] != tp.tableName && Contains(keys[i], tp.delimitor)
    ensures MsiFrom(db, tp, false, op, keys, msi).Ok?
    ensures forall x :: x in MsiFrom(db, tp, false, op, keys, msi).value <==>
      x in msi || exists i :: 0 <= i < |keys| && SplitNSecond(keys[i], tp.delimitor) == Some(x)
    decreases |keys|
  {
    if keys != [] {
      var k := SplitNSecond(keys[0], tp.delimitor).value;
      var m := MakeJson(msi, Some(k), op, HGetAll(db, keys[0]));
      assert forall i :: 0 <= i < |keys| - 1 ==> keys[1..][i] == keys[i + 1];
      MsiFromTable(db, tp, op, keys[1..], m);
      forall x | x in MsiFrom(db, tp, false, op, keys, msi).value
        ensures x in msi || exists i :: 0 <= i < |keys| && SplitNSecond(keys[i], tp.delimitor) == Some(x)
      {
        if x !in m {
          var i :| 0 <= i < |keys| - 1 && SplitNSecond(keys[1..][i], tp.delimitor) == Some(x);
          assert SplitNSecond(keys[i + 1], tp.delimitor) == Some(x);
        } else if x !in msi {
          assert SplitNSecond(keys[0], tp.delimitor) == Some(x);
        }
      }
      forall x | x in msi || exists i :: 0 <= i < |keys| && SplitNSecond(keys[i], tp.delimitor) == Some(x)
        ensures x in MsiFrom(db, tp, false, op, keys, msi).value
      {
        if x !in msi {
          var i :| 0 <= i < |keys| && SplitNSecond(keys[i], tp.delimitor) == Some(x);
          if i > 0 {
            assert SplitNSecond(keys[1..][i - 1], tp.delimitor) == Some(x);
          }
        }
      }
    }
  }

  /** A key that starts with the table name and the delimiter contains the delimiter. */
  lemma PrefixedKeyHasDelimiter(k: string, tableName: string, delimitor: string)
    requires HasPrefix(k, tableName + delimitor)
    ensures k != tableName || delimitor == ""
    ensures Contains(k, delimitor)
  {
    assert k[|tableName|..|tableName| + |delimitor|] == (tableName + delimitor)[|tableName|..];
    ContainsAt(k, delimitor, |tableName|);
  }

  /**
   * A whole table outside COUNTERS_DB (or the COUNTERS table itself):
   * every key of the table lands under its part past the first delimiter.
   */
  lemma WholeTableRead(dbs: map<string, RedisDb>, tp: DbTablePath, op: Option<string>, msi: map<string, JsonValue>)
    requires tp.dbName in dbs && tp.tableKey == "" && tp.jsonTableKey == "" && tp.delimitor != ""
    requires tp.dbName != "COUNTERS_DB" || tp.tableName == "COUNTERS"
    ensures TableMsi(dbs, tp, false, op, msi).Ok?
    ensures forall x :: x in TableMsi(dbs, tp, false, op, msi).value <==>
      x in msi || exists k :: k in dbs[tp.dbName].keys && HasPrefix(k, tp.tableName + tp.delimitor)
                              && SplitNSecond(k, tp.delimitor) == Some(x)
  {
    var db := dbs[tp.dbName];
    TableKeysCarryDelimiter(db, tp);
    MsiFromTable(db, tp, op, DbKeys(db, tp), msi);
    forall x ensures (exists i :: 0 <= i < |DbKeys(db, tp)| && SplitNSecond(DbKeys(db, tp)[i], tp.delimitor) == Some(x)) <==>
      (exists k :: k in db.keys && HasPrefix(k, tp.tableName + tp.delimitor) && SplitNSecond(k, tp.delimitor) == Some(x))
    {
      TableKeysListed(db, tp, x);
    }
  }

  lemma TableKeysCarryDelimiter(db: RedisDb, tp: DbTablePath)
    requires tp.tableKey == "" && tp.delimitor != ""
    requires tp.dbName != "COUNTERS_DB" || tp.tableName == "COUNTERS"
    ensures forall i :: 0 <= i < |DbKeys(db, tp)| ==> DbKeys(db, tp)[i] != tp.tableName && Contains(DbKeys(db, tp)[i], tp.delimitor)
  {
    var keys := DbKeys(db, tp);
    forall i | 0 <= i < |keys| ensures keys[i] != tp.tableName && Contains(keys[i], tp.delimitor) {
      assert keys[i] in keys;
      PrefixedKeyHasDelimiter(keys[i], tp.tableName, tp.delimitor);
    }
  }

  lemma TableKeysListed(db: RedisDb, tp: DbTablePath, x: string)
    requires tp.tableKey == ""
    requires tp.dbName != "COUNTERS_DB" || tp.tableName == "COUNTERS"
    ensures (exists i :: 0 <= i < |DbKeys(db, tp)| && SplitNSecond(DbKeys(db, tp)[i], tp.delimitor) == Some(x)) <==>
      (exists k :: k in db.keys && HasPrefix(k, tp.tableName + tp.delimitor) && SplitNSecond(k, tp.delimitor) == Some(x))
  {
    var keys := DbKeys(db, tp);
    if exists k :: k in db.keys && HasPrefix(k, tp.tableName + tp.delimitor) && SplitNSecond(k, tp.delimitor) == Some(x) {
      var k :| k in db.keys && HasPrefix(k, tp.tableName + tp.delimitor) && SplitNSecond(k, tp.delimitor) == Some(x);
      assert k in keys;
      var i :| 0 <= i < |keys| && keys[i] == k;
    }
    if exists i :: 0 <= i < |keys| && SplitNSecond(keys[i], tp.delimitor) == Some(x) {
      var i :| 0 <= i < |keys| && SplitNSecond(keys[i], tp.delimitor) == Some(x);
      assert keys[i] in keys;
    }
  }

  /* tableData2TypedValue */

  /** A field-granularity table path: a field to read, no JSON field. */
  predicate IsFieldQuery(tp: DbTablePath)
  {
    tp.jsonField == "" && tp.field != ""
  }

  /** The hash a field query reads: the table and key, or the table alone. */
  function FieldKey(tp: DbTablePath): string
  {
    if tp.tableKey != "" then tp.tableName + tp.delimitor + tp.tableKey else tp.tableName
  }

  /**
   * The loop of tableData2TypedValue over `tps` from `msi` on: the first
   * field query answers with its field's string, and otherwise every table
   * path is rendered into one JSON_IETF object.
   */
  function TypedValueFrom(dbs: map<string, RedisDb>, tps: seq<DbTablePath>, msi: map<string, JsonValue>)
    : Result<TypedValue>
    decreases |tps|
  {
    if tps == [] then Ok(JsonIetfVal(JObject(msi)))
    else if IsFieldQuery(tps[0]) then
      if tps[0].dbName !in dbs then Panic("invalid memory address or nil pointer dereference")
      else
        var v := HGet(dbs[tps[0].dbName], FieldKey(tps[0]), tps[0].field);
        if v.Ok? then Ok(StringVal(v.value)) else Err(v.msg)
    else
      var m := TableMsi(dbs, tps[0], false, None, msi);
      if m.Ok? then TypedValueFrom(dbs, tps[1..], m.value) else Panic(m.reason)
  }

  /** tableData2TypedValue. */
  method TableData2TypedValue(dbs: map<string, RedisDb>, tps: seq<DbTablePath>) returns (r: Result<TypedValue>)
    ensures r == TypedValueFrom(dbs, tps, map[])
  {
    var useKey := false;
    var msi: map<string, JsonValue> := map[];
    for i := 0 to |tps|
      invariant TypedValueFrom(dbs, tps, map[]) == TypedValueFrom(dbs, tps[i..], msi)
    {
      var tp := tps[i];
      assert tps[i..][1..] == tps[i + 1..];
      if tp.jsonField == "" && tp.field != "" {
        if tp.dbName !in dbs {
          return Panic("invalid memory address or nil pointer dereference");
        }
        var key := if tp.tableKey != "" then tp.tableName + tp.delimitor + tp.tableKey else tp.tableName;
        var v := HGet(dbs[tp.dbName], key, tp.field);
        if v.Ok? {
          return Ok(StringVal(v.value));
        }
        return Err(v.msg);
      }
      var m := TableData2Msi(dbs, tp, useKey, None, msi);
      if !m.Ok? {
        return Panic(m.reason);
      }
      msi := m.value;
    }
    return Ok(JsonIetfVal(JObject(msi)));
  }

  /** A read fails only on a field query whose field is missing. */
  lemma {:induction false} TypedValueErrors(dbs: map<string, RedisDb>, tps: seq<DbTablePath>, msi: map<string, JsonValue>)
    ensures TypedValueFrom(dbs, tps, msi).Err? ==>
      exists i :: 0 <= i < |tps| && IsFieldQuery(tps[i]) && tps[i].dbName in dbs
                  && HGet(dbs[tps[i].dbName], FieldKey(tps[i]), tps[i].field).Err?
    decreases |tps|
  {
    if tps != [] && !IsFieldQuery(tps[0]) {
      var m := TableMsi(dbs, tps[0], false, None, msi);
      if m.Ok? {
        assert TypedValueFrom(dbs, tps, msi) == TypedValueFrom(dbs, tps[1..], m.value);
        TypedValueErrors(dbs, tps[1..], m.value);
        if TypedValueFrom(dbs, tps, msi).Err? {
          var i :| 0 <= i < |tps| - 1 && IsFieldQuery(tps[1..][i]) && tps[1..][i].dbName in dbs
                   && HGet(dbs[tps[1..][i].dbName], FieldKey(tps[1..][i]), tps[1..][i].field).Err?;
          assert tps[i + 1] == tps[1..][i];
        }
      }
    }
  }

  /** Only a field query yields a string. */
  lemma {:induction false} TypedValueStrings(dbs: map<string, RedisDb>, tps: seq<DbTablePath>, msi: map<string, JsonValue>)
    ensures TypedValueFrom(dbs, tps, msi).Ok? && TypedValueFrom(dbs, tps, msi).value.StringVal? ==>
      exists i :: 0 <= i < |tps| && IsFieldQuery(tps[i])
    decreases |tps|
  {
    if tps != [] && !IsFieldQuery(tps[0]) {
      var m := TableMsi(dbs, tps[0], false, None, msi);
      if m.Ok? {
        assert TypedValueFrom(dbs, tps, msi) == TypedValueFrom(dbs, tps[1..], m.value);
        TypedValueStrings(dbs, tps[1..], m.value);
        if TypedValueFrom(dbs, tps, msi).Ok? && TypedValueFrom(dbs, tps, msi).value.StringVal? {
          var i :| 0 <= i < |tps| - 1 && IsFieldQuery(tps[1..][i]);
          assert tps[i + 1] == tps[1..][i];
        }
      }
    }
  }

  /**
   * A read that succeeds is a string or a JSON_IETF object; the object
   * comes only from table paths without field queries and keeps everything
   * rendered before.
   */
  lemma {:induction false} TypedValueObject(dbs: map<string, RedisDb>, tps: seq<DbTablePath>, msi: map<string, JsonValue>)
    ensures var r := TypedValueFrom(dbs, tps, msi);
      && (r.Ok? ==> r.value.StringVal? || (r.value.JsonIetfVal? && r.value.json.JObject?))
      && (r.Ok? && r.value.JsonIetfVal? ==>
            (forall i :: 0 <= i < |tps| ==> !IsFieldQuery(tps[i])) && msi.Keys <= r.value.json.members.Keys)
    decreases |tps|
  {
    if tps != [] && !IsFieldQuery(tps[0]) {
      var m := TableMsi(dbs, tps[0], false, None, msi);
      if m.Ok? {
        TypedValueObject(dbs, tps[1..], m.value);
        var r := TypedValueFrom(dbs, tps, msi);
        if r.Ok? && r.value.JsonIetfVal? {
          forall i | 0 <= i < |tps| ensures !IsFieldQuery(tps[i]) {
            if i > 0 {
              assert tps[i] == tps[1..][i - 1];
            }
          }
        }
      }
    }
  }

  /* Get and NewDbClient */

  /** The value Get reports for one entry read as `v`. */
  function EntryValue(prefix: Path, ts: int, e: G2sEntry, v: TypedValue): Value
  {
    Value(Some(prefix), Some(e.path), ts, Some(v), false, "")
  }

  /** Get's loop over the entries in visiting order `order`: the first failing read ends it. */
  function ValuesOf(dbs: map<string, RedisDb>, prefix: Path, ts: int, order: seq<G2sEntry>): Result<seq<Value>>
    decreases |order|
  {
    if order == [] then Ok([])
    else match TypedValueFrom(dbs, order[0].tablePaths, map[])
      case Ok(v) =>
        (match ValuesOf(dbs, prefix, ts, order[1..])
         case Ok(vs) => Ok([EntryValue(prefix, ts, order[0], v)] + vs)
         case other => other)
      case Err(m) => Err(m)
      case Panic(p) => Panic(p)
  }

  /** `vs` followed by the values of a successful `r`. */
  function Prepend(vs: seq<Value>, r: Result<seq<Value>>): Result<seq<Value>>
  {
    if r.Ok? then Ok(vs + r.value) else r
  }

  /**
   * Get succeeds exactly when every entry reads, and then reports one
   * value per entry, in visiting order, carrying the prefix, the entry's
   * path, the request time and what the entry reads as.
   */
  lemma {:induction false} ValuesOfEntries(dbs: map<string, RedisDb>, prefix: Path, ts: int, order: seq<G2sEntry>)
    ensures ValuesOf(dbs, prefix, ts, order).Ok? <==>
      forall i :: 0 <= i < |order| ==> TypedValueFrom(dbs, order[i].tablePaths, map[]).Ok?
    ensures ValuesOf(dbs, prefix, ts, order).Ok? ==>
      && |ValuesOf(dbs, prefix, ts, order).value| == |order|
      && forall i :: 0 <= i < |order| ==>
           ValuesOf(dbs, prefix, ts, order).value[i] ==
           EntryValue(prefix, ts, order[i], TypedValueFrom(dbs, order[i].tablePaths, map[]).value)
  {
    ValuesOfSucceeds(dbs, prefix, ts, order);
    if ValuesOf(dbs, prefix, ts, order).Ok? {
      ValuesOfEach(dbs, prefix, ts, order);
    }
  }

  /** Get's loop succeeds exactly when every entry reads. */
  lemma {:induction false} ValuesOfSucceeds(dbs: map<string, RedisDb>, prefix: Path, ts: int, order: seq<G2sEntry>)
    ensures ValuesOf(dbs, prefix, ts, order).Ok? <==>
      forall i :: 0 <= i < |order| ==> TypedValueFrom(dbs, order[i].tablePaths, map[]).Ok?
    decreases |order|
  {
    if order != [] {
      var tail := order[1..];
      ValuesOfSucceeds(dbs, prefix, ts, tail);
      assert forall i :: 0 < i < |order| ==> order[i] == tail[i - 1];
      if TypedValueFrom(dbs, order[0].tablePaths, map[]).Ok? && !ValuesOf(dbs, prefix, ts, tail).Ok? {
        var j :| 0 <= j < |tail| && !TypedValueFrom(dbs, tail[j].tablePaths, map[]).Ok?;
        assert order[j + 1] == tail[j];
      }
    }
  }

  /** A successful run of Get's loop reports one value per entry, in order. */
  lemma {:induction false} ValuesOfEach(dbs: map<string, RedisDb>, prefix: Path, ts: int, order: seq<G2sEntry>)
    requires ValuesOf(dbs, prefix, ts, order).Ok?
    ensures |ValuesOf(dbs, prefix, ts, order).value| == |order|
    ensures forall i :: 0 <= i < |order| ==>
      && TypedValueFrom(dbs, order[i].tablePaths, map[]).Ok?
      && ValuesOf(dbs, prefix, ts, order).value[i] ==
         EntryValue(prefix, ts, order[i], TypedValueFrom(dbs, order[i].tablePaths, map[]).value)
    decreases |order|
  {
    if order != [] {
      var tail := order[1..];
      var head := TypedValueFrom(dbs, order[0].tablePaths, map[]);
      var rest := ValuesOf(dbs, prefix, ts, tail);
      assert head.Ok? && rest.Ok?;
      ValuesOfEach(dbs, prefix, ts, tail);
      var r := ValuesOf(dbs, prefix, ts, order).value;
      assert r == [EntryValue(prefix, ts, order[0], head.value)] + rest.value;
      forall i | 0 < i < |order|
        ensures TypedValueFrom(dbs, order[i].tablePaths, map[]).Ok?
        ensures r[i] == EntryValue(prefix, ts, order[i], TypedValueFrom(dbs, order[i].tablePaths, map[]).value)
      {
        assert order[i] == tail[i - 1] && r[i] == rest.value[i - 1];
      }
    }
  }

  /** A DbClient: the request prefix and the table paths its paths resolved to. */
  class DbClient {
    const prefix: Path
    const g2s: seq<G2sEntry>

    constructor (prefix: Path, g2s: seq<G2sEntry>)
      ensures this.prefix == prefix && this.g2s == g2s
    {
      this.prefix := prefix;
      this.g2s := g2s;
    }

    /**
     * Get: reads every entry of pathG2S, in the unspecified order of a Go
     * map, and stops at the first failing read.
     */
    method Get(dbs: map<string, RedisDb>, ts: int) returns (r: Result<seq<Value>>, ghost order: seq<G2sEntry>)
      ensures multiset(order) == multiset(g2s)
      ensures r == ValuesOf(dbs, prefix, ts, order)
    {
      // The order in which `range` visits the map.
      var visit: seq<G2sEntry> :| multiset(visit) == multiset(g2s);
      order := visit;
      r := ReadEntries(dbs, prefix, ts, visit);
    }
  }

  /** The loop of Get over the entries in visiting order. */
  method ReadEntries(dbs: map<string, RedisDb>, prefix: Path, ts: int, visit: seq<G2sEntry>)
    returns (r: Result<seq<Value>>)
    ensures r == ValuesOf(dbs, prefix, ts, visit)
  {
    var values: seq<Value> := [];
    assert visit[0..] == visit;
    assert Prepend([], ValuesOf(dbs, prefix, ts, visit)) == ValuesOf(dbs, prefix, ts, visit) by {
      var v := ValuesOf(dbs, prefix, ts, visit);
      if v.Ok? {
        assert [] + v.value == v.value;
      }
    }
    for i := 0 to |visit|
      invariant ValuesOf(dbs, prefix, ts, visit) == Prepend(values, ValuesOf(dbs, prefix, ts, visit[i..]))
    {
      assert visit[i..][1..] == visit[i + 1..];
      var val := TableData2TypedValue(dbs, visit[i].tablePaths);
      if !val.Ok? {
        return if val.Err? then Err(val.msg) else Panic(val.reason);
      }
      ghost var rest := ValuesOf(dbs, prefix, ts, visit[i + 1..]);
      var value := EntryValue(prefix, ts, visit[i], val.value);
      if rest.Ok? {
        assert values + ([value] + rest.value) == values + [value] + rest.value;
      }
      values := values + [value];
    }
    assert visit[|visit|..] == [];
    assert values + [] == values;
    r := Ok(values);
  }

  /** Whether NewDbClient goes on to populate the paths after loading the maps. */
  ghost predicate MapsLoad(target: string, e2iBefore: map<string, string>, configDb: RedisDb, pfcwd: Status)
  {
    target != "COUNTERS_DB" || ((e2iBefore != map[] || VdbMapInit.AliasesRead(configDb)) && pfcwd.Success?)
  }

  /**
   * NewDbClient: for COUNTERS_DB loads the port, queue, alias and PFC-WD
   * maps in that order and stops at the first error; then populates the
   * paths, and makes the client only when every path resolved.
   */
  method NewDbClient(vm: SdcVirtualDb.VirtualDbMaps, countersDb: RedisDb, configDb: RedisDb, pfcwd: Status,
                     find: seq<string> -> Option<SdcVirtualDb.Translator>, dbs: map<string, RedisDb>,
                     paths: seq<Path>, prefix: Path)
    returns (st: Status, c: DbClient?, g2s: seq<G2sEntry>)
    requires TrieSound(find)
    modifies vm
    ensures prefix.target != "COUNTERS_DB" ==> vm.Snapshot() == old(vm.Snapshot())
    ensures prefix.target == "COUNTERS_DB" ==>
      && (old(vm.portName) == map[] ==> vm.portName == HGetAll(countersDb, "COUNTERS_PORT_NAME_MAP"))
      && (old(vm.portName) != map[] ==> vm.portName == old(vm.portName))
      && (old(vm.queueName) == map[] ==> vm.queueName == HGetAll(countersDb, "COUNTERS_QUEUE_NAME_MAP"))
      && (old(vm.queueName) != map[] ==> vm.queueName == old(vm.queueName))
      && (old(vm.e2i) != map[] ==> vm.e2i == old(vm.e2i) && vm.i2e == old(vm.i2e))
      && (old(vm.e2i) == map[] && VdbMapInit.AliasesRead(configDb) ==>
            (vm.e2i, vm.i2e) == VdbMapInit.AliasMaps(configDb, KeysWithPrefix(configDb, VdbMapInit.PortTablePrefix)))
      && (old(vm.e2i) == map[] && !VdbMapInit.AliasesRead(configDb) ==>
            st.Failure? && vm.e2i == map[] && vm.i2e == map[])
      && (old(vm.e2i) != map[] || VdbMapInit.AliasesRead(configDb) ==> pfcwd.Success? || st == pfcwd)
    ensures MapsLoad(prefix.target, old(vm.e2i), configDb, pfcwd) ==>
      PopulatedAll(find, vm.Snapshot(), dbs, prefix, paths, st, g2s)
    ensures c != null <==> st.Success?
    ensures c != null ==> fresh(c) && c.prefix == prefix && c.g2s == g2s
  {
    c, g2s := null, [];
    if prefix.target == "COUNTERS_DB" {
      st := vm.InitCountersPortNameMap(countersDb);
      st := vm.InitCountersQueueNameMap(countersDb);
      st := vm.InitAliasMap(configDb);
      if !st.Success? {
        return;
      }
      st := pfcwd;
      if !st.Success? {
        return;
      }
    }
    st, g2s := PopulateAllDbtablePath(find, vm.Snapshot(), dbs, prefix, paths);
    if st.Success? {
      c := new DbClient(prefix, g2s);
    }
  }

  /* The keyspace pattern of dbTableKeySubscribe */

  /** The table part of a keyspace channel: a COUNTERS_DB table other than COUNTERS has no delimiter after it. */
  function ChannelTable(tp: DbTablePath): string
  {
    tp.tableName + if tp.dbName == "COUNTERS_DB" && tp.tableName != "COUNTERS" then "" else tp.delimitor
  }

  /**
   * dbTableKeySubscribe's pattern and prefix length: the channel of the
   * key for a keyed path, and otherwise the table's channels, the prefix
   * length stopping before the `*`.
   */
  function SubscribePattern(tp: DbTablePath): (r: (string, nat))
    ensures tp.tableKey != "" ==> r.0 == VdbPath.KeyspacePattern(tp.dbName, ChannelTable(tp) + tp.tableKey) && r.1 == |r.0|
    ensures tp.tableKey == "" ==> r.0 == VdbPath.KeyspacePattern(tp.dbName, ChannelTable(tp)) + "*" && r.1 == |r.0| - 1
  {
    var pattern := "__keyspace@" + NatToString(VdbPath.DbNumber(tp.dbName)) + "__:" + ChannelTable(tp);
    if tp.tableKey != "" then (pattern + tp.tableKey, |pattern + tp.tableKey|)
    else (pattern + "*", |pattern|)
  }

  /** The key a notification's channel names past the prefix; None for a channel shorter than the prefix. */
  function ChannelKey(channel: string, prefixLen: nat): (r: Option<string>)
    ensures r.Some? <==> prefixLen <= |channel|
    ensures r.Some? ==> channel == channel[..prefixLen] + r.value
  {
    if |channel| < prefixLen then None else Some(channel[prefixLen..])
  }

  /**
   * For a table-wide subscription, the channel of any key of the table
   * matches the pattern, and cutting the prefix gives back that key.
   */
  lemma ChannelKeyOfTable(tp: DbTablePath, key: string)
    requires tp.tableKey == ""
    ensures var (pattern, prefixLen) := SubscribePattern(tp);
      var channel := VdbPath.KeyspacePattern(tp.dbName, ChannelTable(tp) + key);
      && channel[..prefixLen] == pattern[..prefixLen]
      && ChannelKey(channel, prefixLen) == Some(key)
  {
    var base := VdbPath.KeyspacePattern(tp.dbName, ChannelTable(tp));
    var channel := VdbPath.KeyspacePattern(tp.dbName, ChannelTable(tp) + key);
    assert channel == base + key;
    assert SubscribePattern(tp).1 == |base|;
    assert channel[|base|..] == key;
  }
}
