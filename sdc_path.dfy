/**
 * Path translation of the SONiC data client (sonic_data_client/path.go):
 * the string form of a gNMI path, the check that a path names a database,
 * the permit list for configuration writes, and the shapes a path can take
 * when it names a table, a key, a two-part key or a field.
 *
 * Every valid target other than OTHERS has a Redis connection from package
 * initialisation on, and both callers of getTblPath check the target first,
 * so getTblPath is given the target's database `db` directly.
 */
module SdcPath {
  import opened Wrappers
  import opened Gnmi
  import opened GoStrings
  import opened Redis
  import VdbTypes
  import SonicProto

  /** tablePath of the path.go revision: the DB location a path stands for. */
  datatype TablePath = TablePath(dbName: string, tableName: string, tableKey: string, delimitor: string,
                                 fields: string, jsonTableName: string, jsonTableKey: string, jsonFields: string)

  /** Go's `%v` rendering of a string slice. */
  function SliceString(gp: seq<string>): string
  {
    "[" + Join(gp, " ") + "]"
  }

  /** The key separator of `target`; the error of GetTableKeySeparator is dropped, leaving "". */
  function Separator(target: string): (sep: string)
    ensures target in SonicProto.TargetValue ==> VdbTypes.GetTableKeySeparator(target) == Ok(sep)
    ensures target !in SonicProto.TargetValue ==> sep == ""
  {
    match VdbTypes.GetTableKeySeparator(target)
    case Ok(s) => s
    case _ => ""
  }

  /** isValidDbTarget: a known target that is not OTHERS. */
  function IsValidDbTarget(t: string): (r: bool)
    ensures r <==> t in SonicProto.TargetValue && t != "OTHERS"
  {
    if t == "OTHERS" then false else t in SonicProto.TargetValue
  }

  /** The valid targets are exactly those with a database number below OTHERS'. */
  lemma ValidTargetsAreDatabases(t: string)
    ensures IsValidDbTarget(t) <==> t in SonicProto.TargetValue && SonicProto.TargetValue[t] < SonicProto.OTHERS
  {
    SonicProto.OthersIsTheOnlyNonDatabase();
  }

  /**
   * The loop of pathPermit from position `i` on: every permit element is
   * `*` or equals `a`'s element at the same position.
   */
  function PermitFrom(a: seq<string>, permit: seq<string>, i: nat): (r: bool)
    requires |permit| <= |a| && i <= |permit|
    ensures r <==> forall j :: i <= j < |permit| ==> permit[j] == "*" || a[j] == permit[j]
    decreases |permit| - i
  {
    if i == |permit| then true
    else if permit[i] == "*" then PermitFrom(a, permit, i + 1)
    else if a[i] != permit[i] then false
    else PermitFrom(a, permit, i + 1)
  }

  /**
   * pathPermit: `a` is permitted by `permit` when both are non-nil, `a` is
   * at least as long, and each permit position is `*` or matches `a`.
   */
  function PathPermit(a: Option<seq<string>>, permit: Option<seq<string>>): (r: bool)
    ensures r <==> && a.Some? && permit.Some? && |permit.value| <= |a.value|
                   && forall j :: 0 <= j < |permit.value| ==> permit.value[j] == "*" || a.value[j] == permit.value[j]
  {
    if a.None? || permit.None? then false
    else if |a.value| < |permit.value| then false
    else PermitFrom(a.value, permit.value, 0)
  }

  /** Elements of `a` past the permit's length do not matter. */
  lemma PathPermitIgnoresTail(a: seq<string>, tail: seq<string>, permit: seq<string>)
    requires PathPermit(Some(a), Some(permit))
    ensures PathPermit(Some(a + tail), Some(permit))
  {
    assert forall j :: 0 <= j < |a| ==> (a + tail)[j] == a[j];
  }

  /** cfgPermit: the configuration paths a Set may write. */
  const CfgPermit: seq<seq<string>> := [
    ["CONFIG_DB", "TELEMETRY_CLIENT"],
    ["CONFIG_DB", "VLAN"],
    ["CONFIG_DB", "VLAN_MEMBER"],
    ["CONFIG_DB", "VLAN_INTERFACE"],
    ["CONFIG_DB", "BGP_NETWORK"],
    ["CONFIG_DB", "PORT", "*", "admin_status"]]

  /** Some permit entry admits `gp`. */
  predicate Permitted(gp: seq<string>)
  {
    exists i :: 0 <= i < |CfgPermit| && PathPermit(Some(gp), Some(CfgPermit[i]))
  }

  /** A port's admin status may be written; any other port field may not. */
  lemma PortAdminStatusOnly(port: string, field: string)
    ensures Permitted(["CONFIG_DB", "PORT", port, "admin_status"])
    ensures field != "admin_status" ==> !Permitted(["CONFIG_DB", "PORT", port, field])
  {
    assert PathPermit(Some(["CONFIG_DB", "PORT", port, "admin_status"]), Some(CfgPermit[5]));
  }

  /** Every permit entry names CONFIG_DB and a table, so a permitted path has both. */
  lemma PermittedIsConfigTable(gp: seq<string>)
    requires Permitted(gp)
    ensures |gp| >= 2 && gp[0] == "CONFIG_DB"
  {
    var i :| 0 <= i < |CfgPermit| && PathPermit(Some(gp), Some(CfgPermit[i]));
    assert CfgPermit[i][0] == "CONFIG_DB" && CfgPermit[i][0] != "*";
  }

  /** The table path of the bare table, before the shape switch. */
  function TableOnly(gp: seq<string>): TablePath
    requires |gp| >= 2
  {
    TablePath(gp[0], gp[1], "", Separator(gp[0]), "", "", "", "")
  }

  /**
   * The switch on the path length: the table path it builds and whether
   * the lookup it makes failed.
   */
  function Shape(gp: seq<string>, db: RedisDb): (TablePath, bool)
    requires |gp| >= 2
  {
    var tp := TableOnly(gp);
    var sep := tp.delimitor;
    if |gp| == 2 then (tp, |KeysWithPrefix(db, gp[1])| < 1)
    else if |gp| == 3 then (tp.(tableKey := gp[2]), false)
    else if |gp| == 4 then
      if Exists(db, gp[1] + sep + gp[2] + sep + gp[3]) then (tp.(tableKey := gp[2] + sep + gp[3]), false)
      else (tp.(tableKey := gp[2], fields := gp[3]), false)
    else if |gp| == 5 then (tp.(tableKey := gp[2] + sep + gp[3], fields := gp[4]), false)
    else (tp, true)
  }

  /** The error of a failed lookup in the shape switch. */
  function ShapeError(gp: seq<string>): string
    requires |gp| >= 2
  {
    if |gp| == 2 then "failed to find " + gp[0] + " " + SliceString(gp) + " <nil> []"
    else "invalid db table Path " + SliceString(gp)
  }

  /**
   * getTblPath: the table path `gp` names in `db`.  With `allowNotFound`
   * a failed lookup is ignored and the path as built so far is returned;
   * without it a failed lookup, or a key that does not exist, is an error.
   */
  function GetTblPath(gp: seq<string>, allowNotFound: bool, db: RedisDb): (r: Result<TablePath>)
    ensures |gp| < 2 ==> r == Err("not support")
    ensures !r.Panic?
    ensures r.Ok? ==> && r.value.dbName == gp[0] && r.value.tableName == gp[1]
                      && r.value.delimitor == Separator(gp[0])
                      && r.value.jsonTableName == "" && r.value.jsonTableKey == "" && r.value.jsonFields == ""
    ensures |gp| >= 2 && allowNotFound ==> r.Ok?
    ensures r.Ok? && |gp| == 2 ==> r.value.tableKey == "" && r.value.fields == ""
    ensures r.Ok? && |gp| == 3 ==> r.value.tableKey == gp[2] && r.value.fields == ""
    ensures r.Ok? && |gp| == 4 ==>
      var sep := Separator(gp[0]);
      if Exists(db, gp[1] + sep + gp[2] + sep + gp[3]) then r.value.tableKey == gp[2] + sep + gp[3] && r.value.fields == ""
      else r.value.tableKey == gp[2] && r.value.fields == gp[3]
    ensures r.Ok? && |gp| == 5 ==> r.value.tableKey == gp[2] + Separator(gp[0]) + gp[3] && r.value.fields == gp[4]
    ensures r.Ok? && |gp| > 5 ==> allowNotFound && r.value.tableKey == "" && r.value.fields == ""
    ensures |gp| == 2 && !allowNotFound ==> (r.Ok? <==> |KeysWithPrefix(db, gp[1])| >= 1)
    ensures !allowNotFound && r.Ok? ==>
      r.value.tableKey == "" || Exists(db, r.value.tableName + r.value.delimitor + r.value.tableKey)
  {
    if |gp| < 2 then Err("not support")
    else
      var (tp, failed) := Shape(gp, db);
      if allowNotFound then Ok(tp)
      else if failed then Err(ShapeError(gp))
      else if tp.tableKey != "" && !Exists(db, tp.tableName + tp.delimitor + tp.tableKey) then
        Err("no valid entry found on " + SliceString(gp) + " with key " + tp.tableName + tp.delimitor + tp.tableKey)
      else Ok(tp)
  }

  /** Ignoring lookup failures changes nothing about a lookup that succeeds. */
  lemma AllowNotFoundAgrees(gp: seq<string>, db: RedisDb)
    requires GetTblPath(gp, false, db).Ok?
    ensures GetTblPath(gp, true, db) == GetTblPath(gp, false, db)
  {
  }

  /**
   * Without `allowNotFound`, a path of three to five elements fails
   * exactly when the key it resolves to does not exist.
   */
  lemma KeyMustExist(gp: seq<string>, db: RedisDb)
    requires 3 <= |gp| <= 5 && Shape(gp, db).0.tableKey != ""
    ensures GetTblPath(gp, false, db).Err? <==>
      !Exists(db, gp[1] + Separator(gp[0]) + Shape(gp, db).0.tableKey)
  {
    var sep := Separator(gp[0]);
    if |gp| == 4 {
      assert gp[1] + sep + gp[2] + sep + gp[3] == gp[1] + sep + (gp[2] + sep + gp[3]);
    }
  }

  /** A path of more than five elements is an error unless lookups may fail. */
  lemma TooLong(gp: seq<string>, db: RedisDb)
    requires |gp| > 5
    ensures GetTblPath(gp, false, db) == Err("invalid db table Path " + SliceString(gp))
    ensures GetTblPath(gp, true, db) == Ok(TableOnly(gp))
  {
  }

  /**
   * newGSPath: the target followed by the element names; a path without
   * elements or without a target is an error.
   */
  method NewGSPath(path: Path) returns (r: Result<seq<string>>)
    ensures path.elem == [] ==> r == Err("empty path")
    ensures path.elem != [] && path.target == "" ==> r == Err("empty target")
    ensures r.Ok? <==> path.elem != [] && path.target != ""
    ensures r.Ok? ==> r.value == [path.target] + Names(path.elem) && |r.value| >= 2
  {
    if path.elem == [] {
      return Err("empty path");
    }
    if |path.target| == 0 {
      return Err("empty target");
    }
    var gp := [path.target];
    for i := 0 to |path.elem|
      invariant gp == [path.target] + Names(path.elem[..i])
    {
      NamesSnoc(path.elem[..i], path.elem[i]);
      assert path.elem[..i + 1] == path.elem[..i] + [path.elem[i]];
      gp := gp + [path.elem[i].name];
    }
    assert path.elem[..|path.elem|] == path.elem;
    return Ok(gp);
  }
}
