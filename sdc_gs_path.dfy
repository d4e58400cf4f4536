/**
 * The GSPath object of the SONiC data client (sonic_data_client/path.go):
 * a gNMI path as a target and element names, together with the table
 * paths resolved for it.  Reads resolve through virtual-path translation or
 * the path's shape; writes are first checked against the permit list.
 */
module SdcGsPath {
  import opened Wrappers
  import opened GoMaps
  import opened Redis
  import opened SdcPath
  import opened SdcVpath

  class GSPath {
    /** The target followed by the element names. */
    var gpath: seq<string>
    /** The table paths resolved so far. */
    var tpath: seq<TablePath>

    /** newGSPath always yields a target and at least one element name. */
    predicate Valid()
      reads this
    {
      |gpath| >= 2
    }

    /** The object newGSPath returns for the names `gp`. */
    constructor (gp: seq<string>)
      requires |gp| >= 2
      ensures Valid() && gpath == gp && tpath == []
    {
      gpath := gp;
      tpath := [];
    }

    /**
     * GetDbPath: an invalid target is an error.  On COUNTERS_DB a virtual
     * path that translates replaces the table paths; otherwise getTblPath
     * resolves the path, and its result is appended.
     */
    method GetDbPath(allowNotFound: bool, find: seq<string> -> Option<Translator>, tables: CounterTables, db: RedisDb)
      returns (st: Status, ghost v2r: Result<seq<TablePath>>)
      requires Valid()
      requires gpath[0] == "COUNTERS_DB" && find(gpath).Some? ==> Registered(gpath)
      modifies this
      ensures Valid() && gpath == old(gpath) && !st.Crash?
      ensures !IsValidDbTarget(gpath[0]) ==> st == Failure("invaild db target: " + gpath[0]) && tpath == old(tpath)
      ensures IsValidDbTarget(gpath[0]) && gpath[0] == "COUNTERS_DB" && v2r.Ok? ==> st == Success && tpath == v2r.value
      ensures IsValidDbTarget(gpath[0]) && (gpath[0] != "COUNTERS_DB" || !v2r.Ok?) ==>
        var rp := GetTblPath(gpath, allowNotFound, db);
        && (rp.Err? ==> st == Failure(rp.msg) && tpath == old(tpath))
        && (rp.Ok? ==> st == Success && tpath == old(tpath) + [rp.value])
      ensures gpath[0] == "COUNTERS_DB" ==> exists order :: V2rOutcome(find, tables, gpath, order, v2r)
    {
      var target := gpath[0];
      if !IsValidDbTarget(target) {
        return Failure("invaild db target: " + target), Err("");
      }
      v2r := Err("");
      if target == "COUNTERS_DB" {
        var tp;
        ghost var order;
        tp, order := GetV2rPath(find, tables, gpath);
        v2r := tp;
        assert V2rOutcome(find, tables, gpath, order, v2r);
        if tp.Ok? {
          tpath := tp.value;
          return Success, v2r;
        }
      }
      var rp := GetTblPath(gpath, allowNotFound, db);
      if rp.Err? {
        return Failure(rp.msg), v2r;
      }
      tpath := tpath + [rp.value];
      return Success, v2r;
    }

    /**
     * GetCfgPath: only CONFIG_DB paths that some permit entry admits may be
     * written; the permitted path's table path is appended, lookups being
     * allowed to fail.
     */
    method GetCfgPath(db: RedisDb) returns (st: Status)
      requires Valid()
      modifies this
      ensures Valid() && gpath == old(gpath) && !st.Crash?
      ensures !IsValidDbTarget(gpath[0]) ==> st == Failure("invaild db target: " + gpath[0])
      ensures IsValidDbTarget(gpath[0]) && gpath[0] != "CONFIG_DB" ==> st == Failure("config " + gpath[0] + " not supported")
      ensures gpath[0] == "CONFIG_DB" ==> (st.Success? <==> Permitted(gpath))
      ensures gpath[0] == "CONFIG_DB" && !Permitted(gpath) ==> st == Failure("config " + SliceString(gpath) + " not supported")
      ensures st.Success? ==> tpath == old(tpath) + [GetTblPath(gpath, true, db).value]
      ensures !st.Success? ==> tpath == old(tpath)
    {
      var target := gpath[0];
      if !IsValidDbTarget(target) {
        return Failure("invaild db target: " + target);
      }
      if target != "CONFIG_DB" {
        return Failure("config " + target + " not supported");
      }
      for i := 0 to |CfgPermit|
        invariant forall j :: 0 <= j < i ==> !PathPermit(Some(gpath), Some(CfgPermit[j]))
      {
        if PathPermit(Some(gpath), Some(CfgPermit[i])) {
          // getTblPath cannot fail here: lookups may fail and the path has two elements or more.
          var rp := GetTblPath(gpath, true, db);
          tpath := tpath + [rp.value];
          return Success;
        }
      }
      return Failure("config " + SliceString(gpath) + " not supported");
    }
  }

  /** What getv2rPath yields for `gp` under some visiting order. */
  ghost predicate V2rOutcome(find: seq<string> -> Option<Translator>, tables: CounterTables, gp: seq<string>,
                             order: seq<string>, r: Result<seq<TablePath>>)
  {
    match find(gp)
    case None => r == Err(SliceString(gp) + " not found in virtual path tree")
    case Some(t) => Registered(gp) && IsKeyOrder(order, NameMap(tables, TranslatorMap(t)).Keys)
                    && r == Translate(t, tables, gp, order)
  }
}
