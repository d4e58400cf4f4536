/**
 * The system getters of the SONiC data client (sonic_data_client/system.go)
 * that parse what they read: the CONFIG_DB dump, the `ntpstat` status and
 * the last down reason from `last`.  The CPU ring and utilisation code of
 * the same file is the code of the non-DB client and is modelled there.
 * Command output and Redis contents are parameters; JSON marshalling is not
 * part of this model, so each getter yields the data it would marshal.
 */
module SdcSystem {
  import opened Wrappers
  import opened GoStrings
  import opened GoMaps
  import opened Redis
  import SdcPath

  /* GetConfigdb */

  /** A CONFIG_DB field as GetConfigdb reports it: a list for names ending in `@`, a string otherwise. */
  datatype FieldValue = Str(s: string) | List(items: seq<string>)

  type Fields = map<string, FieldValue>

  /** Table name to entry key to fields. */
  type ConfigData = map<string, map<string, Fields>>

  /** The reported name of a field: a name ending in `@` loses every `@`. */
  function CleanName(f: string): string
  {
    if HasSuffix(f, "@") then RemoveAll(f, '@') else f
  }

  /** The reported value of a field: the value of an `@` field split on commas. */
  function FieldEntry(f: string, v: string): FieldValue
  {
    if HasSuffix(f, "@") then List(Split(v, ",")) else Str(v)
  }

  /**
   * `d` is what the field loop leaves after visiting the fields `visited`
   * of `fv`: one entry per reported name, each from a visited field with
   * that name.  Which field wins when two names collide depends on the
   * visiting order.
   */
  ghost predicate FieldsFrom(fv: map<string, string>, visited: seq<string>, d: Fields)
  {
    && (forall k :: k in d <==> exists f :: f in visited && CleanName(f) == k)
    && (forall k :: k in d ==> exists f :: f in visited && f in fv && CleanName(f) == k && d[k] == FieldEntry(f, fv[f]))
  }

  /** Visiting one more field sets the entry of its reported name. */
  lemma FieldsStep(fv: map<string, string>, visited: seq<string>, f: string, d: Fields)
    requires FieldsFrom(fv, visited, d) && f in fv
    ensures FieldsFrom(fv, visited + [f], d[CleanName(f) := FieldEntry(f, fv[f])])
  {
    var d' := d[CleanName(f) := FieldEntry(f, fv[f])];
    forall k | k in d' ensures exists g :: g in visited + [f] && g in fv && CleanName(g) == k && d'[k] == FieldEntry(g, fv[g]) {
      if k != CleanName(f) {
        var g :| g in visited && g in fv && CleanName(g) == k && d[k] == FieldEntry(g, fv[g]);
        assert g in visited + [f];
      } else {
        assert f in visited + [f];
      }
    }
    forall k | exists g :: g in visited + [f] && CleanName(g) == k ensures k in d' {
      var g :| g in visited + [f] && CleanName(g) == k;
      if g != f {
        assert g in visited;
      }
    }
  }

  /** The loop over the fields of one key, visiting them in any order. */
  method FieldsOf(fv: map<string, string>) returns (d: Fields, ghost order: seq<string>)
    ensures IsKeyOrder(order, fv.Keys) && FieldsFrom(fv, order, d)
  {
    KeyOrderExists(fv.Keys);
    var visit :| IsKeyOrder(visit, fv.Keys);
    order := visit;
    d := map[];
    for i := 0 to |visit|
      invariant FieldsFrom(fv, visit[..i], d)
    {
      var f := visit[i];
      var v := fv[f];
      FieldsStep(fv, visit[..i], f, d);
      assert visit[..i + 1] == visit[..i] + [f];
      if HasSuffix(f, "@") {
        f := RemoveAll(f, '@');
        d := d[f := List(Split(v, ","))];
      } else {
        d := d[f := Str(v)];
      }
    }
    assert visit[..|visit|] == visit;
  }

  /** Without colliding names the result does not depend on the order: every field is reported under its name. */
  lemma FieldsWithoutCollision(fv: map<string, string>, order: seq<string>, d: Fields)
    requires IsKeyOrder(order, fv.Keys) && FieldsFrom(fv, order, d)
    requires forall f, g :: f in fv && g in fv && CleanName(f) == CleanName(g) ==> f == g
    ensures d.Keys == set f | f in fv :: CleanName(f)
    ensures forall f :: f in fv ==> CleanName(f) in d && d[CleanName(f)] == FieldEntry(f, fv[f])
  {
    forall f | f in fv ensures CleanName(f) in d && d[CleanName(f)] == FieldEntry(f, fv[f]) {
      assert f in order;
      var g :| g in order && g in fv && CleanName(g) == CleanName(f) && d[CleanName(f)] == FieldEntry(g, fv[g]);
    }
    forall k | k in d ensures k in set f | f in fv :: CleanName(f) {
      var g :| g in order && CleanName(g) == k;
    }
  }

  /** The CONFIG_DB key separator. */
  const ConfigSep := "|"

  /** A key GetConfigdb reports: one with at least one separator. */
  predicate IsRowKey(k: string)
  {
    |Split(k, ConfigSep)| > 1
  }

  /** The table of a key: its first piece. */
  function TableOf(k: string): string
  {
    Split(k, ConfigSep)[0]
  }

  /** The entry key of a key: the remaining pieces joined again. */
  function EntryOf(k: string): string
  {
    Join(Split(k, ConfigSep)[1..], ConfigSep)
  }

  /** A reported key is its table, the separator and its entry key; the table holds no separator. */
  lemma RowKeyParts(k: string)
    requires IsRowKey(k)
    ensures TableOf(k) + ConfigSep + EntryOf(k) == k
    ensures !Contains(TableOf(k), ConfigSep)
  {
    JoinSplit(k, ConfigSep);
    SplitPartsFree(k, ConfigSep);
    assert TableOf(k) in Split(k, ConfigSep);
  }

  /** The tables the reported keys among `keys` name. */
  ghost function Tables(keys: seq<string>): set<string>
  {
    if keys == [] then {}
    else
      var k := keys[|keys| - 1];
      Tables(keys[..|keys| - 1]) + (if IsRowKey(k) then {TableOf(k)} else {})
  }

  /** The entry keys the reported keys among `keys` give the table `t`. */
  ghost function Entries(keys: seq<string>, t: string): set<string>
  {
    if keys == [] then {}
    else
      var k := keys[|keys| - 1];
      Entries(keys[..|keys| - 1], t) + (if IsRowKey(k) && TableOf(k) == t then {EntryOf(k)} else {})
  }

  /** A table is listed exactly when some reported key names it. */
  lemma {:induction false} TablesMeaning(keys: seq<string>, t: string)
    ensures t in Tables(keys) <==> exists k :: k in keys && IsRowKey(k) && TableOf(k) == t
  {
    if keys != [] {
      var init := keys[..|keys| - 1];
      assert keys == init + [keys[|keys| - 1]];
      TablesMeaning(init, t);
      if exists k :: k in keys && IsRowKey(k) && TableOf(k) == t {
        var k :| k in keys && IsRowKey(k) && TableOf(k) == t;
        if k != keys[|keys| - 1] {
          assert k in init;
        }
      }
    }
  }

  /** An entry key is listed under a table exactly when some reported key is that table and entry. */
  lemma {:induction false} EntriesMeaning(keys: seq<string>, t: string, e: string)
    ensures e in Entries(keys, t) <==> exists k :: k in keys && IsRowKey(k) && TableOf(k) == t && EntryOf(k) == e
  {
    if keys != [] {
      var init := keys[..|keys| - 1];
      assert keys == init + [keys[|keys| - 1]];
      EntriesMeaning(init, t, e);
      if exists k :: k in keys && IsRowKey(k) && TableOf(k) == t && EntryOf(k) == e {
        var k :| k in keys && IsRowKey(k) && TableOf(k) == t && EntryOf(k) == e;
        if k != keys[|keys| - 1] {
          assert k in init;
        }
      }
    }
  }

  /** A table no reported key names has no entries. */
  lemma {:induction false} NoTableNoEntries(keys: seq<string>, t: string)
    requires t !in Tables(keys)
    ensures Entries(keys, t) == {}
  {
    if keys != [] {
      NoTableNoEntries(keys[..|keys| - 1], t);
    }
  }

  /**
   * `data` is the dump of the keys `keys`: a table for every table some
   * reported key names, an entry for every reported key of that table, and
   * the entry's fields built from the hash stored under that key.
   */
  ghost predicate ConfigFrom(db: RedisDb, keys: seq<string>, data: ConfigData)
  {
    && data.Keys == Tables(keys)
    && (forall t | t in data :: data[t].Keys == Entries(keys, t))
    && (forall t, e | t in data && e in data[t] :: FieldsOfKey(db, t + ConfigSep + e, data[t][e]))
  }

  /** `d` is what the field loop leaves for the hash under `k` in some visiting order. */
  ghost predicate FieldsOfKey(db: RedisDb, k: string, d: Fields)
  {
    exists order :: IsKeyOrder(order, HGetAll(db, k).Keys) && FieldsFrom(HGetAll(db, k), order, d)
  }

  /** The dump with one more entry: the table gains the entry, or is created with it. */
  function Insert(data: ConfigData, t: string, e: string, d: Fields): (r: ConfigData)
    ensures r.Keys == data.Keys + {t}
    ensures r[t].Keys == (if t in data then data[t].Keys else {}) + {e} && r[t][e] == d
    ensures forall t' :: t' in data && t' != t ==> r[t'] == data[t']
    ensures t in data ==> forall e' :: e' in data[t] && e' != e ==> r[t][e'] == data[t][e']
  {
    data[t := (if t in data then data[t] else map[])[e := d]]
  }

  /** A reported key adds its entry to the dump. */
  lemma ConfigInsert(db: RedisDb, keys: seq<string>, k: string, data: ConfigData, d: Fields)
    requires ConfigFrom(db, keys, data) && IsRowKey(k) && FieldsOfKey(db, k, d)
    ensures ConfigFrom(db, keys + [k], Insert(data, TableOf(k), EntryOf(k), d))
  {
    RowKeyParts(k);
    var keys' := keys + [k];
    assert keys'[..|keys'| - 1] == keys;
    var t, e := TableOf(k), EntryOf(k);
    var r := Insert(data, t, e, d);
    if t !in data {
      NoTableNoEntries(keys, t);
    }
    assert r.Keys == Tables(keys');
    forall t' | t' in r ensures r[t'].Keys == Entries(keys', t') {
    }
    forall t', e' | t' in r && e' in r[t'] ensures FieldsOfKey(db, t' + ConfigSep + e', r[t'][e']) {
      if t' != t || e' != e {
        assert t' in data && e' in data[t'];
      }
    }
  }

  /** A key without a separator leaves the dump as it is. */
  lemma ConfigSkip(db: RedisDb, keys: seq<string>, k: string, data: ConfigData)
    requires ConfigFrom(db, keys, data) && !IsRowKey(k)
    ensures ConfigFrom(db, keys + [k], data)
  {
    var keys' := keys + [k];
    assert keys'[..|keys'| - 1] == keys;
  }

  /**
   * GetConfigdb: every CONFIG_DB key with a separator becomes an entry of
   * its table, keys without one are skipped, and a table seen before keeps
   * its entries.
   */
  method GetConfigdb(db: RedisDb) returns (data: ConfigData)
    ensures ConfigFrom(db, db.keys, data)
  {
    var dbkeys := db.keys;
    var separator := SdcPath.Separator("CONFIG_DB");
    assert separator == ConfigSep;
    data := map[];
    for i := 0 to |dbkeys|
      invariant ConfigFrom(db, dbkeys[..i], data)
    {
      var dbkey := dbkeys[i];
      assert dbkeys[..i + 1] == dbkeys[..i] + [dbkey];
      var dbkeystr := Split(dbkey, separator);
      if |dbkeystr| <= 1 {
        ConfigSkip(db, dbkeys[..i], dbkey, data);
        continue;
      }
      var table := dbkeystr[0];
      var fild := Join(dbkeystr[1..], separator);
      var fv := HGetAll(db, dbkey);
      var data3;
      ghost var order;
      data3, order := FieldsOf(fv);
      ConfigInsert(db, dbkeys[..i], dbkey, data, data3);
      ghost var next := Insert(data, table, fild, data3);
      var data2 := map[fild := data3];
      if table in data {
        data := data[table := data[table][fild := data3]];
      } else {
        data := data[table := data2];
      }
      assert data == next;
    }
    assert dbkeys[..|dbkeys|] == dbkeys;
  }

  /** Every key without a separator is left out, whatever else is listed. */
  lemma SkippedKey(db: RedisDb, data: ConfigData, k: string)
    requires ConfigFrom(db, db.keys, data)
    requires k in db.keys && !IsRowKey(k)
    ensures forall t, e :: t in data && e in data[t] ==> t + ConfigSep + e != k
  {
    forall t, e | t in data && e in data[t] ensures t + ConfigSep + e != k {
      EntriesMeaning(db.keys, t, e);
      var k' :| k' in db.keys && IsRowKey(k') && TableOf(k') == t && EntryOf(k') == e;
      RowKeyParts(k');
    }
  }

  /* GetNtpStat */

  /**
   * GetNtpStat over the output of `ntpstat || true`: its status by the
   * output's first word, an error for any other output; a failing command
   * is its error.
   */
  function NtpStat(out: Result<string>): (r: Result<map<string, string>>)
    ensures !r.Panic?
    ensures out.Ok? ==> (r.Ok? <==> HasPrefix(out.value, "unsynchronised") || HasPrefix(out.value, "synchronised"))
    ensures r.Ok? ==> && out.Ok? && r.value.Keys == {"stat"}
                      && r.value["stat"] in {"unsynchronised", "synchronised"}
                      && HasPrefix(out.value, r.value["stat"])
    ensures out.Ok? && r.Err? ==> r.msg == "invalid result: " + out.value
    ensures !out.Ok? ==> r.Err?
  {
    match out
    case Ok(s) =>
      if HasPrefix(s, "unsynchronised") then Ok(map["stat" := "unsynchronised"])
      else if HasPrefix(s, "synchronised") then Ok(map["stat" := "synchronised"])
      else Err("invalid result: " + s)
    case Err(m) => Err(m)
    case Panic(m) => Err(m)
  }

  /** The two statuses exclude each other, so the order of the two tests does not matter. */
  lemma NtpStatusesExclusive(s: string)
    ensures !(HasPrefix(s, "unsynchronised") && HasPrefix(s, "synchronised"))
  {
    if HasPrefix(s, "unsynchronised") {
      assert s[0] == 'u';
    }
  }

  /* GetDownReason */

  const IndexPanic := "index out of range"

  /** The number of `reboot ` lines. */
  function RebootCount(lines: seq<string>): nat
  {
    if lines == [] then 0
    else RebootCount(lines[..|lines| - 1]) + (if HasPrefix(lines[|lines| - 1], "reboot ") then 1 else 0)
  }

  /** The number of `shutdown ` lines that are not `reboot ` lines. */
  function ShutdownCount(lines: seq<string>): nat
  {
    if lines == [] then 0
    else
      var l := lines[|lines| - 1];
      ShutdownCount(lines[..|lines| - 1]) + (if !HasPrefix(l, "reboot ") && HasPrefix(l, "shutdown ") then 1 else 0)
  }

  /** The last `shutdown ` line without its prefix, "" when there is none. */
  function ShutdownLine(lines: seq<string>): string
  {
    if lines == [] then ""
    else
      var l := lines[|lines| - 1];
      if !HasPrefix(l, "reboot ") && HasPrefix(l, "shutdown ") then TrimPrefix(l, "shutdown ")
      else ShutdownLine(lines[..|lines| - 1])
  }

  /**
   * GetDownReason over the output of `last -n2 -x shutdown reboot`: with
   * exactly one shutdown and one reboot line, the first and third pieces of
   * the shutdown line split on two spaces (an index panic when it has fewer
   * than three); otherwise `Unknown` and "".
   */
  function DownReason(out: string): Result<(string, string)>
  {
    var lines := Split(out, "\n");
    if ShutdownCount(lines) == 1 && RebootCount(lines) == 1 then
      var d := Split(ShutdownLine(lines), "  ");
      if |d| < 3 then Panic(IndexPanic) else Ok((d[0], d[2]))
    else Ok(("Unknown", ""))
  }

  /** GetDownReason's loop over the lines, counting reboot and shutdown lines. */
  method GetDownReason(out: Result<string>) returns (r: Result<map<string, string>>)
    ensures out.Ok? ==> match DownReason(out.value)
      case Ok((last, date)) => r == Ok(map["last" := last, "date" := date])
      case Panic(m) => r == Panic(m)
      case Err(m) => false
    ensures !out.Ok? ==> r.Err?
  {
    if !out.Ok? {
      return Err(if out.Err? then out.msg else out.reason);
    }
    var lines := Split(out.value, "\n");
    var rebootCnt := 0;
    var shutdownCnt := 0;
    var shutdownLine := "";
    for i := 0 to |lines|
      invariant rebootCnt == RebootCount(lines[..i])
      invariant shutdownCnt == ShutdownCount(lines[..i])
      invariant shutdownLine == ShutdownLine(lines[..i])
    {
      var line := lines[i];
      assert lines[..i + 1][..i] == lines[..i];
      if HasPrefix(line, "reboot ") {
        rebootCnt := rebootCnt + 1;
      } else if HasPrefix(line, "shutdown ") {
        shutdownCnt := shutdownCnt + 1;
        shutdownLine := TrimPrefix(line, "shutdown ");
      }
    }
    assert lines[..|lines|] == lines;
    var last := "Unknown";
    var date := "";
    if shutdownCnt == 1 && rebootCnt == 1 {
      var d := Split(shutdownLine, "  ");
      if |d| < 3 {
        return Panic(IndexPanic);
      }
      last := d[0];
      date := d[2];
    }
    return Ok(map["last" := last, "date" := date]);
  }

  /**
   * With a single shutdown line, the line the reason is read from is that
   * line without its prefix.
   */
  lemma {:induction false} SingleShutdownLine(lines: seq<string>)
    requires ShutdownCount(lines) == 1
    ensures exists j :: 0 <= j < |lines| && !HasPrefix(lines[j], "reboot ") && HasPrefix(lines[j], "shutdown ")
                        && ShutdownLine(lines) == TrimPrefix(lines[j], "shutdown ")
    decreases |lines|
  {
    var l := lines[|lines| - 1];
    var init := lines[..|lines| - 1];
    if !(!HasPrefix(l, "reboot ") && HasPrefix(l, "shutdown ")) {
      SingleShutdownLine(init);
      var j :| 0 <= j < |init| && !HasPrefix(init[j], "reboot ") && HasPrefix(init[j], "shutdown ")
               && ShutdownLine(init) == TrimPrefix(init[j], "shutdown ");
      assert lines[j] == init[j];
    }
  }

  /** Without exactly one line of each kind the reason is unknown. */
  lemma DownReasonUnknown(out: string)
    requires var lines := Split(out, "\n"); ShutdownCount(lines) != 1 || RebootCount(lines) != 1
    ensures DownReason(out) == Ok(("Unknown", ""))
  {
  }

  /** The reason is never an error: it is a pair, or the panic of a shutdown line with fewer than three pieces. */
  lemma DownReasonOutcomes(out: string)
    ensures !DownReason(out).Err?
    ensures DownReason(out).Panic? <==>
      var lines := Split(out, "\n");
      ShutdownCount(lines) == 1 && RebootCount(lines) == 1 && |Split(ShutdownLine(lines), "  ")| < 3
  {
  }
}
