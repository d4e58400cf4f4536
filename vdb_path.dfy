/**
 * Path handling of the virtual database client
 * (virtual_database_client/path.go): the full path of a request, the trie
 * keys a path is searched under, reading the table paths a path maps to
 * into one field map, the merge of changed fields during a subscription,
 * and the keyspace pattern a subscription listens on.
 *
 * Regular-expression matching of a field against a pattern is the
 * parameter `matches`; the JSON encoding of the field map is not modelled.
 */
module VdbPath {
  import opened Wrappers
  import opened Gnmi
  import opened GoMaps
  import opened GoStrings
  import opened Redis
  import opened VdbTypes
  import opened VdbMapInit
  import opened VdbTrie
  import opened VdbHandlerFunc
  import SonicProto

  /**
   * gnmiFullPath: the origin of `path`, no target, and the prefix's
   * elements followed by the path's, or no elements at all when the path
   * has none.
   */
  function GnmiFullPath(prefix: Path, path: Path): (r: Path)
    ensures r.origin == path.origin && r.target == ""
    ensures path.elem == [] ==> r.elem == []
    ensures path.elem != [] ==> |r.elem| == |prefix.elem| + |path.elem|
    ensures path.elem != [] ==> r.elem[..|prefix.elem|] == prefix.elem && r.elem[|prefix.elem|..] == path.elem
  {
    Path(path.origin, "", if path.elem == [] then [] else prefix.elem + path.elem)
  }

  /** The full path's element names are the prefix's names followed by the path's. */
  lemma FullPathNames(prefix: Path, path: Path)
    requires path.elem != []
    ensures Names(GnmiFullPath(prefix, path).elem) == Names(prefix.elem) + Names(path.elem)
  {
    var r := Names(GnmiFullPath(prefix, path).elem);
    var s := Names(prefix.elem) + Names(path.elem);
    assert |r| == |s|;
    forall i | 0 <= i < |r| ensures r[i] == s[i] {
      if i < |prefix.elem| {
        assert GnmiFullPath(prefix, path).elem[i] == GnmiFullPath(prefix, path).elem[..|prefix.elem|][i];
      } else {
        assert GnmiFullPath(prefix, path).elem[i] == GnmiFullPath(prefix, path).elem[|prefix.elem|..][i - |prefix.elem|];
      }
    }
  }

  /** The keys a request path is searched under: the prefix's target, then the element names. */
  function TrieKeys(prefix: Path, path: Path): seq<string>
  {
    [prefix.target] + Names(path.elem)
  }

  /**
   * The search keys ignore element keys and the prefix's elements: two
   * requests with the same target and element names reach the same nodes.
   */
  lemma TrieKeysIgnoreKeys(prefix: Path, path: Path, prefix': Path, path': Path)
    requires prefix.target == prefix'.target && |path.elem| == |path'.elem|
    requires forall i :: 0 <= i < |path.elem| ==> path.elem[i].name == path'.elem[i].name
    ensures TrieKeys(prefix, path) == TrieKeys(prefix', path')
  {
    assert Names(path.elem) == Names(path'.elem);
  }

  /**
   * populateNewtablePath: builds the search keys from the target and the
   * element names, then runs the handlers the trie search reaches.
   */
  method PopulateNewtablePath(t: PathTrie<Handler>, maps: CounterMaps, prefix: Path, path: Path, g2s: seq<Entry>)
    returns (st: Status, g2s': seq<Entry>)
    requires t.Valid()
    ensures SearchOutcome(t.nodes, TrieKeys(prefix, path), maps, path, st, g2s, g2s')
  {
    var stringSlice := [prefix.target];
    for i := 0 to |path.elem|
      invariant stringSlice == [prefix.target] + Names(path.elem[..i])
    {
      NamesSnoc(path.elem[..i], path.elem[i]);
      assert path.elem[..i + 1] == path.elem[..i] + [path.elem[i]];
      stringSlice := stringSlice + [path.elem[i].name];
    }
    assert path.elem[..|path.elem|] == path.elem;
    st, g2s' := SearchPathTrie(t, maps, stringSlice, path, g2s);
  }

  /**
   * What populateAlltablePaths promises for `paths`: every write is one a
   * handler reached by one of the paths stands for; success means every
   * path's search finished; a failure is the failure of one path's search.
   */
  ghost predicate AllOutcome(ns: seq<PathNode<Handler>>, prefix: Path, paths: seq<Path>, maps: CounterMaps,
                             st: Status, before: seq<Entry>, after: seq<Entry>)
    requires ValidNodes(ns)
  {
    && Extends(after, before)
    && (forall e :: e in Added(after, before) ==> FromSome(ns, prefix, paths, |paths|, maps, e))
    && (st.Success? ==> forall i :: 0 <= i < |paths| ==>
          AllDone(ns, TrieKeys(prefix, paths[i]), maps, paths[i], Added(after, before)))
    && (!st.Success? ==> exists i :: 0 <= i < |paths| && SomeFails(ns, TrieKeys(prefix, paths[i]), maps, paths[i], st))
  }

  /** `e` is reported for one of the first `m` paths. */
  ghost predicate FromSome(ns: seq<PathNode<Handler>>, prefix: Path, paths: seq<Path>, m: nat, maps: CounterMaps, e: Entry)
    requires ValidNodes(ns)
  {
    exists i :: 0 <= i < m && i < |paths| && Reported(ns, TrieKeys(prefix, paths[i]), maps, paths[i], e)
  }

  /** The first `m` paths have been searched with success. */
  ghost predicate Progress(ns: seq<PathNode<Handler>>, prefix: Path, paths: seq<Path>, m: nat, maps: CounterMaps,
                           before: seq<Entry>, after: seq<Entry>)
    requires ValidNodes(ns) && m <= |paths|
  {
    && Extends(after, before)
    && (forall e :: e in Added(after, before) ==> FromSome(ns, prefix, paths, m, maps, e))
    && (forall i :: 0 <= i < m ==> AllDone(ns, TrieKeys(prefix, paths[i]), maps, paths[i], Added(after, before)))
  }

  /** populateAlltablePaths: searches the paths in order and stops at the first error. */
  method PopulateAlltablePaths(t: PathTrie<Handler>, maps: CounterMaps, prefix: Path, paths: seq<Path>, g2s: seq<Entry>)
    returns (st: Status, g2s': seq<Entry>)
    requires t.Valid()
    ensures AllOutcome(t.nodes, prefix, paths, maps, st, g2s, g2s')
  {
    st, g2s' := Success, g2s;
    for i := 0 to |paths|
      invariant Progress(t.nodes, prefix, paths, i, maps, g2s, g2s')
    {
      var s, after := PopulateNewtablePath(t, maps, prefix, paths[i], g2s');
      if !s.Success? {
        PathFailed(t.nodes, prefix, paths, i, maps, s, g2s, g2s', after);
        return s, after;
      }
      PathStep(t.nodes, prefix, paths, i, maps, g2s, g2s', after);
      g2s' := after;
    }
  }

  /** One successful path keeps the loop's progress. */
  lemma PathStep(ns: seq<PathNode<Handler>>, prefix: Path, paths: seq<Path>, m: nat, maps: CounterMaps,
                 g2s: seq<Entry>, mid: seq<Entry>, after: seq<Entry>)
    requires ValidNodes(ns) && m < |paths|
    requires Progress(ns, prefix, paths, m, maps, g2s, mid)
    requires SearchOutcome(ns, TrieKeys(prefix, paths[m]), maps, paths[m], Success, mid, after)
    ensures Progress(ns, prefix, paths, m + 1, maps, g2s, after)
  {
    ExtendsTrans(g2s, mid, after);
    WritesFromPaths(ns, prefix, paths, m, maps, g2s, mid, after);
    forall i | 0 <= i < m + 1 ensures AllDone(ns, TrieKeys(prefix, paths[i]), maps, paths[i], Added(after, g2s)) {
      if i < m {
        AllDoneGrows(ns, TrieKeys(prefix, paths[i]), maps, paths[i], Added(mid, g2s), Added(after, g2s));
      } else {
        AllDoneGrows(ns, TrieKeys(prefix, paths[i]), maps, paths[i], Added(after, mid), Added(after, g2s));
      }
    }
  }

  /** The writes after path `m` come from the first `m + 1` paths. */
  lemma WritesFromPaths(ns: seq<PathNode<Handler>>, prefix: Path, paths: seq<Path>, m: nat, maps: CounterMaps,
                        g2s: seq<Entry>, mid: seq<Entry>, after: seq<Entry>)
    requires ValidNodes(ns) && m < |paths| && Extends(mid, g2s) && Extends(after, mid)
    requires forall e :: e in Added(mid, g2s) ==> FromSome(ns, prefix, paths, m, maps, e)
    requires forall e :: e in Added(after, mid) ==> Reported(ns, TrieKeys(prefix, paths[m]), maps, paths[m], e)
    ensures Extends(after, g2s)
    ensures forall e :: e in Added(after, g2s) ==> FromSome(ns, prefix, paths, m + 1, maps, e)
  {
    ExtendsTrans(g2s, mid, after);
    forall e | e in Added(after, g2s) ensures FromSome(ns, prefix, paths, m + 1, maps, e) {
      if e in Added(mid, g2s) {
        var i :| 0 <= i < m && i < |paths| && Reported(ns, TrieKeys(prefix, paths[i]), maps, paths[i], e);
      } else {
        assert Reported(ns, TrieKeys(prefix, paths[m]), maps, paths[m], e);
      }
    }
  }

  /** A failing path ends the loop with that path's failure. */
  lemma PathFailed(ns: seq<PathNode<Handler>>, prefix: Path, paths: seq<Path>, m: nat, maps: CounterMaps, s: Status,
                   g2s: seq<Entry>, mid: seq<Entry>, after: seq<Entry>)
    requires ValidNodes(ns) && m < |paths| && !s.Success?
    requires Progress(ns, prefix, paths, m, maps, g2s, mid)
    requires SearchOutcome(ns, TrieKeys(prefix, paths[m]), maps, paths[m], s, mid, after)
    ensures AllOutcome(ns, prefix, paths, maps, s, g2s, after)
  {
    WritesFromPaths(ns, prefix, paths, m, maps, g2s, mid, after);
    forall e | e in Added(after, g2s) ensures FromSome(ns, prefix, paths, |paths|, maps, e) {
      var i :| 0 <= i < m + 1 && i < |paths| && Reported(ns, TrieKeys(prefix, paths[i]), maps, paths[i], e);
    }
  }

  /* Reading table paths (tableData2Msi, tableData2TypedValue). */

  /** Some pattern of `patterns` matches `field`. */
  predicate AnyMatch(patterns: seq<string>, field: string, matches: (string, string) -> bool)
  {
    exists j :: 0 <= j < |patterns| && matches(patterns[j], field)
  }

  /** The fields of `val` a table path selects: those a pattern matches and the listed ones, with their values. */
  function Selected(val: map<string, string>, patterns: seq<string>, fields: seq<string>,
                    matches: (string, string) -> bool): map<string, string>
  {
    map f | f in val && (AnyMatch(patterns, f, matches) || f in fields) :: val[f]
  }

  /**
   * Selection copies values unchanged, takes every matching or listed field
   * that the hash holds, and invents none: a listed field the hash lacks is
   * skipped.
   */
  lemma {:induction false} SelectedFields(val: map<string, string>, patterns: seq<string>, fields: seq<string>,
                                          matches: (string, string) -> bool, f: string)
    ensures f in Selected(val, patterns, fields, matches) <==> f in val && (AnyMatch(patterns, f, matches) || f in fields)
    ensures f in Selected(val, patterns, fields, matches) ==> Selected(val, patterns, fields, matches)[f] == val[f]
  {
  }

  /** The selection of table path `tp` from its database. */
  function TableSelection(dbs: map<string, RedisDb>, tp: TablePath, matches: (string, string) -> bool): map<string, string>
    requires tp.dbName in dbs
  {
    Selected(HGetAll(dbs[tp.dbName], tp.keyName), tp.patterns, tp.fields, matches)
  }

  /** The pattern-selected fields of `val` among `done`. */
  function PatternPart(val: map<string, string>, patterns: seq<string>, matches: (string, string) -> bool,
                       done: set<string>): map<string, string>
  {
    map f | f in done && f in val && AnyMatch(patterns, f, matches) :: val[f]
  }

  /** The listed fields of `fields` that `val` holds. */
  function ListedPart(val: map<string, string>, fields: seq<string>): map<string, string>
  {
    map f | f in val && f in fields :: val[f]
  }

  /**
   * tableData2Msi: reads the hash of `tp` and copies into `msi` every field
   * that matches one of its patterns and every listed field the hash holds.
   * A database name with no client is a nil dereference.
   */
  method TableData2Msi(dbs: map<string, RedisDb>, tp: TablePath, matches: (string, string) -> bool,
                       msi: map<string, string>) returns (st: Status, msi': map<string, string>)
    ensures st.Success? <==> tp.dbName in dbs
    ensures !st.Success? ==> st.Crash?
    ensures st.Success? ==> msi' == msi + TableSelection(dbs, tp, matches)
  {
    if tp.dbName !in dbs {
      return Crash("invalid memory address or nil pointer dereference"), msi;
    }
    var val := HGetAll(dbs[tp.dbName], tp.keyName);
    st := Success;
    msi' := CopyMatchedFields(val, tp.patterns, matches, msi);
    msi' := CopyListedFields(val, tp.fields, msi');
    SelectedSplit(msi, val, tp.patterns, tp.fields, matches);
  }

  /** The first loop of tableData2Msi: every field of the hash, in map order, is copied when a pattern matches it. */
  method CopyMatchedFields(val: map<string, string>, patterns: seq<string>, matches: (string, string) -> bool,
                           msi: map<string, string>) returns (msi': map<string, string>)
    ensures msi' == msi + PatternPart(val, patterns, matches, val.Keys)
  {
    KeyOrderExists(val.Keys);
    var order :| IsKeyOrder(order, val.Keys);
    msi' := msi;
    ghost var done: set<string> := {};
    for i := 0 to |order|
      invariant done <= val.Keys && forall f :: f in done <==> f in order[..i]
      invariant msi' == msi + PatternPart(val, patterns, matches, done)
    {
      var field := order[i];
      assert order[..i + 1] == order[..i] + [field];
      PatternStep(msi, val, patterns, matches, done, field);
      msi' := CopyIfMatched(patterns, field, val[field], matches, msi');
      done := done + {field};
    }
    assert done == val.Keys;
  }

  /** The second loop of tableData2Msi: every listed field the hash holds is copied; a missing one is skipped. */
  method CopyListedFields(val: map<string, string>, fields: seq<string>, msi: map<string, string>)
    returns (msi': map<string, string>)
    ensures msi' == msi + ListedPart(val, fields)
  {
    msi' := msi;
    for i := 0 to |fields|
      invariant msi' == msi + ListedPart(val, fields[..i])
    {
      var field := fields[i];
      assert fields[..i + 1] == fields[..i] + [field];
      ListedStep(msi, val, fields[..i], field);
      if field in val {
        msi' := msi'[field := val[field]];
      }
    }
    assert fields[..|fields|] == fields;
  }

  /** The pattern loop for one field: copies it when some pattern matches, stopping at the first match. */
  method CopyIfMatched(patterns: seq<string>, field: string, value: string, matches: (string, string) -> bool,
                       msi: map<string, string>) returns (msi': map<string, string>)
    ensures msi' == if AnyMatch(patterns, field, matches) then msi[field := value] else msi
  {
    msi' := msi;
    var j := 0;
    while j < |patterns|
      invariant 0 <= j <= |patterns|
      invariant forall m :: 0 <= m < j ==> !matches(patterns[m], field)
    {
      if matches(patterns[j], field) {
        msi' := msi'[field := value];
        return;
      }
      j := j + 1;
    }
  }

  lemma {:induction false} PatternStep(msi: map<string, string>, val: map<string, string>, patterns: seq<string>,
                                       matches: (string, string) -> bool, done: set<string>, field: string)
    requires field in val && field !in done
    ensures msi + PatternPart(val, patterns, matches, done + {field}) ==
      (var m := msi + PatternPart(val, patterns, matches, done);
       if AnyMatch(patterns, field, matches) then m[field := val[field]] else m)
  {
    var l := msi + PatternPart(val, patterns, matches, done + {field});
    var m := msi + PatternPart(val, patterns, matches, done);
    var r := if AnyMatch(patterns, field, matches) then m[field := val[field]] else m;
    assert l.Keys == r.Keys;
  }

  lemma ListedStep(base: map<string, string>, val: map<string, string>, fields: seq<string>, field: string)
    ensures base + ListedPart(val, fields + [field]) ==
      (var m := base + ListedPart(val, fields);
       if field in val then m[field := val[field]] else m)
  {
    var l := base + ListedPart(val, fields + [field]);
    var m := base + ListedPart(val, fields);
    var r := if field in val then m[field := val[field]] else m;
    assert l.Keys == r.Keys;
  }

  lemma {:induction false} SelectedSplit(msi: map<string, string>, val: map<string, string>, patterns: seq<string>, fields: seq<string>,
                                         matches: (string, string) -> bool)
    ensures msi + PatternPart(val, patterns, matches, val.Keys) + ListedPart(val, fields) ==
      msi + Selected(val, patterns, fields, matches)
  {
    var l := msi + PatternPart(val, patterns, matches, val.Keys) + ListedPart(val, fields);
    var r := msi + Selected(val, patterns, fields, matches);
    assert l.Keys == r.Keys;
  }

  /** The fields of table paths `tps` read one after another into one map: later reads overwrite earlier ones. */
  function MergeAll(dbs: map<string, RedisDb>, tps: seq<TablePath>, matches: (string, string) -> bool): map<string, string>
    requires forall i :: 0 <= i < |tps| ==> tps[i].dbName in dbs
  {
    if tps == [] then map[]
    else MergeAll(dbs, tps[..|tps| - 1], matches) + TableSelection(dbs, tps[|tps| - 1], matches)
  }

  /** A field is in the merged map exactly when some table path selects it. */
  lemma {:induction false} MergeAllKeys(dbs: map<string, RedisDb>, tps: seq<TablePath>, matches: (string, string) -> bool,
                                        f: string)
    requires forall i :: 0 <= i < |tps| ==> tps[i].dbName in dbs
    ensures f in MergeAll(dbs, tps, matches) <==> exists i :: 0 <= i < |tps| && f in TableSelection(dbs, tps[i], matches)
    decreases |tps|
  {
    if tps != [] {
      var init := tps[..|tps| - 1];
      MergeAllKeys(dbs, init, matches, f);
      assert forall i :: 0 <= i < |init| ==> init[i] == tps[i];
      if f in MergeAll(dbs, tps, matches) && f !in TableSelection(dbs, tps[|tps| - 1], matches) {
        var i :| 0 <= i < |init| && f in TableSelection(dbs, init[i], matches);
        assert f in TableSelection(dbs, tps[i], matches);
      }
    }
  }

  /** A merged field holds the value the last table path selecting it selected. */
  lemma {:induction false} MergeAllLast(dbs: map<string, RedisDb>, tps: seq<TablePath>, matches: (string, string) -> bool,
                                        f: string, i: nat)
    requires forall j :: 0 <= j < |tps| ==> tps[j].dbName in dbs
    requires i < |tps| && f in TableSelection(dbs, tps[i], matches)
    requires forall j :: i < j < |tps| ==> f !in TableSelection(dbs, tps[j], matches)
    ensures f in MergeAll(dbs, tps, matches) && MergeAll(dbs, tps, matches)[f] == TableSelection(dbs, tps[i], matches)[f]
    decreases |tps|
  {
    if i < |tps| - 1 {
      var init := tps[..|tps| - 1];
      assert init[i] == tps[i];
      assert forall j :: i < j < |init| ==> init[j] == tps[j];
      MergeAllLast(dbs, init, matches, f, i);
    }
  }

  /**
   * tableData2TypedValue (and the first read of dbPathSubscribe): reads the
   * table paths in order into one map; the first failure aborts.
   */
  method TableData2TypedValue(dbs: map<string, RedisDb>, tps: seq<TablePath>, matches: (string, string) -> bool)
    returns (st: Status, msi: map<string, string>)
    ensures st.Success? <==> forall i :: 0 <= i < |tps| ==> tps[i].dbName in dbs
    ensures !st.Success? ==> st.Crash?
    ensures st.Success? ==> msi == MergeAll(dbs, tps, matches)
  {
    msi := map[];
    for i := 0 to |tps|
      invariant forall j :: 0 <= j < i ==> tps[j].dbName in dbs
      invariant msi == MergeAll(dbs, tps[..i], matches)
    {
      var s;
      s, msi := TableData2Msi(dbs, tps[i], matches, msi);
      if !s.Success? {
        return s, msi;
      }
      assert tps[..i + 1][..i] == tps[..i];
    }
    assert tps[..|tps|] == tps;
    st := Success;
  }

  /* The change merge of dbSingleTableKeySubscribe. */

  /** The fields of `newMsi` that `msi` lacks or holds with another value. */
  function Changed(msi: map<string, string>, newMsi: map<string, string>): map<string, string>
  {
    map k | k in newMsi && (k !in msi || msi[k] != newMsi[k]) :: newMsi[k]
  }

  /** The entries of `m` whose keys are in `done`. */
  function Restrict(m: map<string, string>, done: set<string>): map<string, string>
  {
    map k | k in m && k in done :: m[k]
  }

  /**
   * The merge after a hash write: every field of the new read goes to the
   * output only when it is unseen or its value changed, and the last-seen
   * map takes the new values.
   */
  method MergeChanges(msi: map<string, string>, msiOut: map<string, string>, newMsi: map<string, string>)
    returns (msi': map<string, string>, msiOut': map<string, string>)
    ensures msi' == msi + newMsi
    ensures msiOut' == msiOut + Changed(msi, newMsi)
  {
    KeyOrderExists(newMsi.Keys);
    var order :| IsKeyOrder(order, newMsi.Keys);
    msi', msiOut' := msi, msiOut;
    ghost var done: set<string> := {};
    for i := 0 to |order|
      invariant done <= newMsi.Keys && forall k :: k in done <==> k in order[..i]
      invariant msi' == msi + Restrict(newMsi, done)
      invariant msiOut' == msiOut + Changed(msi, Restrict(newMsi, done))
    {
      var k := order[i];
      var v := newMsi[k];
      assert order[..i + 1] == order[..i] + [k];
      MergeStep(msi, msiOut, newMsi, done, k);
      if k !in msi' {
        msiOut' := msiOut'[k := v];
        msi' := msi'[k := v];
      } else {
        if v != msi'[k] {
          msiOut' := msiOut'[k := v];
          msi' := msi'[k := v];
        }
      }
      done := done + {k};
    }
    assert done == newMsi.Keys;
    assert Restrict(newMsi, done) == newMsi;
  }

  lemma MergeStep(msi: map<string, string>, msiOut: map<string, string>, newMsi: map<string, string>,
                  done: set<string>, k: string)
    requires k in newMsi && k !in done
    ensures var m := msi + Restrict(newMsi, done);
      (k in m <==> k in msi) && (k in m ==> m[k] == msi[k])
    ensures msi + Restrict(newMsi, done + {k}) == (msi + Restrict(newMsi, done))[k := newMsi[k]]
    ensures msiOut + Changed(msi, Restrict(newMsi, done + {k})) ==
      (var o := msiOut + Changed(msi, Restrict(newMsi, done));
       if k !in msi || msi[k] != newMsi[k] then o[k := newMsi[k]] else o)
  {
    RestrictStep(msi, newMsi, done, k);
    ChangedStep(msi, msiOut, newMsi, done, k);
  }

  lemma RestrictStep(msi: map<string, string>, newMsi: map<string, string>, done: set<string>, k: string)
    requires k in newMsi && k !in done
    ensures msi + Restrict(newMsi, done + {k}) == (msi + Restrict(newMsi, done))[k := newMsi[k]]
  {
    var a := msi + Restrict(newMsi, done + {k});
    var b := (msi + Restrict(newMsi, done))[k := newMsi[k]];
    assert a.Keys == b.Keys;
  }

  lemma ChangedStep(msi: map<string, string>, msiOut: map<string, string>, newMsi: map<string, string>,
                    done: set<string>, k: string)
    requires k in newMsi && k !in done
    ensures msiOut + Changed(msi, Restrict(newMsi, done + {k})) ==
      (var o := msiOut + Changed(msi, Restrict(newMsi, done));
       if k !in msi || msi[k] != newMsi[k] then o[k := newMsi[k]] else o)
  {
    var r1 := Restrict(newMsi, done + {k});
    var r0 := Restrict(newMsi, done);
    assert r1 == r0[k := newMsi[k]];
    var o := msiOut + Changed(msi, r0);
    var c := msiOut + Changed(msi, r1);
    var d := if k !in msi || msi[k] != newMsi[k] then o[k := newMsi[k]] else o;
    assert c.Keys == d.Keys;
  }

  /**
   * Nothing is reported exactly when every field of the new read was
   * already seen with the same value; so merging the same read twice
   * reports nothing the second time.
   */
  lemma ChangedEmpty(msi: map<string, string>, newMsi: map<string, string>)
    ensures Changed(msi, newMsi) == map[] <==> forall k :: k in newMsi ==> k in msi && msi[k] == newMsi[k]
    ensures Changed(msi + newMsi, newMsi) == map[]
  {
    if Changed(msi, newMsi) == map[] {
      forall k | k in newMsi ensures k in msi && msi[k] == newMsi[k] {
        assert k !in Changed(msi, newMsi);
      }
    }
    assert Changed(msi + newMsi, newMsi).Keys == {};
  }

  /** The keyspace events that make a subscription re-read its table path. */
  predicate IsHashWrite(payload: string)
  {
    payload == "hset" || payload == "hsetnx" || payload == "hmset"
  }

  /**
   * One keyspace message of dbSingleTableKeySubscribe: a hash write re-reads
   * the table path into a new map and merges it; any other event is
   * ignored.
   */
  method OnKeyspaceMessage(dbs: map<string, RedisDb>, tp: TablePath, matches: (string, string) -> bool, payload: string,
                           msi: map<string, string>, msiOut: map<string, string>)
    returns (st: Status, msi': map<string, string>, msiOut': map<string, string>)
    ensures !IsHashWrite(payload) ==> st == Success && msi' == msi && msiOut' == msiOut
    ensures IsHashWrite(payload) ==> (st.Success? <==> tp.dbName in dbs)
    ensures IsHashWrite(payload) && st.Success? ==>
      msi' == msi + TableSelection(dbs, tp, matches) && msiOut' == msiOut + Changed(msi, TableSelection(dbs, tp, matches))
  {
    st, msi', msiOut' := Success, msi, msiOut;
    if IsHashWrite(payload) {
      var newMsi;
      st, newMsi := TableData2Msi(dbs, tp, matches, map[]);
      if !st.Success? {
        return;
      }
      assert newMsi == TableSelection(dbs, tp, matches);
      msi', msiOut' := MergeChanges(msi, msiOut, newMsi);
    }
  }

  /* The keyspace pattern of dbPathSubscribe. */

  /** `spb.Target_value[dbName]`: the database number, 0 for a name that is not a target. */
  function DbNumber(dbName: string): nat
  {
    if dbName in SonicProto.TargetValue && SonicProto.TargetValue[dbName] >= 0 then SonicProto.TargetValue[dbName] else 0
  }

  /** The channel pattern a table path's subscription listens on (`strconv.Itoa` of a non-negative number). */
  function KeyspacePattern(dbName: string, keyName: string): string
  {
    Channel(DbNumber(dbName), keyName)
  }

  function Channel(n: nat, keyName: string): string
  {
    "__keyspace@" + NatToString(n) + "__:" + keyName
  }

  /** The number of leading decimal digits of `s`. */
  function DigitRun(s: string): (n: nat)
    ensures n <= |s|
  {
    if s == [] || !IsDigit(s[0]) then 0 else 1 + DigitRun(s[1..])
  }

  lemma {:induction false} DigitRunOf(digits: string, rest: string)
    requires forall i :: 0 <= i < |digits| ==> IsDigit(digits[i])
    requires rest != [] && !IsDigit(rest[0])
    ensures DigitRun(digits + rest) == |digits|
    decreases |digits|
  {
    if digits != [] {
      assert (digits + rest)[1..] == digits[1..] + rest;
      DigitRunOf(digits[1..], rest);
    } else {
      assert digits + rest == rest;
    }
  }

  /**
   * Two table paths listen on the same pattern exactly when their databases
   * share a number and their keys are equal.
   */
  lemma KeyspacePatternsDistinct(db1: string, key1: string, db2: string, key2: string)
    ensures KeyspacePattern(db1, key1) == KeyspacePattern(db2, key2) <==> DbNumber(db1) == DbNumber(db2) && key1 == key2
  {
    ChannelsDistinct(DbNumber(db1), key1, DbNumber(db2), key2);
  }

  lemma ChannelsDistinct(n1: nat, key1: string, n2: nat, key2: string)
    ensures Channel(n1, key1) == Channel(n2, key2) <==> n1 == n2 && key1 == key2
  {
    var s1, s2 := NatToString(n1), NatToString(n2);
    var p1, p2 := Channel(n1, key1), Channel(n2, key2);
    if p1 == p2 {
      NatToStringRoundTrip(n1);
      NatToStringRoundTrip(n2);
      var r1, r2 := "__:" + key1, "__:" + key2;
      assert p1 == "__keyspace@" + (s1 + r1);
      assert p2 == "__keyspace@" + (s2 + r2);
      assert s1 + r1 == p1[11..] == p2[11..] == s2 + r2;
      DigitRunOf(s1, r1);
      DigitRunOf(s2, r2);
      assert s1 == (s1 + r1)[..|s1|] == (s2 + r2)[..|s2|] == s2;
      assert r1 == (s1 + r1)[|s1|..] == (s2 + r2)[|s2|..] == r2;
      assert key1 == r1[3..] == r2[3..] == key2;
    }
  }

  /** PFC_WD_DB and FLEX_COUNTER_DB share number 5, so their subscriptions share patterns. */
  lemma SharedDbNumber(keyName: string)
    ensures KeyspacePattern("PFC_WD_DB", keyName) == KeyspacePattern("FLEX_COUNTER_DB", keyName)
    ensures KeyspacePattern("PFC_WD_DB", keyName) != KeyspacePattern("COUNTERS_DB", keyName)
  {
    KeyspacePatternsDistinct("PFC_WD_DB", keyName, "COUNTERS_DB", keyName);
  }
}
