/**
 * The records the virtual-path handlers produce (virtual_database_client):
 * a `tablePath` names one Redis hash and the fields to read from it, and the
 * `pathG2S` map sends each concrete gNMI path to its table paths.
 */
module VdbTypes {
  import opened Wrappers
  import opened Gnmi
  import SonicProto

  /** tablePath: the DB, the hash key, the key separator, the listed fields and the field patterns. */
  datatype TablePath = TablePath(dbName: string, keyName: string, delimitor: string,
                                 fields: seq<string>, patterns: seq<string>)

  /**
   * One write `(*pathG2S)[path] = tablePaths`.  The Go map is keyed by a
   * freshly allocated path pointer on every write, so no write replaces
   * another: `pathG2S` is the sequence of writes in the order they happen.
   */
  datatype Entry = Entry(path: Path, tablePaths: seq<TablePath>)

  /** `elem.GetKey()[k]`: the key's value, or "" when it is absent. */
  function KeyOf(e: PathElem, k: string): string
  {
    if k in e.key then e.key[k] else ""
  }

  /**
   * `deepcopy(path, &copyPath)` followed by `copyPath.Elem[i].Key["name"] = v`:
   * the copy has the same element names and keys, no origin and no target,
   * and a new name key at position `i`.
   */
  function CopyWithName(p: Path, i: nat, v: string): (r: Path)
    requires i < |p.elem|
    ensures r.origin == "" && r.target == "" && |r.elem| == |p.elem|
    ensures forall j :: 0 <= j < |p.elem| && j != i ==> r.elem[j] == p.elem[j]
    ensures r.elem[i].name == p.elem[i].name && KeyOf(r.elem[i], "name") == v
  {
    Path("", "", p.elem[i := PathElem(p.elem[i].name, p.elem[i].key["name" := v])])
  }

  /** `after` is `before` with some writes appended. */
  predicate Extends(after: seq<Entry>, before: seq<Entry>)
  {
    |before| <= |after| && after[..|before|] == before
  }

  /** The writes `after` added to `before`. */
  function Added(after: seq<Entry>, before: seq<Entry>): seq<Entry>
    requires Extends(after, before)
  {
    after[|before|..]
  }

  /** Appending in two steps appends the writes of both steps. */
  lemma ExtendsTrans(a: seq<Entry>, b: seq<Entry>, c: seq<Entry>)
    requires Extends(b, a) && Extends(c, b)
    ensures Extends(c, a)
    ensures forall e :: e in Added(c, a) <==> e in Added(b, a) || e in Added(c, b)
  {
    assert c[..|a|] == c[..|b|][..|a|];
    assert Added(c, a) == Added(b, a) + Added(c, b);
  }

  /** Writes that hold no entry are no writes. */
  lemma NoWrites(after: seq<Entry>, before: seq<Entry>)
    requires Extends(after, before)
    ensures (forall e :: e !in Added(after, before)) ==> after == before
  {
    var added := Added(after, before);
    assert |added| > 0 ==> added[0] in added;
    assert after == before + added;
  }

  /**
   * GetTableKeySeparator: `|` for CONFIG_DB and STATE_DB, `:` for every
   * other known target, an error for a name that is not a target.
   */
  function GetTableKeySeparator(target: string): (r: Result<string>)
    ensures r.Ok? <==> target in SonicProto.TargetValue
    ensures r.Ok? ==> (r.value == "|" <==> target == "CONFIG_DB" || target == "STATE_DB")
    ensures r.Ok? ==> r.value == "|" || r.value == ":"
  {
    if target !in SonicProto.TargetValue then Err(target + " not a valid path target")
    else if target == "CONFIG_DB" || target == "STATE_DB" then Ok("|")
    else Ok(":")
  }

  const CountersDb: string := "COUNTERS_DB"

  /** The COUNTERS_DB separator the handlers join and split keys with. */
  function CountersSeparator(): (s: string)
    ensures GetTableKeySeparator(CountersDb) == Ok(s)
    ensures |s| == 1
  {
    ":"
  }
}
