/**
 * An abstract Redis database, standing in for the go-redis calls the server
 * makes (KEYS, EXISTS, HGET, HGETALL).  Connection failures are not part of
 * this model.
 */
module Redis {
  import opened Wrappers
  import opened GoStrings

  /**
   * `keys` is the key listing in the order a KEYS reply returns it; `hashes`
   * is the hash stored under each key.
   */
  datatype RedisDb = RedisDb(keys: seq<string>, hashes: map<string, map<string, string>>)

  /**
   * KEYS `prefix*`: the listed keys that start with `prefix`, in listing order.
   * Redis matches the argument of KEYS as a glob pattern; this reading agrees
   * with it when `prefix` holds none of `*`, `?`, `[`, `]` and `\`, and takes
   * such characters literally otherwise.
   */
  function KeysWithPrefix(db: RedisDb, prefix: string): (r: seq<string>)
    ensures forall k :: k in r <==> k in db.keys && HasPrefix(k, prefix)
    ensures |r| <= |db.keys|
  {
    Filter(db.keys, prefix)
  }

  function Filter(ks: seq<string>, prefix: string): (r: seq<string>)
    ensures forall k :: k in r <==> k in ks && HasPrefix(k, prefix)
    ensures |r| <= |ks|
  {
    if ks == [] then []
    else (if HasPrefix(ks[0], prefix) then [ks[0]] else []) + Filter(ks[1..], prefix)
  }

  /** Filtering one more key keeps it at the end exactly when it has the prefix. */
  lemma {:induction false} FilterSnoc(ks: seq<string>, k: string, prefix: string)
    ensures Filter(ks + [k], prefix) == Filter(ks, prefix) + (if HasPrefix(k, prefix) then [k] else [])
    decreases |ks|
  {
    if ks != [] {
      assert (ks + [k])[1..] == ks[1..] + [k];
      FilterSnoc(ks[1..], k, prefix);
    }
  }

  /**
   * KEYS with a pattern without wildcards: the key itself when it is listed.
   * A glob metacharacter in `key` is taken literally.
   */
  function KeysExact(db: RedisDb, key: string): (r: seq<string>)
    ensures forall k :: k in r <==> k in db.keys && k == key
    ensures |r| <= 1
  {
    if key in db.keys then [key] else []
  }

  /** HGET: the field's value, or the `redis: nil` error when key or field is missing. */
  function HGet(db: RedisDb, key: string, field: string): (r: Result<string>)
    ensures r.Ok? <==> key in db.hashes && field in db.hashes[key]
    ensures r.Ok? ==> r.value == db.hashes[key][field]
    ensures !r.Panic?
  {
    if key in db.hashes && field in db.hashes[key] then Ok(db.hashes[key][field])
    else Err("redis: nil")
  }

  /** HGETALL: the whole hash, empty for a missing key. */
  function HGetAll(db: RedisDb, key: string): (r: map<string, string>)
    ensures key in db.hashes ==> r == db.hashes[key]
    ensures key !in db.hashes ==> r == map[]
  {
    if key in db.hashes then db.hashes[key] else map[]
  }

  /** EXISTS for one key. */
  predicate Exists(db: RedisDb, key: string) { key in db.hashes }
}
