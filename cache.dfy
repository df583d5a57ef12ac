// internal/cache/cache.go: key derivation for the cache-aside repositories, and the
// contract of the Cache interface (Set / Get / Delete) that the repositories rely on.
module Cache {
  /** Derives the cache keys of one entity namespace, e.g. prefix "products". */
  datatype KeyGenerator = KeyGenerator(prefix: string)

  /** The key of the cached "all records" list: the bare prefix. */
  function KeyList(g: KeyGenerator): string { g.prefix }

  /** The key of one record, `prefix:id`. */
  function KeyID(g: KeyGenerator, id: string): string { g.prefix + ":" + id }

  /** The key of a lookup by a secondary field, `prefix:field:value`. */
  function KeyField(g: KeyGenerator, field: string, value: string): string
  {
    g.prefix + ":" + field + ":" + value
  }

  /** Distinct ids never share a record key. */
  lemma KeyIDInjective(g: KeyGenerator, a: string, b: string)
    ensures KeyID(g, a) == KeyID(g, b) <==> a == b
  {
    if KeyID(g, a) == KeyID(g, b) {
      var n := |g.prefix| + 1;
      assert KeyID(g, a)[n..] == a;
      assert KeyID(g, b)[n..] == b;
    }
  }

  /** For one field, distinct values never share a lookup key. */
  lemma KeyFieldInjective(g: KeyGenerator, field: string, a: string, b: string)
    ensures KeyField(g, field, a) == KeyField(g, field, b) <==> a == b
  {
    if KeyField(g, field, a) == KeyField(g, field, b) {
      var n := |g.prefix| + |field| + 2;
      assert KeyField(g, field, a)[n..] == a;
      assert KeyField(g, field, b)[n..] == b;
    }
  }

  /** The list key is strictly shorter than every record or field key, so it never collides with one. */
  lemma KeyListIsShortest(g: KeyGenerator, id: string, field: string, value: string)
    ensures |KeyList(g)| < |KeyID(g, id)| && |KeyList(g)| < |KeyField(g, field, value)|
    ensures KeyList(g) != KeyID(g, id) && KeyList(g) != KeyField(g, field, value)
  {
  }

  /**
   * A field key lives in the same namespace as record keys: it is the record key of
   * the id `field:value`. Record ids that contain ':' can therefore collide with it.
   */
  lemma KeyFieldSharesRecordNamespace(g: KeyGenerator, field: string, value: string)
    ensures KeyField(g, field, value) == KeyID(g, field + ":" + value)
  {
    assert g.prefix + ":" + field + ":" + value == g.prefix + ":" + (field + ":" + value);
  }

  /** A cached value: one record (KeyID/KeyField entries) or a list (the KeyList entry). */
  datatype Cached<T> = One(item: T) | Many(items: seq<T>)

  /**
   * What Cache.Get reports: the decoded value, ErrCacheMiss for an absent key, or any
   * other error (the cache is unreachable, or the stored JSON does not decode as the
   * requested shape).
   */
  datatype Read<T> = Hit(value: T) | Miss | Failed

  /** Get of a single record; `ok` is false when the cache call itself fails. */
  function GetOne<T>(c: map<string, Cached<T>>, key: string, ok: bool): (r: Read<T>)
    ensures r.Miss? <==> ok && key !in c
    ensures r.Hit? <==> ok && key in c && c[key].One?
    ensures r.Hit? ==> c[key] == One(r.value)
  {
    if !ok then Failed
    else if key !in c then Miss
    else match c[key]
      case One(x) => Hit(x)
      case Many(_) => Failed
  }

  /** Get of a cached list. */
  function GetMany<T>(c: map<string, Cached<T>>, key: string, ok: bool): (r: Read<seq<T>>)
    ensures r.Miss? <==> ok && key !in c
    ensures r.Hit? <==> ok && key in c && c[key].Many?
    ensures r.Hit? ==> c[key] == Many(r.value)
  {
    if !ok then Failed
    else if key !in c then Miss
    else match c[key]
      case Many(xs) => Hit(xs)
      case One(_) => Failed
  }

  /** Set: overwrites the key when the call succeeds, changes nothing when it fails. */
  function Set<T>(c: map<string, Cached<T>>, key: string, v: Cached<T>, ok: bool): map<string, Cached<T>>
  {
    if ok then c[key := v] else c
  }

  /** Delete: removes the key when the call succeeds (an absent key is no error). */
  function Delete<T>(c: map<string, Cached<T>>, key: string, ok: bool): map<string, Cached<T>>
  {
    if ok then c - {key} else c
  }

  /**
   * The next read sees a successful write: a set record or list is read back, a deleted
   * key is a miss; a failed write changes nothing, and no write touches another key.
   */
  lemma WritesAreReadBack<T>(c: map<string, Cached<T>>, key: string, other: string, v: T, vs: seq<T>, ok: bool)
    ensures GetOne(Set(c, key, One(v), ok), key, true) == (if ok then Hit(v) else GetOne(c, key, true))
    ensures GetMany(Set(c, key, Many(vs), ok), key, true) == (if ok then Hit(vs) else GetMany(c, key, true))
    ensures GetOne(Delete(c, key, ok), key, true) == (if ok then Miss else GetOne(c, key, true))
    ensures other != key ==>
      && GetOne(Set(c, key, One(v), ok), other, true) == GetOne(c, other, true)
      && GetOne(Delete(c, key, ok), other, true) == GetOne(c, other, true)
  {
  }
}
