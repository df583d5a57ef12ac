// The cache-aside discipline shared by the repositories under internal/repository and
// repository/: reads try the cache and fall back to the database, writes change the
// database and then invalidate or overwrite cache keys. The invariant that makes reads
// trustworthy is coherence: every cached entry equals what the database holds.
module CacheAside {
  import opened Wrappers
  import Cache
  import Store

  /** How a repository keys single records: by `prefix:id`, or by `prefix:field:value`. */
  datatype KeyScheme = ById(gen: Cache.KeyGenerator) | ByField(gen: Cache.KeyGenerator, field: string)

  function ItemKey(s: KeyScheme, k: string): string
  {
    match s
    case ById(g) => Cache.KeyID(g, k)
    case ByField(g, f) => Cache.KeyField(g, f, k)
  }

  function ListKey(s: KeyScheme): string { Cache.KeyList(s.gen) }

  lemma ItemKeysDistinct(s: KeyScheme)
    ensures forall a, b {:trigger ItemKey(s, a), ItemKey(s, b)} :: ItemKey(s, a) == ItemKey(s, b) ==> a == b
    ensures forall k {:trigger ItemKey(s, k)} :: ItemKey(s, k) != ListKey(s)
  {
    forall a, b | ItemKey(s, a) == ItemKey(s, b) ensures a == b {
      match s
      case ById(g) => Cache.KeyIDInjective(g, a, b);
      case ByField(g, f) => Cache.KeyFieldInjective(g, f, a, b);
    }
    forall k ensures ItemKey(s, k) != ListKey(s) {
      Cache.KeyListIsShortest(s.gen, k, if s.ByField? then s.field else "", k);
    }
  }

  /**
   * Every cached record equals the database's record under that key, and a cached
   * list equals the database listing.
   */
  ghost predicate Coherent<T>(s: KeyScheme, rows: seq<Store.Row<T>>, cache: map<string, Cache.Cached<T>>)
  {
    && (ListKey(s) in cache ==> cache[ListKey(s)] == Cache.Many(Store.Values(rows)))
    && (forall k {:trigger ItemKey(s, k)} :: ItemKey(s, k) in cache ==>
          Store.Lookup(rows, k).Some? && cache[ItemKey(s, k)] == Cache.One(Store.Lookup(rows, k).value))
  }

  /** Under coherence a cache hit on a record key returns the database's record. */
  lemma HitIsStored<T>(s: KeyScheme, rows: seq<Store.Row<T>>, cache: map<string, Cache.Cached<T>>, k: string, ok: bool)
    ensures Coherent(s, rows, cache) && Cache.GetOne(cache, ItemKey(s, k), ok).Hit? ==> Store.Lookup(rows, k) == Some(Cache.GetOne(cache, ItemKey(s, k), ok).value)
  {
  }

  /** Under coherence a cache hit on the list key returns the database listing. */
  lemma ListHitIsStored<T>(s: KeyScheme, rows: seq<Store.Row<T>>, cache: map<string, Cache.Cached<T>>, ok: bool)
    ensures Coherent(s, rows, cache) && Cache.GetMany(cache, ListKey(s), ok).Hit? ==> Cache.GetMany(cache, ListKey(s), ok).value == Store.Values(rows)
  {
  }

  /** A read-through: the cache's answer on a hit, otherwise the database's answer. */
  function ReadThrough<T>(read: Cache.Read<T>, db: Result<T, Store.StoreError>): Result<T, Store.StoreError>
  {
    if read.Hit? then Success(read.value) else db
  }

  /** What a repository's read of one record returns: call 0 of `f` goes to the cache and to the database. */
  function ReadOne<T>(s: KeyScheme, rows: seq<Store.Row<T>>, cache: map<string, Cache.Cached<T>>, k: string, f: Store.Faults): Result<T, Store.StoreError>
  {
    ReadThrough(Cache.GetOne(cache, ItemKey(s, k), f.CacheOk(0)), Store.GetByID(rows, k, f.StoreOk(0)))
  }

  /** What a repository's listing returns. */
  function ReadAll<T>(s: KeyScheme, rows: seq<Store.Row<T>>, cache: map<string, Cache.Cached<T>>, f: Store.Faults): Result<seq<T>, Store.StoreError>
  {
    ReadThrough(Cache.GetMany(cache, ListKey(s), f.CacheOk(0)), Store.GetAll(rows, f.StoreOk(0)))
  }

  /**
   * The cache a read-through of one record under `key` leaves: unchanged on a hit, and
   * otherwise (a miss or a failed cache read) the database's answer `db`, when there is
   * one, set under the key by call 1 of `f`.
   */
  function CacheAfterRead<T>(cache: map<string, Cache.Cached<T>>, key: string, db: Result<T, Store.StoreError>, f: Store.Faults): map<string, Cache.Cached<T>>
  {
    if Cache.GetOne(cache, key, f.CacheOk(0)).Hit? then cache
    else if db.Success? then Cache.Set(cache, key, Cache.One(db.value), f.CacheOk(1))
    else cache
  }

  /** The cache a repository's read of one record leaves. */
  function CacheAfterReadOne<T>(s: KeyScheme, rows: seq<Store.Row<T>>, cache: map<string, Cache.Cached<T>>, k: string, f: Store.Faults): map<string, Cache.Cached<T>>
  {
    CacheAfterRead(cache, ItemKey(s, k), Store.GetByID(rows, k, f.StoreOk(0)), f)
  }

  /**
   * Under coherence a read of one record is the database's answer: it never invents a
   * record, and with the database reachable it finds exactly the stored ones.
   */
  lemma CoherentReadOne<T>(s: KeyScheme, rows: seq<Store.Row<T>>, cache: map<string, Cache.Cached<T>>, k: string, f: Store.Faults)
    requires Coherent(s, rows, cache)
    ensures ReadOne(s, rows, cache, k, f).Success? ==> Store.Lookup(rows, k) == Some(ReadOne(s, rows, cache, k, f).value)
    ensures f.StoreOk(0) ==> (ReadOne(s, rows, cache, k, f).Success? <==> Store.Lookup(rows, k).Some?)
  {
    HitIsStored(s, rows, cache, k, f.CacheOk(0));
  }

  /** Under coherence a listing is the database listing, and it succeeds whenever the database is reachable. */
  lemma CoherentReadAll<T>(s: KeyScheme, rows: seq<Store.Row<T>>, cache: map<string, Cache.Cached<T>>, f: Store.Faults)
    requires Coherent(s, rows, cache)
    ensures ReadAll(s, rows, cache, f).Success? ==> ReadAll(s, rows, cache, f).value == Store.Values(rows)
    ensures f.StoreOk(0) ==> ReadAll(s, rows, cache, f).Success?
  {
    ListHitIsStored(s, rows, cache, f.CacheOk(0));
  }

  /** A read of one record keeps coherence: what it caches is the database's own record. */
  lemma ReadOneKeepsCoherent<T>(s: KeyScheme, rows: seq<Store.Row<T>>, cache: map<string, Cache.Cached<T>>, k: string, f: Store.Faults)
    requires Coherent(s, rows, cache)
    ensures Coherent(s, rows, CacheAfterReadOne(s, rows, cache, k, f))
  {
    var db := Store.GetByID(rows, k, f.StoreOk(0));
    if !Cache.GetOne(cache, ItemKey(s, k), f.CacheOk(0)).Hit? && db.Success? {
      SetItemKeepsCoherent(s, rows, cache, k, db.value, f.CacheOk(1));
    }
  }

  /** Deleting any key, or a failed delete, never breaks coherence. */
  lemma DeleteKeepsCoherent<T>(s: KeyScheme, rows: seq<Store.Row<T>>, cache: map<string, Cache.Cached<T>>, key: string, ok: bool)
    ensures Coherent(s, rows, cache) ==> Coherent(s, rows, Cache.Delete(cache, key, ok))
  {
  }

  /** Caching the database's own record under its key keeps coherence. */
  lemma SetItemKeepsCoherent<T>(s: KeyScheme, rows: seq<Store.Row<T>>, cache: map<string, Cache.Cached<T>>, k: string, v: T, ok: bool)
    requires Coherent(s, rows, cache)
    requires Store.Lookup(rows, k) == Some(v)
    ensures Coherent(s, rows, Cache.Set(cache, ItemKey(s, k), Cache.One(v), ok))
  {
    ItemKeysDistinct(s);
  }

  /** Caching the database listing under the list key keeps coherence. */
  lemma SetListKeepsCoherent<T>(s: KeyScheme, rows: seq<Store.Row<T>>, cache: map<string, Cache.Cached<T>>, ok: bool)
    requires Coherent(s, rows, cache)
    ensures Coherent(s, rows, Cache.Set(cache, ListKey(s), Cache.Many(Store.Values(rows)), ok))
  {
    ItemKeysDistinct(s);
  }

  /**
   * A database write that changes only the record under `k` keeps coherence, provided
   * neither the list key nor that record's key is cached at that moment.
   */
  lemma StoreWriteKeepsCoherent<T>(s: KeyScheme, rows: seq<Store.Row<T>>, rows': seq<Store.Row<T>>,
                                   cache: map<string, Cache.Cached<T>>, k: string)
    requires Coherent(s, rows, cache)
    requires ListKey(s) !in cache && ItemKey(s, k) !in cache
    requires forall k' :: k' != k ==> Store.Lookup(rows', k') == Store.Lookup(rows, k')
    ensures Coherent(s, rows', cache)
  {
  }

  /**
   * The shape of every repository write: the database changes only the record under `k`,
   * the list key ends up uncached, every other cached entry is left as it was, and the
   * record's own key is either uncached or holds the new database record.
   */
  lemma WriteKeepsCoherent<T>(s: KeyScheme, rows: seq<Store.Row<T>>, rows': seq<Store.Row<T>>,
                              cache: map<string, Cache.Cached<T>>, cache': map<string, Cache.Cached<T>>, k: string)
    requires Coherent(s, rows, cache)
    requires forall k' :: k' != k ==> Store.Lookup(rows', k') == Store.Lookup(rows, k')
    requires ListKey(s) !in cache'
    requires forall key :: key in cache' && key != ItemKey(s, k) ==> key in cache && cache'[key] == cache[key]
    requires ItemKey(s, k) in cache' ==>
      Store.Lookup(rows', k).Some? && cache'[ItemKey(s, k)] == Cache.One(Store.Lookup(rows', k).value)
    ensures Coherent(s, rows', cache')
  {
    ItemKeysDistinct(s);
  }

  /**
   * A database write that changes the number of records while the list listing the old
   * records stays cached breaks coherence: the cached list has the old length.
   */
  lemma {:induction false} CachedListGoesStale<T>(s: KeyScheme, rows: seq<Store.Row<T>>, rows': seq<Store.Row<T>>,
                                                  cache: map<string, Cache.Cached<T>>)
    requires ListKey(s) in cache && cache[ListKey(s)] == Cache.Many(Store.Values(rows))
    requires |rows'| != |rows|
    ensures !Coherent(s, rows', cache)
  {
    assert |Store.Values(rows)| != |Store.Values(rows')|;
  }
}
