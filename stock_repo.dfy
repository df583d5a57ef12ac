// internal/repository/stock/stock_repo.go: stock records in the database, keyed by their
// product, cached under "stocks:product_id:<productID>"; "stocks" (the list key) is only
// ever invalidated here.
module StockRepository {
  import opened Wrappers
  import Cache
  import Store
  import CacheAside
  import opened StockModel

  const Keys: Cache.KeyGenerator := Cache.KeyGenerator("stocks")
  const Scheme: CacheAside.KeyScheme := CacheAside.ByField(Keys, "product_id")

  /** The cache key of a product's stock record. */
  function ProductKey(productID: string): string { Cache.KeyField(Keys, "product_id", productID) }

  /** Every record is stored under its own product id. */
  ghost predicate KeyedByProduct(rows: seq<Store.Row<StockRow>>)
  {
    forall i :: 0 <= i < |rows| ==> rows[i].key == rows[i].value.productID
  }

  /** A lookup by product id finds that product's record. */
  lemma FoundStockIsForProduct(rows: seq<Store.Row<StockRow>>, productID: string)
    requires KeyedByProduct(rows)
    ensures Store.Lookup(rows, productID).Some? ==> Store.Lookup(rows, productID).value.productID == productID
  {
    Store.LookupIsStored(rows, productID);
  }

  /** The stored level of a product, if it has a stock record. */
  ghost function Level(rows: seq<Store.Row<StockRow>>, productID: string): Option<int>
  {
    match Store.Lookup(rows, productID)
    case Some(s) => Some(s.quantity)
    case None => None
  }

  class StockRepo {
    var rows: seq<Store.Row<StockRow>>
    var cache: map<string, Cache.Cached<StockRow>>

    ghost predicate Valid()
      reads this
    {
      Store.UniqueKeys(rows) && KeyedByProduct(rows)
    }

    /** Every cached stock record and cached list equals the database. */
    ghost predicate Coherent()
      reads this
    {
      CacheAside.Coherent(Scheme, rows, cache)
    }

    /** The stored level of a product, if it has a stock record. */
    ghost function StoredQuantity(productID: string): Option<int>
      reads this
    {
      Level(rows, productID)
    }

    constructor ()
      ensures Valid() && Coherent() && rows == [] && cache == map[]
    {
      rows := [];
      cache := map[];
    }

    /** Inserts the record under its product id, drops the cached list, and caches the record. */
    method AddStock(s: StockRow, f: Store.Faults) returns (err: Outcome<Store.StoreError>)
      requires Valid()
      modifies this
      ensures Valid()
      ensures
        var created := Store.Create(old(rows), s.productID, s, f.StoreOk(0));
        if created.Failure? then
          err == Fail(created.error) && rows == old(rows) && cache == old(cache)
        else
          && err == Pass
          && rows == created.value
          && cache == Cache.Set(Cache.Delete(old(cache), Cache.KeyList(Keys), f.CacheOk(0)),
                                ProductKey(s.productID), Cache.One(s), f.CacheOk(1))
      ensures err.Pass? ==> Store.Lookup(rows, s.productID) == Some(s)
      ensures old(Coherent()) && f.CacheOk(0) ==> Coherent()
    {
      var created := Store.Create(rows, s.productID, s, f.StoreOk(0));
      if created.Failure? {
        return Fail(created.error);
      }
      ghost var rows0, cache0 := rows, cache;
      Store.CreateAddsRow(rows0, s.productID, s, s.productID);
      forall k ensures Store.Lookup(created.value, k) == if k == s.productID then Some(s) else Store.Lookup(rows0, k) {
        Store.CreateAddsRow(rows0, s.productID, s, k);
      }
      rows := created.value;
      cache := Cache.Delete(cache, Cache.KeyList(Keys), f.CacheOk(0));
      cache := Cache.Set(cache, ProductKey(s.productID), Cache.One(s), f.CacheOk(1));
      err := Pass;
      if CacheAside.Coherent(Scheme, rows0, cache0) && f.CacheOk(0) {
        CacheAside.WriteKeepsCoherent(Scheme, rows0, rows, cache0, cache, s.productID);
      }
    }

    /**
     * Reads the record `id` from the database (not the cache), drops the cached record of
     * `s`'s product, writes `s` as record `id`, drops the cached list and caches `s`.
     * Because the cached record is dropped before the write, a failed write leaves it
     * uncached rather than stale.
     */
    method UpdateStock(s: StockRow, id: string, f: Store.Faults) returns (err: Outcome<Store.StoreError>)
      requires Valid()
      modifies this
      ensures Store.UniqueKeys(rows)
      ensures old(KeyedByProduct(rows)) && s.productID == id ==> Valid()
      ensures
        var current := Store.GetByID(old(rows), id, f.StoreOk(0));
        current.Failure? ==> err == Fail(current.error) && rows == old(rows) && cache == old(cache)
      ensures
        var current := Store.GetByID(old(rows), id, f.StoreOk(0));
        var cleared := Cache.Delete(old(cache), ProductKey(s.productID), f.CacheOk(0));
        var updated := Store.Update(old(rows), id, s, f.StoreOk(1));
        current.Success? ==>
          if updated.Failure? then
            err == Fail(updated.error) && rows == old(rows) && cache == cleared
          else
            && err == Pass
            && rows == updated.value
            && cache == Cache.Set(Cache.Delete(cleared, Cache.KeyList(Keys), f.CacheOk(1)),
                                  ProductKey(s.productID), Cache.One(s), f.CacheOk(2))
      ensures err.Fail? && Store.GetByID(old(rows), id, f.StoreOk(0)).Success? && f.CacheOk(0) ==>
        ProductKey(s.productID) !in cache
      ensures err.Pass? ==> Store.Lookup(rows, id) == Some(s)
      ensures old(Coherent()) && s.productID == id && f.CacheOk(1) && (f.CacheOk(0) || f.CacheOk(2)) ==> Coherent()
    {
      var current := Store.GetByID(rows, id, f.StoreOk(0));
      if current.Failure? {
        return Fail(current.error);
      }
      ghost var rows0, cache0 := rows, cache;
      cache := Cache.Delete(cache, ProductKey(s.productID), f.CacheOk(0));
      ghost var cleared := cache;
      CacheAside.DeleteKeepsCoherent(Scheme, rows0, cache0, ProductKey(s.productID), f.CacheOk(0));
      var updated := Store.Update(rows, id, s, f.StoreOk(1));
      if updated.Failure? {
        return Fail(updated.error);
      }
      forall k ensures Store.Lookup(updated.value, k) == if k == id then Some(s) else Store.Lookup(rows0, k) {
        Store.LookupReplace(rows0, id, s, k);
      }
      Store.ReplaceKeepsUnique(rows0, id, s);
      Store.LookupReplace(rows0, id, s, id);
      rows := updated.value;
      cache := Cache.Delete(cache, Cache.KeyList(Keys), f.CacheOk(1));
      cache := Cache.Set(cache, ProductKey(s.productID), Cache.One(s), f.CacheOk(2));
      err := Pass;
      Cache.KeyListIsShortest(Keys, "", "product_id", s.productID);
      if CacheAside.Coherent(Scheme, rows0, cache0) && s.productID == id && f.CacheOk(1) && (f.CacheOk(0) || f.CacheOk(2)) {
        CacheAside.WriteKeepsCoherent(Scheme, rows0, rows, cache0, cache, id);
      }
    }

    /** Deletes the record `id`, then drops the cached list and the cached record. */
    method DeleteStock(id: string, f: Store.Faults) returns (err: Outcome<Store.StoreError>)
      requires Valid()
      modifies this
      ensures Valid()
      ensures
        var deleted := Store.Delete(old(rows), id, f.StoreOk(0));
        if deleted.Failure? then
          err == Fail(deleted.error) && rows == old(rows) && cache == old(cache)
        else
          && err == Pass
          && rows == deleted.value
          && cache == Cache.Delete(Cache.Delete(old(cache), Cache.KeyList(Keys), f.CacheOk(0)),
                                   ProductKey(id), f.CacheOk(1))
      ensures err.Pass? ==> Store.Lookup(rows, id) == None
      ensures old(Coherent()) && f.CacheOk(0) && f.CacheOk(1) ==> Coherent()
    {
      var deleted := Store.Delete(rows, id, f.StoreOk(0));
      if deleted.Failure? {
        return Fail(deleted.error);
      }
      ghost var rows0, cache0 := rows, cache;
      forall k ensures Store.Lookup(deleted.value, k) == if k == id then None else Store.Lookup(rows0, k) {
        Store.LookupRemove(rows0, id, k);
      }
      Store.RemoveKeepsUnique(rows0, id);
      rows := deleted.value;
      cache := Cache.Delete(cache, Cache.KeyList(Keys), f.CacheOk(0));
      cache := Cache.Delete(cache, ProductKey(id), f.CacheOk(1));
      err := Pass;
      if CacheAside.Coherent(Scheme, rows0, cache0) && f.CacheOk(0) && f.CacheOk(1) {
        CacheAside.WriteKeepsCoherent(Scheme, rows0, rows, cache0, cache, id);
      }
    }

    /**
     * Returns the cached record of the product if there is one, else the database's
     * record for that product, which it then caches.
     */
    method GetStockByProductID(productID: string, f: Store.Faults) returns (r: Result<StockRow, Store.StoreError>)
      modifies this
      ensures rows == old(rows)
      ensures r == CacheAside.ReadOne(Scheme, old(rows), old(cache), productID, f)
      ensures cache == CacheAside.CacheAfterReadOne(Scheme, old(rows), old(cache), productID, f)
      ensures
        var read := Cache.GetOne(old(cache), ProductKey(productID), f.CacheOk(0));
        if read.Hit? then
          r == Success(read.value) && cache == old(cache)
        else
          && r == Store.GetByID(rows, productID, f.StoreOk(0))
          && cache == (if r.Success? then Cache.Set(old(cache), ProductKey(productID), Cache.One(r.value), f.CacheOk(1))
                       else old(cache))
      ensures old(Coherent()) ==> Coherent() && (r.Success? ==> Store.Lookup(rows, productID) == Some(r.value))
      ensures old(Coherent()) && Valid() && r.Success? ==> r.value.productID == productID
    {
      var read := Cache.GetOne(cache, ProductKey(productID), f.CacheOk(0));
      if KeyedByProduct(rows) {
        FoundStockIsForProduct(rows, productID);
      }
      if read.Hit? {
        CacheAside.HitIsStored(Scheme, rows, cache, productID, f.CacheOk(0));
        return Success(read.value);
      }
      r := Store.GetByID(rows, productID, f.StoreOk(0));
      if r.Failure? {
        return;
      }
      if CacheAside.Coherent(Scheme, rows, cache) {
        CacheAside.SetItemKeepsCoherent(Scheme, rows, cache, productID, r.value, f.CacheOk(1));
      }
      cache := Cache.Set(cache, ProductKey(productID), Cache.One(r.value), f.CacheOk(1));
    }
  }
}
