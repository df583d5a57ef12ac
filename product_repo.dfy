// internal/repository/product/product_repo.go: products in the database, cached under
// "products" (the list) and "products:<id>" (one product).
module ProductRepository {
  import opened Wrappers
  import Cache
  import Store
  import CacheAside
  import opened ProductModel

  const Keys: Cache.KeyGenerator := Cache.KeyGenerator("products")
  const Scheme: CacheAside.KeyScheme := CacheAside.ById(Keys)

  class ProductRepo {
    var rows: seq<Store.Row<Product>>
    var cache: map<string, Cache.Cached<Product>>

    ghost predicate Valid()
      reads this
    {
      Store.UniqueKeys(rows)
    }

    /** Every cached product and cached list equals the database. */
    ghost predicate Coherent()
      reads this
    {
      CacheAside.Coherent(Scheme, rows, cache)
    }

    constructor ()
      ensures Valid() && Coherent() && rows == [] && cache == map[]
    {
      rows := [];
      cache := map[];
    }

    /** Inserts the product, drops the cached list, and caches the new product under its id. */
    method AddProduct(p: Product, f: Store.Faults) returns (err: Outcome<Store.StoreError>)
      requires Valid()
      modifies this
      ensures Valid()
      ensures
        var created := Store.Create(old(rows), p.id, p, f.StoreOk(0));
        if created.Failure? then
          err == Fail(created.error) && rows == old(rows) && cache == old(cache)
        else
          && err == Pass
          && rows == created.value
          && cache == Cache.Set(Cache.Delete(old(cache), Cache.KeyList(Keys), f.CacheOk(0)),
                                Cache.KeyID(Keys, p.id), Cache.One(p), f.CacheOk(1))
      ensures err.Pass? ==> Store.Lookup(rows, p.id) == Some(p)
      ensures err.Pass? && f.CacheOk(0) ==> Cache.KeyList(Keys) !in cache
      ensures old(Coherent()) && f.CacheOk(0) ==> Coherent()
    {
      var created := Store.Create(rows, p.id, p, f.StoreOk(0));
      if created.Failure? {
        return Fail(created.error);
      }
      ghost var rows0, cache0 := rows, cache;
      Store.CreateAddsRow(rows0, p.id, p, p.id);
      forall k ensures Store.Lookup(created.value, k) == if k == p.id then Some(p) else Store.Lookup(rows0, k) {
        Store.CreateAddsRow(rows0, p.id, p, k);
      }
      rows := created.value;
      cache := Cache.Delete(cache, Cache.KeyList(Keys), f.CacheOk(0));
      cache := Cache.Set(cache, Cache.KeyID(Keys, p.id), Cache.One(p), f.CacheOk(1));
      err := Pass;
      if CacheAside.Coherent(Scheme, rows0, cache0) && f.CacheOk(0) {
        CacheAside.WriteKeepsCoherent(Scheme, rows0, rows, cache0, cache, p.id);
      }
    }

    /**
     * Writes `p` as the product `id`, drops the cached list and caches `p` under `id`,
     * so that the next read of `id` with a working cache returns `p`.
     */
    method UpdateProduct(p: Product, id: string, f: Store.Faults) returns (err: Outcome<Store.StoreError>)
      requires Valid()
      modifies this
      ensures Valid()
      ensures
        var updated := Store.Update(old(rows), id, p, f.StoreOk(0));
        if updated.Failure? then
          err == Fail(updated.error) && rows == old(rows) && cache == old(cache)
        else
          && err == Pass
          && rows == updated.value
          && cache == Cache.Set(Cache.Delete(old(cache), Cache.KeyList(Keys), f.CacheOk(0)),
                                Cache.KeyID(Keys, id), Cache.One(p), f.CacheOk(1))
      ensures err.Pass? ==> Store.Lookup(rows, id) == Some(p)
      ensures err.Pass? && f.CacheOk(1) ==> Cache.GetOne(cache, Cache.KeyID(Keys, id), true) == Cache.Hit(p)
      ensures err.Pass? && f.CacheOk(0) ==> Cache.KeyList(Keys) !in cache
      ensures old(Coherent()) && f.CacheOk(0) && f.CacheOk(1) ==> Coherent()
    {
      var updated := Store.Update(rows, id, p, f.StoreOk(0));
      if updated.Failure? {
        return Fail(updated.error);
      }
      ghost var rows0, cache0 := rows, cache;
      forall k ensures Store.Lookup(updated.value, k) == if k == id then Some(p) else Store.Lookup(rows0, k) {
        Store.LookupReplace(rows0, id, p, k);
      }
      Store.ReplaceKeepsUnique(rows0, id, p);
      rows := updated.value;
      cache := Cache.Delete(cache, Cache.KeyList(Keys), f.CacheOk(0));
      cache := Cache.Set(cache, Cache.KeyID(Keys, id), Cache.One(p), f.CacheOk(1));
      err := Pass;
      Cache.KeyListIsShortest(Keys, id, "", "");
      if CacheAside.Coherent(Scheme, rows0, cache0) && f.CacheOk(0) && f.CacheOk(1) {
        CacheAside.WriteKeepsCoherent(Scheme, rows0, rows, cache0, cache, id);
      }
    }

    /** Deletes the product `id`, then drops the cached list and the cached product. */
    method DeleteProduct(id: string, f: Store.Faults) returns (err: Outcome<Store.StoreError>)
      requires Valid()
      modifies this
      ensures Valid()
      ensures
        var deleted := Store.Delete(old(rows), id, f.StoreOk(0));
        if deleted.Failure? then
          err == Fail(deleted.error) && rows == old(rows) && cache == old(cache)
        else
          && err == Pass
          && rows == deleted.value
          && cache == Cache.Delete(Cache.Delete(old(cache), Cache.KeyList(Keys), f.CacheOk(0)),
                                   Cache.KeyID(Keys, id), f.CacheOk(1))
      ensures err.Pass? ==> Store.Lookup(rows, id) == None
      ensures err.Pass? && f.CacheOk(0) ==> Cache.KeyList(Keys) !in cache
      ensures err.Pass? && f.CacheOk(1) ==> Cache.KeyID(Keys, id) !in cache
      ensures old(Coherent()) && f.CacheOk(0) && f.CacheOk(1) ==> Coherent()
    {
      var deleted := Store.Delete(rows, id, f.StoreOk(0));
      if deleted.Failure? {
        return Fail(deleted.error);
      }
      ghost var rows0, cache0 := rows, cache;
      forall k ensures Store.Lookup(deleted.value, k) == if k == id then None else Store.Lookup(rows0, k) {
        Store.LookupRemove(rows0, id, k);
      }
      Store.RemoveKeepsUnique(rows0, id);
      rows := deleted.value;
      cache := Cache.Delete(cache, Cache.KeyList(Keys), f.CacheOk(0));
      cache := Cache.Delete(cache, Cache.KeyID(Keys, id), f.CacheOk(1));
      err := Pass;
      if CacheAside.Coherent(Scheme, rows0, cache0) && f.CacheOk(0) && f.CacheOk(1) {
        CacheAside.WriteKeepsCoherent(Scheme, rows0, rows, cache0, cache, id);
      }
    }

    /** Returns the cached list if there is one, else the database listing, which it then caches. */
    method GetAllProduct(f: Store.Faults) returns (r: Result<seq<Product>, Store.StoreError>)
      modifies this
      ensures rows == old(rows)
      ensures r == CacheAside.ReadAll(Scheme, old(rows), old(cache), f)
      ensures
        var read := Cache.GetMany(old(cache), Cache.KeyList(Keys), f.CacheOk(0));
        if read.Hit? then
          r == Success(read.value) && cache == old(cache)
        else
          && r == Store.GetAll(rows, f.StoreOk(0))
          && cache == (if r.Success? then Cache.Set(old(cache), Cache.KeyList(Keys), Cache.Many(r.value), f.CacheOk(1))
                       else old(cache))
      ensures old(Coherent()) ==> Coherent() && (r.Success? ==> r.value == Store.Values(rows))
    {
      var read := Cache.GetMany(cache, Cache.KeyList(Keys), f.CacheOk(0));
      if read.Hit? {
        CacheAside.ListHitIsStored(Scheme, rows, cache, f.CacheOk(0));
        return Success(read.value);
      }
      r := Store.GetAll(rows, f.StoreOk(0));
      if r.Failure? {
        return;
      }
      if CacheAside.Coherent(Scheme, rows, cache) {
        CacheAside.SetListKeepsCoherent(Scheme, rows, cache, f.CacheOk(1));
      }
      cache := Cache.Set(cache, Cache.KeyList(Keys), Cache.Many(r.value), f.CacheOk(1));
    }

    /** Returns the cached product if there is one, else the database's, which it then caches. */
    method GetProductByID(id: string, f: Store.Faults) returns (r: Result<Product, Store.StoreError>)
      modifies this
      ensures rows == old(rows)
      ensures r == CacheAside.ReadOne(Scheme, old(rows), old(cache), id, f)
      ensures cache == CacheAside.CacheAfterReadOne(Scheme, old(rows), old(cache), id, f)
      ensures
        var read := Cache.GetOne(old(cache), Cache.KeyID(Keys, id), f.CacheOk(0));
        if read.Hit? then
          r == Success(read.value) && cache == old(cache)
        else
          && r == Store.GetByID(rows, id, f.StoreOk(0))
          && cache == (if r.Success? then Cache.Set(old(cache), Cache.KeyID(Keys, id), Cache.One(r.value), f.CacheOk(1))
                       else old(cache))
      ensures old(Coherent()) ==> Coherent() && (r.Success? ==> Store.Lookup(rows, id) == Some(r.value))
    {
      var read := Cache.GetOne(cache, Cache.KeyID(Keys, id), f.CacheOk(0));
      if read.Hit? {
        CacheAside.HitIsStored(Scheme, rows, cache, id, f.CacheOk(0));
        return Success(read.value);
      }
      r := Store.GetByID(rows, id, f.StoreOk(0));
      if r.Failure? {
        return;
      }
      if CacheAside.Coherent(Scheme, rows, cache) {
        CacheAside.SetItemKeepsCoherent(Scheme, rows, cache, id, r.value, f.CacheOk(1));
      }
      cache := Cache.Set(cache, Cache.KeyID(Keys, id), Cache.One(r.value), f.CacheOk(1));
    }
  }
}
