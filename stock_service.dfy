// internal/module/stock/stock_svc.go: the stock service. Each quantity change loads the
// product's record through the repository, applies one Stock transition and writes the
// record back under its own key.
module StockSvc {
  import opened Wrappers
  import Store
  import Cache
  import opened StockModel
  import CacheAside
  import StockRepository

  datatype StockSvcError = ErrCreateStock | ErrUpdateStock | ErrDeleteStock | ErrStockNotFound | ErrStockQuantity

  /** No stored stock level is negative. */
  ghost predicate NonNegative(rows: seq<Store.Row<StockRow>>)
  {
    forall i :: 0 <= i < |rows| ==> rows[i].value.quantity >= 0
  }

  /** Replacing one record by a record with a non-negative level keeps every level non-negative. */
  lemma ReplaceKeepsNonNegative(rows: seq<Store.Row<StockRow>>, key: string, s: StockRow)
    requires NonNegative(rows) && s.quantity >= 0
    ensures NonNegative(Store.Replace(rows, key, s))
  {
    Store.LookupReplace(rows, key, s, key);
  }

  /**
   * What writing `row` back under its product id leaves, from `rows` and `cache` with the
   * faults `fPut`: the repository reads the stored record (call 0), drops the record's
   * cache key (cache call 0), writes the record (call 1), drops the list key (cache call
   * 1) and caches the record (cache call 2). A failed database call is ErrUpdateStock and
   * stops there.
   */
  ghost predicate WriteBackEffect(rows: seq<Store.Row<StockRow>>, cache: map<string, Cache.Cached<StockRow>>,
                                  row: StockRow, fPut: Store.Faults, err: Outcome<StockSvcError>,
                                  rows': seq<Store.Row<StockRow>>, cache': map<string, Cache.Cached<StockRow>>)
  {
    var key := StockRepository.ProductKey(row.productID);
    var cleared := Cache.Delete(cache, key, fPut.CacheOk(0));
    if Store.GetByID(rows, row.productID, fPut.StoreOk(0)).Failure? then
      err == Fail(ErrUpdateStock) && rows' == rows && cache' == cache
    else if Store.Update(rows, row.productID, row, fPut.StoreOk(1)).Failure? then
      err == Fail(ErrUpdateStock) && rows' == rows && cache' == cleared
    else
      && err == Pass
      && rows' == Store.Replace(rows, row.productID, row)
      && cache' == Cache.Set(Cache.Delete(cleared, Cache.KeyList(StockRepository.Keys), fPut.CacheOk(1)),
                             key, Cache.One(row), fPut.CacheOk(2))
  }

  /**
   * What IncreaseQuantity leaves: the read-through of the product's record (which may
   * cache it), then, when the read succeeds, that record raised by `q` and stamped `now`
   * written back; a failed read is ErrStockNotFound.
   */
  ghost predicate IncreaseEffect(rows: seq<Store.Row<StockRow>>, cache: map<string, Cache.Cached<StockRow>>,
                                 productID: string, q: int, now: int, fGet: Store.Faults, fPut: Store.Faults,
                                 err: Outcome<StockSvcError>,
                                 rows': seq<Store.Row<StockRow>>, cache': map<string, Cache.Cached<StockRow>>)
  {
    var read := CacheAside.ReadOne(StockRepository.Scheme, rows, cache, productID, fGet);
    var cache1 := CacheAside.CacheAfterReadOne(StockRepository.Scheme, rows, cache, productID, fGet);
    if read.Failure? then err == Fail(ErrStockNotFound) && rows' == rows && cache' == cache1
    else WriteBackEffect(rows, cache1, read.value.(quantity := read.value.quantity + q, updatedAt := now), fPut, err, rows', cache')
  }

  /**
   * What DecreaseQuantity leaves: like IncreaseQuantity with the record lowered by `q`,
   * except that a decrease into debt is ErrUpdateStock and writes nothing.
   */
  ghost predicate DecreaseEffect(rows: seq<Store.Row<StockRow>>, cache: map<string, Cache.Cached<StockRow>>,
                                 productID: string, q: int, now: int, fGet: Store.Faults, fPut: Store.Faults,
                                 err: Outcome<StockSvcError>,
                                 rows': seq<Store.Row<StockRow>>, cache': map<string, Cache.Cached<StockRow>>)
  {
    var read := CacheAside.ReadOne(StockRepository.Scheme, rows, cache, productID, fGet);
    var cache1 := CacheAside.CacheAfterReadOne(StockRepository.Scheme, rows, cache, productID, fGet);
    if read.Failure? then err == Fail(ErrStockNotFound) && rows' == rows && cache' == cache1
    else if Decreased(read.value.quantity, q).Failure? then err == Fail(ErrUpdateStock) && rows' == rows && cache' == cache1
    else WriteBackEffect(rows, cache1, read.value.(quantity := read.value.quantity - q, updatedAt := now), fPut, err, rows', cache')
  }

  /** IncreaseEffect, from the read's answer and the cache it left and what happened next. */
  lemma IncreaseEffectOf(rows: seq<Store.Row<StockRow>>, cache: map<string, Cache.Cached<StockRow>>,
                         productID: string, q: int, now: int, fGet: Store.Faults, fPut: Store.Faults,
                         read: Result<StockRow, Store.StoreError>, cache1: map<string, Cache.Cached<StockRow>>,
                         err: Outcome<StockSvcError>,
                         rows': seq<Store.Row<StockRow>>, cache': map<string, Cache.Cached<StockRow>>)
    requires read == CacheAside.ReadOne(StockRepository.Scheme, rows, cache, productID, fGet)
    requires cache1 == CacheAside.CacheAfterReadOne(StockRepository.Scheme, rows, cache, productID, fGet)
    requires read.Failure? ==> err == Fail(ErrStockNotFound) && rows' == rows && cache' == cache1
    requires read.Success? ==>
      WriteBackEffect(rows, cache1, read.value.(quantity := read.value.quantity + q, updatedAt := now), fPut, err, rows', cache')
    ensures IncreaseEffect(rows, cache, productID, q, now, fGet, fPut, err, rows', cache')
  {
  }

  /**
   * What IncreaseEffect says in the terms callers use: the record read decides the
   * outcome, and a success writes it back raised by `q`.
   */
  lemma IncreaseEffectFacts(rows: seq<Store.Row<StockRow>>, cache: map<string, Cache.Cached<StockRow>>,
                            productID: string, q: int, now: int, fGet: Store.Faults, fPut: Store.Faults,
                            err: Outcome<StockSvcError>,
                            rows': seq<Store.Row<StockRow>>, cache': map<string, Cache.Cached<StockRow>>)
    requires IncreaseEffect(rows, cache, productID, q, now, fGet, fPut, err, rows', cache')
    ensures
      var loaded := CacheAside.ReadOne(StockRepository.Scheme, rows, cache, productID, fGet).ToOption();
      && (loaded.None? <==> err == Fail(ErrStockNotFound))
      && (err.Fail? ==> (err.error == ErrStockNotFound || err.error == ErrUpdateStock) && rows' == rows)
      && (err.Pass? <==> loaded.Some? && fPut.StoreOk(0) && fPut.StoreOk(1) && Store.Lookup(rows, loaded.value.productID).Some?)
      && (err.Pass? ==> loaded.Some? && rows' == Store.Replace(rows, loaded.value.productID,
                                                              loaded.value.(quantity := loaded.value.quantity + q, updatedAt := now)))
  {
  }

  /**
   * An increase from a coherent cache: the record read is the stored one, so the stored
   * level rises by `q`, and coherence survives the write-back's cache calls.
   */
  lemma IncreaseEffectCoherent(rows: seq<Store.Row<StockRow>>, cache: map<string, Cache.Cached<StockRow>>,
                               productID: string, q: int, now: int, fGet: Store.Faults, fPut: Store.Faults,
                               err: Outcome<StockSvcError>,
                               rows': seq<Store.Row<StockRow>>, cache': map<string, Cache.Cached<StockRow>>)
    requires StockRepository.KeyedByProduct(rows) && CacheAside.Coherent(StockRepository.Scheme, rows, cache)
    requires IncreaseEffect(rows, cache, productID, q, now, fGet, fPut, err, rows', cache')
    ensures
      var loaded := CacheAside.ReadOne(StockRepository.Scheme, rows, cache, productID, fGet).ToOption();
      && (fGet.StoreOk(0) && fPut.StoreOk(0) && fPut.StoreOk(1) ==> (err.Pass? <==> StockRepository.Level(rows, productID).Some?))
      && (loaded.Some? ==> loaded.value.productID == productID && Store.Lookup(rows, productID) == loaded)
      && (err.Pass? ==> StockRepository.Level(rows', productID) == Some(StockRepository.Level(rows, productID).value + q))
      && (fPut.CacheOk(1) && (fPut.CacheOk(0) || fPut.CacheOk(2)) ==> CacheAside.Coherent(StockRepository.Scheme, rows', cache'))
  {
    var read := CacheAside.ReadOne(StockRepository.Scheme, rows, cache, productID, fGet);
    CacheAside.CoherentReadOne(StockRepository.Scheme, rows, cache, productID, fGet);
    StockRepository.FoundStockIsForProduct(rows, productID);
    if read.Success? {
      var row := read.value.(quantity := read.value.quantity + q, updatedAt := now);
      assert read.value.productID == productID && row.productID == productID;
      Store.LookupReplace(rows, productID, row, productID);
      assert err.Pass? ==> rows' == Store.Replace(rows, productID, row);
    }
    if fPut.CacheOk(1) && (fPut.CacheOk(0) || fPut.CacheOk(2)) {
      IncreaseKeepsCoherent(rows, cache, productID, q, now, fGet, fPut, err, rows', cache');
    }
  }

  /** The cache half of IncreaseEffectCoherent: the read-through and the write-back each keep coherence. */
  lemma IncreaseKeepsCoherent(rows: seq<Store.Row<StockRow>>, cache: map<string, Cache.Cached<StockRow>>,
                         productID: string, q: int, now: int, fGet: Store.Faults, fPut: Store.Faults,
                         err: Outcome<StockSvcError>,
                         rows': seq<Store.Row<StockRow>>, cache': map<string, Cache.Cached<StockRow>>)
    requires CacheAside.Coherent(StockRepository.Scheme, rows, cache)
    requires IncreaseEffect(rows, cache, productID, q, now, fGet, fPut, err, rows', cache')
    requires fPut.CacheOk(1) && (fPut.CacheOk(0) || fPut.CacheOk(2))
    ensures CacheAside.Coherent(StockRepository.Scheme, rows', cache')
  {
    var read := CacheAside.ReadOne(StockRepository.Scheme, rows, cache, productID, fGet);
    var cache1 := CacheAside.CacheAfterReadOne(StockRepository.Scheme, rows, cache, productID, fGet);
    CacheAside.ReadOneKeepsCoherent(StockRepository.Scheme, rows, cache, productID, fGet);
    if read.Success? {
      WriteBackKeepsCoherent(rows, cache1, read.value.(quantity := read.value.quantity + q, updatedAt := now), fPut, err, rows', cache');
    }
  }

  /** DecreaseEffect, from the read's answer and the cache it left and what happened next. */
  lemma DecreaseEffectOf(rows: seq<Store.Row<StockRow>>, cache: map<string, Cache.Cached<StockRow>>,
                         productID: string, q: int, now: int, fGet: Store.Faults, fPut: Store.Faults,
                         read: Result<StockRow, Store.StoreError>, cache1: map<string, Cache.Cached<StockRow>>,
                         err: Outcome<StockSvcError>,
                         rows': seq<Store.Row<StockRow>>, cache': map<string, Cache.Cached<StockRow>>)
    requires read == CacheAside.ReadOne(StockRepository.Scheme, rows, cache, productID, fGet)
    requires cache1 == CacheAside.CacheAfterReadOne(StockRepository.Scheme, rows, cache, productID, fGet)
    requires read.Failure? ==> err == Fail(ErrStockNotFound) && rows' == rows && cache' == cache1
    requires read.Success? && Decreased(read.value.quantity, q).Failure? ==>
      err == Fail(ErrUpdateStock) && rows' == rows && cache' == cache1
    requires read.Success? && Decreased(read.value.quantity, q).Success? ==>
      WriteBackEffect(rows, cache1, read.value.(quantity := read.value.quantity - q, updatedAt := now), fPut, err, rows', cache')
    ensures DecreaseEffect(rows, cache, productID, q, now, fGet, fPut, err, rows', cache')
  {
  }

  /**
   * What DecreaseEffect says in the terms callers use, as IncreaseEffectFacts does for an
   * increase; a decrease into debt is a failure that writes nothing.
   */
  lemma DecreaseEffectFacts(rows: seq<Store.Row<StockRow>>, cache: map<string, Cache.Cached<StockRow>>,
                            productID: string, q: int, now: int, fGet: Store.Faults, fPut: Store.Faults,
                            err: Outcome<StockSvcError>,
                            rows': seq<Store.Row<StockRow>>, cache': map<string, Cache.Cached<StockRow>>)
    requires DecreaseEffect(rows, cache, productID, q, now, fGet, fPut, err, rows', cache')
    ensures
      var loaded := CacheAside.ReadOne(StockRepository.Scheme, rows, cache, productID, fGet).ToOption();
      && (loaded.None? <==> err == Fail(ErrStockNotFound))
      && (err.Fail? ==> (err.error == ErrStockNotFound || err.error == ErrUpdateStock) && rows' == rows)
      && (loaded.Some? && Decreased(loaded.value.quantity, q).Failure? ==> err == Fail(ErrUpdateStock))
      && (err.Pass? <==>
            && loaded.Some? && Decreased(loaded.value.quantity, q).Success?
            && fPut.StoreOk(0) && fPut.StoreOk(1) && Store.Lookup(rows, loaded.value.productID).Some?)
      && (err.Pass? ==>
            && loaded.Some? && Decreased(loaded.value.quantity, q).Success?
            && rows' == Store.Replace(rows, loaded.value.productID,
                                      loaded.value.(quantity := loaded.value.quantity - q, updatedAt := now)))
  {
  }

  /**
   * A decrease from a coherent cache, as IncreaseEffectCoherent: with working calls it
   * succeeds iff the product's stored level is at least `q`, and then lowers it by `q`.
   */
  lemma DecreaseEffectCoherent(rows: seq<Store.Row<StockRow>>, cache: map<string, Cache.Cached<StockRow>>,
                               productID: string, q: int, now: int, fGet: Store.Faults, fPut: Store.Faults,
                               err: Outcome<StockSvcError>,
                               rows': seq<Store.Row<StockRow>>, cache': map<string, Cache.Cached<StockRow>>)
    requires StockRepository.KeyedByProduct(rows) && CacheAside.Coherent(StockRepository.Scheme, rows, cache)
    requires DecreaseEffect(rows, cache, productID, q, now, fGet, fPut, err, rows', cache')
    ensures
      var loaded := CacheAside.ReadOne(StockRepository.Scheme, rows, cache, productID, fGet).ToOption();
      var level := StockRepository.Level(rows, productID);
      && (fGet.StoreOk(0) && fPut.StoreOk(0) && fPut.StoreOk(1) ==>
            (err.Pass? <==> level.Some? && Decreased(level.value, q).Success?))
      && (loaded.Some? ==> loaded.value.productID == productID && Store.Lookup(rows, productID) == loaded)
      && (err.Pass? ==> StockRepository.Level(rows', productID) == Some(level.value - q))
      && (fPut.CacheOk(1) && (fPut.CacheOk(0) || fPut.CacheOk(2)) ==> CacheAside.Coherent(StockRepository.Scheme, rows', cache'))
  {
    var read := CacheAside.ReadOne(StockRepository.Scheme, rows, cache, productID, fGet);
    CacheAside.CoherentReadOne(StockRepository.Scheme, rows, cache, productID, fGet);
    StockRepository.FoundStockIsForProduct(rows, productID);
    if read.Success? && Decreased(read.value.quantity, q).Success? {
      var row := read.value.(quantity := read.value.quantity - q, updatedAt := now);
      assert read.value.productID == productID && row.productID == productID;
      Store.LookupReplace(rows, productID, row, productID);
      assert err.Pass? ==> rows' == Store.Replace(rows, productID, row);
    }
    if fPut.CacheOk(1) && (fPut.CacheOk(0) || fPut.CacheOk(2)) {
      DecreaseKeepsCoherent(rows, cache, productID, q, now, fGet, fPut, err, rows', cache');
    }
  }

  /** The cache half of DecreaseEffectCoherent: the read-through and the write-back each keep coherence. */
  lemma DecreaseKeepsCoherent(rows: seq<Store.Row<StockRow>>, cache: map<string, Cache.Cached<StockRow>>,
                         productID: string, q: int, now: int, fGet: Store.Faults, fPut: Store.Faults,
                         err: Outcome<StockSvcError>,
                         rows': seq<Store.Row<StockRow>>, cache': map<string, Cache.Cached<StockRow>>)
    requires CacheAside.Coherent(StockRepository.Scheme, rows, cache)
    requires DecreaseEffect(rows, cache, productID, q, now, fGet, fPut, err, rows', cache')
    requires fPut.CacheOk(1) && (fPut.CacheOk(0) || fPut.CacheOk(2))
    ensures CacheAside.Coherent(StockRepository.Scheme, rows', cache')
  {
    var read := CacheAside.ReadOne(StockRepository.Scheme, rows, cache, productID, fGet);
    var cache1 := CacheAside.CacheAfterReadOne(StockRepository.Scheme, rows, cache, productID, fGet);
    CacheAside.ReadOneKeepsCoherent(StockRepository.Scheme, rows, cache, productID, fGet);
    if read.Success? && Decreased(read.value.quantity, q).Success? {
      WriteBackKeepsCoherent(rows, cache1, read.value.(quantity := read.value.quantity - q, updatedAt := now), fPut, err, rows', cache');
    }
  }

  /** A decrease never makes a stored level negative: it writes only a level it has checked. */
  lemma DecreaseEffectNonNegative(rows: seq<Store.Row<StockRow>>, cache: map<string, Cache.Cached<StockRow>>,
                                  productID: string, q: int, now: int, fGet: Store.Faults, fPut: Store.Faults,
                                  err: Outcome<StockSvcError>,
                                  rows': seq<Store.Row<StockRow>>, cache': map<string, Cache.Cached<StockRow>>)
    requires DecreaseEffect(rows, cache, productID, q, now, fGet, fPut, err, rows', cache')
    requires NonNegative(rows)
    ensures NonNegative(rows')
  {
    var read := CacheAside.ReadOne(StockRepository.Scheme, rows, cache, productID, fGet);
    if read.Success? && Decreased(read.value.quantity, q).Success? && err.Pass? {
      ReplaceKeepsNonNegative(rows, read.value.productID, read.value.(quantity := read.value.quantity - q, updatedAt := now));
    }
  }

  /**
   * A write-back keeps the cache coherent when the list key is dropped and the record's
   * key is either dropped or set to the written record.
   */
  lemma WriteBackKeepsCoherent(rows: seq<Store.Row<StockRow>>, cache: map<string, Cache.Cached<StockRow>>,
                               row: StockRow, fPut: Store.Faults, err: Outcome<StockSvcError>,
                               rows': seq<Store.Row<StockRow>>, cache': map<string, Cache.Cached<StockRow>>)
    requires CacheAside.Coherent(StockRepository.Scheme, rows, cache)
    requires WriteBackEffect(rows, cache, row, fPut, err, rows', cache')
    requires fPut.CacheOk(1) && (fPut.CacheOk(0) || fPut.CacheOk(2))
    ensures CacheAside.Coherent(StockRepository.Scheme, rows', cache')
  {
    var p := row.productID;
    var key := StockRepository.ProductKey(p);
    CacheAside.DeleteKeepsCoherent(StockRepository.Scheme, rows, cache, key, fPut.CacheOk(0));
    if err.Pass? {
      forall k | k != p ensures Store.Lookup(rows', k) == Store.Lookup(rows, k) {
        Store.LookupReplace(rows, p, row, k);
      }
      Store.LookupReplace(rows, p, row, p);
      Cache.KeyListIsShortest(StockRepository.Keys, "", "product_id", p);
      CacheAside.WriteKeepsCoherent(StockRepository.Scheme, rows, rows', cache, cache', p);
    }
  }

  class StockService {
    const repo: StockRepository.StockRepo

    constructor (repo: StockRepository.StockRepo)
      ensures this.repo == repo
    {
      this.repo := repo;
    }

    /**
     * Creates the stock record of a product at `now`, with the requested quantity clamped
     * at 0; a failed insert is reported as ErrCreateStock.
     */
    method Save(productID: string, quantity: int, now: int, f: Store.Faults) returns (err: Outcome<StockSvcError>)
      requires repo.Valid()
      modifies repo
      ensures repo.Valid()
      ensures
        var row := StockRow(productID, Clamped(quantity), now, now);
        var created := Store.Create(old(repo.rows), productID, row, f.StoreOk(0));
        if created.Failure? then
          err == Fail(ErrCreateStock) && repo.rows == old(repo.rows) && repo.cache == old(repo.cache)
        else
          && err == Pass && repo.rows == created.value
          && repo.cache == Cache.Set(Cache.Delete(old(repo.cache), Cache.KeyList(StockRepository.Keys), f.CacheOk(0)),
                                     StockRepository.ProductKey(productID), Cache.One(row), f.CacheOk(1))
      ensures err.Pass? ==> repo.StoredQuantity(productID) == Some(Clamped(quantity))
      ensures old(NonNegative(repo.rows)) ==> NonNegative(repo.rows)
      ensures old(repo.Coherent()) && f.CacheOk(0) ==> repo.Coherent()
    {
      var stock := new Stock(productID, now);
      stock.SetQuantity(quantity);
      var added := repo.AddStock(stock.Row(), f);
      if added.Fail? {
        return Fail(ErrCreateStock);
      }
      err := Pass;
    }

    /**
     * The common tail of IncreaseQuantity and DecreaseQuantity: writes the changed record
     * back under its product id; any repository failure is reported as ErrUpdateStock.
     */
    method WriteBack(row: StockRow, fPut: Store.Faults) returns (err: Outcome<StockSvcError>)
      requires repo.Valid()
      modifies repo
      ensures repo.Valid()
      ensures err.Fail? ==> err == Fail(ErrUpdateStock) && repo.rows == old(repo.rows)
      ensures err.Pass? <==> fPut.StoreOk(0) && fPut.StoreOk(1) && Store.Lookup(old(repo.rows), row.productID).Some?
      ensures err.Pass? ==> repo.rows == Store.Replace(old(repo.rows), row.productID, row)
      ensures err.Pass? ==> repo.StoredQuantity(row.productID) == Some(row.quantity)
      ensures old(NonNegative(repo.rows)) && row.quantity >= 0 ==> NonNegative(repo.rows)
      ensures old(repo.Coherent()) && fPut.CacheOk(1) && (fPut.CacheOk(0) || fPut.CacheOk(2)) ==> repo.Coherent()
      ensures WriteBackEffect(old(repo.rows), old(repo.cache), row, fPut, err, repo.rows, repo.cache)
    {
      ghost var rows0 := repo.rows;
      var written := repo.UpdateStock(row, row.productID, fPut);
      if written.Fail? {
        return Fail(ErrUpdateStock);
      }
      if NonNegative(rows0) && row.quantity >= 0 {
        ReplaceKeepsNonNegative(rows0, row.productID, row);
      }
      Store.LookupReplace(rows0, row.productID, row, row.productID);
      err := Pass;
    }

    /**
     * Adds `q` units to the product's stock: loads the record, increases it, stamps it
     * with `now` and writes it back. `loaded` is the record the read returned.
     */
    method IncreaseQuantity(q: int, productID: string, now: int, fGet: Store.Faults, fPut: Store.Faults)
      returns (err: Outcome<StockSvcError>, ghost loaded: Option<StockRow>)
      requires repo.Valid()
      modifies repo
      ensures repo.Valid()
      ensures loaded == CacheAside.ReadOne(StockRepository.Scheme, old(repo.rows), old(repo.cache), productID, fGet).ToOption()
      ensures loaded.None? <==> err == Fail(ErrStockNotFound)
      ensures err.Fail? ==> (err.error == ErrStockNotFound || err.error == ErrUpdateStock) && repo.rows == old(repo.rows)
      ensures err.Pass? <==>
        loaded.Some? && fPut.StoreOk(0) && fPut.StoreOk(1) && Store.Lookup(old(repo.rows), loaded.value.productID).Some?
      ensures err.Pass? ==>
        && loaded.Some?
        && repo.rows == Store.Replace(old(repo.rows), loaded.value.productID,
                                      loaded.value.(quantity := loaded.value.quantity + q, updatedAt := now))
      ensures old(repo.Coherent()) && fGet.StoreOk(0) && fPut.StoreOk(0) && fPut.StoreOk(1) ==>
        (err.Pass? <==> old(repo.StoredQuantity(productID)).Some?)
      ensures old(repo.Coherent()) && loaded.Some? ==>
        loaded.value.productID == productID && Store.Lookup(old(repo.rows), productID) == loaded
      ensures old(repo.Coherent()) && err.Pass? ==>
        repo.StoredQuantity(productID) == Some(old(repo.StoredQuantity(productID)).value + q)
      ensures old(repo.Coherent()) && fPut.CacheOk(1) && (fPut.CacheOk(0) || fPut.CacheOk(2)) ==> repo.Coherent()
      ensures IncreaseEffect(old(repo.rows), old(repo.cache), productID, q, now, fGet, fPut, err, repo.rows, repo.cache)
    {
      ghost var rows0, cache0 := repo.rows, repo.cache;
      ghost var coherent0, level0 := repo.Coherent(), repo.StoredQuantity(productID);
      err, loaded := LoadAndIncrease(q, productID, now, fGet, fPut);
      IncreaseEffectFacts(rows0, cache0, productID, q, now, fGet, fPut, err, repo.rows, repo.cache);
      if coherent0 {
        IncreaseEffectCoherent(rows0, cache0, productID, q, now, fGet, fPut, err, repo.rows, repo.cache);
      }
      assert coherent0 == CacheAside.Coherent(StockRepository.Scheme, rows0, cache0);
      assert level0 == StockRepository.Level(rows0, productID);
    }

    /** The steps of IncreaseQuantity, specified by the effect they have. */
    method LoadAndIncrease(q: int, productID: string, now: int, fGet: Store.Faults, fPut: Store.Faults)
      returns (err: Outcome<StockSvcError>, ghost loaded: Option<StockRow>)
      requires repo.Valid()
      modifies repo
      ensures repo.Valid()
      ensures loaded == CacheAside.ReadOne(StockRepository.Scheme, old(repo.rows), old(repo.cache), productID, fGet).ToOption()
      ensures IncreaseEffect(old(repo.rows), old(repo.cache), productID, q, now, fGet, fPut, err, repo.rows, repo.cache)
    {
      ghost var rows0, cache0 := repo.rows, repo.cache;
      var read := repo.GetStockByProductID(productID, fGet);
      if read.Failure? {
        IncreaseEffectOf(rows0, cache0, productID, q, now, fGet, fPut, read, repo.cache, Fail(ErrStockNotFound), repo.rows, repo.cache);
        return Fail(ErrStockNotFound), None;
      }
      ghost var cache1 := repo.cache;
      loaded := Some(read.value);
      var stock := new Stock.FromRow(read.value);
      stock.IncreaseQuantity(q);
      stock.updatedAt := now;
      var row := stock.Row();
      assert row == read.value.(quantity := read.value.quantity + q, updatedAt := now);
      err := WriteBack(row, fPut);
      IncreaseEffectOf(rows0, cache0, productID, q, now, fGet, fPut, read, cache1, err, repo.rows, repo.cache);
    }

    /**
     * Removes `q` units from the product's stock. When the level would go negative it
     * reports ErrUpdateStock and writes nothing; otherwise it stamps the record with `now`
     * and writes it back. `loaded` is the record the read returned.
     */
    method DecreaseQuantity(q: int, productID: string, now: int, fGet: Store.Faults, fPut: Store.Faults)
      returns (err: Outcome<StockSvcError>, ghost loaded: Option<StockRow>)
      requires repo.Valid()
      modifies repo
      ensures repo.Valid()
      ensures loaded.None? <==> err == Fail(ErrStockNotFound)
      ensures err.Fail? ==> (err.error == ErrStockNotFound || err.error == ErrUpdateStock) && repo.rows == old(repo.rows)
      ensures loaded == CacheAside.ReadOne(StockRepository.Scheme, old(repo.rows), old(repo.cache), productID, fGet).ToOption()
      ensures loaded.Some? && Decreased(loaded.value.quantity, q).Failure? ==> err == Fail(ErrUpdateStock)
      ensures err.Pass? <==>
        && loaded.Some? && Decreased(loaded.value.quantity, q).Success?
        && fPut.StoreOk(0) && fPut.StoreOk(1) && Store.Lookup(old(repo.rows), loaded.value.productID).Some?
      ensures old(repo.Coherent()) && fGet.StoreOk(0) && fPut.StoreOk(0) && fPut.StoreOk(1) ==>
        (err.Pass? <==> old(repo.StoredQuantity(productID)).Some? && Decreased(old(repo.StoredQuantity(productID)).value, q).Success?)
      ensures err.Pass? ==>
        && loaded.Some?
        && Decreased(loaded.value.quantity, q).Success?
        && repo.rows == Store.Replace(old(repo.rows), loaded.value.productID,
                                      loaded.value.(quantity := loaded.value.quantity - q, updatedAt := now))
      ensures old(repo.Coherent()) && loaded.Some? ==>
        loaded.value.productID == productID && Store.Lookup(old(repo.rows), productID) == loaded
      ensures old(repo.Coherent()) && err.Pass? ==>
        repo.StoredQuantity(productID) == Some(old(repo.StoredQuantity(productID)).value - q)
      ensures old(NonNegative(repo.rows)) ==> NonNegative(repo.rows)
      ensures old(repo.Coherent()) && fPut.CacheOk(1) && (fPut.CacheOk(0) || fPut.CacheOk(2)) ==> repo.Coherent()
      ensures DecreaseEffect(old(repo.rows), old(repo.cache), productID, q, now, fGet, fPut, err, repo.rows, repo.cache)
    {
      ghost var rows0, cache0 := repo.rows, repo.cache;
      ghost var coherent0, level0 := repo.Coherent(), repo.StoredQuantity(productID);
      err, loaded := LoadAndDecrease(q, productID, now, fGet, fPut);
      DecreaseEffectFacts(rows0, cache0, productID, q, now, fGet, fPut, err, repo.rows, repo.cache);
      if coherent0 {
        DecreaseEffectCoherent(rows0, cache0, productID, q, now, fGet, fPut, err, repo.rows, repo.cache);
      }
      if NonNegative(rows0) {
        DecreaseEffectNonNegative(rows0, cache0, productID, q, now, fGet, fPut, err, repo.rows, repo.cache);
      }
      assert coherent0 == CacheAside.Coherent(StockRepository.Scheme, rows0, cache0);
      assert level0 == StockRepository.Level(rows0, productID);
    }

    /** The steps of DecreaseQuantity, specified by the effect they have. */
    method LoadAndDecrease(q: int, productID: string, now: int, fGet: Store.Faults, fPut: Store.Faults)
      returns (err: Outcome<StockSvcError>, ghost loaded: Option<StockRow>)
      requires repo.Valid()
      modifies repo
      ensures repo.Valid()
      ensures loaded == CacheAside.ReadOne(StockRepository.Scheme, old(repo.rows), old(repo.cache), productID, fGet).ToOption()
      ensures DecreaseEffect(old(repo.rows), old(repo.cache), productID, q, now, fGet, fPut, err, repo.rows, repo.cache)
    {
      ghost var rows0, cache0 := repo.rows, repo.cache;
      var read := repo.GetStockByProductID(productID, fGet);
      if read.Failure? {
        DecreaseEffectOf(rows0, cache0, productID, q, now, fGet, fPut, read, repo.cache, Fail(ErrStockNotFound), repo.rows, repo.cache);
        return Fail(ErrStockNotFound), None;
      }
      ghost var cache1 := repo.cache;
      loaded := Some(read.value);
      var stock := new Stock.FromRow(read.value);
      var decreased := stock.DecreaseQuantity(q);
      if decreased.Fail? {
        DecreaseEffectOf(rows0, cache0, productID, q, now, fGet, fPut, read, cache1, Fail(ErrUpdateStock), repo.rows, repo.cache);
        return Fail(ErrUpdateStock), loaded;
      }
      stock.updatedAt := now;
      var row := stock.Row();
      assert row == read.value.(quantity := read.value.quantity - q, updatedAt := now);
      err := WriteBack(row, fPut);
      DecreaseEffectOf(rows0, cache0, productID, q, now, fGet, fPut, read, cache1, err, repo.rows, repo.cache);
    }

    /**
     * Declared by the service interface and called by the consumers, but stock_svc.go has no
     * implementation: its result is the given `outcome` and its effect on the repository is
     * left open beyond keeping it well-formed.
     */
    method Update(productID: string, quantity: int, outcome: Outcome<StockSvcError>) returns (err: Outcome<StockSvcError>)
      requires repo.Valid()
      modifies repo
      ensures repo.Valid()
      ensures err == outcome
    {
      err := outcome;
    }

    /** Deleting stock does nothing and always succeeds. */
    method Delete(id: string) returns (err: Outcome<StockSvcError>)
      ensures err == Pass
    {
      err := Pass;
    }
  }
}
