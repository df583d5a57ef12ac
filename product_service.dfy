// internal/module/product/product_svc.go: the product service. Writes go through the
// product repository; creating or updating a product announces the product's stock on the
// stock exchange. The request-to-product conversions (ToProduct, UpdateNotNilField) and the
// response conversion (ToProductRes) are given as functions.
module ProductSvc {
  import opened Wrappers
  import Store
  import Cache
  import CacheAside
  import opened ProductModel
  import ProductRepository
  import opened Broker
  import opened RabbitMQ

  datatype ProductSvcError =
    | ErrCreateProduct
    | ErrUpdateProduct
    | ErrDeleteProduct
    | ErrProductNotFound
    | ErrPermission
    | ErrMarShal
    | Unverified(reason: Invalid)
    | Unpublished(cause: PublishError)

  class ProductService {
    const productRepo: ProductRepository.ProductRepo
    const producer: Producer

    constructor (productRepo: ProductRepository.ProductRepo, producer: Producer)
      ensures this.productRepo == productRepo && this.producer == producer
    {
      this.productRepo := productRepo;
      this.producer := producer;
    }

    /**
     * Stores the requested product as product `id`, owned by `userID`, created at `now`, then
     * publishes "stock.create" with the new id and the requested quantity. A failed insert is
     * ErrCreateProduct and publishes nothing; a failed publish is returned as it is, with the
     * product already stored.
     */
    method Save(req: ProductReq, userID: string, id: string, now: int, toProduct: ProductReq -> Product,
                f: Store.Faults, publishOk: bool) returns (err: Outcome<ProductSvcError>)
      requires productRepo.Valid()
      modifies productRepo, producer
      ensures productRepo.Valid()
      ensures
        var product := toProduct(req).(id := id, createdBy := userID, createdAt := now, updatedAt := now);
        var created := Store.Create(old(productRepo.rows), id, product, f.StoreOk(0));
        if created.Failure? then
          && err == Fail(ErrCreateProduct)
          && productRepo.rows == old(productRepo.rows) && productRepo.cache == old(productRepo.cache)
          && producer.sent == old(producer.sent)
        else
          && productRepo.rows == created.value
          && Store.Lookup(productRepo.rows, id) == Some(product)
          && producer.sent == old(producer.sent) + (if publishOk then [StockEvent("stock.create", id, req.quantity)] else [])
          && err == (if publishOk then Pass else Fail(Unpublished(PublishError)))
      ensures old(productRepo.Coherent()) && f.CacheOk(0) ==> productRepo.Coherent()
    {
      var product := toProduct(req).(id := id, createdBy := userID, createdAt := now, updatedAt := now);
      var added := productRepo.AddProduct(product, f);
      if added.Fail? {
        return Fail(ErrCreateProduct);
      }
      var published := producer.Publishing(StockConfig("stock.create"), Raw(StockPayload(product.id, req.quantity)), publishOk);
      if published.Fail? {
        return Fail(Unpublished(published.error));
      }
      err := Pass;
    }

    /**
     * Updates product `id` on behalf of `userID`: rejects a negative quantity, then an
     * invalid request, then a missing product, then a caller who does not own it, each
     * before any write. Otherwise it writes the stored product with the request's set fields
     * applied and publishes "stock.update" with the requested quantity. `loaded` is the
     * product the read returned.
     */
    method Update(req: ProductReq, id: string, userID: string, toProduct: ProductReq -> Product,
                  updateNotNil: (Product, ProductReq) -> Product,
                  fGet: Store.Faults, fPut: Store.Faults, publishOk: bool)
      returns (err: Outcome<ProductSvcError>, ghost loaded: Option<Product>)
      requires productRepo.Valid()
      modifies productRepo, producer
      ensures productRepo.Valid()
      ensures req.quantity < 0 ==>
        && err == Fail(ErrUpdateProduct) && loaded.None?
        && productRepo.rows == old(productRepo.rows) && productRepo.cache == old(productRepo.cache)
      ensures req.quantity >= 0 && Verify(toProduct(req)).Fail? ==>
        && err == Fail(Unverified(Verify(toProduct(req)).error)) && loaded.None?
        && productRepo.rows == old(productRepo.rows) && productRepo.cache == old(productRepo.cache)
      ensures req.quantity >= 0 && Verify(toProduct(req)).Pass? && loaded.None? ==>
        err == Fail(ErrProductNotFound) && productRepo.rows == old(productRepo.rows)
      ensures loaded.Some? && loaded.value.createdBy != userID ==>
        err == Fail(ErrPermission) && productRepo.rows == old(productRepo.rows)
      ensures producer.sent != old(producer.sent) ==>
        && loaded.Some? && loaded.value.createdBy == userID
        && productRepo.rows == Store.Replace(old(productRepo.rows), id, updateNotNil(loaded.value, req))
        && producer.sent == old(producer.sent) + [StockEvent("stock.update", updateNotNil(loaded.value, req).id, req.quantity)]
      ensures err.Pass? <==> producer.sent != old(producer.sent)
      ensures err.Fail? && err.error != ErrUpdateProduct ==> productRepo.rows == old(productRepo.rows)
      ensures req.quantity >= 0 && Verify(toProduct(req)).Pass? ==>
        loaded == CacheAside.ReadOne(ProductRepository.Scheme, old(productRepo.rows), old(productRepo.cache), id, fGet).ToOption()
      ensures err.Pass? <==>
        && req.quantity >= 0 && Verify(toProduct(req)).Pass?
        && loaded.Some? && loaded.value.createdBy == userID
        && fPut.StoreOk(0) && Store.Lookup(old(productRepo.rows), id).Some? && publishOk
      ensures old(productRepo.Coherent()) && loaded.Some? ==> Store.Lookup(old(productRepo.rows), id) == loaded
      ensures old(productRepo.Coherent()) && fGet.StoreOk(0) && req.quantity >= 0 && Verify(toProduct(req)).Pass? ==>
        loaded == Store.Lookup(old(productRepo.rows), id)
      ensures req.quantity >= 0 && Verify(toProduct(req)).Pass? ==>
        var read := CacheAside.CacheAfterReadOne(ProductRepository.Scheme, old(productRepo.rows), old(productRepo.cache), id, fGet);
        productRepo.cache ==
          if loaded.Some? && loaded.value.createdBy == userID && fPut.StoreOk(0) && Store.Lookup(old(productRepo.rows), id).Some?
          then Cache.Set(Cache.Delete(read, Cache.KeyList(ProductRepository.Keys), fPut.CacheOk(0)),
                         Cache.KeyID(ProductRepository.Keys, id), Cache.One(updateNotNil(loaded.value, req)), fPut.CacheOk(1))
          else read
      ensures old(productRepo.Coherent()) && fPut.CacheOk(0) && fPut.CacheOk(1) ==> productRepo.Coherent()
    {
      if productRepo.Coherent() {
        CacheAside.CoherentReadOne(ProductRepository.Scheme, productRepo.rows, productRepo.cache, id, fGet);
      }
      loaded := None;
      var updateProduct := toProduct(req);
      if req.quantity < 0 {
        return Fail(ErrUpdateProduct), loaded;
      }
      var verified := Verify(updateProduct);
      if verified.Fail? {
        return Fail(Unverified(verified.error)), loaded;
      }
      var current := productRepo.GetProductByID(id, fGet);
      if current.Failure? {
        return Fail(ErrProductNotFound), loaded;
      }
      loaded := Some(current.value);
      if userID != current.value.createdBy {
        return Fail(ErrPermission), loaded;
      }
      var updated := updateNotNil(current.value, req);
      var written := productRepo.UpdateProduct(updated, id, fPut);
      if written.Fail? {
        return Fail(ErrUpdateProduct), loaded;
      }
      var published := producer.Publishing(StockConfig("stock.update"), Raw(StockPayload(updated.id, req.quantity)), publishOk);
      if published.Fail? {
        return Fail(ErrUpdateProduct), loaded;
      }
      err := Pass;
    }

    /**
     * Deletes product `id` if the read finds it; there is no ownership check and no stock
     * event.
     */
    method Delete(id: string, fGet: Store.Faults, fDel: Store.Faults) returns (err: Outcome<ProductSvcError>)
      requires productRepo.Valid()
      modifies productRepo
      ensures productRepo.Valid()
      ensures err.Fail? ==> (err.error == ErrProductNotFound || err.error == ErrDeleteProduct) && productRepo.rows == old(productRepo.rows)
      ensures err.Pass? ==> productRepo.rows == Store.Remove(old(productRepo.rows), id) && Store.Lookup(productRepo.rows, id) == None
      ensures old(productRepo.Coherent()) && Store.Lookup(old(productRepo.rows), id).None? ==> err == Fail(ErrProductNotFound)
      ensures
        var read := CacheAside.ReadOne(ProductRepository.Scheme, old(productRepo.rows), old(productRepo.cache), id, fGet);
        && (read.Failure? <==> err == Fail(ErrProductNotFound))
        && (err.Pass? <==> read.Success? && fDel.StoreOk(0))
      ensures old(productRepo.Coherent()) && fGet.StoreOk(0) && fDel.StoreOk(0) ==>
        (err.Pass? <==> Store.Lookup(old(productRepo.rows), id).Some?)
      ensures
        var read := CacheAside.CacheAfterReadOne(ProductRepository.Scheme, old(productRepo.rows), old(productRepo.cache), id, fGet);
        productRepo.cache ==
          if err.Pass? then Cache.Delete(Cache.Delete(read, Cache.KeyList(ProductRepository.Keys), fDel.CacheOk(0)),
                                         Cache.KeyID(ProductRepository.Keys, id), fDel.CacheOk(1))
          else read
      ensures old(productRepo.Coherent()) && fDel.CacheOk(0) && fDel.CacheOk(1) ==> productRepo.Coherent()
    {
      if productRepo.Coherent() {
        CacheAside.CoherentReadOne(ProductRepository.Scheme, productRepo.rows, productRepo.cache, id, fGet);
      }
      var product := productRepo.GetProductByID(id, fGet);
      if product.Failure? {
        return Fail(ErrProductNotFound);
      }
      var deleted := productRepo.DeleteProduct(id, fDel);
      if deleted.Fail? {
        return Fail(ErrDeleteProduct);
      }
      err := Pass;
    }

    /**
     * Lists the products the repository returns, converting each with `toRes`, in the same
     * order. `products` is the listing the repository returned.
     */
    method GetAll<R>(toRes: Product -> R, f: Store.Faults)
      returns (r: Result<seq<R>, ProductSvcError>, ghost products: seq<Product>)
      modifies productRepo
      ensures productRepo.rows == old(productRepo.rows)
      ensures r.Failure? ==> r.error == ErrProductNotFound
      ensures r.Success? ==> |r.value| == |products| && forall i :: 0 <= i < |products| ==> r.value[i] == toRes(products[i])
      ensures old(productRepo.Coherent()) ==> productRepo.Coherent() && (r.Success? ==> products == Store.Values(productRepo.rows))
      ensures
        var read := CacheAside.ReadAll(ProductRepository.Scheme, old(productRepo.rows), old(productRepo.cache), f);
        (r.Success? <==> read.Success?) && (read.Success? ==> products == read.value)
      ensures old(productRepo.Coherent()) && f.StoreOk(0) ==> r.Success? && products == Store.Values(old(productRepo.rows))
    {
      if productRepo.Coherent() {
        CacheAside.CoherentReadAll(ProductRepository.Scheme, productRepo.rows, productRepo.cache, f);
      }
      var listed := productRepo.GetAllProduct(f);
      if listed.Failure? {
        return Failure(ErrProductNotFound), [];
      }
      var listing := listed.value;
      products := listing;
      var responses := Responses(listing, toRes);
      r := Success(responses);
    }

    /** One response per product, converted with `toRes`, in the same order. */
    method Responses<R>(products: seq<Product>, toRes: Product -> R) returns (responses: seq<R>)
      ensures |responses| == |products| && forall i :: 0 <= i < |products| ==> responses[i] == toRes(products[i])
    {
      responses := [];
      for i := 0 to |products|
        invariant |responses| == i
        invariant forall k :: 0 <= k < i ==> responses[k] == toRes(products[k])
      {
        responses := responses + [toRes(products[i])];
      }
    }

    /** The product `id`, converted with `toRes`; `product` is what the repository returned. */
    method GetByID<R>(id: string, toRes: Product -> R, f: Store.Faults)
      returns (r: Result<R, ProductSvcError>, ghost product: Option<Product>)
      modifies productRepo
      ensures productRepo.rows == old(productRepo.rows)
      ensures r.Failure? <==> product.None?
      ensures r.Failure? ==> r.error == ErrProductNotFound
      ensures r.Success? ==> r.value == toRes(product.value)
      ensures old(productRepo.Coherent()) ==> productRepo.Coherent() && (product.Some? ==> Store.Lookup(productRepo.rows, id) == product)
      ensures product == CacheAside.ReadOne(ProductRepository.Scheme, old(productRepo.rows), old(productRepo.cache), id, f).ToOption()
      ensures old(productRepo.Coherent()) && f.StoreOk(0) ==> product == Store.Lookup(old(productRepo.rows), id)
      ensures productRepo.cache == CacheAside.CacheAfterReadOne(ProductRepository.Scheme, old(productRepo.rows), old(productRepo.cache), id, f)
    {
      if productRepo.Coherent() {
        CacheAside.CoherentReadOne(ProductRepository.Scheme, productRepo.rows, productRepo.cache, id, f);
      }
      var found := productRepo.GetProductByID(id, f);
      if found.Failure? {
        return Failure(ErrProductNotFound), None;
      }
      product := Some(found.value);
      r := Success(toRes(found.value));
    }
  }
}
