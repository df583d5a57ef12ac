// internal/module/order/order_svc.go: the order service. Placing an order publishes
// "stock.decrease" for the ordered product and quantity; deleting it publishes the
// compensating "stock.increase". The conversions ToOrder and ToOrderResp, and the product
// response the product service hands back, are given as functions.
module OrderSvc {
  import opened Wrappers
  import Store
  import Cache
  import CacheAside
  import opened OrderModel
  import opened ProductModel
  import OrderRepository
  import ProductRepository
  import opened ProductSvc
  import opened Broker
  import opened RabbitMQ
  import opened StockHandler

  datatype OrderSvcError =
    | ErrCreateOrder
    | ErrUpdateOrder
    | ErrDeleteOrder
    | ErrOrderNotFound
    | ErrChangeProduct
    | ErrPermission
    | Unpublished(cause: PublishError)

  class OrderService {
    const orderRepo: OrderRepository.OrderRepo
    const productSvc: ProductService
    const producer: Producer

    constructor (orderRepo: OrderRepository.OrderRepo, productSvc: ProductService, producer: Producer)
      ensures this.orderRepo == orderRepo && this.productSvc == productSvc && this.producer == producer
    {
      this.orderRepo := orderRepo;
      this.productSvc := productSvc;
      this.producer := producer;
    }

    /**
     * Places an order for `userID`: looks the product up, builds the order from the request
     * and the product (`order` is the order built), stores it and publishes "stock.decrease"
     * with its product and quantity. A failed lookup or insert is ErrCreateOrder with nothing
     * written or published; a failed publish is ErrCreateOrder with the order already stored.
     */
    method Save<R>(req: OrderReq, userID: string, toRes: Product -> R, toOrder: (OrderReq, string, R) -> Order,
                   fProduct: Store.Faults, fAdd: Store.Faults, publishOk: bool)
      returns (err: Outcome<OrderSvcError>, ghost order: Option<Order>)
      requires orderRepo.Valid()
      modifies productSvc.productRepo, orderRepo, producer
      ensures orderRepo.Valid()
      ensures order.None? ==>
        && err == Fail(ErrCreateOrder)
        && orderRepo.rows == old(orderRepo.rows) && orderRepo.cache == old(orderRepo.cache)
        && producer.sent == old(producer.sent)
      ensures order.Some? ==>
        var created := Store.Create(old(orderRepo.rows), order.value.id, order.value, fAdd.StoreOk(0));
        if created.Failure? then
          && err == Fail(ErrCreateOrder)
          && orderRepo.rows == old(orderRepo.rows) && orderRepo.cache == old(orderRepo.cache)
          && producer.sent == old(producer.sent)
        else
          && orderRepo.rows == created.value
          && orderRepo.cache == Cache.Set(old(orderRepo.cache), Cache.KeyID(OrderRepository.Keys, order.value.id),
                                          Cache.One(order.value), fAdd.CacheOk(0))
          && producer.sent == old(producer.sent)
             + (if publishOk then [StockEvent("stock.decrease", order.value.productID, order.value.quantity)] else [])
          && err == (if publishOk then Pass else Fail(ErrCreateOrder))
      ensures err.Pass? ==> order.Some? && Store.Lookup(orderRepo.rows, order.value.id) == order
      ensures
        var product := CacheAside.ReadOne(ProductRepository.Scheme, old(productSvc.productRepo.rows),
                                          old(productSvc.productRepo.cache), req.productID, fProduct);
        order == if product.Success? then Some(toOrder(req, userID, toRes(product.value))) else None
      ensures old(productSvc.productRepo.Coherent()) && fProduct.StoreOk(0) ==>
        (order.Some? <==> Store.Lookup(old(productSvc.productRepo.rows), req.productID).Some?)
      ensures productSvc.productRepo.rows == old(productSvc.productRepo.rows)
      ensures productSvc.productRepo.cache == CacheAside.CacheAfterReadOne(ProductRepository.Scheme,
        old(productSvc.productRepo.rows), old(productSvc.productRepo.cache), req.productID, fProduct)
      ensures old(orderRepo.Coherent()) && Cache.KeyList(OrderRepository.Keys) !in old(orderRepo.cache) ==> orderRepo.Coherent()
      ensures old(orderRepo.Coherent()) && err.Pass? && Cache.KeyList(OrderRepository.Keys) in old(orderRepo.cache) ==>
        !orderRepo.Coherent()
    {
      if productSvc.productRepo.Coherent() {
        CacheAside.CoherentReadOne(ProductRepository.Scheme, productSvc.productRepo.rows, productSvc.productRepo.cache, req.productID, fProduct);
      }
      order := None;
      var product, found := productSvc.GetByID(req.productID, toRes, fProduct);
      if product.Failure? {
        return Fail(ErrCreateOrder), order;
      }
      var placed := toOrder(req, userID, product.value);
      order := Some(placed);
      var added := orderRepo.AddOrder(placed, fAdd);
      if added.Fail? {
        return Fail(ErrCreateOrder), order;
      }
      var published := producer.Publishing(StockConfig("stock.decrease"), Raw(StockPayload(placed.productID, placed.quantity)), publishOk);
      if published.Fail? {
        return Fail(ErrCreateOrder), order;
      }
      err := Pass;
    }

    /**
     * Touches order `id`: looks up the request's product and the stored order, and fails
     * unless the product's id (read by `respID`) equals the ORDER's id; it then writes the
     * stored order back with only its update time set to `now`, ignoring the request's
     * fields. `loaded` is the order the read returned.
     */
    method Update<R>(req: Order, id: string, now: int, toRes: Product -> R, respID: R -> string,
                     fProduct: Store.Faults, fGet: Store.Faults, fPut: Store.Faults)
      returns (err: Outcome<OrderSvcError>, ghost loaded: Option<Order>)
      requires orderRepo.Valid()
      modifies productSvc.productRepo, orderRepo
      ensures orderRepo.Valid()
      ensures err.Fail? ==> orderRepo.rows == old(orderRepo.rows)
      ensures err.Fail? ==> err.error == ErrUpdateOrder || (err.error == ErrOrderNotFound && loaded.None?)
      ensures err.Pass? ==>
        && loaded.Some?
        && orderRepo.rows == Store.Replace(old(orderRepo.rows), id, loaded.value.(updatedAt := now))
      ensures old(orderRepo.Coherent()) && loaded.Some? ==> Store.Lookup(old(orderRepo.rows), id) == loaded
      ensures
        var product := CacheAside.ReadOne(ProductRepository.Scheme, old(productSvc.productRepo.rows),
                                          old(productSvc.productRepo.cache), req.productID, fProduct);
        var current := CacheAside.ReadOne(OrderRepository.Scheme, old(orderRepo.rows), old(orderRepo.cache), id, fGet);
        && (product.Failure? ==> err == Fail(ErrUpdateOrder) && loaded.None?)
        && (product.Success? ==> loaded == current.ToOption())
        && (product.Success? && current.Failure? ==> err == Fail(ErrOrderNotFound))
        && (product.Success? && current.Success? && respID(toRes(product.value)) != current.value.id ==>
              err == Fail(ErrUpdateOrder))
        && (product.Success? && current.Success? && respID(toRes(product.value)) == current.value.id ==>
              (err.Pass? <==> fPut.StoreOk(0) && Store.Lookup(old(orderRepo.rows), id).Some?))
      ensures old(orderRepo.Coherent()) && fGet.StoreOk(0) && err != Fail(ErrUpdateOrder) ==>
        (loaded.Some? <==> Store.Lookup(old(orderRepo.rows), id).Some?)
      ensures productSvc.productRepo.rows == old(productSvc.productRepo.rows)
      ensures productSvc.productRepo.cache == CacheAside.CacheAfterReadOne(ProductRepository.Scheme,
        old(productSvc.productRepo.rows), old(productSvc.productRepo.cache), req.productID, fProduct)
      ensures
        var product := CacheAside.ReadOne(ProductRepository.Scheme, old(productSvc.productRepo.rows),
                                          old(productSvc.productRepo.cache), req.productID, fProduct);
        var read := CacheAside.CacheAfterReadOne(OrderRepository.Scheme, old(orderRepo.rows), old(orderRepo.cache), id, fGet);
        orderRepo.cache ==
          if product.Failure? then old(orderRepo.cache)
          else if err.Pass? then Cache.Delete(Cache.Delete(read, Cache.KeyList(OrderRepository.Keys), fPut.CacheOk(0)),
                                              Cache.KeyID(OrderRepository.Keys, id), fPut.CacheOk(1))
          else read
      ensures old(orderRepo.Coherent()) && fPut.CacheOk(0) && fPut.CacheOk(1) ==> orderRepo.Coherent()
    {
      if orderRepo.Coherent() {
        CacheAside.CoherentReadOne(OrderRepository.Scheme, orderRepo.rows, orderRepo.cache, id, fGet);
      }
      loaded := None;
      var product, found := productSvc.GetByID(req.productID, toRes, fProduct);
      if product.Failure? {
        return Fail(ErrUpdateOrder), loaded;
      }
      var current := orderRepo.GetOrderByID(id, fGet);
      if current.Failure? {
        return Fail(ErrOrderNotFound), loaded;
      }
      loaded := Some(current.value);
      if respID(product.value) != current.value.id {
        return Fail(ErrUpdateOrder), loaded;
      }
      var touched := current.value.(updatedAt := now);
      var written := orderRepo.UpdateOrder(touched, id, fPut);
      if written.Fail? {
        return Fail(ErrUpdateOrder), loaded;
      }
      err := Pass;
    }

    /**
     * Cancels order `id` on behalf of `userID`: a missing order is ErrOrderNotFound and an
     * order of another user ErrDeleteOrder, both before any write. Otherwise it deletes the
     * order and publishes "stock.increase" with the order's product and quantity; a failed
     * publish is returned as it is. `loaded` is the order the read returned.
     */
    method Delete(id: string, userID: string, fGet: Store.Faults, fDel: Store.Faults, publishOk: bool)
      returns (err: Outcome<OrderSvcError>, ghost loaded: Option<Order>)
      requires orderRepo.Valid()
      modifies orderRepo, producer
      ensures orderRepo.Valid()
      ensures loaded.None? <==> err == Fail(ErrOrderNotFound)
      ensures loaded.Some? && loaded.value.userID != userID ==>
        err == Fail(ErrDeleteOrder) && orderRepo.rows == old(orderRepo.rows) && producer.sent == old(producer.sent)
      ensures err.Fail? && err.error != OrderSvcError.Unpublished(PublishError) ==>
        orderRepo.rows == old(orderRepo.rows) && producer.sent == old(producer.sent)
      ensures loaded.Some? && loaded.value.userID == userID && Store.Delete(old(orderRepo.rows), id, fDel.StoreOk(0)).Success? ==>
        && orderRepo.rows == Store.Remove(old(orderRepo.rows), id)
        && producer.sent == old(producer.sent)
           + (if publishOk then [StockEvent("stock.increase", loaded.value.productID, loaded.value.quantity)] else [])
        && err == (if publishOk then Pass else Fail(OrderSvcError.Unpublished(PublishError)))
      ensures old(orderRepo.Coherent()) && loaded.Some? ==> Store.Lookup(old(orderRepo.rows), id) == loaded
      ensures loaded == CacheAside.ReadOne(OrderRepository.Scheme, old(orderRepo.rows), old(orderRepo.cache), id, fGet).ToOption()
      ensures old(orderRepo.Coherent()) && fGet.StoreOk(0) ==> loaded == Store.Lookup(old(orderRepo.rows), id)
      ensures err.Pass? <==> loaded.Some? && loaded.value.userID == userID && fDel.StoreOk(0) && publishOk
      ensures
        var read := CacheAside.CacheAfterReadOne(OrderRepository.Scheme, old(orderRepo.rows), old(orderRepo.cache), id, fGet);
        orderRepo.cache ==
          if loaded.Some? && loaded.value.userID == userID && Store.Delete(old(orderRepo.rows), id, fDel.StoreOk(0)).Success?
          then Cache.Delete(Cache.Delete(read, Cache.KeyID(OrderRepository.Keys, id), fDel.CacheOk(0)),
                            Cache.KeyList(OrderRepository.Keys), fDel.CacheOk(1))
          else read
      ensures old(orderRepo.Coherent()) && fDel.CacheOk(0) && fDel.CacheOk(1) ==> orderRepo.Coherent()
    {
      if orderRepo.Coherent() {
        CacheAside.CoherentReadOne(OrderRepository.Scheme, orderRepo.rows, orderRepo.cache, id, fGet);
      }
      var current := orderRepo.GetOrderByID(id, fGet);
      if current.Failure? {
        return Fail(ErrOrderNotFound), None;
      }
      var order := current.value;
      loaded := Some(order);
      if order.userID != userID {
        return Fail(ErrDeleteOrder), loaded;
      }
      var deleted := orderRepo.DeleteOrder(id, fDel);
      if deleted.Fail? {
        return Fail(ErrDeleteOrder), loaded;
      }
      var published := producer.Publishing(StockConfig("stock.increase"), Raw(StockPayload(order.productID, order.quantity)), publishOk);
      if published.Fail? {
        return Fail(OrderSvcError.Unpublished(published.error)), loaded;
      }
      err := Pass;
    }

    /** Lists the orders the repository returns, converting each with `toResp`, in the same order. */
    method GetAll<R>(toResp: Order -> R, f: Store.Faults)
      returns (r: Result<seq<R>, OrderSvcError>, ghost orders: seq<Order>)
      modifies orderRepo
      ensures orderRepo.rows == old(orderRepo.rows)
      ensures r.Failure? ==> r.error == ErrOrderNotFound
      ensures r.Success? ==> |r.value| == |orders| && forall i :: 0 <= i < |orders| ==> r.value[i] == toResp(orders[i])
      ensures old(orderRepo.Coherent()) ==> orderRepo.Coherent() && (r.Success? ==> orders == Store.Values(orderRepo.rows))
      ensures
        var read := CacheAside.ReadAll(OrderRepository.Scheme, old(orderRepo.rows), old(orderRepo.cache), f);
        (r.Success? <==> read.Success?) && (read.Success? ==> orders == read.value)
      ensures old(orderRepo.Coherent()) && f.StoreOk(0) ==> r.Success? && orders == Store.Values(old(orderRepo.rows))
    {
      if orderRepo.Coherent() {
        CacheAside.CoherentReadAll(OrderRepository.Scheme, orderRepo.rows, orderRepo.cache, f);
      }
      var listed := orderRepo.GetAllOrder(f);
      if listed.Failure? {
        return Failure(ErrOrderNotFound), [];
      }
      var listing := listed.value;
      orders := listing;
      var responses := Responses(listing, toResp);
      r := Success(responses);
    }

    /** One response per order, converted with `toResp`, in the same order. */
    method Responses<R>(orders: seq<Order>, toResp: Order -> R) returns (responses: seq<R>)
      ensures |responses| == |orders| && forall i :: 0 <= i < |orders| ==> responses[i] == toResp(orders[i])
    {
      responses := [];
      for i := 0 to |orders|
        invariant |responses| == i
        invariant forall k :: 0 <= k < i ==> responses[k] == toResp(orders[k])
      {
        responses := responses + [toResp(orders[i])];
      }
    }

    /** The order `id`, converted with `toResp`; `order` is what the repository returned. */
    method GetByID<R>(id: string, toResp: Order -> R, f: Store.Faults)
      returns (r: Result<R, OrderSvcError>, ghost order: Option<Order>)
      modifies orderRepo
      ensures orderRepo.rows == old(orderRepo.rows)
      ensures r.Failure? <==> order.None?
      ensures r.Failure? ==> r.error == ErrOrderNotFound
      ensures r.Success? ==> r.value == toResp(order.value)
      ensures old(orderRepo.Coherent()) ==> orderRepo.Coherent() && (order.Some? ==> Store.Lookup(orderRepo.rows, id) == order)
      ensures order == CacheAside.ReadOne(OrderRepository.Scheme, old(orderRepo.rows), old(orderRepo.cache), id, f).ToOption()
      ensures old(orderRepo.Coherent()) && f.StoreOk(0) ==> order == Store.Lookup(old(orderRepo.rows), id)
    {
      if orderRepo.Coherent() {
        CacheAside.CoherentReadOne(OrderRepository.Scheme, orderRepo.rows, orderRepo.cache, id, f);
      }
      var found := orderRepo.GetOrderByID(id, f);
      if found.Failure? {
        return Failure(ErrOrderNotFound), None;
      }
      order := Some(found.value);
      r := Success(toResp(found.value));
    }
  }

  /**
   * The order saga: the event Save publishes for an order and the one Delete publishes for
   * it, consumed by routing key and applied to the product's stock level in turn, restore
   * the level exactly when the decrease succeeded (enough stock).
   */
  lemma SaveThenDeleteRestoresStock(o: Order, level: int)
    requires level >= 0
    ensures
      var placed := RouteStockByKey(Delivered(StockEvent("stock.decrease", o.productID, o.quantity)));
      var cancelled := RouteStockByKey(Delivered(StockEvent("stock.increase", o.productID, o.quantity)));
      && placed == Some(DecreaseStock(o.productID, o.quantity))
      && cancelled == Some(IncreaseStock(o.productID, o.quantity))
      && (o.quantity <= level <==> Applied(Applied(Some(level), placed.value), cancelled.value) == Some(level)
                                   && Applied(Some(level), placed.value) == Some(level - o.quantity))
  {
    StockEventRoutes("stock.decrease", o.productID, o.quantity);
    StockEventRoutes("stock.increase", o.productID, o.quantity);
    DecreaseThenIncreaseRestoresLevel(level, o.productID, o.quantity);
  }
}
