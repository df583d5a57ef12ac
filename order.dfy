// internal/model/order.go: the order record.
module OrderModel {
  /**
   * An order. The Go struct carries no quantity; the order flow publishes one in its
   * stock events, so the model records the quantity the order was placed for.
   */
  datatype Order = Order(id: string, userID: string, productID: string, quantity: int, createdAt: int, updatedAt: int)

  /** The request that places an order. */
  datatype OrderReq = OrderReq(productID: string, quantity: int)
}
