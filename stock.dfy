// internal/model/stock.go: a product's stock level and the rules for changing it.
module StockModel {
  import opened Wrappers

  datatype StockError = ErrDebtStock | ErrQuantity

  /** A stock record as the database and the cache hold it; keyed by its product. */
  datatype StockRow = StockRow(productID: string, quantity: int, createdAt: int, updatedAt: int)

  /** The quantity SetQuantity stores for a requested quantity. */
  function Clamped(q: int): int { if q < 0 then 0 else q }

  /** The quantity left after removing `q` units, or the debt error. */
  function Decreased(quantity: int, q: int): Result<int, StockError>
  {
    if quantity - q < 0 then Failure(ErrDebtStock) else Success(quantity - q)
  }

  /** Applies successive decreases; a decrease that would go into debt leaves the level as it was. */
  function DecreasedAll(quantity: int, qs: seq<int>): int
    decreases |qs|
  {
    if |qs| == 0 then quantity
    else
      var next := Decreased(quantity, qs[0]);
      DecreasedAll(if next.Success? then next.value else quantity, qs[1..])
  }

  class Stock {
    var productID: string
    var quantity: int
    var createdAt: int
    var updatedAt: int

    /** A new stock record for a product, created at `now`, before SetQuantity. */
    constructor (productID: string, now: int)
      ensures this.productID == productID && quantity == 0
      ensures createdAt == now && updatedAt == now
    {
      this.productID := productID;
      quantity := 0;
      createdAt := now;
      updatedAt := now;
    }

    /** A stock record loaded from the database or the cache. */
    constructor FromRow(row: StockRow)
      ensures Row() == row
    {
      productID := row.productID;
      quantity := row.quantity;
      createdAt := row.createdAt;
      updatedAt := row.updatedAt;
    }

    function Row(): StockRow
      reads this
    {
      StockRow(productID, quantity, createdAt, updatedAt)
    }

    /** Stores `q`, replacing a negative request by 0. */
    method SetQuantity(q: int)
      modifies this
      ensures quantity == Clamped(q) && quantity >= 0
      ensures q >= 0 ==> quantity == q
      ensures productID == old(productID) && createdAt == old(createdAt) && updatedAt == old(updatedAt)
    {
      if q < 0 {
        quantity := 0;
      } else {
        quantity := q;
      }
    }

    method GetQuantity() returns (q: int)
      ensures q == quantity
    {
      q := quantity;
    }

    /** Removes `q` units unless that would leave a negative level. */
    method DecreaseQuantity(q: int) returns (err: Outcome<StockError>)
      modifies this
      ensures err.Fail? <==> old(quantity) - q < 0
      ensures err.Fail? ==> err.error == ErrDebtStock && quantity == old(quantity)
      ensures err.Pass? ==> quantity == old(quantity) - q && quantity >= 0
      ensures Decreased(old(quantity), q) == if err.Pass? then Success(quantity) else Failure(ErrDebtStock)
      ensures old(quantity) >= 0 ==> quantity >= 0
      ensures productID == old(productID) && createdAt == old(createdAt) && updatedAt == old(updatedAt)
    {
      if quantity - q < 0 {
        return Fail(ErrDebtStock);
      }
      quantity := quantity - q;
      err := Pass;
    }

    /** Adds `q` units; no bound is checked. */
    method IncreaseQuantity(q: int)
      modifies this
      ensures quantity == old(quantity) + q
      ensures productID == old(productID) && createdAt == old(createdAt) && updatedAt == old(updatedAt)
    {
      quantity := quantity + q;
    }
  }

  /** SetQuantity never stores a negative level, and setting what it stored changes nothing. */
  lemma ClampedIsNonNegativeAndIdempotent(q: int)
    ensures Clamped(q) >= 0 && Clamped(Clamped(q)) == Clamped(q)
    ensures q >= 0 <==> Clamped(q) == q
  {
  }

  /** A decrease never drives a non-negative level below zero, whatever the sign of `q`. */
  lemma DecreaseKeepsNonNegative(quantity: int, q: int)
    requires quantity >= 0
    ensures Decreased(quantity, q).Success? ==> Decreased(quantity, q).value >= 0
    ensures Decreased(quantity, q).Failure? ==> q > quantity
  {
  }

  /** Increasing by `q` and then decreasing by `q` restores the level. */
  lemma IncreaseThenDecreaseRestores(quantity: int, q: int)
    requires quantity >= 0
    ensures Decreased(quantity + q, q) == Success(quantity)
  {
  }

  /** A successful decrease followed by an increase of the same amount restores the level. */
  lemma DecreaseThenIncreaseRestores(quantity: int, q: int)
    ensures Decreased(quantity, q).Success? ==> Decreased(quantity, q).value + q == quantity
    ensures Decreased(quantity, q).Success? <==> q <= quantity
  {
  }

  /** From a non-negative level, any sequence of decreases keeps the level non-negative. */
  lemma {:induction false} DecreasedAllNonNegative(quantity: int, qs: seq<int>)
    requires quantity >= 0
    ensures DecreasedAll(quantity, qs) >= 0
    decreases |qs|
  {
    if |qs| > 0 {
      var next := Decreased(quantity, qs[0]);
      DecreasedAllNonNegative(if next.Success? then next.value else quantity, qs[1..]);
    }
  }

  /** Decreases by non-negative amounts never raise the level. */
  lemma {:induction false} DecreasedAllNeverRaises(quantity: int, qs: seq<int>)
    requires forall i :: 0 <= i < |qs| ==> qs[i] >= 0
    ensures DecreasedAll(quantity, qs) <= quantity
    decreases |qs|
  {
    if |qs| > 0 {
      var next := Decreased(quantity, qs[0]);
      DecreasedAllNeverRaises(if next.Success? then next.value else quantity, qs[1..]);
    }
  }
}
