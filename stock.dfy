/** The stock guard: availability checks, the decrement, and the low-stock test. */
module Stock {
  import opened Wrappers
  import opened Shop
  import Database

  /** The threshold used when none is configured. */
  const DefaultLowStockThreshold: nat := 5

  /** The threshold in force: the configured value, or the default when none is configured. */
  function LowStockThreshold(configured: Option<nat>): (t: nat)
    ensures configured.None? ==> t == DefaultLowStockThreshold
    ensures configured.Some? ==> t == configured.value
  {
    match configured
    case None => DefaultLowStockThreshold
    case Some(v) => v
  }

  /** Whether `quantity` units can be taken from the product's stock. */
  predicate HasAvailableStock(product: Product, quantity: int)
  {
    product.stock >= quantity
  }

  /** Passes when the stock suffices; otherwise reports the product's name and what is available. */
  function ValidateAvailability(product: Product, quantity: int): (r: Outcome<Error>)
    ensures r.Pass? <==> product.stock >= quantity
    ensures r.Fail? ==> r.error == InsufficientStock(product.name, product.stock)
  {
    if HasAvailableStock(product, quantity) then Pass
    else Fail(InsufficientStock(product.name, product.stock))
  }

  /** The failure message names the product and states the available quantity, which reads back exactly. */
  lemma InsufficientStockMessage(product: Product, quantity: int)
    requires !HasAvailableStock(product, quantity)
    ensures var m := Message(ValidateAvailability(product, quantity).error);
      var prefix := "Insufficient stock for " + product.name + ". Available: ";
      && m == prefix + IntToString(product.stock)
      && ParseInt(m[|prefix|..]) == product.stock
  {
    var prefix := "Insufficient stock for " + product.name + ". Available: ";
    var m := Message(ValidateAvailability(product, quantity).error);
    assert m[|prefix|..] == IntToString(product.stock);
    IntToStringRoundTrip(product.stock);
  }

  /** The product row after its stock is decremented by `quantity`. */
  function Reduced(product: Product, quantity: int): (r: Product)
    ensures r.id == product.id && r.name == product.name && r.price == product.price
    ensures r.stock + quantity == product.stock
  {
    product.(stock := product.stock - quantity)
  }

  /** Reducing by an amount equal to the stock leaves exactly zero. */
  lemma ReduceToZero(product: Product)
    ensures Reduced(product, product.stock).stock == 0
  {
  }

  /** Successive reductions add up. */
  lemma ReductionsCompose(product: Product, a: int, b: int)
    ensures Reduced(Reduced(product, a), b) == Reduced(product, a + b)
  {
  }

  /** Reductions of 5, 3 and 7 take a stock of 20 through 15 and 12 to 5. */
  lemma ReductionChain(product: Product)
    requires product.stock == 20
    ensures Reduced(product, 5).stock == 15
    ensures Reduced(Reduced(product, 5), 3).stock == 12
    ensures Reduced(Reduced(Reduced(product, 5), 3), 7).stock == 5
  {
  }

  /** The single atomic decrement of a product's stock column; nothing else changes. */
  method ReduceStock(db: Database.Store, productId: ProductId, quantity: int)
    requires productId in db.products
    modifies db`products
    ensures db.products == old(db.products)[productId := Reduced(old(db.products)[productId], quantity)]
    ensures old(db.Valid()) ==> db.Valid()
  {
    db.products := db.products[productId := Reduced(db.products[productId], quantity)];
  }

  /** A product is low on stock when its stock is at or below the threshold. */
  predicate IsLowStock(product: Product, threshold: nat)
  {
    product.stock <= threshold
  }

  /** Low stock holds at the threshold and fails just above it; zero stock is always low. */
  lemma LowStockBoundary(product: Product, threshold: nat)
    ensures product.stock == threshold ==> IsLowStock(product, threshold)
    ensures product.stock == threshold + 1 ==> !IsLowStock(product, threshold)
    ensures product.stock <= 0 ==> IsLowStock(product, threshold)
  {
  }
}
