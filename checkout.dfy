/**
 * The checkout processor: turns a user's cart into one completed order, all or nothing,
 * and finds the products of an order that are now low on stock.
 */
module Checkout {
  import opened Wrappers
  import opened Shop
  import opened Database
  import Stock
  import Cart

  // ---------------------------------------------------------------------------------------------
  // Specification functions

  /** Validates every line against its product's stock; reports the first line that is short. */
  function ValidateAll(lines: seq<CartItem>, products: map<ProductId, Product>): (r: Outcome<Error>)
    requires Cart.InCatalog(lines, products)
    ensures r.Pass? <==>
      forall k :: 0 <= k < |lines| ==> Stock.HasAvailableStock(products[lines[k].productId], lines[k].quantity)
    ensures r.Fail? ==> exists k :: (0 <= k < |lines|
      && !Stock.HasAvailableStock(products[lines[k].productId], lines[k].quantity)
      && r.error == InsufficientStock(products[lines[k].productId].name, products[lines[k].productId].stock)
      && forall j :: 0 <= j < k ==> Stock.HasAvailableStock(products[lines[j].productId], lines[j].quantity))
    decreases |lines|
  {
    if |lines| == 0 then Pass
    else
      var v := Stock.ValidateAvailability(products[lines[0].productId], lines[0].quantity);
      if v.Fail? then v
      else
        var rest := ValidateAll(lines[1..], products);
        assert forall k :: 1 <= k < |lines| ==> lines[1..][k - 1] == lines[k];
        rest
  }

  /** The order items checkout writes for `lines`, with consecutive ids from `firstId`. */
  function OrderItemsFor(lines: seq<CartItem>, orderId: OrderId, firstId: nat, products: map<ProductId, Product>)
    : (r: seq<OrderItem>)
    requires Cart.InCatalog(lines, products)
    ensures |r| == |lines|
    decreases |lines|
  {
    if |lines| == 0 then []
    else
      var n := |lines| - 1;
      var line := lines[n];
      OrderItemsFor(lines[..n], orderId, firstId, products)
        + [OrderItem(firstId + n, orderId, line.productId, line.quantity, products[line.productId].price)]
  }

  /** One order item per line, in line order: same product and quantity, the price the product had, the next id. */
  lemma {:induction false} OrderItemsForRows(lines: seq<CartItem>, orderId: OrderId, firstId: nat,
                                             products: map<ProductId, Product>)
    requires Cart.InCatalog(lines, products)
    ensures forall k :: 0 <= k < |lines| ==>
      OrderItemsFor(lines, orderId, firstId, products)[k]
        == OrderItem(firstId + k, orderId, lines[k].productId, lines[k].quantity, products[lines[k].productId].price)
    decreases |lines|
  {
    if |lines| > 0 {
      var n := |lines| - 1;
      OrderItemsForRows(lines[..n], orderId, firstId, products);
      assert forall k :: 0 <= k < n ==> lines[..n][k] == lines[k];
    }
  }

  /** The total quantity the lines take of product `productId`. */
  function QuantityFor(lines: seq<CartItem>, productId: ProductId): int
    decreases |lines|
  {
    if |lines| == 0 then 0
    else
      var n := |lines| - 1;
      QuantityFor(lines[..n], productId) + (if lines[n].productId == productId then lines[n].quantity else 0)
  }

  /** The products table after each line's quantity is taken from its product, in line order. */
  function Decremented(products: map<ProductId, Product>, lines: seq<CartItem>): (r: map<ProductId, Product>)
    requires Cart.InCatalog(lines, products)
    ensures r.Keys == products.Keys
    decreases |lines|
  {
    if |lines| == 0 then products
    else
      var n := |lines| - 1;
      var before := Decremented(products, lines[..n]);
      before[lines[n].productId := Stock.Reduced(before[lines[n].productId], lines[n].quantity)]
  }

  // ---------------------------------------------------------------------------------------------
  // What checkout does to stock

  /** Every product loses exactly the total quantity the lines take of it; nothing else about it changes. */
  lemma {:induction false} DecrementedProduct(products: map<ProductId, Product>, lines: seq<CartItem>, productId: ProductId)
    requires Cart.InCatalog(lines, products) && productId in products
    ensures Decremented(products, lines)[productId] == Stock.Reduced(products[productId], QuantityFor(lines, productId))
    decreases |lines|
  {
    if |lines| > 0 {
      var n := |lines| - 1;
      DecrementedProduct(products, lines[..n], productId);
    }
  }

  /** With one line per product, a product's taken quantity is its line's quantity. */
  lemma {:induction false} QuantityForLine(lines: seq<CartItem>, k: nat)
    requires Cart.DistinctProducts(lines) && k < |lines|
    ensures QuantityFor(lines, lines[k].productId) == lines[k].quantity
    decreases |lines|
  {
    var n := |lines| - 1;
    if k < n {
      QuantityForLine(lines[..n], k);
    } else {
      QuantityForAbsent(lines[..n], lines[k].productId);
    }
  }

  /** A product no line refers to loses nothing. */
  lemma {:induction false} QuantityForAbsent(lines: seq<CartItem>, productId: ProductId)
    requires forall k :: 0 <= k < |lines| ==> lines[k].productId != productId
    ensures QuantityFor(lines, productId) == 0
    decreases |lines|
  {
    if |lines| > 0 {
      QuantityForAbsent(lines[..|lines| - 1], productId);
    }
  }

  /**
   * After a validated checkout of lines with distinct products, each line's product has dropped by exactly the
   * line's quantity and is not negative; every other product is as it was.
   */
  lemma StockAfterCheckout(products: map<ProductId, Product>, lines: seq<CartItem>)
    requires Cart.InCatalog(lines, products) && Cart.DistinctProducts(lines)
    requires ValidateAll(lines, products).Pass?
    ensures forall k :: 0 <= k < |lines| ==>
      && Decremented(products, lines)[lines[k].productId]
         == products[lines[k].productId].(stock := products[lines[k].productId].stock - lines[k].quantity)
      && Decremented(products, lines)[lines[k].productId].stock >= 0
    ensures forall pid :: pid in products && (forall k :: 0 <= k < |lines| ==> lines[k].productId != pid) ==>
      Decremented(products, lines)[pid] == products[pid]
  {
    forall k | 0 <= k < |lines|
      ensures Decremented(products, lines)[lines[k].productId]
         == products[lines[k].productId].(stock := products[lines[k].productId].stock - lines[k].quantity)
    {
      DecrementedProduct(products, lines, lines[k].productId);
      QuantityForLine(lines, k);
    }
    forall pid | pid in products && (forall k :: 0 <= k < |lines| ==> lines[k].productId != pid)
      ensures Decremented(products, lines)[pid] == products[pid]
    {
      DecrementedProduct(products, lines, pid);
      QuantityForAbsent(lines, pid);
    }
  }

  /**
   * A two-line cart: 2 units at 50.00 and 1 unit at 30.00 total 130.00 and leave stocks 10 and 5 at 8 and 4;
   * once the second product's stock has dropped to 1, a line of 3 units fails validation naming what is left.
   */
  lemma CheckoutExample()
    ensures var products := map[1 := Product(1, "A", 5000, 10), 2 := Product(2, "B", 3000, 5)];
      var cart := [CartItem(1, 7, 1, 2), CartItem(2, 7, 2, 1)];
      && Cart.InCatalog(cart, products)
      && ValidateAll(cart, products).Pass?
      && Cart.LinesTotal(cart, products) == 13000
      && Decremented(products, cart)[1].stock == 8
      && Decremented(products, cart)[2].stock == 4
    ensures var products := map[1 := Product(1, "A", 1000, 10), 2 := Product(2, "B", 1500, 1)];
      var cart := [CartItem(1, 7, 1, 2), CartItem(2, 7, 2, 3)];
      && Cart.InCatalog(cart, products)
      && ValidateAll(cart, products) == Fail(InsufficientStock("B", 1))
  {
    var products := map[1 := Product(1, "A", 5000, 10), 2 := Product(2, "B", 3000, 5)];
    var cart := [CartItem(1, 7, 1, 2), CartItem(2, 7, 2, 1)];
    assert cart[..1] == [cart[0]] && cart[1..] == [cart[1]] && [cart[0]][..0] == [];
    assert Cart.LinesTotal(cart, products) == 2 * 5000 + Cart.LinesTotal(cart[1..], products);
    var short := [CartItem(1, 7, 1, 2), CartItem(2, 7, 2, 3)];
    assert short[1..] == [short[1]];
  }

  /** The revenue of the order items checkout writes is the order's total. */
  lemma {:induction false} OrderRevenueIsTotal(lines: seq<CartItem>, orderId: OrderId, firstId: nat, products: map<ProductId, Product>)
    requires Cart.InCatalog(lines, products)
    ensures TotalRevenue(OrderItemsFor(lines, orderId, firstId, products)) == Cart.LinesTotal(lines, products)
    ensures TotalQuantity(OrderItemsFor(lines, orderId, firstId, products)) == QuantitySum(lines)
    decreases |lines|
  {
    if |lines| > 0 {
      var n := |lines| - 1;
      var line := lines[n];
      var item := OrderItem(firstId + n, orderId, line.productId, line.quantity, products[line.productId].price);
      var prefix := OrderItemsFor(lines[..n], orderId, firstId, products);
      OrderRevenueIsTotal(lines[..n], orderId, firstId, products);
      assert OrderItemsFor(lines, orderId, firstId, products) == prefix + [item];
      RevenueAppend(prefix, [item]);
      QuantityAppend(prefix, [item]);
      assert lines == lines[..n] + [line];
      Cart.LinesTotalAppend(lines[..n], [line], products);
      Cart.LinesTotalSingle(line, products);
      assert [item][1..] == [];
    }
  }

  /** The number of units the lines ask for. */
  function QuantitySum(lines: seq<CartItem>): int
    decreases |lines|
  {
    if |lines| == 0 then 0 else QuantitySum(lines[..|lines| - 1]) + lines[|lines| - 1].quantity
  }

  // ---------------------------------------------------------------------------------------------
  // Checkout

  /** Validates the lines one by one, in order, stopping at the first that exceeds its product's stock. */
  method ValidateLines(lines: seq<CartItem>, products: map<ProductId, Product>) returns (r: Outcome<Error>)
    requires Cart.InCatalog(lines, products)
    ensures r == ValidateAll(lines, products)
  {
    var i := 0;
    while i < |lines|
      invariant 0 <= i <= |lines|
      invariant ValidateAll(lines[i..], products) == ValidateAll(lines, products)
    {
      var v := Stock.ValidateAvailability(products[lines[i].productId], lines[i].quantity);
      if v.Fail? {
        return v;
      }
      assert lines[i..][1..] == lines[i + 1..];
      i := i + 1;
    }
    return Pass;
  }

  /**
   * Inserts the order item of one line with the next order item id and the given price, then takes the line's
   * quantity from its product's stock.
   */
  method WriteLine(db: Store, orderId: OrderId, line: CartItem, price: int)
    requires db.Valid() && line.productId in db.products
    modifies db`orderItems, db`nextOrderItemId, db`products
    ensures db.Valid()
    ensures db.orderItems
      == old(db.orderItems) + [OrderItem(old(db.nextOrderItemId), orderId, line.productId, line.quantity, price)]
    ensures db.nextOrderItemId == old(db.nextOrderItemId) + 1
    ensures db.products
      == old(db.products)[line.productId := Stock.Reduced(old(db.products)[line.productId], line.quantity)]
  {
    db.orderItems := db.orderItems + [OrderItem(db.nextOrderItemId, orderId, line.productId, line.quantity, price)];
    db.nextOrderItemId := db.nextOrderItemId + 1;
    Stock.ReduceStock(db, line.productId, line.quantity);
  }

  /** One more line's order item and stock decrement. */
  lemma WriteStep(lines: seq<CartItem>, i: nat, orderId: OrderId, firstId: nat, products: map<ProductId, Product>,
                  before: map<ProductId, Product>)
    requires Cart.InCatalog(lines, products) && Cart.InCatalog(lines, before) && i < |lines|
    ensures Cart.InCatalog(lines[..i], products) && Cart.InCatalog(lines[..i + 1], products)
    ensures Cart.InCatalog(lines[..i], before) && Cart.InCatalog(lines[..i + 1], before)
    ensures OrderItemsFor(lines[..i + 1], orderId, firstId, products)
      == OrderItemsFor(lines[..i], orderId, firstId, products)
         + [OrderItem(firstId + i, orderId, lines[i].productId, lines[i].quantity, products[lines[i].productId].price)]
    ensures var d := Decremented(before, lines[..i]);
      Decremented(before, lines[..i + 1]) == d[lines[i].productId := Stock.Reduced(d[lines[i].productId], lines[i].quantity)]
  {
    assert lines[..i + 1][..i] == lines[..i];
    assert lines[..i + 1][i] == lines[i];
  }

  /** Writes one order item per line, at the price in `products`, and takes each line's quantity from stock. */
  method WriteOrderItems(db: Store, lines: seq<CartItem>, orderId: OrderId, products: map<ProductId, Product>)
    requires db.Valid() && Cart.InCatalog(lines, products) && Cart.InCatalog(lines, db.products)
    modifies db`orderItems, db`nextOrderItemId, db`products
    ensures db.Valid()
    ensures db.orderItems == old(db.orderItems) + OrderItemsFor(lines, orderId, old(db.nextOrderItemId), products)
    ensures db.nextOrderItemId == old(db.nextOrderItemId) + |lines|
    ensures db.products == Decremented(old(db.products), lines)
  {
    ghost var before := db.products;
    ghost var items := db.orderItems;
    var firstId := db.nextOrderItemId;
    var i := 0;
    while i < |lines|
      invariant 0 <= i <= |lines|
      invariant Cart.InCatalog(lines[..i], products) && Cart.InCatalog(lines[..i], before)
      invariant db.orderItems == items + OrderItemsFor(lines[..i], orderId, firstId, products)
      invariant db.nextOrderItemId == firstId + i
      invariant db.products == Decremented(before, lines[..i])
      invariant db.Valid()
    {
      WriteStep(lines, i, orderId, firstId, products, before);
      ghost var written := OrderItemsFor(lines[..i], orderId, firstId, products);
      ghost var item := OrderItem(firstId + i, orderId, lines[i].productId, lines[i].quantity, products[lines[i].productId].price);
      WriteLine(db, orderId, lines[i], products[lines[i].productId].price);
      assert (items + written) + [item] == items + (written + [item]);
      i := i + 1;
    }
    assert lines[..|lines|] == lines;
  }

  /**
   * What a successful checkout of `cart` leaves behind, against the state before it: one completed order with the
   * cart's total at the current prices, one order item per line at the price it was bought for, whose revenue is the
   * order's total; each line's product reduced by exactly its quantity and not negative, every other product as it
   * was; the user's cart empty and every other user's cart untouched.
   */
  ghost predicate Committed(before: Tables, after: Tables, user: UserId, now: int, cart: seq<CartItem>, order: Order)
    requires Cart.InCatalog(cart, before.products)
  {
    && Recorded(before, after, user, now, cart, order)
    && TotalRevenue(OrderItemsFor(cart, order.id, before.nextOrderItemId, before.products)) == order.totalAmount
    && (forall k :: 0 <= k < |cart| ==>
          && after.products[cart[k].productId]
             == before.products[cart[k].productId].(stock := before.products[cart[k].productId].stock - cart[k].quantity)
          && after.products[cart[k].productId].stock >= 0)
    && (forall pid :: pid in before.products && (forall k :: 0 <= k < |cart| ==> cart[k].productId != pid) ==>
          after.products[pid] == before.products[pid])
    && Cart.LinesOf(after.cartItems, user) == []
    && (forall other :: other != user ==> Cart.LinesOf(after.cartItems, other) == Cart.LinesOf(before.cartItems, other))
  }

  /**
   * The rows a checkout of `cart` writes: the completed order with the cart's total at the current prices, its
   * order items, the decremented products, and the user's lines deleted.
   */
  ghost predicate Recorded(before: Tables, after: Tables, user: UserId, now: int, cart: seq<CartItem>, order: Order)
    requires Cart.InCatalog(cart, before.products)
  {
    var products := before.products;
    && order == Order(before.nextOrderId, user, Cart.LinesTotal(cart, products), StatusCompleted, now)
    && after.orders == before.orders + [order]
    && after.nextOrderId == before.nextOrderId + 1
    && after.orderItems == before.orderItems + OrderItemsFor(cart, order.id, before.nextOrderItemId, products)
    && after.nextOrderItemId == before.nextOrderItemId + |cart|
    && after.products == Decremented(products, cart)
    && after.cartItems == Cart.WithoutUser(before.cartItems, user)
    && after.nextCartItemId == before.nextCartItemId
  }

  /** Writing those rows for a validated cart with one line per product has every effect checkout promises. */
  lemma RecordedIsCommitted(before: Tables, after: Tables, user: UserId, now: int, cart: seq<CartItem>, order: Order)
    requires Cart.InCatalog(cart, before.products) && Cart.DistinctProducts(cart)
    requires ValidateAll(cart, before.products).Pass?
    requires Recorded(before, after, user, now, cart, order)
    ensures Committed(before, after, user, now, cart, order)
  {
    StockAfterCheckout(before.products, cart);
    OrderRevenueIsTotal(cart, order.id, before.nextOrderItemId, before.products);
    forall other ensures Cart.LinesOf(after.cartItems, user) == []
      && (other != user ==> Cart.LinesOf(after.cartItems, other) == Cart.LinesOf(before.cartItems, other))
    {
      Cart.WithoutUserCarts(before.cartItems, user, other);
    }
  }

  /** The writes of a validated checkout, inside the transaction. */
  method Commit(db: Store, user: UserId, now: int, cart: seq<CartItem>) returns (order: Order)
    requires db.Valid()
    requires Cart.InCatalog(cart, db.products) && Cart.DistinctProducts(cart)
    requires ValidateAll(cart, db.products).Pass?
    modifies db
    ensures db.Valid()
    ensures Committed(old(db.Snapshot()), db.Snapshot(), user, now, cart, order)
  {
    ghost var s0 := db.Snapshot();
    var products := db.products;
    order := Order(db.nextOrderId, user, Cart.LinesTotal(cart, products), StatusCompleted, now);
    db.orders := db.orders + [order];
    db.nextOrderId := db.nextOrderId + 1;
    WriteOrderItems(db, cart, order.id, products);
    assert db.orders == s0.orders + [order] && db.nextOrderId == s0.nextOrderId + 1;
    assert db.cartItems == s0.cartItems && db.nextCartItemId == s0.nextCartItemId;
    Cart.Clear(db, user);
    ghost var s1 := db.Snapshot();
    assert Recorded(s0, s1, user, now, cart, order);
    RecordedIsCommitted(s0, s1, user, now, cart, order);
  }

  /**
   * Checks out `user`'s cart at time `now`. Fails with EmptyCart on an empty cart and with the first short line's
   * InsufficientStock when a line exceeds its product's stock, changing nothing in either case. Otherwise creates
   * one completed order with the cart's total, one order item per line at the current price, takes each line's
   * quantity from its product, and clears the cart.
   */
  method Process(db: Store, user: UserId, now: int) returns (r: Result<Order, Error>)
    requires db.Valid()
    modifies db
    ensures db.Valid()
    ensures r.Failure? ==> db.Snapshot() == old(db.Snapshot())
    ensures var cart := Cart.LinesOf(old(db.cartItems), user);
      && Cart.InCatalog(cart, old(db.products))
      && Cart.DistinctProducts(cart)
      && (|cart| == 0 ==> r == Failure(EmptyCart))
      && (|cart| > 0 && ValidateAll(cart, old(db.products)).Fail? ==>
            r == Failure(ValidateAll(cart, old(db.products)).error))
      && (r.Success? <==> |cart| > 0 && ValidateAll(cart, old(db.products)).Pass?)
    ensures r.Success? ==> Committed(old(db.Snapshot()), db.Snapshot(), user, now, Cart.LinesOf(old(db.cartItems), user), r.value)
  {
    var cart := Cart.GetCart(db, user);
    assert Cart.InCatalog(cart, db.products) by {
      assert forall k :: 0 <= k < |cart| ==> cart[k] in db.cartItems;
    }
    Cart.LinesOfDistinctProducts(db.cartItems, user);
    if |cart| == 0 {
      r := Failure(EmptyCart);
    } else {
      // Validate every line against the products as loaded with the cart, before writing anything.
      var v := ValidateLines(cart, db.products);
      if v.Fail? {
        r := Failure(v.error);
      } else {
        var order := Commit(db, user, now, cart);
        r := Success(order);
      }
    }
  }

  // ---------------------------------------------------------------------------------------------
  // Low stock after an order

  /** The order items belonging to order `orderId`, in table order. */
  function ItemsOfOrder(rows: seq<OrderItem>, orderId: OrderId): (r: seq<OrderItem>)
    ensures forall x :: x in r <==> x in rows && x.orderId == orderId
  {
    if |rows| == 0 then []
    else
      assert forall x :: x in rows <==> x == rows[0] || x in rows[1..];
      (if rows[0].orderId == orderId then [rows[0]] else []) + ItemsOfOrder(rows[1..], orderId)
  }

  /** The current product rows of `items` that are low on stock, in item order, one per low item. */
  function LowStockAmong(items: seq<OrderItem>, products: map<ProductId, Product>, threshold: nat): (r: seq<Product>)
    requires forall x :: x in items ==> x.productId in products
    ensures |r| <= |items|
    decreases |items|
  {
    if |items| == 0 then []
    else
      var n := |items| - 1;
      var product := products[items[n].productId];
      assert items[..n] <= items;
      LowStockAmong(items[..n], products, threshold) + (if Stock.IsLowStock(product, threshold) then [product] else [])
  }

  /** A product row is reported exactly when some item refers to it and it is low on stock. */
  lemma {:induction false} LowStockAmongMembers(items: seq<OrderItem>, products: map<ProductId, Product>, threshold: nat)
    requires forall x :: x in items ==> x.productId in products
    ensures forall p :: p in LowStockAmong(items, products, threshold) <==>
      exists x :: x in items && p == products[x.productId] && Stock.IsLowStock(p, threshold)
    decreases |items|
  {
    if |items| > 0 {
      var n := |items| - 1;
      assert items == items[..n] + [items[n]];
      assert forall x :: x in items <==> x in items[..n] || x == items[n];
      LowStockAmongMembers(items[..n], products, threshold);
    }
  }

  /** One more item of the order: its product is appended exactly when it is low on stock. */
  lemma LowStockStep(items: seq<OrderItem>, i: nat, products: map<ProductId, Product>, threshold: nat)
    requires i < |items| && forall x :: x in items ==> x.productId in products
    ensures forall x :: x in items[..i + 1] ==> x.productId in products
    ensures forall x :: x in items[..i] ==> x.productId in products
    ensures LowStockAmong(items[..i + 1], products, threshold)
      == LowStockAmong(items[..i], products, threshold)
         + (if Stock.IsLowStock(products[items[i].productId], threshold) then [products[items[i].productId]] else [])
  {
    assert items[..i + 1][..i] == items[..i];
    assert items[..i + 1][i] == items[i];
  }

  /** The low-stock products of an order are the current rows of its items' products that are at or below the threshold. */
  lemma LowStockOfOrder(rows: seq<OrderItem>, orderId: OrderId, products: map<ProductId, Product>, threshold: nat)
    requires forall x :: x in rows ==> x.productId in products
    ensures forall p :: p in LowStockAmong(ItemsOfOrder(rows, orderId), products, threshold) <==>
      exists x :: x in rows && x.orderId == orderId && p == products[x.productId] && Stock.IsLowStock(p, threshold)
  {
    LowStockAmongMembers(ItemsOfOrder(rows, orderId), products, threshold);
  }

  /** The products of `order` whose current stock is at or below `threshold`, re-read after checkout. */
  method GetLowStockProducts(db: Store, order: Order, threshold: nat) returns (r: seq<Product>)
    requires forall x :: x in db.orderItems ==> x.productId in db.products
    ensures r == LowStockAmong(ItemsOfOrder(db.orderItems, order.id), db.products, threshold)
  {
    var items := ItemsOfOrder(db.orderItems, order.id);
    r := [];
    var i := 0;
    while i < |items|
      invariant 0 <= i <= |items|
      invariant forall x :: x in items[..i] ==> x.productId in db.products
      invariant r == LowStockAmong(items[..i], db.products, threshold)
    {
      LowStockStep(items, i, db.products, threshold);
      var product := db.products[items[i].productId];
      if Stock.IsLowStock(product, threshold) {
        r := r + [product];
      }
      i := i + 1;
    }
    assert items[..|items|] == items;
  }
}
