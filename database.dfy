/**
 * The in-memory database the services act on: the products, cart_items, orders and order_items
 * tables, with their auto-increment counters.
 */
module Database {
  import opened Shop

  /** No two rows share a primary key, and no user holds two lines for one product. */
  ghost predicate Keyed(rows: seq<CartItem>)
  {
    forall i, j :: 0 <= i < j < |rows| ==>
      rows[i].id != rows[j].id &&
      (rows[i].userId != rows[j].userId || rows[i].productId != rows[j].productId)
  }

  /** Every product is stored under its own id. */
  ghost predicate CatalogKeyed(products: map<ProductId, Product>)
  {
    forall pid :: pid in products ==> products[pid].id == pid
  }

  /** Every cart line refers to a product, holds at least one unit and has an id already issued. */
  ghost predicate CartRowsValid(rows: seq<CartItem>, products: map<ProductId, Product>, nextId: nat)
  {
    forall x :: x in rows ==> x.productId in products && x.quantity >= 1 && x.id < nextId
  }

  /** Every order has an id already issued. */
  ghost predicate OrdersValid(rows: seq<Order>, nextId: nat)
  {
    forall o :: o in rows ==> o.id < nextId
  }

  /** Every order item refers to a product and has an id already issued. */
  ghost predicate OrderItemsValid(rows: seq<OrderItem>, products: map<ProductId, Product>, nextId: nat)
  {
    forall x :: x in rows ==> x.productId in products && x.id < nextId
  }

  /** The contents of every table and counter at one moment. */
  datatype Tables = Tables(
    products: map<ProductId, Product>,
    cartItems: seq<CartItem>,
    orders: seq<Order>,
    orderItems: seq<OrderItem>,
    nextCartItemId: nat,
    nextOrderId: nat,
    nextOrderItemId: nat)

  class Store {
    var products: map<ProductId, Product>
    var cartItems: seq<CartItem>
    var orders: seq<Order>
    var orderItems: seq<OrderItem>
    var nextCartItemId: nat
    var nextOrderId: nat
    var nextOrderItemId: nat

    /** The table invariant every service operation keeps. */
    ghost predicate Valid()
      reads this
    {
      && CatalogKeyed(products)
      && CartRowsValid(cartItems, products, nextCartItemId)
      && Keyed(cartItems)
      && OrdersValid(orders, nextOrderId)
      && OrderItemsValid(orderItems, products, nextOrderItemId)
    }

    /** The current contents of the database. */
    function Snapshot(): Tables
      reads this
    {
      Tables(products, cartItems, orders, orderItems, nextCartItemId, nextOrderId, nextOrderItemId)
    }

    /** A database holding the given products and nothing else. */
    constructor (catalog: map<ProductId, Product>)
      requires forall pid :: pid in catalog ==> catalog[pid].id == pid
      ensures Valid()
      ensures products == catalog
      ensures cartItems == [] && orders == [] && orderItems == []
      ensures nextCartItemId == 1 && nextOrderId == 1 && nextOrderItemId == 1
    {
      products := catalog;
      cartItems := [];
      orders := [];
      orderItems := [];
      nextCartItemId := 1;
      nextOrderId := 1;
      nextOrderItemId := 1;
    }
  }
}
