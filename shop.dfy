/**
 * The rows of the store's tables and the errors its services report.
 * Money (the `decimal:2` price and total columns) is held as integer cents, so sums are exact.
 */
module Shop {

  type UserId = nat
  type ProductId = nat
  type CartItemId = nat
  type OrderId = nat
  type OrderItemId = nat

  /** A product row: `price` in cents, `stock` is the `stock_quantity` column. */
  datatype Product = Product(id: ProductId, name: string, price: int, stock: int)

  /** One cart line: `quantity` units of a product held by a user. */
  datatype CartItem = CartItem(id: CartItemId, userId: UserId, productId: ProductId, quantity: int)

  /** An order row; `totalAmount` in cents, `createdAt` the creation time as given by the caller's clock. */
  datatype Order = Order(id: OrderId, userId: UserId, totalAmount: int, status: string, createdAt: int)

  /** An order line: `price` (cents) is the product's price frozen when the order was placed. */
  datatype OrderItem = OrderItem(id: OrderItemId, orderId: OrderId, productId: ProductId, quantity: int, price: int)

  // Sums over order item rows, shared by checkout and the sales report.

  /** The sum of quantity times frozen price over the items, in cents. */
  function TotalRevenue(items: seq<OrderItem>): (r: int)
    ensures (forall k :: 0 <= k < |items| ==> items[k].quantity >= 0 && items[k].price >= 0) ==> r >= 0
  {
    if |items| == 0 then 0 else items[0].quantity * items[0].price + TotalRevenue(items[1..])
  }

  /** The sum of the items' quantities. */
  function TotalQuantity(items: seq<OrderItem>): (r: int)
    ensures (forall k :: 0 <= k < |items| ==> items[k].quantity >= 0) ==> r >= 0
  {
    if |items| == 0 then 0 else items[0].quantity + TotalQuantity(items[1..])
  }

  lemma {:induction false} RevenueAppend(a: seq<OrderItem>, b: seq<OrderItem>)
    ensures TotalRevenue(a + b) == TotalRevenue(a) + TotalRevenue(b)
    decreases |a|
  {
    if |a| == 0 {
      assert a + b == b;
    } else {
      assert (a + b)[1..] == a[1..] + b;
      RevenueAppend(a[1..], b);
    }
  }

  lemma {:induction false} QuantityAppend(a: seq<OrderItem>, b: seq<OrderItem>)
    ensures TotalQuantity(a + b) == TotalQuantity(a) + TotalQuantity(b)
    decreases |a|
  {
    if |a| == 0 {
      assert a + b == b;
    } else {
      assert (a + b)[1..] == a[1..] + b;
      QuantityAppend(a[1..], b);
    }
  }

  /** The totals of one more item at the end of a run. */
  lemma AppendOne(a: seq<OrderItem>, x: OrderItem)
    ensures TotalRevenue(a + [x]) == TotalRevenue(a) + x.quantity * x.price
    ensures TotalQuantity(a + [x]) == TotalQuantity(a) + x.quantity
  {
    RevenueAppend(a, [x]);
    QuantityAppend(a, [x]);
    assert [x][1..] == [];
  }

  /** The only status checkout gives an order. */
  const StatusCompleted: string := "completed"

  /** The conditions under which the cart and checkout services refuse a request. */
  datatype Error =
    | InvalidQuantity
    | InsufficientStock(productName: string, available: int)
    | NotOwner
    | EmptyCart

  /** The text of the exception each error is raised with. */
  function Message(e: Error): string
  {
    match e
    case InvalidQuantity => "Quantity must be at least 1."
    case InsufficientStock(name, available) =>
      "Insufficient stock for " + name + ". Available: " + IntToString(available)
    case NotOwner => "Cart item does not belong to this user."
    case EmptyCart => "Cart is empty."
  }

  function DigitChar(d: nat): char
    requires d < 10
  {
    "0123456789"[d]
  }

  predicate IsDigit(c: char)
  {
    '0' <= c <= '9'
  }

  /** Decimal rendering of a natural number, as string interpolation prints it. */
  function NatToString(n: nat): (s: string)
    ensures |s| > 0
    ensures forall k :: 0 <= k < |s| ==> IsDigit(s[k])
    decreases n
  {
    if n < 10 then [DigitChar(n)] else NatToString(n / 10) + [DigitChar(n % 10)]
  }

  /** Decimal rendering of an integer, with a leading '-' when it is negative. */
  function IntToString(n: int): string
  {
    if n < 0 then "-" + NatToString(-n) else NatToString(n)
  }

  /** Reads a string of decimal digits as a number (a non-digit counts as 0); reads back what NatToString writes. */
  function ParseNat(s: string): nat
    decreases |s|
  {
    if |s| == 0 then 0
    else
      var c := s[|s| - 1];
      10 * ParseNat(s[..|s| - 1]) + (if IsDigit(c) then (c as int - '0' as int) else 0)
  }

  /** Reads an optionally signed decimal number; reads back what IntToString writes. */
  function ParseInt(s: string): int
  {
    if |s| > 0 && s[0] == '-' then -(ParseNat(s[1..]) as int) else ParseNat(s)
  }

  lemma {:induction false} NatToStringRoundTrip(n: nat)
    ensures ParseNat(NatToString(n)) == n
    decreases n
  {
    if n >= 10 {
      var s := NatToString(n);
      assert s == NatToString(n / 10) + [DigitChar(n % 10)];
      assert s[..|s| - 1] == NatToString(n / 10);
      NatToStringRoundTrip(n / 10);
    }
  }

  /** The number an error message states can be read back from it exactly. */
  lemma IntToStringRoundTrip(n: int)
    ensures ParseInt(IntToString(n)) == n
  {
    if n < 0 {
      var d := NatToString(-n);
      var s := "-" + d;
      assert s == IntToString(n);
      assert s[1..] == d;
      NatToStringRoundTrip(-n);
      assert ParseInt(s) == -(ParseNat(d) as int);
    } else {
      var s := NatToString(n);
      assert s == IntToString(n);
      assert IsDigit(s[0]);
      NatToStringRoundTrip(n);
      assert ParseInt(s) == ParseNat(s);
    }
  }
}
