/**
 * The cart manager: per-user cart lines, validated against ownership, quantity and stock.
 * The read views are functions of the cart_items table; the writes are methods on the Store.
 */
module Cart {
  import opened Wrappers
  import opened Shop
  import opened Database
  import Stock

  // ---------------------------------------------------------------------------------------------
  // Views of the cart_items table

  /** The lines owned by `user`, in table order. */
  function LinesOf(rows: seq<CartItem>, user: UserId): (r: seq<CartItem>)
    ensures forall x :: x in r <==> x in rows && x.userId == user
    ensures |r| <= |rows|
  {
    if |rows| == 0 then []
    else
      assert forall x :: x in rows <==> x == rows[0] || x in rows[1..];
      (if rows[0].userId == user then [rows[0]] else []) + LinesOf(rows[1..], user)
  }

  /** The table without the lines owned by `user`. */
  function WithoutUser(rows: seq<CartItem>, user: UserId): (r: seq<CartItem>)
    ensures forall x :: x in r <==> x in rows && x.userId != user
    ensures |r| <= |rows|
  {
    if |rows| == 0 then []
    else
      assert forall x :: x in rows <==> x == rows[0] || x in rows[1..];
      (if rows[0].userId != user then [rows[0]] else []) + WithoutUser(rows[1..], user)
  }

  /** The position of the first line of `user` for `productId`, if there is one. */
  function FindLine(rows: seq<CartItem>, user: UserId, productId: ProductId): (r: Option<nat>)
    ensures r.Some? ==>
      && r.value < |rows|
      && rows[r.value].userId == user && rows[r.value].productId == productId
      && forall j :: 0 <= j < r.value ==> !(rows[j].userId == user && rows[j].productId == productId)
    ensures r.None? ==>
      forall j :: 0 <= j < |rows| ==> !(rows[j].userId == user && rows[j].productId == productId)
  {
    if |rows| == 0 then None
    else if rows[0].userId == user && rows[0].productId == productId then Some(0)
    else
      match FindLine(rows[1..], user, productId)
      case Some(k) => Some(k + 1)
      case None => None
  }

  /** Every line refers to a product of the catalog. */
  ghost predicate InCatalog(lines: seq<CartItem>, products: map<ProductId, Product>)
  {
    forall k :: 0 <= k < |lines| ==> lines[k].productId in products
  }

  /** The sum of quantity times the current unit price over `lines`, in cents. */
  function LinesTotal(lines: seq<CartItem>, products: map<ProductId, Product>): int
    requires InCatalog(lines, products)
  {
    if |lines| == 0 then 0
    else lines[0].quantity * products[lines[0].productId].price + LinesTotal(lines[1..], products)
  }

  /** The total of two runs of lines is the sum of their totals. */
  lemma {:induction false} LinesTotalAppend(a: seq<CartItem>, b: seq<CartItem>, products: map<ProductId, Product>)
    requires InCatalog(a, products) && InCatalog(b, products)
    ensures InCatalog(a + b, products)
    ensures LinesTotal(a + b, products) == LinesTotal(a, products) + LinesTotal(b, products)
    decreases |a|
  {
    if |a| == 0 {
      assert a + b == b;
    } else {
      assert (a + b)[1..] == a[1..] + b;
      LinesTotalAppend(a[1..], b, products);
    }
  }

  /** The total of a single line is its quantity times its product's price; the empty total is 0. */
  lemma LinesTotalSingle(x: CartItem, products: map<ProductId, Product>)
    requires x.productId in products
    ensures InCatalog([x], products)
    ensures LinesTotal([x], products) == x.quantity * products[x.productId].price
    ensures LinesTotal([], products) == 0
  {
    assert [x][1..] == [];
  }

  // ---------------------------------------------------------------------------------------------
  // Facts about the views

  lemma {:induction false} LinesOfAppend(a: seq<CartItem>, b: seq<CartItem>, user: UserId)
    ensures LinesOf(a + b, user) == LinesOf(a, user) + LinesOf(b, user)
    decreases |a|
  {
    if |a| == 0 {
      assert a + b == b;
    } else {
      assert (a + b)[1..] == a[1..] + b;
      LinesOfAppend(a[1..], b, user);
    }
  }

  /** Replacing a row that belongs neither before nor after to `user` does not change `user`'s cart. */
  lemma LinesOfReplaceOther(rows: seq<CartItem>, i: nat, x: CartItem, user: UserId)
    requires i < |rows| && rows[i].userId != user && x.userId != user
    ensures LinesOf(rows[i := x], user) == LinesOf(rows, user)
  {
    assert rows == rows[..i] + [rows[i]] + rows[i + 1..];
    assert rows[i := x] == rows[..i] + [x] + rows[i + 1..];
    LinesOfAppend(rows[..i] + [rows[i]], rows[i + 1..], user);
    LinesOfAppend(rows[..i], [rows[i]], user);
    LinesOfAppend(rows[..i] + [x], rows[i + 1..], user);
    LinesOfAppend(rows[..i], [x], user);
    assert [rows[i]][1..] == [] && [x][1..] == [];
  }

  lemma LinesOfSingle(x: CartItem, user: UserId)
    ensures LinesOf([x], user) == if x.userId == user then [x] else []
  {
    assert [x][1..] == [];
  }

  /** Deleting a row that `user` does not own does not change `user`'s cart. */
  lemma LinesOfDeleteOther(rows: seq<CartItem>, i: nat, user: UserId)
    requires i < |rows| && rows[i].userId != user
    ensures LinesOf(rows[..i] + rows[i + 1..], user) == LinesOf(rows, user)
  {
    var a, b := rows[..i], rows[i + 1..];
    assert rows == a + ([rows[i]] + b);
    LinesOfAppend(a, [rows[i]] + b, user);
    LinesOfAppend([rows[i]], b, user);
    LinesOfSingle(rows[i], user);
    LinesOfAppend(a, b, user);
  }

  /** Clearing `user`'s lines empties `user`'s cart and leaves every other cart as it was. */
  lemma {:induction false} WithoutUserCarts(rows: seq<CartItem>, user: UserId, other: UserId)
    ensures LinesOf(WithoutUser(rows, user), user) == []
    ensures other != user ==> LinesOf(WithoutUser(rows, user), other) == LinesOf(rows, other)
    decreases |rows|
  {
    if |rows| > 0 {
      WithoutUserCarts(rows[1..], user, other);
      var rest := WithoutUser(rows[1..], user);
      assert LinesOf(rows, other) == LinesOf([rows[0]], other) + LinesOf(rows[1..], other) by {
        assert rows == [rows[0]] + rows[1..];
        LinesOfAppend([rows[0]], rows[1..], other);
      }
      LinesOfSingle(rows[0], other);
      if rows[0].userId != user {
        assert WithoutUser(rows, user) == [rows[0]] + rest;
        LinesOfAppend([rows[0]], rest, user);
        LinesOfAppend([rows[0]], rest, other);
        LinesOfSingle(rows[0], user);
      } else {
        assert WithoutUser(rows, user) == rest;
      }
    }
  }

  /** Filtering keeps the table keyed. */
  lemma {:induction false} WithoutUserKeyed(rows: seq<CartItem>, user: UserId)
    requires Keyed(rows)
    ensures Keyed(WithoutUser(rows, user))
    decreases |rows|
  {
    if |rows| > 0 {
      var rest := WithoutUser(rows[1..], user);
      WithoutUserKeyed(rows[1..], user);
      if rows[0].userId != user {
        var r := [rows[0]] + rest;
        forall j | 0 < j < |r|
          ensures r[0].id != r[j].id && (r[0].userId != r[j].userId || r[0].productId != r[j].productId)
        {
          assert r[j] in rest;
          assert r[j] in rows[1..];
          var k :| 0 <= k < |rows[1..]| && rows[1..][k] == r[j];
          assert rows[k + 1] == r[j];
        }
      }
    }
  }

  /** No two of the lines are for the same product. */
  ghost predicate DistinctProducts(lines: seq<CartItem>)
  {
    forall i, j :: 0 <= i < j < |lines| ==> lines[i].productId != lines[j].productId
  }

  /** In a keyed table each user's cart holds at most one line per product. */
  lemma {:induction false} LinesOfDistinctProducts(rows: seq<CartItem>, user: UserId)
    requires Keyed(rows)
    ensures DistinctProducts(LinesOf(rows, user))
    decreases |rows|
  {
    if |rows| > 0 {
      LinesOfDistinctProducts(rows[1..], user);
      var rest := LinesOf(rows[1..], user);
      if rows[0].userId == user {
        var c := [rows[0]] + rest;
        assert LinesOf(rows, user) == c;
        forall i, j | 0 <= i < j < |c| ensures c[i].productId != c[j].productId
        {
          assert c[j] == rest[j - 1];
          assert c[j] in rest;
          if i == 0 {
            assert c[j] in rows[1..];
            var k :| 0 <= k < |rows[1..]| && rows[1..][k] == c[j];
            assert rows[k + 1] == c[j] && rows[k + 1].userId == rows[0].userId;
            assert rows[0].productId != rows[k + 1].productId;
          } else {
            assert c[i] == rest[i - 1];
            assert rest[i - 1].productId != rest[j - 1].productId;
          }
        }
      } else {
        assert LinesOf(rows, user) == rest;
      }
    }
  }

  /** Deleting the row at `k` from a keyed table keeps it keyed and removes exactly that row. */
  lemma DeleteAt(rows: seq<CartItem>, k: nat)
    requires Keyed(rows) && k < |rows|
    ensures var rest := rows[..k] + rows[k + 1..];
      && Keyed(rest)
      && |rest| == |rows| - 1
      && forall x :: x in rest <==> x in rows && x != rows[k]
  {
    var rest := rows[..k] + rows[k + 1..];
    forall j | 0 <= j < |rest| ensures rest[j] == rows[if j < k then j else j + 1] {
    }
    forall i, j | 0 <= i < j < |rest|
      ensures rest[i].id != rest[j].id && (rest[i].userId != rest[j].userId || rest[i].productId != rest[j].productId)
    {
      assert rest[i] == rows[if i < k then i else i + 1];
      assert rest[j] == rows[if j < k then j else j + 1];
    }
    forall x ensures x in rest <==> x in rows && x != rows[k] {
      if x in rest {
        var j :| 0 <= j < |rest| && rest[j] == x;
        assert x == rows[if j < k then j else j + 1];
      }
      if x in rows && x != rows[k] {
        var j :| 0 <= j < |rows| && rows[j] == x;
        assert j != k;
        assert rest[if j < k then j else j - 1] == x;
      }
    }
  }

  // ---------------------------------------------------------------------------------------------
  // The service operations

  /** The user's cart lines. */
  function GetCart(db: Store, user: UserId): (r: seq<CartItem>)
    reads db
    ensures forall x :: x in r <==> x in db.cartItems && x.userId == user
  {
    LinesOf(db.cartItems, user)
  }

  /** The value of the user's cart at current prices, in cents; 0 for an empty cart. */
  function GetCartTotal(db: Store, user: UserId): (r: int)
    reads db
    requires db.Valid()
    ensures InCatalog(GetCart(db, user), db.products)
    ensures r == LinesTotal(GetCart(db, user), db.products)
    ensures GetCart(db, user) == [] ==> r == 0
  {
    var lines := GetCart(db, user);
    assert forall k :: 0 <= k < |lines| ==> lines[k] in db.cartItems;
    LinesTotal(lines, db.products)
  }

  /** Rejects quantities below one. */
  function ValidateQuantity(quantity: int): (r: Outcome<Error>)
    ensures r.Pass? <==> quantity >= 1
    ensures r.Fail? ==> r.error == InvalidQuantity
  {
    if quantity < 1 then Fail(InvalidQuantity) else Pass
  }

  /** Rejects a line addressed by a user who does not own it. */
  function AuthorizeCartItem(user: UserId, item: CartItem): (r: Outcome<Error>)
    ensures r.Pass? <==> item.userId == user
    ensures r.Fail? ==> r.error == NotOwner
  {
    if item.userId != user then Fail(NotOwner) else Pass
  }

  /**
   * Adds `quantity` units of `product` to `user`'s cart. An existing line for the product grows in place,
   * and the stock check is made against the combined quantity; otherwise a new line is created.
   * `product` is the caller's copy of the product row, whose stock the check reads. One unit is added when
   * no quantity is given.
   */
  method Add(db: Store, user: UserId, product: Product, quantity: int := 1) returns (r: Result<CartItem, Error>)
    requires db.Valid() && product.id in db.products
    modifies db`cartItems, db`nextCartItemId
    ensures db.Valid()
    ensures r.Failure? ==> db.cartItems == old(db.cartItems) && db.nextCartItemId == old(db.nextCartItemId)
    ensures quantity < 1 ==> r == Failure(InvalidQuantity)
    ensures quantity >= 1 ==>
      match FindLine(old(db.cartItems), user, product.id)
      case Some(i) =>
        var line := old(db.cartItems)[i].(quantity := old(db.cartItems)[i].quantity + quantity);
        if Stock.HasAvailableStock(product, line.quantity) then
          r == Success(line) && db.cartItems == old(db.cartItems)[i := line]
          && db.nextCartItemId == old(db.nextCartItemId)
        else
          r == Failure(InsufficientStock(product.name, product.stock))
      case None =>
        var line := CartItem(old(db.nextCartItemId), user, product.id, quantity);
        if Stock.HasAvailableStock(product, quantity) then
          r == Success(line) && db.cartItems == old(db.cartItems) + [line]
          && db.nextCartItemId == old(db.nextCartItemId) + 1
        else
          r == Failure(InsufficientStock(product.name, product.stock))
    ensures r.Success? ==>
      forall x :: x in db.cartItems && x.userId == user && x.productId == product.id ==> x == r.value
    ensures forall other :: other != user ==> LinesOf(db.cartItems, other) == LinesOf(old(db.cartItems), other)
  {
    var valid := ValidateQuantity(quantity);
    if valid.Fail? {
      return Failure(valid.error);
    }
    var existing := FindLine(db.cartItems, user, product.id);
    var newQuantity := if existing.Some? then db.cartItems[existing.value].quantity + quantity else quantity;
    var available := Stock.ValidateAvailability(product, newQuantity);
    if available.Fail? {
      return Failure(available.error);
    }
    if existing.Some? {
      var i := existing.value;
      var line := db.cartItems[i].(quantity := newQuantity);
      assert db.cartItems[i] in db.cartItems;
      forall other | other != user
        ensures LinesOf(db.cartItems[i := line], other) == LinesOf(db.cartItems, other)
      {
        LinesOfReplaceOther(db.cartItems, i, line, other);
      }
      db.cartItems := db.cartItems[i := line];
      r := Success(line);
    } else {
      var line := CartItem(db.nextCartItemId, user, product.id, quantity);
      forall other | other != user
        ensures LinesOf(db.cartItems + [line], other) == LinesOf(db.cartItems, other)
      {
        LinesOfAppend(db.cartItems, [line], other);
        assert [line][1..] == [];
      }
      forall j | 0 <= j < |db.cartItems| ensures db.cartItems[j].id != line.id {
        assert db.cartItems[j] in db.cartItems;
      }
      db.cartItems := db.cartItems + [line];
      db.nextCartItemId := db.nextCartItemId + 1;
      r := Success(line);
    }
  }

  /**
   * Sets the quantity of one of `user`'s lines. Checks, in order: ownership, the quantity, and the
   * product's current stock.
   */
  method Update(db: Store, user: UserId, item: CartItem, quantity: int) returns (r: Result<CartItem, Error>)
    requires db.Valid() && item in db.cartItems
    modifies db`cartItems
    ensures db.Valid()
    ensures item.productId in db.products
    ensures item.userId != user ==> r == Failure(NotOwner)
    ensures item.userId == user && quantity < 1 ==> r == Failure(InvalidQuantity)
    ensures item.userId == user && quantity >= 1 && !Stock.HasAvailableStock(db.products[item.productId], quantity) ==>
      r == Failure(InsufficientStock(db.products[item.productId].name, db.products[item.productId].stock))
    ensures r.Success? <==>
      item.userId == user && quantity >= 1 && Stock.HasAvailableStock(db.products[item.productId], quantity)
    ensures r.Failure? ==> db.cartItems == old(db.cartItems)
    ensures r.Success? ==>
      && r.value == item.(quantity := quantity)
      && |db.cartItems| == |old(db.cartItems)|
      && forall k :: 0 <= k < |db.cartItems| ==>
           db.cartItems[k] == (if old(db.cartItems)[k].id == item.id then r.value else old(db.cartItems)[k])
  {
    var authorized := AuthorizeCartItem(user, item);
    if authorized.Fail? {
      return Failure(authorized.error);
    }
    var valid := ValidateQuantity(quantity);
    if valid.Fail? {
      return Failure(valid.error);
    }
    var available := Stock.ValidateAvailability(db.products[item.productId], quantity);
    if available.Fail? {
      return Failure(available.error);
    }
    var k :| 0 <= k < |db.cartItems| && db.cartItems[k] == item;
    assert forall j :: 0 <= j < |db.cartItems| && db.cartItems[j].id == item.id ==> j == k;
    var line := item.(quantity := quantity);
    db.cartItems := db.cartItems[k := line];
    r := Success(line);
  }

  /** Deletes one of `user`'s lines; the other lines and all stock are left as they were. */
  method Remove(db: Store, user: UserId, item: CartItem) returns (r: Result<bool, Error>)
    requires db.Valid() && item in db.cartItems
    modifies db`cartItems
    ensures db.Valid()
    ensures item.userId != user ==> r == Failure(NotOwner) && db.cartItems == old(db.cartItems)
    ensures item.userId == user ==>
      && r == Success(true)
      && |db.cartItems| == |old(db.cartItems)| - 1
      && (forall x :: x in db.cartItems <==> x in old(db.cartItems) && x != item)
      && (forall other :: other != user ==> LinesOf(db.cartItems, other) == LinesOf(old(db.cartItems), other))
  {
    var authorized := AuthorizeCartItem(user, item);
    if authorized.Fail? {
      return Failure(authorized.error);
    }
    var k :| 0 <= k < |db.cartItems| && db.cartItems[k] == item;
    var rest := db.cartItems[..k] + db.cartItems[k + 1..];
    DeleteAt(db.cartItems, k);
    forall other | other != user ensures LinesOf(rest, other) == LinesOf(db.cartItems, other) {
      LinesOfDeleteOther(db.cartItems, k, other);
    }
    db.cartItems := rest;
    r := Success(true);
  }

  /** Deletes all of `user`'s lines; other users' lines are untouched. */
  method Clear(db: Store, user: UserId)
    requires db.Valid()
    modifies db`cartItems
    ensures db.Valid()
    ensures db.cartItems == WithoutUser(old(db.cartItems), user)
    ensures LinesOf(db.cartItems, user) == []
    ensures forall other :: other != user ==> LinesOf(db.cartItems, other) == LinesOf(old(db.cartItems), other)
  {
    forall other ensures LinesOf(WithoutUser(db.cartItems, user), user) == []
      && (other != user ==> LinesOf(WithoutUser(db.cartItems, user), other) == LinesOf(db.cartItems, other))
    {
      WithoutUserCarts(db.cartItems, user, other);
    }
    WithoutUserKeyed(db.cartItems, user);
    db.cartItems := WithoutUser(db.cartItems, user);
  }
}
