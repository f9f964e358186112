/**
 * The daily sales aggregation: a pure reduction over order items. Selects the items of completed orders
 * created in a time window, groups them by product, sums quantity and revenue, counts distinct orders,
 * and orders the per-product entries by revenue, highest first.
 */
module SalesReport {
  import opened Shop

  /** One entry of the report: a product's name, the units sold and the revenue (cents). */
  datatype ProductSales = ProductSales(productName: string, quantitySold: int, revenue: int)

  /** The report for a window: per-product entries and the three totals. */
  datatype Report = Report(items: seq<ProductSales>, totalRevenue: int, totalQuantity: int, orderCount: nat)

  /** The name an entry gets when its product row is missing. */
  const UnknownProductName: string := "Unknown Product"

  // ---------------------------------------------------------------------------------------------
  // Selecting the items of completed orders in the window

  /** Whether some order with id `orderId` is completed and was created within [start, end]. */
  function HasCompletedOrder(orders: seq<Order>, orderId: OrderId, start: int, end: int): (b: bool)
    ensures b <==> exists j :: (0 <= j < |orders| && orders[j].id == orderId
      && orders[j].status == StatusCompleted && start <= orders[j].createdAt <= end)
  {
    if |orders| == 0 then false
    else
      var o := orders[0];
      var rest := HasCompletedOrder(orders[1..], orderId, start, end);
      assert forall j :: 1 <= j < |orders| ==> orders[1..][j - 1] == orders[j];
      (o.id == orderId && o.status == StatusCompleted && start <= o.createdAt <= end) || rest
  }

  /** The items, in table order, whose order is completed and was created within [start, end]. */
  function CompletedOrderItems(items: seq<OrderItem>, orders: seq<Order>, start: int, end: int): (r: seq<OrderItem>)
    ensures forall x :: x in r <==> x in items && HasCompletedOrder(orders, x.orderId, start, end)
    ensures |r| <= |items|
  {
    if |items| == 0 then []
    else
      assert forall x :: x in items <==> x == items[0] || x in items[1..];
      (if HasCompletedOrder(orders, items[0].orderId, start, end) then [items[0]] else [])
        + CompletedOrderItems(items[1..], orders, start, end)
  }

  // ---------------------------------------------------------------------------------------------
  // Counting distinct orders

  /** The set of order ids the items refer to. */
  function OrderIds(items: seq<OrderItem>): (r: set<OrderId>)
    ensures forall id :: id in r <==> exists k :: 0 <= k < |items| && items[k].orderId == id
    decreases |items|
  {
    if |items| == 0 then {}
    else
      var n := |items| - 1;
      assert forall k :: 0 <= k < n ==> items[..n][k] == items[k];
      OrderIds(items[..n]) + {items[n].orderId}
  }

  /** The items' order ids without repeats, each where it first occurs: one entry per distinct order. */
  function UniqueOrderIds(items: seq<OrderItem>): (r: seq<OrderId>)
    ensures forall i, j :: 0 <= i < j < |r| ==> r[i] != r[j]
    ensures forall id :: id in r <==> id in OrderIds(items)
    ensures |r| == |OrderIds(items)|
    decreases |items|
  {
    if |items| == 0 then []
    else
      var n := |items| - 1;
      var before := UniqueOrderIds(items[..n]);
      var id := items[n].orderId;
      assert OrderIds(items) == OrderIds(items[..n]) + {id};
      if id in before then
        assert OrderIds(items) == OrderIds(items[..n]);
        before
      else
        assert OrderIds(items[..n]) * {id} == {};
        before + [id]
  }

  /** The number of distinct orders among the items. */
  function OrderCount(items: seq<OrderItem>): (n: nat)
    ensures n == |OrderIds(items)|
    ensures n <= |items|
  {
    OrderIdsBound(items);
    |UniqueOrderIds(items)|
  }

  lemma {:induction false} OrderIdsBound(items: seq<OrderItem>)
    ensures |OrderIds(items)| <= |items|
    decreases |items|
  {
    if |items| > 0 {
      var n := |items| - 1;
      OrderIdsBound(items[..n]);
      assert OrderIds(items) == OrderIds(items[..n]) + {items[n].orderId};
    }
  }

  // ---------------------------------------------------------------------------------------------
  // Grouping by product

  /** The items of one product, in the order they were met. */
  datatype Group = Group(productId: ProductId, items: seq<OrderItem>)

  /** The set of product ids the items refer to. */
  function ProductIds(items: seq<OrderItem>): (r: set<ProductId>)
    ensures forall pid :: pid in r <==> exists k :: 0 <= k < |items| && items[k].productId == pid
    decreases |items|
  {
    if |items| == 0 then {}
    else
      var n := |items| - 1;
      assert forall k :: 0 <= k < n ==> items[..n][k] == items[k];
      ProductIds(items[..n]) + {items[n].productId}
  }

  /** The items of one product, in table order. */
  function ItemsOfProduct(items: seq<OrderItem>, productId: ProductId): (r: seq<OrderItem>)
    ensures forall x :: x in r <==> x in items && x.productId == productId
    ensures |r| > 0 <==> productId in ProductIds(items)
    decreases |items|
  {
    if |items| == 0 then []
    else
      var n := |items| - 1;
      assert items == items[..n] + [items[n]];
      ItemsOfProduct(items[..n], productId) + (if items[n].productId == productId then [items[n]] else [])
  }

  /** The set of the groups' product ids. */
  function Keys(groups: seq<Group>): (r: set<ProductId>)
    ensures forall pid :: pid in r <==> exists i :: 0 <= i < |groups| && groups[i].productId == pid
  {
    if |groups| == 0 then {}
    else
      assert forall i :: 1 <= i < |groups| ==> groups[1..][i - 1] == groups[i];
      {groups[0].productId} + Keys(groups[1..])
  }

  /** The items of the first group of product `productId`, or none when it has no group. */
  function GroupItems(groups: seq<Group>, productId: ProductId): seq<OrderItem>
  {
    if |groups| == 0 then []
    else if groups[0].productId == productId then groups[0].items
    else GroupItems(groups[1..], productId)
  }

  ghost predicate NonEmptyGroups(groups: seq<Group>)
  {
    forall i :: 0 <= i < |groups| ==> |groups[i].items| > 0
  }

  /** At most one group per product, and none empty. */
  ghost predicate WellFormed(groups: seq<Group>)
  {
    && (forall i, j :: 0 <= i < j < |groups| ==> groups[i].productId != groups[j].productId)
    && NonEmptyGroups(groups)
  }

  /** With one group per product, a product's items are those of its group. */
  lemma {:induction false} GroupItemsAt(groups: seq<Group>, i: nat)
    requires WellFormed(groups) && i < |groups|
    ensures GroupItems(groups, groups[i].productId) == groups[i].items
    decreases i
  {
    if i > 0 {
      assert WellFormed(groups[1..]) by {
        forall k | 0 <= k < |groups[1..]| ensures groups[1..][k] == groups[k + 1] { }
      }
      assert groups[1..][i - 1] == groups[i];
      GroupItemsAt(groups[1..], i - 1);
    }
  }

  function GroupsQuantity(groups: seq<Group>): int
  {
    if |groups| == 0 then 0 else TotalQuantity(groups[0].items) + GroupsQuantity(groups[1..])
  }

  function GroupsRevenue(groups: seq<Group>): int
  {
    if |groups| == 0 then 0 else TotalRevenue(groups[0].items) + GroupsRevenue(groups[1..])
  }

  /** Adds one item at the end of its product's group, opening a group at the end when there is none. */
  function AddToGroups(groups: seq<Group>, item: OrderItem): (r: seq<Group>)
    requires NonEmptyGroups(groups)
    ensures NonEmptyGroups(r)
    ensures Keys(r) == Keys(groups) + {item.productId}
    ensures forall q :: GroupItems(r, q) == GroupItems(groups, q) + (if q == item.productId then [item] else [])
    ensures GroupsQuantity(r) == GroupsQuantity(groups) + item.quantity
    ensures GroupsRevenue(r) == GroupsRevenue(groups) + item.quantity * item.price
    decreases |groups|
  {
    if |groups| == 0 then
      var r := [Group(item.productId, [item])];
      assert r[1..] == [];
      AppendOne([], item);
      assert [] + [item] == [item];
      r
    else
      var g0 := groups[0];
      if g0.productId == item.productId then
        var r := [g0.(items := g0.items + [item])] + groups[1..];
        AppendOne(g0.items, item);
        assert r[1..] == groups[1..];
        assert forall k :: 1 <= k < |r| ==> r[k] == groups[k];
        r
      else
        assert NonEmptyGroups(groups[1..]) by {
          forall k | 0 <= k < |groups[1..]| ensures groups[1..][k] == groups[k + 1] { }
        }
        var rest := AddToGroups(groups[1..], item);
        var r := [g0] + rest;
        assert r[1..] == rest;
        assert forall k :: 1 <= k < |r| ==> r[k] == rest[k - 1];
        r
  }

  lemma TailWellFormed(groups: seq<Group>)
    requires WellFormed(groups) && |groups| > 0
    ensures WellFormed(groups[1..])
    ensures groups[0].productId !in Keys(groups[1..])
    ensures Keys(groups) == {groups[0].productId} + Keys(groups[1..])
  {
    var tail := groups[1..];
    forall k | 0 <= k < |tail| ensures tail[k] == groups[k + 1] { }
  }

  lemma ConsWellFormed(g: Group, rest: seq<Group>)
    requires WellFormed(rest) && |g.items| > 0 && g.productId !in Keys(rest)
    ensures WellFormed([g] + rest)
  {
    var r := [g] + rest;
    forall k | 1 <= k < |r| ensures r[k] == rest[k - 1] { }
  }

  /** Adding an item keeps one non-empty group per product, and opens a group only for a new product. */
  lemma {:induction false} AddToGroupsWellFormed(groups: seq<Group>, item: OrderItem)
    requires WellFormed(groups)
    ensures WellFormed(AddToGroups(groups, item))
    ensures |AddToGroups(groups, item)| == |groups| + (if item.productId in Keys(groups) then 0 else 1)
    decreases |groups|
  {
    if |groups| > 0 {
      var g0 := groups[0];
      var tail := groups[1..];
      TailWellFormed(groups);
      if g0.productId == item.productId {
        ConsWellFormed(g0.(items := g0.items + [item]), tail);
      } else {
        AddToGroupsWellFormed(tail, item);
        ConsWellFormed(g0, AddToGroups(tail, item));
      }
    }
  }

  /** The items grouped by product, groups in order of each product's first item, items in table order. */
  function GroupByProduct(items: seq<OrderItem>): (r: seq<Group>)
    ensures NonEmptyGroups(r)
    ensures Keys(r) == ProductIds(items)
    ensures forall q :: GroupItems(r, q) == ItemsOfProduct(items, q)
    decreases |items|
  {
    if |items| == 0 then []
    else
      var n := |items| - 1;
      assert items == items[..n] + [items[n]];
      AddToGroups(GroupByProduct(items[..n]), items[n])
  }

  /** The grouping has one non-empty group per distinct product. */
  lemma {:induction false} GroupByProductShape(items: seq<OrderItem>)
    ensures WellFormed(GroupByProduct(items))
    ensures |GroupByProduct(items)| == |ProductIds(items)|
    decreases |items|
  {
    if |items| > 0 {
      var n := |items| - 1;
      var prefix := items[..n];
      var x := items[n];
      var before := GroupByProduct(prefix);
      assert GroupByProduct(items) == AddToGroups(before, x);
      assert ProductIds(items) == ProductIds(prefix) + {x.productId};
      GroupByProductShape(prefix);
      AddToGroupsWellFormed(before, x);
      AddOneCard(ProductIds(prefix), x.productId);
    }
  }

  /** The grouping loses no unit and no revenue. */
  lemma {:induction false} GroupByProductTotals(items: seq<OrderItem>)
    ensures GroupsQuantity(GroupByProduct(items)) == TotalQuantity(items)
    ensures GroupsRevenue(GroupByProduct(items)) == TotalRevenue(items)
    decreases |items|
  {
    if |items| > 0 {
      var n := |items| - 1;
      var prefix := items[..n];
      var x := items[n];
      assert items == prefix + [x];
      assert GroupByProduct(items) == AddToGroups(GroupByProduct(prefix), x);
      GroupByProductTotals(prefix);
      AppendOne(prefix, x);
    }
  }

  lemma AddOneCard(s: set<ProductId>, x: ProductId)
    ensures |s + {x}| == |s| + (if x in s then 0 else 1)
  {
    if x in s {
      assert s + {x} == s;
    } else {
      assert s * {x} == {};
    }
  }

  // ---------------------------------------------------------------------------------------------
  // Per-product entries, ordered by revenue

  function ProductNameOf(products: map<ProductId, Product>, productId: ProductId): string
  {
    if productId in products then products[productId].name else UnknownProductName
  }

  function SumRevenue(entries: seq<ProductSales>): int
  {
    if |entries| == 0 then 0 else entries[0].revenue + SumRevenue(entries[1..])
  }

  function SumQuantitySold(entries: seq<ProductSales>): int
  {
    if |entries| == 0 then 0 else entries[0].quantitySold + SumQuantitySold(entries[1..])
  }

  /** The entry of one group: its first item's product name, its units and its revenue. */
  function Summaries(groups: seq<Group>, products: map<ProductId, Product>): (r: seq<ProductSales>)
    requires NonEmptyGroups(groups)
    ensures |r| == |groups|
    ensures forall k :: 0 <= k < |groups| ==>
      r[k] == ProductSales(ProductNameOf(products, groups[k].items[0].productId),
                           TotalQuantity(groups[k].items), TotalRevenue(groups[k].items))
    ensures SumQuantitySold(r) == GroupsQuantity(groups)
    ensures SumRevenue(r) == GroupsRevenue(groups)
  {
    if |groups| == 0 then []
    else
      var g := groups[0];
      assert NonEmptyGroups(groups[1..]) by {
        forall k | 0 <= k < |groups[1..]| ensures groups[1..][k] == groups[k + 1] { }
      }
      var rest := Summaries(groups[1..], products);
      var r := [ProductSales(ProductNameOf(products, g.items[0].productId), TotalQuantity(g.items), TotalRevenue(g.items))]
        + rest;
      assert r[1..] == rest;
      r
  }

  /** The report entry of one product of the items: its name, or the fallback name, its units and its revenue. */
  function EntryFor(items: seq<OrderItem>, products: map<ProductId, Product>, productId: ProductId): ProductSales
  {
    var own := ItemsOfProduct(items, productId);
    ProductSales(ProductNameOf(products, productId), TotalQuantity(own), TotalRevenue(own))
  }

  /** The summary of the k-th group is the entry of that group's product. */
  lemma SummaryAt(items: seq<OrderItem>, products: map<ProductId, Product>, k: nat)
    requires k < |GroupByProduct(items)|
    ensures Summaries(GroupByProduct(items), products)[k] == EntryFor(items, products, GroupByProduct(items)[k].productId)
  {
    var groups := GroupByProduct(items);
    GroupByProductShape(items);
    GroupItemsAt(groups, k);
    assert groups[k].items == ItemsOfProduct(items, groups[k].productId);
    assert groups[k].items[0] in groups[k].items;
  }

  /** Summarizing the grouping gives exactly the entries of the items' products. */
  lemma SummariesOfGrouping(items: seq<OrderItem>, products: map<ProductId, Product>)
    ensures forall e :: e in Summaries(GroupByProduct(items), products) <==>
      exists pid :: pid in ProductIds(items) && e == EntryFor(items, products, pid)
  {
    var groups := GroupByProduct(items);
    var s := Summaries(groups, products);
    forall e | e in s ensures exists pid :: pid in ProductIds(items) && e == EntryFor(items, products, pid) {
      var k :| 0 <= k < |s| && s[k] == e;
      SummaryAt(items, products, k);
      assert groups[k].productId in Keys(groups);
    }
    forall pid | pid in ProductIds(items) ensures EntryFor(items, products, pid) in s {
      assert pid in Keys(groups);
      var k :| 0 <= k < |groups| && groups[k].productId == pid;
      SummaryAt(items, products, k);
      assert s[k] == EntryFor(items, products, pid);
    }
  }

  /** The items' distinct product ids, one per group, each where the product's first item occurs. */
  function ProductOrder(items: seq<OrderItem>): (r: seq<ProductId>)
    ensures |r| == |GroupByProduct(items)|
    ensures forall k :: 0 <= k < |r| ==> r[k] == GroupByProduct(items)[k].productId
  {
    var groups := GroupByProduct(items);
    seq(|groups|, k requires 0 <= k < |groups| => groups[k].productId)
  }

  /** Every distinct product of the items occurs in ProductOrder exactly once. */
  lemma ProductOrderDistinct(items: seq<OrderItem>)
    ensures forall i, j :: 0 <= i < j < |ProductOrder(items)| ==> ProductOrder(items)[i] != ProductOrder(items)[j]
    ensures forall pid :: pid in ProductOrder(items) <==> pid in ProductIds(items)
    ensures |ProductOrder(items)| == |ProductIds(items)|
  {
    GroupByProductShape(items);
    var groups := GroupByProduct(items);
    var pids := ProductOrder(items);
    forall pid ensures pid in pids <==> pid in Keys(groups) {
      if pid in Keys(groups) {
        var i :| 0 <= i < |groups| && groups[i].productId == pid;
        assert pids[i] == pid;
      }
    }
  }

  /** The report entries of the listed products, in list order. */
  function EntriesFor(items: seq<OrderItem>, products: map<ProductId, Product>, pids: seq<ProductId>): (r: seq<ProductSales>)
    ensures |r| == |pids|
    ensures forall k :: 0 <= k < |pids| ==> r[k] == EntryFor(items, products, pids[k])
  {
    seq(|pids|, k requires 0 <= k < |pids| => EntryFor(items, products, pids[k]))
  }

  /** The summaries of the grouping are the entries of the distinct products, group by group. */
  lemma SummariesAreEntries(items: seq<OrderItem>, products: map<ProductId, Product>)
    ensures Summaries(GroupByProduct(items), products) == EntriesFor(items, products, ProductOrder(items))
  {
    var s := Summaries(GroupByProduct(items), products);
    var e := EntriesFor(items, products, ProductOrder(items));
    forall k | 0 <= k < |s| ensures s[k] == e[k] {
      SummaryAt(items, products, k);
    }
  }

  ghost predicate SortedByRevenueDesc(entries: seq<ProductSales>)
  {
    forall i, j :: 0 <= i < j < |entries| ==> entries[i].revenue >= entries[j].revenue
  }

  /** An entry whose revenue is at least every other's may head a revenue-descending list. */
  lemma ConsSorted(y: ProductSales, s: seq<ProductSales>)
    requires SortedByRevenueDesc(s)
    requires forall z :: z in s ==> y.revenue >= z.revenue
    ensures SortedByRevenueDesc([y] + s)
  {
    var r := [y] + s;
    forall j | 1 <= j < |r| ensures r[j] == s[j - 1] && r[j] in s { }
  }

  /** Inserts `x` before the first entry whose revenue does not exceed its own. */
  function InsertByRevenue(x: ProductSales, s: seq<ProductSales>): (r: seq<ProductSales>)
    ensures multiset(r) == multiset(s) + multiset{x}
    ensures SumRevenue(r) == SumRevenue(s) + x.revenue
    ensures SumQuantitySold(r) == SumQuantitySold(s) + x.quantitySold
    decreases |s|
  {
    if |s| == 0 || s[0].revenue <= x.revenue then
      assert ([x] + s)[1..] == s;
      [x] + s
    else
      var rest := InsertByRevenue(x, s[1..]);
      assert ([s[0]] + rest)[1..] == rest;
      assert s == [s[0]] + s[1..];
      [s[0]] + rest
  }

  /** Inserting into a revenue-descending list keeps it revenue-descending. */
  lemma {:induction false} InsertSorted(x: ProductSales, s: seq<ProductSales>)
    requires SortedByRevenueDesc(s)
    ensures SortedByRevenueDesc(InsertByRevenue(x, s))
    decreases |s|
  {
    if |s| == 0 || s[0].revenue <= x.revenue {
      assert forall z :: z in s ==> x.revenue >= z.revenue by {
        forall z | z in s ensures x.revenue >= z.revenue {
          var k :| 0 <= k < |s| && s[k] == z;
          assert s[0].revenue >= s[k].revenue;
        }
      }
      ConsSorted(x, s);
    } else {
      var tail := s[1..];
      assert SortedByRevenueDesc(tail) by {
        forall i | 0 <= i < |tail| ensures tail[i] == s[i + 1] { }
      }
      InsertSorted(x, tail);
      var rest := InsertByRevenue(x, tail);
      forall z | z in rest ensures s[0].revenue >= z.revenue {
        assert z in multiset(rest);
        if z != x {
          assert z in tail;
          var k :| 0 <= k < |tail| && tail[k] == z;
          assert s[k + 1] == z;
        }
      }
      ConsSorted(s[0], rest);
    }
  }

  /** A stable sort of the entries by revenue, highest first. */
  function SortByRevenueDesc(s: seq<ProductSales>): (r: seq<ProductSales>)
    ensures SortedByRevenueDesc(r)
    ensures multiset(r) == multiset(s)
    ensures |r| == |s|
    ensures SumRevenue(r) == SumRevenue(s)
    ensures SumQuantitySold(r) == SumQuantitySold(s)
  {
    if |s| == 0 then []
    else
      assert s == [s[0]] + s[1..];
      var sorted := SortByRevenueDesc(s[1..]);
      InsertSorted(s[0], sorted);
      var r := InsertByRevenue(s[0], sorted);
      assert |r| == |multiset(r)|;
      r
  }

  /**
   * The per-product report entries: one per distinct product of the items, each carrying that product's units
   * and revenue, ordered by revenue, highest first.
   */
  function AggregateByProduct(items: seq<OrderItem>, products: map<ProductId, Product>): (r: seq<ProductSales>)
    ensures |r| == |ProductIds(items)|
    ensures forall e :: e in r <==> exists pid :: pid in ProductIds(items) && e == EntryFor(items, products, pid)
    ensures multiset(r) == multiset(EntriesFor(items, products, ProductOrder(items)))
    ensures SumQuantitySold(r) == TotalQuantity(items)
    ensures SumRevenue(r) == TotalRevenue(items)
    ensures SortedByRevenueDesc(r)
  {
    var groups := GroupByProduct(items);
    GroupByProductShape(items);
    GroupByProductTotals(items);
    SummariesOfGrouping(items, products);
    SummariesAreEntries(items, products);
    var s := Summaries(groups, products);
    var r := SortByRevenueDesc(s);
    assert forall e :: e in r <==> e in s by {
      forall e ensures e in r <==> e in s {
        assert e in r <==> e in multiset(r);
        assert e in s <==> e in multiset(s);
      }
    }
    r
  }

  /**
   * The sales report for the window [startOfDay, endOfDay]: entries per product of the selected items, their
   * total revenue and units, and the number of distinct orders among them.
   */
  function DailySalesData(orderItems: seq<OrderItem>, orders: seq<Order>, products: map<ProductId, Product>,
                          startOfDay: int, endOfDay: int): (r: Report)
    ensures var selected := CompletedOrderItems(orderItems, orders, startOfDay, endOfDay);
      && r.totalRevenue == TotalRevenue(selected)
      && r.totalQuantity == TotalQuantity(selected)
      && SumRevenue(r.items) == r.totalRevenue
      && SumQuantitySold(r.items) == r.totalQuantity
      && |r.items| == |ProductIds(selected)|
      && (forall e :: e in r.items <==> exists pid :: pid in ProductIds(selected) && e == EntryFor(selected, products, pid))
      && multiset(r.items) == multiset(EntriesFor(selected, products, ProductOrder(selected)))
      && r.orderCount == |OrderIds(selected)|
      && SortedByRevenueDesc(r.items)
  {
    var selected := CompletedOrderItems(orderItems, orders, startOfDay, endOfDay);
    Report(AggregateByProduct(selected, products), TotalRevenue(selected), TotalQuantity(selected), OrderCount(selected))
  }
}
