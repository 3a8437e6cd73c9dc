/**
 * pd.merge(order_items, orders, on='order_id') with its default how='inner':
 * every item row is paired with every order row whose key is equal to its own,
 * item rows in their order and, for each, the matching orders in theirs.
 * Keys are compared as nullable values, so a missing key matches a missing
 * key, as pandas does.
 */
module Merge {
  import opened Schema

  /** The rows one item contributes: one per order with the same order_id. */
  function MatchOrders(item: OrderItem, orders: seq<Order>): (r: seq<MergedRow>)
    ensures |r| <= |orders|
    ensures forall m :: m in r ==> m.item == item && m.order in orders && m.order.orderId == item.orderId
  {
    if orders == [] then []
    else (if orders[0].orderId == item.orderId then [MergedRow(item, orders[0])] else [])
         + MatchOrders(item, orders[1..])
  }

  /** The rows of one item follow the order of the orders table. */
  lemma {:induction false} MatchOrdersAppend(item: OrderItem, a: seq<Order>, b: seq<Order>)
    ensures MatchOrders(item, a + b) == MatchOrders(item, a) + MatchOrders(item, b)
  {
    if a == [] {
      assert a + b == b;
    } else {
      assert (a + b)[1..] == a[1..] + b;
      MatchOrdersAppend(item, a[1..], b);
    }
  }

  /** The inner join of items with orders on order_id. */
  function InnerJoin(items: seq<OrderItem>, orders: seq<Order>): (r: seq<MergedRow>)
    ensures forall m :: m in r ==> m.item in items && m.order in orders && m.item.orderId == m.order.orderId
  {
    if items == [] then []
    else MatchOrders(items[0], orders) + InnerJoin(items[1..], orders)
  }

  lemma {:induction false} MatchOrdersCount(item: OrderItem, orders: seq<Order>, m: MergedRow)
    ensures multiset(MatchOrders(item, orders))[m]
            == if m.item == item && m.order.orderId == item.orderId then multiset(orders)[m.order] else 0
  {
    if orders != [] {
      MatchOrdersCount(item, orders[1..], m);
      assert orders == [orders[0]] + orders[1..];
    }
  }

  lemma MultiplyStep(c: int, d: int)
    ensures (c + 1) * d == c * d + d
  {
  }

  lemma MultiplyPositive(c: int, d: int)
    requires c >= 1 && d >= 1
    ensures c * d >= 1
  {
  }

  lemma MultiplyMonotone(a: nat, a': nat, b: nat, b': nat)
    requires a <= a' && b <= b'
    ensures a * b <= a' * b'
  {
    assert a * b <= a' * b;
  }

  /**
   * The join as a bag: a pair of rows with equal keys appears as many times as
   * the item occurs times the order occurs; any other pair never appears.
   */
  lemma {:induction false} InnerJoinCount(items: seq<OrderItem>, orders: seq<Order>, m: MergedRow)
    ensures multiset(InnerJoin(items, orders))[m]
            == if m.item.orderId == m.order.orderId then multiset(items)[m.item] * multiset(orders)[m.order] else 0
  {
    if items != [] {
      var head, rest := items[0], items[1..];
      InnerJoinCount(rest, orders, m);
      MatchOrdersCount(head, orders, m);
      assert multiset(InnerJoin(items, orders))[m]
             == multiset(MatchOrders(head, orders))[m] + multiset(InnerJoin(rest, orders))[m];
      assert items == [head] + rest;
      var ci := multiset(rest)[m.item];
      var co := multiset(orders)[m.order];
      if m.item.orderId == m.order.orderId {
        if m.item == head {
          assert multiset(items)[m.item] == ci + 1;
          MultiplyStep(ci, co);
        } else {
          assert multiset(items)[m.item] == ci;
        }
      }
    }
  }

  /** Completeness: every item and order that share a key produce a row made of exactly the two of them. */
  lemma InnerJoinComplete(items: seq<OrderItem>, orders: seq<Order>, i: OrderItem, o: Order)
    requires i in items && o in orders && i.orderId == o.orderId
    ensures MergedRow(i, o) in InnerJoin(items, orders)
  {
    InnerJoinCount(items, orders, MergedRow(i, o));
    MultiplyPositive(multiset(items)[i], multiset(orders)[o]);
  }

  /** An item whose key matches no order contributes no row. */
  lemma InnerJoinUnmatched(items: seq<OrderItem>, orders: seq<Order>, i: OrderItem)
    requires forall o :: o in orders ==> o.orderId != i.orderId
    ensures forall m :: m in InnerJoin(items, orders) ==> m.item != i
  {
  }

  /** The join respects concatenation of the left table: rows follow the item order. */
  lemma {:induction false} InnerJoinAppend(a: seq<OrderItem>, b: seq<OrderItem>, orders: seq<Order>)
    ensures InnerJoin(a + b, orders) == InnerJoin(a, orders) + InnerJoin(b, orders)
  {
    if a == [] {
      assert a + b == b;
    } else {
      assert (a + b)[1..] == a[1..] + b;
      InnerJoinAppend(a[1..], b, orders);
    }
  }

  /** The join has at most one row per pair of an item and an order. */
  lemma {:induction false} InnerJoinSize(items: seq<OrderItem>, orders: seq<Order>)
    ensures |InnerJoin(items, orders)| <= |items| * |orders|
  {
    if items != [] {
      InnerJoinSize(items[1..], orders);
      MultiplyStep(|items| - 1, |orders|);
    }
  }
}
