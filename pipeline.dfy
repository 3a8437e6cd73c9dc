/**
 * load_data: drop orders lacking an approval or customer-delivery timestamp,
 * drop order items with any missing cell, inner-join the two on order_id,
 * append the four derived columns, and hand back the enriched table together
 * with the three tables as they were read.
 */
module Pipeline {
  import opened Wrappers
  import opened Schema
  import opened Durations
  import opened Frames
  import opened Merge
  import opened Features

  /** The four tables load_data returns, in its order. */
  datatype Loaded = Loaded(
    data: seq<EnrichedRow>,
    orderItems: seq<OrderItem>,
    orders: seq<Order>,
    geolocation: seq<GeoRecord>)

  /** orders.dropna(subset=['order_delivered_customer_date', 'order_approved_at']) */
  function CleanOrders(orders: seq<Order>): (r: seq<Order>)
    ensures forall o :: multiset(r)[o] == if OrderKept(o) then multiset(orders)[o] else 0
  {
    FilterCounts(OrderKept, orders);
    Filter(OrderKept, orders)
  }

  /** order_items.dropna() */
  function CleanItems(orderItems: seq<OrderItem>): (r: seq<OrderItem>)
    ensures forall i :: multiset(r)[i] == if ItemComplete(i) then multiset(orderItems)[i] else 0
  {
    FilterCounts(ItemComplete, orderItems);
    Filter(ItemComplete, orderItems)
  }

  function LoadData(orderItems: seq<OrderItem>, orders: seq<Order>, geolocation: seq<GeoRecord>): (r: Loaded)
    ensures r.orderItems == orderItems && r.orders == orders && r.geolocation == geolocation
    ensures |r.data| <= |orderItems| * |orders|
  {
    var merged := InnerJoin(CleanItems(orderItems), CleanOrders(orders));
    InnerJoinSize(CleanItems(orderItems), CleanOrders(orders));
    MultiplyMonotone(|CleanItems(orderItems)|, |orderItems|, |CleanOrders(orders)|, |orders|);
    Loaded(AddFeatureColumns(merged), orderItems, orders, geolocation)
  }

  /**
   * Soundness: every enriched row pairs an input item with no missing cell
   * and an input order with both approval and customer-delivery timestamps,
   * and the two share an order_id that is present.
   */
  lemma RowSound(orderItems: seq<OrderItem>, orders: seq<Order>, geolocation: seq<GeoRecord>, e: EnrichedRow)
    requires e in LoadData(orderItems, orders, geolocation).data
    ensures e.item in orderItems && ItemComplete(e.item)
    ensures e.order in orders && e.order.approvedAt.Some? && e.order.deliveredCustomerDate.Some?
    ensures e.item.orderId.Some? && e.item.orderId == e.order.orderId
  {
    var merged := InnerJoin(CleanItems(orderItems), CleanOrders(orders));
    AddFeatureColumnsSource(merged, e);
  }

  /**
   * The derived columns of every enriched row: total_price is price plus
   * freight; the three durations are present exactly when the timestamps they
   * subtract are, and then count whole days (rounded down) or fractional hours.
   */
  lemma RowFeatures(orderItems: seq<OrderItem>, orders: seq<Order>, geolocation: seq<GeoRecord>, e: EnrichedRow)
    requires e in LoadData(orderItems, orders, geolocation).data
    ensures e.item.price.Some? && e.item.freightValue.Some?
    ensures e.totalPrice == Some(e.item.price.value + e.item.freightValue.value)
    ensures e.approvalTime.Some? <==> e.order.purchaseTimestamp.Some?
    ensures e.approvalTime.Some? ==>
              e.approvalTime.value * (SecondsPerHour as real) == (e.order.approvedAt.value - e.order.purchaseTimestamp.value) as real
    ensures e.actualDeliveryTime.Some? <==> e.order.purchaseTimestamp.Some?
    ensures e.actualDeliveryTime.Some? ==>
              var secs := e.order.deliveredCustomerDate.value - e.order.purchaseTimestamp.value;
              e.actualDeliveryTime.value * SecondsPerDay <= secs < e.actualDeliveryTime.value * SecondsPerDay + SecondsPerDay
    ensures e.estimatedDeliveryTime.Some? <==>
              e.order.purchaseTimestamp.Some? && e.order.estimatedDeliveryDate.Some?
    ensures e.estimatedDeliveryTime.Some? ==>
              var secs := e.order.estimatedDeliveryDate.value - e.order.purchaseTimestamp.value;
              e.estimatedDeliveryTime.value * SecondsPerDay <= secs < e.estimatedDeliveryTime.value * SecondsPerDay + SecondsPerDay
  {
    RowSound(orderItems, orders, geolocation, e);
    var merged := InnerJoin(CleanItems(orderItems), CleanOrders(orders));
    AddFeatureColumnsSource(merged, e);
  }

  /**
   * The enriched table as a bag: the row built from an item and an order
   * appears (count of the item) * (count of the order) times when the item is
   * complete, the order has both required timestamps and the keys agree, and
   * never otherwise.
   */
  lemma RowCount(orderItems: seq<OrderItem>, orders: seq<Order>, geolocation: seq<GeoRecord>, i: OrderItem, o: Order)
    ensures multiset(LoadData(orderItems, orders, geolocation).data)[Enrich(MergedRow(i, o))]
            == if ItemComplete(i) && OrderKept(o) && i.orderId == o.orderId
               then multiset(orderItems)[i] * multiset(orders)[o]
               else 0
  {
    var items', orders' := CleanItems(orderItems), CleanOrders(orders);
    var m := MergedRow(i, o);
    AddFeatureColumnsCount(InnerJoin(items', orders'), m);
    InnerJoinCount(items', orders', m);
    FilterCount(ItemComplete, orderItems, i);
    FilterCount(OrderKept, orders, o);
  }

  /** Completeness: a complete item and a kept order with the same order_id always produce their row. */
  lemma RowComplete(orderItems: seq<OrderItem>, orders: seq<Order>, geolocation: seq<GeoRecord>, i: OrderItem, o: Order)
    requires i in orderItems && ItemComplete(i)
    requires o in orders && OrderKept(o)
    requires i.orderId == o.orderId
    ensures Enrich(MergedRow(i, o)) in LoadData(orderItems, orders, geolocation).data
  {
    RowCount(orderItems, orders, geolocation, i, o);
    MultiplyPositive(multiset(orderItems)[i], multiset(orders)[o]);
  }

  /** An order without an approval or customer-delivery timestamp contributes no row. */
  lemma DroppedOrderAbsent(orderItems: seq<OrderItem>, orders: seq<Order>, geolocation: seq<GeoRecord>, o: Order)
    requires o.approvedAt.None? || o.deliveredCustomerDate.None?
    ensures forall e :: e in LoadData(orderItems, orders, geolocation).data ==> e.order != o
  {
    forall e | e in LoadData(orderItems, orders, geolocation).data
      ensures e.order != o
    {
      RowSound(orderItems, orders, geolocation, e);
    }
  }

  /** An item with a missing cell, or whose order_id matches no kept order, contributes no row. */
  lemma DroppedItemAbsent(orderItems: seq<OrderItem>, orders: seq<Order>, geolocation: seq<GeoRecord>, i: OrderItem)
    requires !ItemComplete(i) || forall o :: o in orders && OrderKept(o) ==> o.orderId != i.orderId
    ensures forall e :: e in LoadData(orderItems, orders, geolocation).data ==> e.item != i
  {
    forall e | e in LoadData(orderItems, orders, geolocation).data
      ensures e.item != i
    {
      RowSound(orderItems, orders, geolocation, e);
    }
  }

  /**
   * An order missing its purchase timestamp is still joined, whatever its
   * carrier and estimated-delivery dates; the three durations measured from the
   * purchase time are then missing while the total price is present.
   */
  lemma PartialOrderKept(orderItems: seq<OrderItem>, orders: seq<Order>, geolocation: seq<GeoRecord>, i: OrderItem, o: Order)
    requires i in orderItems && ItemComplete(i)
    requires o in orders && o.approvedAt.Some? && o.deliveredCustomerDate.Some?
    requires i.orderId == o.orderId
    requires o.purchaseTimestamp.None?
    ensures exists e :: e in LoadData(orderItems, orders, geolocation).data && e.item == i && e.order == o
              && e.estimatedDeliveryTime.None? && e.approvalTime.None? && e.actualDeliveryTime.None?
              && e.totalPrice.Some?
  {
    RowComplete(orderItems, orders, geolocation, i, o);
    var e := Enrich(MergedRow(i, o));
    assert e in LoadData(orderItems, orders, geolocation).data;
  }

  /**
   * An order with a purchase timestamp but no estimated-delivery date is still
   * joined; only estimated_delivery_time is missing in its rows.
   */
  lemma MissingEstimateOrderKept(orderItems: seq<OrderItem>, orders: seq<Order>, geolocation: seq<GeoRecord>, i: OrderItem, o: Order)
    requires i in orderItems && ItemComplete(i)
    requires o in orders && o.approvedAt.Some? && o.deliveredCustomerDate.Some?
    requires i.orderId == o.orderId
    requires o.purchaseTimestamp.Some? && o.estimatedDeliveryDate.None?
    ensures exists e :: e in LoadData(orderItems, orders, geolocation).data && e.item == i && e.order == o
              && e.estimatedDeliveryTime.None? && e.approvalTime.Some? && e.actualDeliveryTime.Some?
              && e.totalPrice.Some?
  {
    RowComplete(orderItems, orders, geolocation, i, o);
    var e := Enrich(MergedRow(i, o));
    assert e in LoadData(orderItems, orders, geolocation).data;
  }

  /** The enriched rows keep the order of the item table. */
  lemma RowsFollowItemOrder(a: seq<OrderItem>, b: seq<OrderItem>, orders: seq<Order>, geolocation: seq<GeoRecord>)
    ensures LoadData(a + b, orders, geolocation).data
            == LoadData(a, orders, geolocation).data + LoadData(b, orders, geolocation).data
  {
    FilterAppend(ItemComplete, a, b);
    InnerJoinAppend(CleanItems(a), CleanItems(b), CleanOrders(orders));
    AddFeatureColumnsAppend(InnerJoin(CleanItems(a), CleanOrders(orders)), InnerJoin(CleanItems(b), CleanOrders(orders)));
  }
}
