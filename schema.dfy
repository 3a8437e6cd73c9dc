/**
 * The records that stand for the rows of the three data frames read by
 * load_data. Every cell that can be missing in a CSV is an Option.
 */
module Schema {
  import opened Wrappers

  /** A parsed timestamp, in whole seconds since the epoch; None is NaT. */
  type Timestamp = Option<int>

  /** A cell of a column the pipeline does not interpret. */
  type Cell = Option<string>

  /** A row of orders_dataset.csv after the five timestamp columns are parsed. */
  datatype Order = Order(
    orderId: Option<string>,
    otherCells: seq<Cell>,  // customer_id, order_status, ...
    purchaseTimestamp: Timestamp,
    approvedAt: Timestamp,
    deliveredCarrierDate: Timestamp,
    deliveredCustomerDate: Timestamp,
    estimatedDeliveryDate: Timestamp)

  /** A row of order_items_dataset.csv. */
  datatype OrderItem = OrderItem(
    orderId: Option<string>,
    price: Option<real>,
    freightValue: Option<real>,
    otherCells: seq<Cell>)  // order_item_id, product_id, seller_id, shipping_limit_date

  /** A row of geolocation_dataset.csv; the pipeline never looks inside it. */
  datatype GeoRecord = GeoRecord(cells: seq<Cell>)

  /** A row of the inner join of order items with orders on order_id. */
  datatype MergedRow = MergedRow(item: OrderItem, order: Order)

  /** A merged row with the four derived columns appended. */
  datatype EnrichedRow = EnrichedRow(
    item: OrderItem,
    order: Order,
    estimatedDeliveryTime: Option<int>,
    approvalTime: Option<real>,
    totalPrice: Option<real>,
    actualDeliveryTime: Option<int>)

  /** An order survives dropna(subset=[order_delivered_customer_date, order_approved_at]):
      only those two timestamps are required; the other columns may be missing. */
  predicate OrderKept(o: Order) {
    o.deliveredCustomerDate.Some? && o.approvedAt.Some?
  }

  /** dropna() with no subset: every column of the item is present. */
  predicate ItemComplete(i: OrderItem) {
    && i.orderId.Some?
    && i.price.Some?
    && i.freightValue.Some?
    && forall k :: 0 <= k < |i.otherCells| ==> i.otherCells[k].Some?
  }
}
