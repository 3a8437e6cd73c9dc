/**
 * The four columns load_data appends to the merged table. Each is computed
 * row by row from the columns already there; a missing input gives a missing
 * output, as NaT and NaN propagate through pandas arithmetic.
 */
module Features {
  import opened Wrappers
  import opened Schema
  import opened Durations

  /** One merged row with estimated_delivery_time, approval_time, total_price and actual_delivery_time added. */
  function Enrich(m: MergedRow): (e: EnrichedRow)
    ensures e.item == m.item && e.order == m.order
    ensures e.estimatedDeliveryTime.Some? <==> m.order.estimatedDeliveryDate.Some? && m.order.purchaseTimestamp.Some?
    ensures e.approvalTime.Some? <==> m.order.approvedAt.Some? && m.order.purchaseTimestamp.Some?
    ensures e.totalPrice.Some? <==> m.item.price.Some? && m.item.freightValue.Some?
    ensures e.actualDeliveryTime.Some? <==> m.order.deliveredCustomerDate.Some? && m.order.purchaseTimestamp.Some?
    // estimated_delivery_time: whole days, rounded down, from purchase to the estimated delivery date
    ensures e.estimatedDeliveryTime.Some? ==>
              var secs := m.order.estimatedDeliveryDate.value - m.order.purchaseTimestamp.value;
              e.estimatedDeliveryTime.value * SecondsPerDay <= secs < e.estimatedDeliveryTime.value * SecondsPerDay + SecondsPerDay
    // approval_time: fractional hours from purchase to approval
    ensures e.approvalTime.Some? ==>
              e.approvalTime.value * (SecondsPerHour as real) == (m.order.approvedAt.value - m.order.purchaseTimestamp.value) as real
    // total_price: price plus freight
    ensures e.totalPrice.Some? ==> e.totalPrice.value == m.item.price.value + m.item.freightValue.value
    // actual_delivery_time: whole days, rounded down, from purchase to delivery to the customer
    ensures e.actualDeliveryTime.Some? ==>
              var secs := m.order.deliveredCustomerDate.value - m.order.purchaseTimestamp.value;
              e.actualDeliveryTime.value * SecondsPerDay <= secs < e.actualDeliveryTime.value * SecondsPerDay + SecondsPerDay
  {
    EnrichedRow(
      m.item,
      m.order,
      DaysBetween(m.order.estimatedDeliveryDate, m.order.purchaseTimestamp),
      HoursBetween(m.order.approvedAt, m.order.purchaseTimestamp),
      AddNullable(m.item.price, m.item.freightValue),
      DaysBetween(m.order.deliveredCustomerDate, m.order.purchaseTimestamp))
  }

  /** Adding the columns to a whole table: one output row per input row, in the same order. */
  function AddFeatureColumns(rows: seq<MergedRow>): (r: seq<EnrichedRow>)
    ensures |r| == |rows|
    ensures forall k :: 0 <= k < |rows| ==> r[k] == Enrich(rows[k])
  {
    if rows == [] then [] else [Enrich(rows[0])] + AddFeatureColumns(rows[1..])
  }

  /** Enrich keeps the original columns, so different rows stay different. */
  lemma EnrichInjective(m: MergedRow, n: MergedRow)
    ensures Enrich(m) == Enrich(n) <==> m == n
  {
  }

  /** Adding columns neither duplicates nor loses rows. */
  lemma {:induction false} AddFeatureColumnsCount(rows: seq<MergedRow>, m: MergedRow)
    ensures multiset(AddFeatureColumns(rows))[Enrich(m)] == multiset(rows)[m]
  {
    if rows != [] {
      AddFeatureColumnsCount(rows[1..], m);
      assert rows == [rows[0]] + rows[1..];
      EnrichInjective(rows[0], m);
    }
  }

  /** Every enriched row is the enrichment of one of the input rows. */
  lemma AddFeatureColumnsSource(rows: seq<MergedRow>, e: EnrichedRow)
    requires e in AddFeatureColumns(rows)
    ensures MergedRow(e.item, e.order) in rows && e == Enrich(MergedRow(e.item, e.order))
  {
    var r := AddFeatureColumns(rows);
    var k :| 0 <= k < |r| && r[k] == e;
    assert rows[k] == MergedRow(e.item, e.order);
  }

  /** Adding columns respects concatenation: the row order is kept. */
  lemma AddFeatureColumnsAppend(x: seq<MergedRow>, y: seq<MergedRow>)
    ensures AddFeatureColumns(x + y) == AddFeatureColumns(x) + AddFeatureColumns(y)
  {
    var l, r := AddFeatureColumns(x + y), AddFeatureColumns(x) + AddFeatureColumns(y);
    assert |l| == |r|;
    forall k | 0 <= k < |l| ensures l[k] == r[k] {
      if k < |x| { assert (x + y)[k] == x[k]; } else { assert (x + y)[k] == y[k - |x|]; }
    }
  }
}
