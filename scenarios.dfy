/**
 * Worked examples of load_data on one-row tables. Timestamps are seconds
 * since 1970-01-01T00:00:00; 1704067200 is 2024-01-01T00:00:00.
 */
module Scenarios {
  import opened Wrappers
  import opened Schema
  import opened Pipeline

  const Jan1: int := 1704067200
  const Day: int := 86400

  function ItemA1(): OrderItem {
    OrderItem(Some("A1"), Some(10.0), Some(2.5), [])
  }

  function OrderA1(delivered: Option<int>): Order {
    Order(Some("A1"), [], Some(Jan1), Some(Jan1 + 2 * 3600), None, delivered, Some(Jan1 + 9 * Day))
  }

  /** Purchased 2024-01-01, approved two hours later, delivered on the 5th, expected on the 10th. */
  lemma DeliveredOrderScenario()
    ensures LoadData([ItemA1()], [OrderA1(Some(Jan1 + 4 * Day))], []).data
            == [EnrichedRow(ItemA1(), OrderA1(Some(Jan1 + 4 * Day)), Some(9), Some(2.0), Some(12.5), Some(4))]
  {
    var o := OrderA1(Some(Jan1 + 4 * Day));
    assert Frames.Filter(OrderKept, [o]) == [o];
    assert Frames.Filter(ItemComplete, [ItemA1()]) == [ItemA1()];
    assert Merge.InnerJoin([ItemA1()], [o]) == [MergedRow(ItemA1(), o)];
  }

  /** An order without a customer-delivery date yields no row, though its item is clean. */
  lemma UndeliveredOrderScenario()
    ensures LoadData([ItemA1()], [OrderA1(None)], []).data == []
  {
    assert Frames.Filter(OrderKept, [OrderA1(None)]) == [];
  }

  /** An item whose order_id names no order yields no row. */
  lemma UnknownOrderScenario()
    ensures LoadData([OrderItem(Some("B2"), Some(1.0), Some(0.5), [])], [OrderA1(Some(Jan1 + 4 * Day))], []).data == []
  {
    var o := OrderA1(Some(Jan1 + 4 * Day));
    var i := OrderItem(Some("B2"), Some(1.0), Some(0.5), []);
    assert Frames.Filter(OrderKept, [o]) == [o];
    assert Frames.Filter(ItemComplete, [i]) == [i];
    assert Merge.InnerJoin([i], [o]) == [];
  }
}
