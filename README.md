# Order-analysis dashboard: the data-preparation pipeline

The dashboard in `streamlit_app.py` reads three CSV tables: order items, orders and geolocation. Its one piece of logic is `load_data`. That function:

1. drops every order that lacks an approval timestamp or a customer-delivery timestamp;
2. drops every order item that has a missing cell in any column;
3. inner-joins the cleaned items to the cleaned orders on `order_id`;
4. appends four derived columns:
   - `estimated_delivery_time` and `actual_delivery_time`: whole days from the purchase;
   - `approval_time`: hours from the purchase to the approval;
   - `total_price`: price plus freight;
5. returns the enriched table together with the three tables as they were read.

The model states each step over sequences of records, in these modules:

- `Wrappers`: the `Option` type.
- `Schema`: the rows, the two null tests of the cleaning step, and the result rows.
- `Durations`: pandas' arithmetic on nullable timestamps.
- `Frames`: the row filter behind `dropna`.
- `Merge`: the inner join.
- `Features`: the derived columns.
- `Pipeline`: `load_data` itself and its end-to-end properties.
- `Scenarios`: worked one-row examples.

How cells are represented:

- A timestamp is `Option<int>`, in seconds since the epoch. `None` is pandas' `NaT`.
- A price is `Option<real>`. `None` is `NaN`.
- Columns that the pipeline only carries along are a sequence of nullable cells. This lets "no missing field" cover every column of the item table.
- Arithmetic on a missing value gives a missing value, as in pandas, so every derived column is itself nullable. The lemmas prove which derived values must be present for rows that survive the cleaning. The hour and day values that are measured from a missing purchase timestamp stay missing.
- The join compares keys as nullable values, because pandas lets a missing key match a missing key. After the item cleaning no item key is missing, so no such row can reach the result (`Pipeline.RowSound`).
- Join order follows the left table: item rows in order, and for each item its matching orders in order.

## Notes on the code

- The code does not require `order_id` to be unique in `orders`, so one item may match several orders. `Pipeline.RowCount` gives the multiplicity.
- `pd.to_datetime` is called with its defaults, which raise on malformed input. Parsing is left out below.

## Model

| member | source | states |
|---|---|---|
| Frames.Filter | streamlit_app.py:22-23 | every kept row is an input row that passes the test, and the result is no longer than the input |
| Frames.FilterCount | streamlit_app.py:22-23 | a passing row occurs in the result exactly as often as in the input; a failing row never occurs |
| Frames.FilterMembership | streamlit_app.py:22-23 | a row is in the cleaned table if and only if it is in the input and passes the test |
| Frames.FilterAppend | streamlit_app.py:22-23 | filtering a concatenation gives the concatenation of the filtered parts, so kept rows stay in input order |
| Frames.FilterCounts | streamlit_app.py:22-23 | the multiplicity statement of `Frames.FilterCount`, for every row at once |
| Frames.FilterAll | streamlit_app.py:22-23 | a table in which every row passes is returned unchanged |
| Durations.WholeDays | streamlit_app.py:28 | `.dt.days` is the floor: d days with d*86400 <= seconds < (d+1)*86400, so negative durations round down |
| Durations.Hours | streamlit_app.py:29 | hours times 3600 equals the duration in seconds, and the hours are negative exactly when the duration is |
| Durations.DaysBetween | streamlit_app.py:28-31 | the day count is present only when both timestamps are, and then it is the floor of their difference in days |
| Durations.HoursBetween | streamlit_app.py:29 | the hour count is present only when both timestamps are, and then it times 3600 is their difference in seconds |
| Durations.AddNullable | streamlit_app.py:30 | the sum of two nullable prices is present only when both are, and then it minus the second is the first |
| Merge.MatchOrders | streamlit_app.py:25 | every row an item contributes pairs that item with an order of the same key, at most one per order |
| Merge.MatchOrdersAppend | streamlit_app.py:25 | the rows of one item follow the order of the orders table: matching a concatenation gives the concatenation of the matches |
| Merge.InnerJoin | streamlit_app.py:25 | join soundness: every joined row pairs an input item and an input order with equal `order_id` |
| Merge.MatchOrdersCount | streamlit_app.py:25 | an item contributes its pair with an order once per occurrence of that order when the keys agree, else never |
| Merge.InnerJoinCount | streamlit_app.py:25 | the join as a bag: a pair with equal keys occurs (item count) * (order count) times; any other pair never |
| Merge.InnerJoinComplete | streamlit_app.py:25 | join completeness: every item and order with the same key give the row made of exactly those two |
| Merge.InnerJoinUnmatched | streamlit_app.py:25 | an item whose key matches no order yields no row |
| Merge.InnerJoinAppend | streamlit_app.py:25 | the join of a concatenated left table is the concatenation of the joins, so rows follow the item order |
| Merge.InnerJoinSize | streamlit_app.py:25 | the join has at most (items) * (orders) rows |
| Features.Enrich | streamlit_app.py:28-31 | the original columns are unchanged; each derived column is present exactly when the columns it is computed from are; when present, both day counts are the floor of their difference in days, approval time times 3600 is the approval delay in seconds, and total price is price plus freight |
| Features.AddFeatureColumns | streamlit_app.py:28-31 | one enriched row per merged row, at the same position |
| Features.EnrichInjective | streamlit_app.py:28-31 | two enriched rows are equal exactly when the merged rows they came from are |
| Features.AddFeatureColumnsCount | streamlit_app.py:28-31 | adding columns neither duplicates nor loses rows: multiplicities are preserved |
| Features.AddFeatureColumnsSource | streamlit_app.py:28-31 | every enriched row is the enrichment of a merged row of the input |
| Features.AddFeatureColumnsAppend | streamlit_app.py:28-31 | adding columns to a concatenation gives the concatenation, so row order is kept |
| Schema.OrderKept | streamlit_app.py:22 | the row test of `dropna(subset=[...])`: an order is kept exactly when its customer-delivery and approval timestamps are present; it is stated for the table by `Pipeline.CleanOrders` |
| Schema.ItemComplete | streamlit_app.py:23 | the row test of `dropna()`: an item is kept exactly when its key, price, freight and every other cell are present; it is stated for the table by `Pipeline.CleanItems` |
| Pipeline.CleanOrders | streamlit_app.py:22 | an order passing `Schema.OrderKept` occurs in the cleaned orders as often as in the input, and any other order never (`Frames.FilterCount` for this test) |
| Pipeline.CleanItems | streamlit_app.py:23 | an item passing `Schema.ItemComplete` occurs in the cleaned items as often as in the input, and any other item never (`Frames.FilterCount` for this test) |
| Pipeline.LoadData | streamlit_app.py:9-33 | the raw order items, orders and geolocation tables are returned unchanged, and the enriched table is no larger than items times orders |
| Pipeline.RowSound | streamlit_app.py:22-25 | every enriched row pairs a complete input item with an input order that has approval and customer-delivery timestamps, and the two share a present `order_id` |
| Pipeline.RowFeatures | streamlit_app.py:28-31 | in every enriched row `total_price` is exactly price plus freight; approval time is (approved - purchase)/3600 hours; both day counts are floors of their difference in days; each duration is missing exactly when the purchase (or estimated) timestamp is |
| Pipeline.RowCount | streamlit_app.py:22-25 | the row of item i and order o occurs (count of i) * (count of o) times when i is complete, o is kept and the keys agree, and never otherwise |
| Pipeline.RowComplete | streamlit_app.py:22-25 | every complete item and kept order with the same `order_id` produce their enriched row |
| Pipeline.DroppedOrderAbsent | streamlit_app.py:22 | an order lacking an approval or customer-delivery timestamp contributes no row |
| Pipeline.DroppedItemAbsent | streamlit_app.py:23-25 | an item with a missing cell, or whose key matches no kept order, contributes no row |
| Pipeline.PartialOrderKept | streamlit_app.py:22-31 | an order missing its purchase timestamp is still joined, whatever its carrier and estimated dates, with all three durations missing and the total price present |
| Pipeline.MissingEstimateOrderKept | streamlit_app.py:22-31 | an order with a purchase timestamp but no estimated-delivery date is still joined, with only `estimated_delivery_time` missing |
| Pipeline.RowsFollowItemOrder | streamlit_app.py:23-31 | the enriched table for a concatenated item table is the concatenation of the enriched tables |
| Scenarios.DeliveredOrderScenario | streamlit_app.py:9-33 | a 10.0 + 2.5 item of an order approved after 2 hours, delivered on day 4 and expected on day 9 gives total 12.5, 2.0 hours, 4 and 9 days |
| Scenarios.UndeliveredOrderScenario | streamlit_app.py:22-25 | an order without a customer-delivery date yields an empty enriched table |
| Scenarios.UnknownOrderScenario | streamlit_app.py:25 | an item naming a non-existent order yields an empty enriched table |

## Left out

- Reading the CSV files (lines 11-13) is file I/O. The model takes the three tables as parameters.
- A table that lacks one of the columns named on lines 16-31 makes pandas raise `KeyError`. The records fix the columns, so this error is not modelled.
- `pd.to_datetime` parsing (lines 16-20) is a library parser. Orders arrive already parsed, and malformed input, which raises there, is not modelled.
- Timestamps have one-second resolution. pandas keeps nanoseconds, so sub-second parts of durations are not modelled.
- Prices and hour counts are exact reals. IEEE rounding of `price + freight_value` and of the division by 3600 is not modelled.
- The column assignments of lines 16-20 and 28-31 update data frames in place. The model builds new row values instead. `merged_data` is a fresh frame, so no aliasing is lost. The parsed `orders` frame that the code returns is the model's input `orders`.
- pandas changes column dtypes when values are missing (an integer column becomes float). The model keeps nullable mathematical values.
- Column-name suffixes of `pd.merge` (`_x`, `_y`) do not arise, because the two tables share only `order_id`. A merged row keeps the item and the order whole, so the key appears in both, and it is equal.
- Join order is modelled as the documented inner-join order of current pandas: left rows in order. Older pandas releases grouped rows by key. Only `Merge.InnerJoinAppend` and `Pipeline.RowsFollowItemOrder` depend on this order.
- Running the pipeline twice on the same input gives the same tables. Dafny functions are deterministic, so there is no separate lemma for it.
- The module-level call on line 36 and everything from line 38 on are Streamlit UI, plotting, correlation matrices and CSV export. None of it is computation of the pipeline.
