# RFM and feedback core of the e-commerce dashboard

A Dafny model of the analytical logic inside `dashboard.py`, the Streamlit
dashboard over the e-commerce transaction dataset:

- **RFM aggregation.** The reference day `max_date` is one day after the
  latest purchase in the whole dataset. The rows are grouped per customer
  into recency (days since that customer's latest purchase), frequency
  (the `count` of order ids) and monetary (the sum of `payment_value`).
  The result is the RFM table.
- **Segmentation.** `rfm_segment` is an ordered, first-match ladder of
  seven threshold rules with an `Others` fallback. Churn risk is a
  three-way split of recency.
- **Sidebar filters.** Three inclusive range sliders and an optional
  segment choice narrow the RFM table. Only when a segment is chosen are
  the transaction rows then restricted to the customers left in the
  table. With "All", the transaction rows stay as they are, even for
  customers the range sliders removed.
- **Feedback.** Submission is accepted only with a non-empty name and
  message and appends to the store. The card list filters by minimum
  rating and sorts in one of four orders. Each card gets a colour band
  from its rating.

Purchase timestamps are integer day numbers. Money is an exact `real`.
Customer and order ids are numbers, because only their equality is used. A
pandas NaN or NaT cell is `None` of `Wrappers.Option`, and every
comparison with it is false, as in pandas. Because of that:

- a customer without any parseable timestamp gets a missing recency;
- that customer's segment is `Others`;
- `between` never keeps that customer's row.

Modules: `Wrappers` (optional values), `Seqs` (the row mask `df[mask]` and
min/max), `Segmentation`, `Rfm`, `RfmFilter`, `Feedback`.

Two behaviours of the code that the model keeps:

- **No parseable timestamp at all.** Then `max_date` is NaT and every
  recency is NaN. The RFM table is still built; it is
  `int(rfm['recency'].min())` at dashboard.py:85 that raises. `Rfm.Recency`
  returns `None` for every customer, and `RfmFilter.DefaultRanges` returns
  `None` where the slider construction raises.
- **Frequency.** `'order_id': 'count'` counts the rows of a group whose
  order id is present, not all rows of the group. `Rfm.Frequency` is that
  count; it equals the group size exactly when no order id is missing.

## Model

| member | source | states |
|---|---|---|
| Seqs.Filter | dashboard.py:116-118 | The boolean mask `df[mask]`: an element is in the result exactly when it is in the input and satisfies the mask. The result is the whole input exactly when every element satisfies it, and empty when none does. `Seqs.FilterCounts` adds the multiplicities. |
| Seqs.FilterCounts | dashboard.py:116-118 | The mask keeps each selected value exactly as often as it occurs, and drops every other value. |
| Rfm.LatestDay | dashboard.py:28 | The latest present purchase day: it is attained by some row and no present day exceeds it. It is missing exactly when every timestamp is missing. |
| Rfm.ReferenceDay | dashboard.py:28 | `max_date` is strictly later than every present purchase day and exactly one day after some row's day. It is missing exactly when every timestamp is missing. |
| Rfm.LatestOfGroup | dashboard.py:28-32 | A customer's latest day exists exactly when the customer has a present timestamp, and it is never later than the dataset's latest day. |
| Rfm.RowsOf | dashboard.py:31 | The `groupby` group of a customer: every row in it belongs to that customer. |
| Rfm.RowsOfCounts | dashboard.py:31 | The group holds each of the customer's rows exactly as often as the dataset does, and no row of another customer. |
| Rfm.Frequency | dashboard.py:33 | `'count'` of order ids: at most the group size, equal to it exactly when no order id is missing, and 0 exactly when all are missing. A single row counts 1 exactly when its order id is present. |
| Rfm.FrequencyConcat | dashboard.py:33 | The count of present order ids is additive over concatenated row sets, which with the single-row cases fixes the count on every input. |
| Rfm.SumPayments | dashboard.py:34 | `'sum'` of `payment_value`: a single row contributes its payment, or 0 when the payment is missing. All payments missing gives 0, and non-negative payments give a non-negative sum. With `SumPaymentsConcat` this fixes the sum on every input. |
| Rfm.SumPaymentsConcat | dashboard.py:34 | The payment sum of two row sets put together is the sum of their payment sums. |
| Rfm.Recency | dashboard.py:28-32 | A customer's recency is present exactly when the customer has a present timestamp. Its value is the dataset's latest day plus one minus the customer's latest day, which is at least one day. |
| Rfm.RowFor | dashboard.py:31-61 | One aggregated row: the customer's id, recency `Recency` of the customer, frequency `Frequency` and monetary `SumPayments` of the customer's own group, and the segment `rfm_segment` gives for those three metrics. Its recency is present exactly when the customer has a present timestamp, and its frequency is at most the group size. |
| Rfm.LatestHasRecencyOne | dashboard.py:28-32 | A customer with a row at the dataset's latest purchase day has recency exactly 1. |
| Rfm.RecencyOneIsLatest | dashboard.py:28-32 | A customer with recency 1 has a row at the dataset's latest purchase day, and the lemma returns that row. |
| Rfm.RecencyOneIffLatest | dashboard.py:28-32 | Recency is exactly 1 if and only if the customer has a row at the dataset's latest purchase day. |
| Rfm.Customers | dashboard.py:31 | The groupby keys: every customer of the dataset, each exactly once, and nothing else. |
| Rfm.ComputeRfm | dashboard.py:31-61 | The RFM table has a row for a customer exactly when the customer occurs in the dataset, and no customer twice. Each row carries that customer's own aggregates and segment. |
| Rfm.FrequencyCountsRows | dashboard.py:33 | When all of a customer's order ids are present, frequency equals the number of the customer's rows. |
| Rfm.MonetaryTotal | dashboard.py:31-34 | The monetary column of the RFM table sums to the total `payment_value` of the dataset, with missing payments counted as 0. |
| Rfm.GroupPaymentsTotal | dashboard.py:31-34 | Summing each customer's payments over all group keys gives the dataset's total payment. |
| Segmentation.FirstMatch | dashboard.py:42-59 | Reading of the ordered rule table: the result is the first rule whose guard holds. It is `Others` exactly when no guard holds. |
| Segmentation.SegmentOf | dashboard.py:42-59 | The returned label's guard holds and no earlier rule's guard does. `Others` comes back exactly when none of the seven guards holds. |
| Segmentation.SegmentIsFirstMatch | dashboard.py:42-59 | On every input, the if/elif ladder equals the first-match reading of the rule table. |
| Segmentation.FirstMatchWins | dashboard.py:44-53 | (25, 4, 1200) satisfies the Loyal, Potential and Need Attention guards and is still `Champions`. |
| Segmentation.ChampionsBoundary | dashboard.py:44-45 | `Champions` holds exactly when recency ≤ 30, frequency ≥ 3 and monetary ≥ 1000, so (30, 3, 1000) is a Champion. Recency 31, or a missing recency, never is. |
| Segmentation.OthersExample | dashboard.py:42-59 | (10, 1, 5000) fails all seven guards and is `Others`. |
| Segmentation.MissingRecencyIsOthers | dashboard.py:42-59 | A NaN recency matches no rule, so the segment is `Others`. |
| Segmentation.ChurnRisk | dashboard.py:469-470 | `High` iff recency > 180, `Medium` iff 90 < recency ≤ 180, and `Low` iff recency ≤ 90 or missing. |
| Segmentation.ChurnMonotone | dashboard.py:469-470 | A larger recency never gets a lower churn-risk label. |
| RfmFilter.InRanges | dashboard.py:116-118 | `between` on all three columns, both ends inclusive. A row inside has a present recency, and each range is non-empty. |
| RfmFilter.FilterByRanges | dashboard.py:116-118 | A row is kept exactly when it is in the table and inside all three inclusive ranges, with its multiplicity. With every row in range the table comes back unchanged. |
| RfmFilter.FilterBySegment | dashboard.py:120-121 | "All" returns the table unchanged. A chosen segment keeps exactly the rows of that segment, each as often as in the table, so every remaining row has it. |
| RfmFilter.Select | dashboard.py:116-121 | A row survives exactly when it is in the table, inside all three ranges, and of the chosen segment if one is chosen. It survives as often as it occurs in the table. |
| RfmFilter.Recencies | dashboard.py:85 | The recencies that pandas' `min`/`max` see are exactly the present ones. |
| Seqs.Bounds | dashboard.py:85-87 | `min()` and `max()` of a non-empty column under a total order. Both are attained, and every element lies between them. |
| RfmFilter.RecencyBounds | dashboard.py:85 | The recency slider's ends: the smallest and largest present recency, both attained. NaN recencies are skipped. |
| RfmFilter.FrequencyBounds | dashboard.py:86 | The frequency slider's ends: the smallest and largest frequency, both attained. |
| RfmFilter.MonetaryBounds | dashboard.py:87 | The monetary slider's ends: the smallest and largest monetary value, both attained. |
| RfmFilter.DefaultRanges | dashboard.py:85-87 | The sliders' defaults exist exactly when some recency is present. Each bound is attained by some row, and every row with a present recency lies inside them. |
| RfmFilter.DefaultRangesKeepPresent | dashboard.py:116-118 | With the sliders at their observed min/max, the filter keeps exactly the rows with a present recency. When every recency is present it returns the whole table unchanged. |
| RfmFilter.SelectedChurn | dashboard.py:469-470 | Every row left after the range sliders has a present recency. Its churn label is therefore the plain split at 90 and 180. |
| RfmFilter.CustomerIds | dashboard.py:122 | The id list of a selection holds exactly the customers with a row in it. |
| RfmFilter.RestrictOrders | dashboard.py:120-123 | With "All" the transaction rows are returned unchanged. With a chosen segment, the rows kept are exactly those of customers still in the selection, each as often as in the transaction rows. |
| Feedback.Submit | dashboard.py:506-532 | A submission is saved iff both name and message are non-empty. A saved entry goes after all existing entries, which are unchanged. A refused submission leaves the store as it was. |
| Feedback.SubmitToEmptyStore | dashboard.py:524-532 | Submitting ("A", "hi", 5) to an empty store yields a store holding exactly that entry. |
| Feedback.FilterByRating | dashboard.py:563-564 | Keeps exactly the entries rated at least the minimum, each as often as stored. If every entry qualifies, the list is unchanged. |
| Feedback.Insert | dashboard.py:570-577 | Inserting into an ordered list gives an ordered permutation of the list plus the new entry. |
| Feedback.SortColumns | dashboard.py:570-577 | "Terbaru" sorts on the timestamp descending, "Terlama" on the timestamp ascending, "Rating Tertinggi" on the rating descending and "Rating Terendah" on the rating ascending. |
| Feedback.SortEntries | dashboard.py:570-577 | For each of the four options, the result is a permutation of the input in which the option's column runs in its direction: timestamp descending for "Terbaru", timestamp ascending for "Terlama", rating descending for "Rating Tertinggi", rating ascending for "Rating Terendah". |
| Feedback.FeedbackView | dashboard.py:563-577 | The card list holds exactly the entries rated at least the minimum, with their multiplicities, in the chosen order. |
| Feedback.BandOf | dashboard.py:614-625 | Green iff rating ≥ 4, Orange iff rating = 3, Red iff rating ≤ 2. |
| Feedback.CardColours | dashboard.py:613-625 | A rating of 4 or more gets `#4CAF50` / `#e8f5e9` / `#c8e6c9` (border, card, message background), exactly 3 gets `#FF9800` / `#fff3e0` / `#ffe0b2`, and 2 or less gets `#F44336` / `#ffebee` / `#ffcdd2`. |
| Feedback.BandMonotone | dashboard.py:614-625 | A higher rating never gets a worse colour band. |

## Left out

- Streamlit page layout, widgets, tabs, metrics, the loading spinner and `time.sleep`, expanders and the HTML card markup are presentation only. The colour strings of each band are kept, as `Band` member functions.
- Every Plotly, seaborn, matplotlib and WordCloud chart, including the random `sample` for the 3D plot: foreign libraries, and the sample is random.
- Reading `all_data.csv`, reading and writing `feedback.csv`, the download buttons, the `try`/`except` around saving and reading feedback, and deleting a zero-byte feedback file are file I/O. The store is a sequence, and saving appends to its end.
- The CSV round trip of the feedback file is left out: how a name or message changes type when it is read back.
- Timestamp parsing (`pd.to_datetime` with `errors='coerce'`) and calendar arithmetic are left out. Purchases are whole day numbers, so `.days` of a timestamp difference is plain subtraction. Times of day are not modelled.
- Rfm.RecencyOneIffLatest, Rfm.RecencyOneIsLatest: hold only for whole-day timestamps. With times of day, `(max_date - x.max()).days` is 1 for any customer whose latest purchase is within 24 hours of the dataset's latest one. It can also differ by one day from the model's day arithmetic. The same shift applies to a recency at the 30, 90, 180 and 365 day boundaries of `rfm_segment`.
- The feedback timestamp is whole seconds. The source sorts the formatted `%Y-%m-%d %H:%M:%S` text, whose order agrees with chronological order.
- Means, `describe`, rounding and the average rating are floating-point statistics. Monetary sums are exact reals, without float rounding.
- The date-range filter and the product-category filter on raw rows (dashboard.py:106-114) only feed the transaction-level views. They run after the RFM table is built and never change it. `RestrictOrders` takes their output as its input rows.
- The feedback search box (dashboard.py:580-585) is a case-insensitive regular-expression match, which this model has no counterpart for.
- pandas sorts the groupby result by customer id. The model's table order is unspecified, and no property depends on it.
- pandas' default `sort_values` is not stable, so the source leaves the order of equal keys open. `SortEntries` happens to keep them in input order, and its contract promises only permutation and order.
- Rows with a missing customer id, which `groupby` drops, do not exist in the model: every order has a customer.
- The rating slider limits ratings to 1-5, but the model's operations accept any integer rating, as the code after the slider does.
