/** RFM aggregation: the `max_date` reference day and the per-customer
    `groupby(...).agg(...)` of the dashboard, followed by `rfm_segment`.

    A purchase timestamp is an integer day number, `None` where
    `pd.to_datetime(..., errors='coerce')` produced NaT. Money is an exact
    `real`; a missing `payment_value` is `None`. */
module Rfm {
  import opened Wrappers
  import opened Seqs
  import opened Segmentation

  /** The dataset's customer and order ids are opaque hashes that are only
      compared for equality; the model numbers them. */
  type CustomerId = nat
  type OrderId = nat

  /** One row of the transaction table, reduced to the columns the
      aggregation reads. */
  datatype Order = Order(
    customer: CustomerId,
    orderId: Option<OrderId>,
    purchased: Option<int>,
    payment: Option<real>)

  /** One row of the derived RFM table. A missing recency is the NaN pandas
      computes for a customer none of whose timestamps parsed. */
  datatype RfmRow = RfmRow(
    customer: CustomerId,
    recency: Option<int>,
    frequency: nat,
    monetary: real,
    segment: Segment)

  /** `Series.max()` over purchase days: the latest present day, skipping
      missing ones, and `None` when every timestamp is missing. */
  function LatestDay(orders: seq<Order>): (r: Option<int>)
    ensures r.None? <==> forall i :: 0 <= i < |orders| ==> orders[i].purchased.None?
    ensures r.Some? ==> exists i :: 0 <= i < |orders| && orders[i].purchased == r
    ensures r.Some? ==>
      forall i :: 0 <= i < |orders| && orders[i].purchased.Some? ==> orders[i].purchased.value <= r.value
  {
    if |orders| == 0 then None
    else
      var rest := LatestDay(orders[1..]);
      assert forall i :: 1 <= i < |orders| ==> orders[i] == orders[1..][i - 1];
      match orders[0].purchased
      case None => rest
      case Some(d) => if rest.Some? && rest.value > d then rest else Some(d)
  }

  /** `max_date`: one day after the latest purchase of the whole dataset,
      strictly later than every present purchase day. */
  function ReferenceDay(orders: seq<Order>): (r: Option<int>)
    ensures r.None? <==> forall i :: 0 <= i < |orders| ==> orders[i].purchased.None?
    ensures r.Some? ==>
      forall i :: 0 <= i < |orders| && orders[i].purchased.Some? ==> orders[i].purchased.value < r.value
    ensures r.Some? ==>
      exists i :: 0 <= i < |orders| && orders[i].purchased == Some(r.value - 1)
  {
    match LatestDay(orders)
    case None => None
    case Some(d) => Some(d + 1)
  }

  /** The group of one customer: that customer's rows. */
  function RowsOf(orders: seq<Order>, c: CustomerId): (rows: seq<Order>)
    ensures forall k :: 0 <= k < |rows| ==> rows[k].customer == c
  {
    var rows := Filter(orders, (o: Order) => o.customer == c);
    assert forall k :: 0 <= k < |rows| ==> rows[k] in rows;
    rows
  }

  /** The group holds every row of the customer exactly as often as the
      dataset does, and nothing else. */
  lemma RowsOfCounts(orders: seq<Order>, c: CustomerId)
    ensures forall o :: multiset(RowsOf(orders, c))[o] == if o.customer == c then multiset(orders)[o] else 0
  {
    FilterCounts(orders, (o: Order) => o.customer == c);
  }

  /** The `'order_id': 'count'` aggregate: the rows whose order id is present. */
  function Frequency(rows: seq<Order>): (n: nat)
    ensures n <= |rows|
    ensures n == |rows| <==> forall k :: 0 <= k < |rows| ==> rows[k].orderId.Some?
    ensures n == 0 <==> forall k :: 0 <= k < |rows| ==> rows[k].orderId.None?
  {
    var present := Filter(rows, (o: Order) => o.orderId.Some?);
    assert forall k :: 0 <= k < |rows| && rows[k].orderId.Some? ==> rows[k] in present;
    |present|
  }

  /** The `'payment_value': 'sum'` aggregate; a missing value adds nothing. */
  function SumPayments(rows: seq<Order>): (total: real)
    ensures |rows| == 1 ==> total == rows[0].payment.GetOr(0.0)
    ensures (forall k :: 0 <= k < |rows| ==> rows[k].payment.None?) ==> total == 0.0
    ensures (forall k :: 0 <= k < |rows| ==> rows[k].payment.GetOr(0.0) >= 0.0) ==> total >= 0.0
  {
    if |rows| == 0 then 0.0 else rows[0].payment.GetOr(0.0) + SumPayments(rows[1..])
  }

  /** The payment sum is additive over concatenated row sets, so it does not
      depend on how the rows are split into groups. */
  lemma {:induction false} SumPaymentsConcat(a: seq<Order>, b: seq<Order>)
    ensures SumPayments(a + b) == SumPayments(a) + SumPayments(b)
  {
    if |a| > 0 {
      SumPaymentsConcat(a[1..], b);
      assert (a + b)[1..] == a[1..] + b;
    } else {
      assert a + b == b;
    }
  }

  /** The count is additive over concatenated row sets; with the single-row
      cases fixed by `Frequency`'s contract, this pins the count of present
      order ids on every input. */
  lemma {:induction false} FrequencyConcat(a: seq<Order>, b: seq<Order>)
    ensures Frequency(a + b) == Frequency(a) + Frequency(b)
  {
    var present := (o: Order) => o.orderId.Some?;
    var fab, fa, fb := Filter(a + b, present), Filter(a, present), Filter(b, present);
    FilterCounts(a + b, present);
    FilterCounts(a, present);
    FilterCounts(b, present);
    assert multiset(a + b) == multiset(a) + multiset(b);
    assert multiset(fab) == multiset(fa) + multiset(fb);
    assert |multiset(fab)| == |fab| && |multiset(fa)| == |fa| && |multiset(fb)| == |fb|;
  }

  /** A present purchase day of some row of customer `c`. */
  ghost predicate HasPurchase(orders: seq<Order>, c: CustomerId) {
    exists i :: 0 <= i < |orders| && orders[i].customer == c && orders[i].purchased.Some?
  }

  /** A group's latest day never exceeds the dataset's latest day. */
  lemma LatestOfGroup(orders: seq<Order>, c: CustomerId)
    ensures LatestDay(RowsOf(orders, c)).Some? <==> HasPurchase(orders, c)
    ensures LatestDay(RowsOf(orders, c)).Some? ==>
      LatestDay(orders).Some? && LatestDay(RowsOf(orders, c)).value <= LatestDay(orders).value
  {
    var rows := RowsOf(orders, c);
    if HasPurchase(orders, c) {
      var i :| 0 <= i < |orders| && orders[i].customer == c && orders[i].purchased.Some?;
      assert orders[i] in rows;
      var k :| 0 <= k < |rows| && rows[k] == orders[i];
      assert rows[k].purchased.Some?;
    }
    if LatestDay(rows).Some? {
      var k :| 0 <= k < |rows| && rows[k].purchased == LatestDay(rows);
      assert rows[k] in orders;
      var i :| 0 <= i < |orders| && orders[i] == rows[k];
      assert orders[i].customer == c;
    }
  }

  /** The recency aggregate `(max_date - x.max()).days`: at least one day for
      every customer with a present purchase day, NaN for the others. */
  function Recency(orders: seq<Order>, c: CustomerId): (r: Option<int>)
    ensures r.Some? <==> HasPurchase(orders, c)
    ensures r.Some? ==> r.value >= 1
    ensures r.Some? ==>
      && LatestDay(orders).Some? && LatestDay(RowsOf(orders, c)).Some?
      && r.value == LatestDay(orders).value + 1 - LatestDay(RowsOf(orders, c)).value
  {
    LatestOfGroup(orders, c);
    match (ReferenceDay(orders), LatestDay(RowsOf(orders, c)))
    case (Some(reference), Some(latest)) => Some(reference - latest)
    case _ => None
  }

  /** The RFM row of customer `c`, segmented by `rfm_segment`: its segment is
      the one its own three metrics select, its recency is present exactly
      when the customer has a present purchase day, and its frequency never
      exceeds the size of the customer's group. */
  function RowFor(orders: seq<Order>, c: CustomerId): (row: RfmRow)
    ensures row.customer == c
    ensures row.recency == Recency(orders, c)
    ensures row.frequency == Frequency(RowsOf(orders, c)) && row.monetary == SumPayments(RowsOf(orders, c))
    ensures row.segment == SegmentOf(row.recency, row.frequency, row.monetary)
    ensures row.recency.Some? <==> HasPurchase(orders, c)
    ensures row.frequency <= |RowsOf(orders, c)|
  {
    var rows := RowsOf(orders, c);
    var recency := Recency(orders, c);
    var frequency := Frequency(rows);
    var monetary := SumPayments(rows);
    RfmRow(c, recency, frequency, monetary, SegmentOf(recency, frequency, monetary))
  }

  /** Customer `c` has at least one row in the dataset. */
  ghost predicate Occurs(orders: seq<Order>, c: CustomerId) {
    exists i :: 0 <= i < |orders| && orders[i].customer == c
  }

  /** Customer `c` has a row in the RFM table. */
  ghost predicate Listed(table: seq<RfmRow>, c: CustomerId) {
    exists k :: 0 <= k < |table| && table[k].customer == c
  }

  /** The group keys: each customer of the dataset exactly once. */
  function Customers(orders: seq<Order>): (cs: seq<CustomerId>)
    ensures Distinct(cs)
    ensures forall c :: c in cs <==> Occurs(orders, c)
  {
    if |orders| == 0 then []
    else
      var rest := Customers(orders[1..]);
      assert forall i :: 1 <= i < |orders| ==> orders[i] == orders[1..][i - 1];
      if orders[0].customer in rest then rest else [orders[0].customer] + rest
  }

  /** One RFM row per listed customer, in the order listed. */
  function Tabulate(orders: seq<Order>, cs: seq<CustomerId>): (table: seq<RfmRow>)
    ensures |table| == |cs|
    ensures forall k :: 0 <= k < |cs| ==> table[k].customer == cs[k]
    ensures forall k :: 0 <= k < |cs| ==> table[k] == RowFor(orders, cs[k])
  {
    seq(|cs|, k requires 0 <= k < |cs| => RowFor(orders, cs[k]))
  }

  /** The RFM table: one row per distinct customer of the dataset, carrying
      that customer's own aggregates and segment. */
  function ComputeRfm(orders: seq<Order>): (table: seq<RfmRow>)
    ensures forall c :: Listed(table, c) <==> Occurs(orders, c)
    ensures forall k, l :: 0 <= k < l < |table| ==> table[k].customer != table[l].customer
    ensures forall k :: 0 <= k < |table| ==> table[k] == RowFor(orders, table[k].customer)
  {
    var cs := Customers(orders);
    var table := Tabulate(orders, cs);
    assert forall c :: Listed(table, c) <==> c in cs;
    table
  }

  /** A customer's latest day is no earlier than any of the customer's rows. */
  lemma {:induction false} GroupReachesRow(orders: seq<Order>, i: int)
    requires 0 <= i < |orders| && orders[i].purchased.Some?
    ensures LatestDay(RowsOf(orders, orders[i].customer)).Some?
    ensures orders[i].purchased.value <= LatestDay(RowsOf(orders, orders[i].customer)).value
  {
    var rows := RowsOf(orders, orders[i].customer);
    assert orders[i] in rows;
    var k :| 0 <= k < |rows| && rows[k] == orders[i];
    assert rows[k].purchased.Some?;
  }

  /** A customer with a row at the dataset's latest purchase day has recency 1. */
  lemma {:induction false} LatestHasRecencyOne(orders: seq<Order>, i: int)
    requires 0 <= i < |orders| && orders[i].purchased.Some?
    requires orders[i].purchased == LatestDay(orders)
    ensures Recency(orders, orders[i].customer) == Some(1)
  {
    var c := orders[i].customer;
    var latest := LatestDay(orders).value;
    GroupReachesRow(orders, i);
    LatestOfGroup(orders, c);
    var own := LatestDay(RowsOf(orders, c)).value;
    assert own == latest;
    assert HasPurchase(orders, c);
    var r := Recency(orders, c);
    assert r.value == latest + 1 - own;
  }

  /** A recency of 1 means a row at the dataset's latest purchase day. */
  lemma RecencyOneIsLatest(orders: seq<Order>, c: CustomerId) returns (i: int)
    requires Recency(orders, c) == Some(1)
    ensures 0 <= i < |orders| && orders[i].customer == c
    ensures orders[i].purchased.Some? && orders[i].purchased == LatestDay(orders)
  {
    var rows := RowsOf(orders, c);
    var k :| 0 <= k < |rows| && rows[k].purchased == LatestDay(rows);
    assert rows[k] in orders;
    i :| 0 <= i < |orders| && orders[i] == rows[k];
  }

  /** The customers who made the latest purchase of the dataset are exactly
      those with recency 1. */
  lemma RecencyOneIffLatest(orders: seq<Order>, c: CustomerId)
    ensures Recency(orders, c) == Some(1) <==>
      exists i :: 0 <= i < |orders| && orders[i].customer == c &&
        orders[i].purchased.Some? && orders[i].purchased == LatestDay(orders)
  {
    if Recency(orders, c) == Some(1) {
      var i := RecencyOneIsLatest(orders, c);
    }
    if exists i :: 0 <= i < |orders| && orders[i].customer == c &&
         orders[i].purchased.Some? && orders[i].purchased == LatestDay(orders) {
      var i :| 0 <= i < |orders| && orders[i].customer == c &&
        orders[i].purchased.Some? && orders[i].purchased == LatestDay(orders);
      LatestHasRecencyOne(orders, i);
    }
  }

  /** Frequency counts the customer's rows: with every order id present it
      is the size of the customer's group. */
  lemma FrequencyCountsRows(orders: seq<Order>, c: CustomerId)
    requires forall i :: 0 <= i < |orders| && orders[i].customer == c ==> orders[i].orderId.Some?
    ensures RowFor(orders, c).frequency == |RowsOf(orders, c)|
  {
    var rows := RowsOf(orders, c);
    forall k | 0 <= k < |rows|
      ensures rows[k].orderId.Some?
    {
      assert rows[k] in orders;
    }
  }

  /** Sum of the monetary column of an RFM table. */
  function TotalMonetary(table: seq<RfmRow>): real {
    if |table| == 0 then 0.0 else table[0].monetary + TotalMonetary(table[1..])
  }

  /** Sum of the payments of the listed customers' groups. */
  function GroupPayments(orders: seq<Order>, cs: seq<CustomerId>): real {
    if |cs| == 0 then 0.0 else SumPayments(RowsOf(orders, cs[0])) + GroupPayments(orders, cs[1..])
  }

  /** The monetary column of a tabulation is the groups' payment sums. */
  lemma {:induction false} TabulateMonetary(orders: seq<Order>, cs: seq<CustomerId>)
    ensures TotalMonetary(Tabulate(orders, cs)) == GroupPayments(orders, cs)
  {
    if |cs| > 0 {
      TabulateMonetary(orders, cs[1..]);
      assert Tabulate(orders, cs)[1..] == Tabulate(orders, cs[1..]);
    }
  }

  /** Unfolding a group at the head of the dataset. */
  lemma RowsOfHead(orders: seq<Order>, c: CustomerId)
    requires |orders| > 0
    ensures orders[0].customer == c ==> RowsOf(orders, c) == [orders[0]] + RowsOf(orders[1..], c)
    ensures orders[0].customer != c ==> RowsOf(orders, c) == RowsOf(orders[1..], c)
  {
  }

  /** A customer without rows has an empty group. */
  lemma RowsOfAbsent(orders: seq<Order>, c: CustomerId)
    requires !Occurs(orders, c)
    ensures RowsOf(orders, c) == []
  {
  }

  /** Taking the first row out of the dataset moves its payment out of the
      group it belongs to and leaves every other group's sum alone. */
  lemma {:induction false} GroupPaymentsShift(orders: seq<Order>, cs: seq<CustomerId>)
    requires |orders| > 0
    requires Distinct(cs)
    ensures GroupPayments(orders, cs) ==
      GroupPayments(orders[1..], cs) +
      (if orders[0].customer in cs then orders[0].payment.GetOr(0.0) else 0.0)
  {
    if |cs| > 0 {
      var c := cs[0];
      assert Distinct(cs[1..]);
      GroupPaymentsShift(orders, cs[1..]);
      RowsOfHead(orders, c);
      var rows := RowsOf(orders, c);
      var rest := RowsOf(orders[1..], c);
      if orders[0].customer == c {
        assert rows[1..] == rest;
        assert c !in cs[1..];
      } else {
        assert orders[0].customer in cs <==> orders[0].customer in cs[1..];
      }
    }
  }

  /** Grouping the whole dataset by customer loses no money. */
  lemma {:induction false} GroupPaymentsTotal(orders: seq<Order>)
    ensures GroupPayments(orders, Customers(orders)) == SumPayments(orders)
  {
    if |orders| > 0 {
      var o := orders[0];
      var rest := orders[1..];
      GroupPaymentsTotal(rest);
      var cs := Customers(orders);
      var crest := Customers(rest);
      GroupPaymentsShift(orders, crest);
      if o.customer !in crest {
        assert cs == [o.customer] + crest;
        assert cs[1..] == crest;
        assert !Occurs(rest, o.customer);
        RowsOfAbsent(rest, o.customer);
        RowsOfHead(orders, o.customer);
        assert RowsOf(orders, o.customer) == [o];
        assert SumPayments([o]) == o.payment.GetOr(0.0) by {
          assert [o][1..] == [];
        }
        assert GroupPayments(orders, cs) == SumPayments([o]) + GroupPayments(orders, crest);
      }
    }
  }

  /** Regrouping loses no money: the monetary column of the RFM table adds up
      to the sum of `payment_value` over the whole dataset. */
  lemma MonetaryTotal(orders: seq<Order>)
    ensures TotalMonetary(ComputeRfm(orders)) == SumPayments(orders)
  {
    TabulateMonetary(orders, Customers(orders));
    GroupPaymentsTotal(orders);
  }
}
