/** The sidebar filters applied to the RFM table: the three inclusive range
    sliders, the optional segment choice, and the restriction of the
    transaction rows to the selected customers.

    The date-range filter on raw rows runs after the RFM table is built and
    never changes it, so it does not appear here. */
module RfmFilter {
  import opened Wrappers
  import opened Seqs
  import opened Segmentation
  import opened Rfm

  /** Inclusive bounds picked on the Recency, Frequency and Monetary sliders. */
  datatype Ranges = Ranges(
    recencyLo: int, recencyHi: int,
    frequencyLo: int, frequencyHi: int,
    monetaryLo: real, monetaryHi: real)

  /** `Series.between(lo, hi)` on all three metrics. Both ends are inclusive,
      and a NaN recency is never between anything. */
  predicate InRanges(row: RfmRow, g: Ranges): (b: bool)
    ensures b ==> row.recency.Some?
    ensures b ==> g.recencyLo <= g.recencyHi && g.frequencyLo <= g.frequencyHi && g.monetaryLo <= g.monetaryHi
  {
    && row.recency.Some? && g.recencyLo <= row.recency.value <= g.recencyHi
    && g.frequencyLo <= row.frequency <= g.frequencyHi
    && g.monetaryLo <= row.monetary <= g.monetaryHi
  }

  /** The row mask of the three range sliders: keeps exactly the rows lying
      in all three ranges, each as often as it occurs. */
  function FilterByRanges(table: seq<RfmRow>, g: Ranges): (r: seq<RfmRow>)
    ensures forall row :: row in r <==> row in table && InRanges(row, g)
    ensures forall row :: multiset(r)[row] == if InRanges(row, g) then multiset(table)[row] else 0
    ensures (forall k :: 0 <= k < |table| ==> InRanges(table[k], g)) ==> r == table
  {
    FilterCounts(table, (row: RfmRow) => InRanges(row, g));
    Filter(table, (row: RfmRow) => InRanges(row, g))
  }

  /** The segment select box: `None` is "All" and keeps the table as it is;
      a chosen segment keeps exactly the rows carrying it. */
  function FilterBySegment(table: seq<RfmRow>, selected: Option<Segment>): (r: seq<RfmRow>)
    ensures selected.None? ==> r == table
    ensures selected.Some? ==> forall row :: row in r <==> row in table && row.segment == selected.value
    ensures selected.Some? ==> forall row ::
      multiset(r)[row] == if row.segment == selected.value then multiset(table)[row] else 0
  {
    match selected
    case None => table
    case Some(s) =>
      FilterCounts(table, (row: RfmRow) => row.segment == s);
      Filter(table, (row: RfmRow) => row.segment == s)
  }

  /** `filtered_rfm`: the range mask followed by the optional segment mask.
      A row survives exactly when it is in the table, inside all three
      ranges, and of the chosen segment if one is chosen. */
  function Select(table: seq<RfmRow>, g: Ranges, selected: Option<Segment>): (r: seq<RfmRow>)
    ensures forall row :: row in r <==>
      row in table && InRanges(row, g) && (selected.None? || row.segment == selected.value)
    ensures forall row ::
      multiset(r)[row] ==
        if InRanges(row, g) && (selected.None? || row.segment == selected.value) then multiset(table)[row] else 0
  {
    FilterBySegment(FilterByRanges(table, g), selected)
  }

  /** The recencies pandas sees when taking `min`/`max`: the present ones. */
  function Recencies(table: seq<RfmRow>): (xs: seq<int>)
    ensures forall k :: 0 <= k < |table| && table[k].recency.Some? ==> table[k].recency.value in xs
    ensures forall x :: x in xs ==> exists k :: 0 <= k < |table| && table[k].recency == Some(x)
  {
    if |table| == 0 then []
    else
      var rest := Recencies(table[1..]);
      assert forall k :: 1 <= k < |table| ==> table[k] == table[1..][k - 1];
      match table[0].recency
      case None => rest
      case Some(x) => [x] + rest
  }

  /** Observed minimum and maximum of the present recencies. */
  function RecencyBounds(table: seq<RfmRow>): (b: (int, int))
    requires exists k :: 0 <= k < |table| && table[k].recency.Some?
    ensures exists k :: 0 <= k < |table| && table[k].recency == Some(b.0)
    ensures exists k :: 0 <= k < |table| && table[k].recency == Some(b.1)
    ensures forall k :: 0 <= k < |table| && table[k].recency.Some? ==> b.0 <= table[k].recency.value <= b.1
  {
    var rs := Recencies(table);
    var k :| 0 <= k < |table| && table[k].recency.Some?;
    assert table[k].recency.value in rs;
    Bounds(rs, IntLe)
  }

  /** Observed minimum and maximum of the frequency column. */
  function FrequencyBounds(table: seq<RfmRow>): (b: (int, int))
    requires |table| > 0
    ensures exists k :: 0 <= k < |table| && table[k].frequency == b.0
    ensures exists k :: 0 <= k < |table| && table[k].frequency == b.1
    ensures forall k :: 0 <= k < |table| ==> b.0 <= table[k].frequency <= b.1
  {
    var column := seq(|table|, k requires 0 <= k < |table| => table[k].frequency as int);
    var b := Bounds(column, IntLe);
    assert forall k :: 0 <= k < |table| ==> column[k] == table[k].frequency;
    b
  }

  /** Observed minimum and maximum of the monetary column. */
  function MonetaryBounds(table: seq<RfmRow>): (b: (real, real))
    requires |table| > 0
    ensures exists k :: 0 <= k < |table| && table[k].monetary == b.0
    ensures exists k :: 0 <= k < |table| && table[k].monetary == b.1
    ensures forall k :: 0 <= k < |table| ==> b.0 <= table[k].monetary <= b.1
  {
    var column := seq(|table|, k requires 0 <= k < |table| => table[k].monetary);
    var b := Bounds(column, RealLe);
    assert forall k :: 0 <= k < |table| ==> column[k] == table[k].monetary;
    b
  }

  /** The sliders' initial positions: each range spans the observed minimum
      and maximum of its column. `None` where the source cannot build the
      sliders: an empty table, or no present recency at all (`int` of NaN
      raises). Every row with a present recency lies inside the result. */
  function DefaultRanges(table: seq<RfmRow>): (g: Option<Ranges>)
    ensures g.Some? <==> exists k :: 0 <= k < |table| && table[k].recency.Some?
    ensures g.Some? ==> forall k :: 0 <= k < |table| && table[k].recency.Some? ==> InRanges(table[k], g.value)
    ensures g.Some? ==> exists k :: 0 <= k < |table| && table[k].recency == Some(g.value.recencyLo)
    ensures g.Some? ==> exists k :: 0 <= k < |table| && table[k].recency == Some(g.value.recencyHi)
    ensures g.Some? ==> exists k :: 0 <= k < |table| && table[k].frequency == g.value.frequencyLo
    ensures g.Some? ==> exists k :: 0 <= k < |table| && table[k].frequency == g.value.frequencyHi
    ensures g.Some? ==> exists k :: 0 <= k < |table| && table[k].monetary == g.value.monetaryLo
    ensures g.Some? ==> exists k :: 0 <= k < |table| && table[k].monetary == g.value.monetaryHi
  {
    if forall k :: 0 <= k < |table| ==> table[k].recency.None? then None
    else
      var r := RecencyBounds(table);
      var f := FrequencyBounds(table);
      var m := MonetaryBounds(table);
      Some(Ranges(r.0, r.1, f.0, f.1, m.0, m.1))
  }

  /** Leaving the sliders at their initial positions drops exactly the rows
      whose recency is NaN; when every recency is present it returns the
      whole table unchanged. */
  lemma DefaultRangesKeepPresent(table: seq<RfmRow>, g: Ranges)
    requires DefaultRanges(table) == Some(g)
    ensures FilterByRanges(table, g) == Filter(table, (row: RfmRow) => row.recency.Some?)
    ensures (forall k :: 0 <= k < |table| ==> table[k].recency.Some?) ==> FilterByRanges(table, g) == table
  {
    var inRanges := (row: RfmRow) => InRanges(row, g);
    var present := (row: RfmRow) => row.recency.Some?;
    forall k | 0 <= k < |table|
      ensures inRanges(table[k]) == present(table[k])
    {
    }
    FilterCongruent(table, inRanges, present);
  }

  /** Every row that survives the range sliders has a present recency, so
      its churn label is the plain three-way split of that recency. */
  lemma SelectedChurn(table: seq<RfmRow>, g: Ranges, selected: Option<Segment>, row: RfmRow)
    requires row in Select(table, g, selected)
    ensures row.recency.Some?
    ensures ChurnRisk(row.recency) == High <==> row.recency.value > 180
    ensures ChurnRisk(row.recency) == Medium <==> 90 < row.recency.value <= 180
    ensures ChurnRisk(row.recency) == Low <==> row.recency.value <= 90
  {
  }

  /** The customer ids of a (filtered) RFM table. */
  function CustomerIds(table: seq<RfmRow>): (ids: set<CustomerId>)
    ensures forall c :: c in ids <==> Listed(table, c)
  {
    set k | 0 <= k < |table| :: table[k].customer
  }

  /** `filtered_data[filtered_data['customer_id'].isin(customer_ids)]`, which
      the dashboard runs only inside `if selected_segment != 'All'`. With a
      segment chosen, the transaction rows of exactly the customers still in
      the selection remain. With "All" the rows are left as they are, even
      when the range sliders have removed customers from the selection. */
  function RestrictOrders(orders: seq<Order>, selection: seq<RfmRow>, selected: Option<Segment>): (r: seq<Order>)
    ensures selected.None? ==> r == orders
    ensures selected.Some? ==> forall o :: o in r <==> o in orders && Listed(selection, o.customer)
    ensures selected.Some? ==> forall o ::
      multiset(r)[o] == if Listed(selection, o.customer) then multiset(orders)[o] else 0
    ensures (forall i :: 0 <= i < |orders| ==> Listed(selection, orders[i].customer)) ==> r == orders
  {
    if selected.None? then orders
    else
      var ids := CustomerIds(selection);
      FilterCounts(orders, (o: Order) => o.customer in ids);
      Filter(orders, (o: Order) => o.customer in ids)
  }
}
