/**
 * What the ledger's daily totals are, order by order: a day's result is what its settlements
 * paid out less what was staked on them, a day's stakes are those of its reservations.
 */
module DayTotals {
  import opened Wrappers
  import opened Keys
  import opened Sums
  import opened Control
  import opened Ledger
  import opened Risk
  import opened Orders
  import opened OrderInvariant
  import opened OrderSteps
  import opened Pipeline
  import opened PipelineInvariant
  import opened Settlements

  /** Payout less accepted stake, if the order's settlement was booked at that instant or later. */
  function ResultSince(order: Order, entries: seq<Entry>, since: int): int {
    var booked := Lookup(entries, SettleKey(order.key));
    if booked.None? || booked.value.createdAt < since || order.acceptedStake.None? then 0
    else
      (if order.status in {Settled, Voided} && order.payout.Some? then order.payout.value else booked.value.effect.amount)
      - order.acceptedStake.value
  }

  /** The requested stake, if it was reserved at that instant or later. */
  function StakeSince(order: Order, entries: seq<Entry>, since: int): int {
    var booked := Lookup(entries, ReserveKey(order.key));
    if booked.None? || booked.value.createdAt < since then 0 else order.requestedStake
  }

  function ResultsOn(tables: Tables, account: nat, since: int): (results: seq<int>)
    ensures |results| == |tables.orders|
    ensures forall i | 0 <= i < |results| ::
      results[i] == if tables.orders[i].account == account then ResultSince(tables.orders[i], tables.book.entries, since) else 0
  {
    seq(|tables.orders|, i requires 0 <= i < |tables.orders| =>
      if tables.orders[i].account == account then ResultSince(tables.orders[i], tables.book.entries, since) else 0)
  }

  function StakesOn(tables: Tables, account: nat, since: int): (stakes: seq<int>)
    ensures |stakes| == |tables.orders|
    ensures forall i | 0 <= i < |stakes| ::
      stakes[i] == if tables.orders[i].account == account then StakeSince(tables.orders[i], tables.book.entries, since) else 0
  {
    seq(|tables.orders|, i requires 0 <= i < |tables.orders| =>
      if tables.orders[i].account == account then StakeSince(tables.orders[i], tables.book.entries, since) else 0)
  }

  // ---- A total over entries as a sum over orders ----

  function KeyOf(settles: bool, key: OrderKey): EntryKey {
    if settles then SettleKey(key) else ReserveKey(key)
  }

  /** What the order's own entry adds to the total. */
  function PartOf(measure: Measure, order: Order, entries: seq<Entry>, account: nat, settles: bool): int {
    var found := Lookup(entries, KeyOf(settles, order.key));
    if order.account == account && found.Some? then Value(measure, found.value) else 0
  }

  function Parts(measure: Measure, orders: seq<Order>, entries: seq<Entry>, account: nat, settles: bool): (parts: seq<int>)
    ensures |parts| == |orders|
    ensures forall i | 0 <= i < |orders| :: parts[i] == PartOf(measure, orders[i], entries, account, settles)
  {
    seq(|orders|, i requires 0 <= i < |orders| => PartOf(measure, orders[i], entries, account, settles))
  }

  /** The entry counts for nothing, or it is the only one of its kind of some order on its account. */
  ghost predicate OfAnOrder(entry: Entry, measure: Measure, orders: seq<Order>, settles: bool) {
    && (forall i | 0 <= i < |orders| :: entry.key == KeyOf(settles, orders[i].key) ==> entry.account == orders[i].account)
    && (Value(measure, entry) != 0 ==> exists i | 0 <= i < |orders| :: entry.key == KeyOf(settles, orders[i].key))
  }

  lemma {:induction false} TotalOverOrders(measure: Measure, orders: seq<Order>, entries: seq<Entry>, account: nat,
                                           settles: bool)
    requires DistinctKeys(entries)
    requires forall i, j | 0 <= i < j < |orders| :: orders[i].key != orders[j].key
    requires forall e | 0 <= e < |entries| :: OfAnOrder(entries[e], measure, orders, settles)
    ensures Total(measure, entries, account) == Sum(Parts(measure, orders, entries, account, settles))
  {
    hide Parts, PartOf, Value;
    if entries == [] {
      NoParts(measure, orders, account, settles);
    } else {
      var init, last := entries[..|entries| - 1], entries[|entries| - 1];
      TotalOverOrders(measure, orders, init, account, settles);
      assert OfAnOrder(last, measure, orders, settles);
      assert entries == init + [last];
      OneMorePart(measure, orders, init, last, account, settles);
    }
  }

  lemma NoParts(measure: Measure, orders: seq<Order>, account: nat, settles: bool)
    ensures Sum(Parts(measure, orders, [], account, settles)) == 0
  {
    SumZeros(Parts(measure, orders, [], account, settles));
  }

  lemma PartAfter(measure: Measure, order: Order, entries: seq<Entry>, entry: Entry, account: nat, settles: bool)
    requires DistinctKeys(entries + [entry])
    ensures PartOf(measure, order, entries + [entry], account, settles) == PartOf(measure, order, entries, account, settles)
      + if order.account == account && entry.key == KeyOf(settles, order.key) then Value(measure, entry) else 0
  {
    hide Value;
    LookupAppend(entries, entry);
    LookupFinds(entries, entry.key);
    assert (entries + [entry])[|entries|] == entry;
    forall i | 0 <= i < |entries|
      ensures entries[i].key != entry.key
    {
      assert (entries + [entry])[i] == entries[i];
    }
  }

  lemma OneMorePart(measure: Measure, orders: seq<Order>, entries: seq<Entry>, entry: Entry, account: nat, settles: bool)
    requires DistinctKeys(entries + [entry]) && OfAnOrder(entry, measure, orders, settles)
    requires forall i, j | 0 <= i < j < |orders| :: orders[i].key != orders[j].key
    ensures Sum(Parts(measure, orders, entries + [entry], account, settles))
      == Sum(Parts(measure, orders, entries, account, settles)) + if entry.account == account then Value(measure, entry) else 0
  {
    hide PartOf, Value, DistinctKeys;
    var before, after := Parts(measure, orders, entries, account, settles), Parts(measure, orders, entries + [entry], account, settles);
    forall i | 0 <= i < |orders|
      ensures after[i] == before[i]
        + if orders[i].account == account && entry.key == KeyOf(settles, orders[i].key) then Value(measure, entry) else 0
    {
      PartAfter(measure, orders[i], entries, entry, account, settles);
    }
    if i :| 0 <= i < |orders| && entry.key == KeyOf(settles, orders[i].key) {
      assert forall j | 0 <= j < |orders| && j != i :: orders[j].key != orders[i].key;
      assert after == before[i := after[i]];
      SumUpdate(before, i, after[i]);
    } else {
      assert after == before;
    }
  }

  lemma EntriesOfOrders(tables: Tables, measure: Measure, settles: bool)
    requires Inv(tables)
    requires forall entry: Entry | Value(measure, entry) != 0 ::
      if settles then entry.entryType == Settle else entry.entryType == Reserve
    ensures forall e | 0 <= e < |tables.book.entries| :: OfAnOrder(tables.book.entries[e], measure, tables.orders, settles)
  {
    hide Inv, Value;
    var orders := tables.orders;
    KeysApart(tables);
    forall e | 0 <= e < |tables.book.entries|
      ensures OfAnOrder(tables.book.entries[e], measure, orders, settles)
    {
      EntryOfOrder(tables, e);
      var entry := tables.book.entries[e];
      if Value(measure, entry) != 0 && entry.key != OpenKey(entry.account) {
        assert entry.key == KeyOf(settles, orders[entry.order.value].key);
      }
    }
  }

  lemma KeysApart(tables: Tables)
    requires Inv(tables)
    ensures DistinctKeys(tables.book.entries)
    ensures forall i, j | 0 <= i < j < |tables.orders| :: tables.orders[i].key != tables.orders[j].key
  {
  }

  /** The ledger's result since an instant is the sum of the orders' results. */
  lemma ResultsAreOfOrders(tables: Tables, account: nat, since: int)
    requires Inv(tables)
    ensures Total(PnlSince(since), tables.book.entries, account) == Sum(ResultsOn(tables, account, since))
  {
    hide Inv;
    KeysApart(tables);
    EntriesOfOrders(tables, PnlSince(since), true);
    TotalOverOrders(PnlSince(since), tables.orders, tables.book.entries, account, true);
    var parts := Parts(PnlSince(since), tables.orders, tables.book.entries, account, true);
    forall i | 0 <= i < |parts|
      ensures parts[i] == ResultsOn(tables, account, since)[i]
    {
      ResultOfEntry(tables, i, since);
    }
    assert parts == ResultsOn(tables, account, since);
  }

  lemma ResultOfEntry(tables: Tables, id: nat, since: int)
    requires Inv(tables) && id < |tables.orders|
    ensures
      var order := tables.orders[id];
      var found := Lookup(tables.book.entries, SettleKey(order.key));
      ResultSince(order, tables.book.entries, since) == if found.Some? then Value(PnlSince(since), found.value) else 0
  {
    assert InTables(tables, id) && OrderOk(tables, id);
  }

  /** The ledger's stakes since an instant are those of the orders reserved since. */
  lemma StakesAreOfOrders(tables: Tables, account: nat, since: int)
    requires Inv(tables)
    ensures Total(StakedSince(since), tables.book.entries, account) == Sum(StakesOn(tables, account, since))
  {
    hide Inv;
    KeysApart(tables);
    EntriesOfOrders(tables, StakedSince(since), false);
    TotalOverOrders(StakedSince(since), tables.orders, tables.book.entries, account, false);
    var parts := Parts(StakedSince(since), tables.orders, tables.book.entries, account, false);
    forall i | 0 <= i < |parts|
      ensures parts[i] == StakesOn(tables, account, since)[i]
    {
      StakeOfEntry(tables, i, since);
    }
    assert parts == StakesOn(tables, account, since);
  }

  lemma StakeOfEntry(tables: Tables, id: nat, since: int)
    requires Inv(tables) && id < |tables.orders|
    ensures
      var order := tables.orders[id];
      var found := Lookup(tables.book.entries, ReserveKey(order.key));
      StakeSince(order, tables.book.entries, since) == if found.Some? then Value(StakedSince(since), found.value) else 0
  {
    assert InTables(tables, id) && OrderOk(tables, id);
  }
}
