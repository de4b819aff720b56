/** Each transaction of the pipeline keeps the invariant, and is refused only for the reasons given. */
module OrderSteps {
  import opened Wrappers
  import opened Keys
  import opened Sums
  import opened Control
  import opened Ledger
  import opened Risk
  import opened Orders
  import opened OrderInvariant

  predicate HoldsStake(status: OrderStatus) {
    status == Reserved || status == Submitting || status == Unknown || status == ReconciliationRequired
  }

  lemma OwnedAfterAppend(a: Tables, entries: seq<Entry>, orders: seq<Order>, entry: Entry)
    requires EntriesOwned(a)
    requires entries == a.book.entries + [entry]
    requires |orders| >= |a.orders| && forall i | 0 <= i < |a.orders| :: orders[i].key == a.orders[i].key
    requires Owned(entry, orders)
    ensures forall e | 0 <= e < |entries| :: Owned(entries[e], orders)
  {
    forall e | 0 <= e < |entries|
      ensures Owned(entries[e], orders)
    {
      if e < |a.book.entries| {
        assert Owned(a.book.entries[e], a.orders);
      }
    }
  }

  lemma OwnedStays(a: Tables, orders: seq<Order>)
    requires EntriesOwned(a)
    requires |orders| >= |a.orders| && forall i | 0 <= i < |a.orders| :: orders[i].key == a.orders[i].key
    ensures forall e | 0 <= e < |a.book.entries| :: Owned(a.book.entries[e], orders)
  {
    forall e | 0 <= e < |a.book.entries|
      ensures Owned(a.book.entries[e], orders)
    {
      assert Owned(a.book.entries[e], a.orders);
    }
  }

  /** A key no order has is in no entry. */
  lemma UnusedKeyUnbooked(tables: Tables, key: OrderKey)
    requires Inv(tables) && !KeyUsed(tables.orders, key)
    ensures Lookup(tables.book.entries, ReserveKey(key)).None?
    ensures Lookup(tables.book.entries, ReleaseKey(key)).None?
    ensures Lookup(tables.book.entries, PartialKey(key)).None?
    ensures Lookup(tables.book.entries, SettleKey(key)).None?
  {
    forall e | 0 <= e < |tables.book.entries|
      ensures tables.book.entries[e].key.OpenKey? || tables.book.entries[e].key.order != key
    {
      assert Owned(tables.book.entries[e], tables.orders);
    }
    LookupFinds(tables.book.entries, ReserveKey(key));
    LookupFinds(tables.book.entries, ReleaseKey(key));
    LookupFinds(tables.book.entries, PartialKey(key));
    LookupFinds(tables.book.entries, SettleKey(key));
  }

  // ---- Two shapes of transaction about one order ----

  /** The rows a transaction may add: none, or the receipt of an order gaining its external identifier. */
  predicate RowsAdded(a: Tables, b: Tables, id: nat)
    requires id < |a.orders| == |b.orders|
  {
    || (b.receipts == a.receipts && b.orders[id].externalId == a.orders[id].externalId)
    || (&& |b.receipts| == |a.receipts| + 1
        && b.receipts == a.receipts + [b.receipts[|a.receipts|]]
        && b.receipts[|a.receipts|].order == id
        && !HasReceipt(a.receipts, id)
        && !HashTaken(a.receipts, b.receipts[|a.receipts|].hash)
        && b.orders[id].externalId.Some?
        && !ExternalTaken(a.orders, a.orders[id].operatorKey, b.orders[id].externalId.value))
  }

  /** One order evolves, at most its own decision is written, and the control is left alone. */
  ghost predicate ChangesOnly(a: Tables, b: Tables, id: nat) {
    && InTables(a, id) && InTables(b, id)
    && b.orders == a.orders[id := b.orders[id]]
    && Evolves(a.orders[id], b.orders[id])
    && RowsAdded(a, b, id)
    && b.control == a.control
    && |b.decisions| == |a.decisions|
    && (forall d | 0 <= d < |a.decisions| && d != a.orders[id].decision :: b.decisions[d] == a.decisions[d])
  }

  lemma OrderOkOf(a: Tables, id: nat)
    requires Inv(a) && InTables(a, id)
    ensures OrderOk(a, id)
  {
  }

  lemma BookOf(a: Tables)
    requires Inv(a)
    ensures WellFormed(a.book)
  {
  }

  lemma RowsAddedReceipts(a: Tables, b: Tables, id: nat)
    requires ReceiptsOk(a) && id < |a.orders| == |b.orders| && RowsAdded(a, b, id)
    ensures ReceiptsOk(b)
    ensures forall j: nat | j != id :: HasReceipt(b.receipts, j) <==> HasReceipt(a.receipts, j)
    ensures HasReceipt(a.receipts, id) ==> HasReceipt(b.receipts, id)
    ensures b.receipts != a.receipts ==> HasReceipt(b.receipts, id)
  {
    if b.receipts != a.receipts {
      var added := b.receipts[|a.receipts|];
      forall j: nat
        ensures HasReceipt(b.receipts, j) <==> HasReceipt(a.receipts, j) || id == j
      {
        ReceiptAdded(a.receipts, added, j);
      }
    }
  }

  lemma RowsAddedOrders(a: Tables, b: Tables, id: nat)
    requires DistinctOrders(a.orders) && id < |a.orders| == |b.orders| && RowsAdded(a, b, id)
    requires b.orders == a.orders[id := b.orders[id]] && SameIdentity(a.orders[id], b.orders[id])
    ensures DistinctOrders(b.orders)
  {
  }

  lemma EvolvesOne(a: Tables, b: Tables, id: nat)
    requires ChangesOnly(a, b, id) && ReceiptsOk(a)
    requires forall key :: Lookup(a.book.entries, key).Some? ==> Lookup(b.book.entries, key) == Lookup(a.book.entries, key)
    requires |a.book.accounts| <= |b.book.accounts|
    ensures TablesEvolve(a, b)
  {
    RowsAddedReceipts(a, b, id);
    forall i | 0 <= i < |a.orders|
      ensures Evolves(a.orders[i], b.orders[i])
    {
      if i != id {
        assert b.orders[i] == a.orders[i];
      }
    }
    forall i | 0 <= i < |a.orders| && HasReceipt(a.receipts, i)
      ensures HasReceipt(b.receipts, i)
    {
    }
    assert a.control.policies[..|a.control.policies|] == a.control.policies;
  }

  /** No money moves. */
  lemma RowKeepsInv(a: Tables, b: Tables, id: nat)
    requires Inv(a) && ChangesOnly(a, b, id) && OrderOk(b, id)
    requires b.book == a.book
    requires Exposure(a.orders[id], a.book.entries) == Exposure(b.orders[id], b.book.entries)
    ensures Inv(b) && TablesEvolve(a, b)
  {
    RowsAddedReceipts(a, b, id);
    RowsAddedOrders(a, b, id);
    OwnedStays(a, b.orders);
    TouchKeepsInv(a, b, id);
    EvolvesOne(a, b, id);
  }

  /** One movement of the order is written. */
  lemma MovementKeepsInv(a: Tables, b: Tables, id: nat, input: AppendInput, now: int)
    requires Inv(a) && ChangesOnly(a, b, id) && OrderOk(b, id)
    requires !input.key.OpenKey? && input.key.order == a.orders[id].key && input.order == Some(id)
    requires Lookup(a.book.entries, input.key).None?
    requires Append(a.book, a.orders[id].account, input, now).Ok?
    requires b.book == Append(a.book, a.orders[id].account, input, now).value.book
    requires MovementEffect(input.entryType, input.movement).Ok?
    requires MovementEffect(input.entryType, input.movement).value.reservedDelta
      == Exposure(b.orders[id], b.book.entries) - Exposure(a.orders[id], a.book.entries)
    ensures Inv(b) && TablesEvolve(a, b)
  {
    AppendEffect(a.book, a.orders[id].account, input, now);
    var entry := Append(a.book, a.orders[id].account, input, now).value.entry;
    RowsAddedReceipts(a, b, id);
    RowsAddedOrders(a, b, id);
    OwnedAfterAppend(a, b.book.entries, b.orders, entry);
    TouchKeepsInv(a, b, id);
    EvolvesOne(a, b, id);
  }

  lemma TablesEvolveReflexive(a: Tables)
    ensures TablesEvolve(a, a)
  {
    assert a.control.policies[..|a.control.policies|] == a.control.policies;
  }

  // ---- Status changes that keep the stake held ----

  lemma StatusKeepsInv(a: Tables, id: nat, order: Order)
    requires Inv(a) && InTables(a, id)
    requires HoldsStake(a.orders[id].status) && HoldsStake(order.status)
    requires Evolves(a.orders[id], order) && order.externalId == a.orders[id].externalId
    requires order.requestedOdd >= order.minimumOdd
    requires order.status == Submitting ==> order.submittedAt.Some?
    requires order.status == Unknown ==> order.unknownSince.Some?
    ensures Inv(a.(orders := a.orders[id := order]))
    ensures TablesEvolve(a, a.(orders := a.orders[id := order]))
  {
    var b := a.(orders := a.orders[id := order]);
    OrderOkOf(a, id);
    RowKeepsInv(a, b, id);
  }

  lemma StartSubmissionKeepsInv(a: Tables, id: nat, quote: Option<OperatorQuote>, now: int, interlockOpen: bool)
    requires Inv(a) && InTables(a, id)
    ensures var (b, verdict) := StartSubmission(a, id, quote, now, interlockOpen);
      && Inv(b) && TablesEvolve(a, b) && InTables(b, id)
      && (verdict.Current? ==> verdict.order == b.orders[id])
      && (b != a ==> a.orders[id].status == Reserved && b.orders[id].status == Submitting && verdict.Current?)
  {
    var (b, verdict) := StartSubmission(a, id, quote, now, interlockOpen);
    assert OrderOk(a, id);
    if b != a {
      StatusKeepsInv(a, id, b.orders[id]);
      assert b.orders == a.orders[id := b.orders[id]];
    }
  }

  lemma MarkUnknownKeepsInv(a: Tables, id: nat, now: int)
    requires Inv(a) && InTables(a, id)
    ensures Inv(MarkUnknown(a, id, now)) && TablesEvolve(a, MarkUnknown(a, id, now))
  {
    var b := MarkUnknown(a, id, now);
    assert OrderOk(a, id);
    if b != a {
      StatusKeepsInv(a, id, b.orders[id]);
      assert b.orders == a.orders[id := b.orders[id]];
    }
  }

  // ---- Cancellation ----

  /** A held stake can always be given back: only the width of the column could refuse it. */
  lemma ReleaseNeverRefused(a: Tables, id: nat, now: int)
    requires Inv(a) && InTables(a, id) && HoldsStake(a.orders[id].status)
    ensures
      var order := a.orders[id];
      var balances := a.book.accounts[order.account].balances;
      var release := Append(a.book, order.account, ReleaseInput(order, id), now);
      && (release.Ok? <==> balances.available + order.requestedStake <= MAX_COLUMN_CENTS)
      && (release.Err? ==> release.error == OutOfRange)
      && (release.Ok? ==> !release.value.replayed)
  {
    assert OrderOk(a, id);
    ReservedCovers(a, id);
    var order := a.orders[id];
    var journal := Journal(a.book.entries, order.account);
    assert Journaled(a.book.accounts[order.account], journal);
    if journal != [] {
      assert LinkOk(journal, |journal| - 1);
    }
  }

  lemma CancelledOrderOk(a: Tables, id: nat, code: RejectionCode, now: int)
    requires Inv(a) && InTables(a, id) && HoldsStake(a.orders[id].status)
    requires Append(a.book, a.orders[id].account, ReleaseInput(a.orders[id], id), now).Ok?
    ensures
      var b := MarkRejected(
        a.(book := Append(a.book, a.orders[id].account, ReleaseInput(a.orders[id], id), now).value.book), id, code);
      InTables(b, id) && OrderOk(b, id)
  {
    hide Inv, WellFormed, Append, OrderKeyOf;
    OrderOkOf(a, id);
    BookOf(a);
    AppendEffect(a.book, a.orders[id].account, ReleaseInput(a.orders[id], id), now);
    RejectedMatches(a, id, code);
  }

  lemma RejectedMatches(a: Tables, id: nat, code: RejectionCode)
    requires InTables(a, id) && SameDecision(a.decisions[a.orders[id].decision], a.orders[id])
    ensures var b := MarkRejected(a, id, code);
      SameDecision(b.decisions[b.orders[id].decision], b.orders[id])
  {
  }

  lemma CancelHeldKeepsInv(a: Tables, id: nat, code: RejectionCode, now: int)
    requires Inv(a) && InTables(a, id) && HoldsStake(a.orders[id].status)
    requires a.orders[id].status != ReconciliationRequired
    requires Append(a.book, a.orders[id].account, ReleaseInput(a.orders[id], id), now).Ok?
    ensures
      var b := MarkRejected(
        a.(book := Append(a.book, a.orders[id].account, ReleaseInput(a.orders[id], id), now).value.book), id, code);
      Inv(b) && TablesEvolve(a, b)
  {
    hide Inv, TablesEvolve;
    var order, input := a.orders[id], ReleaseInput(a.orders[id], id);
    var b := MarkRejected(a.(book := Append(a.book, order.account, input, now).value.book), id, code);
    OrderOkOf(a, id);
    CancelledOrderOk(a, id, code, now);
    MovementKeepsInv(a, b, id, input, now);
  }

  lemma CancelKeepsInv(a: Tables, id: nat, from: set<OrderStatus>, code: RejectionCode, now: int)
    requires Inv(a) && InTables(a, id)
    requires from <= {Reserved, Submitting, Unknown}
    ensures Cancel(a, id, from, code, now).Ok? ==>
      var b := Cancel(a, id, from, code, now).value;
      && Inv(b) && TablesEvolve(a, b)
      && (a.orders[id].status in from ==> b.orders[id].status == Rejected)
    ensures Cancel(a, id, from, code, now).Ok? <==>
      a.orders[id].status !in from
      || a.book.accounts[a.orders[id].account].balances.available + a.orders[id].requestedStake <= MAX_COLUMN_CENTS
  {
    assert OrderOk(a, id);
    if a.orders[id].status in from {
      ReleaseNeverRefused(a, id, now);
      if Cancel(a, id, from, code, now).Ok? {
        CancelHeldKeepsInv(a, id, code, now);
      }
    }
  }

  // ---- Acceptance ----

  /** The tables after recording an acceptance, the book aside. */
  function Recorded(a: Tables, id: nat, accepted: OperatorOrder): Tables
    requires InTables(a, id) && accepted.receiptHash.Some?
  {
    a.(orders := a.orders[id := AcceptedOrder(a.orders[id], accepted)],
       receipts := a.receipts + [Receipt(id, accepted.receiptHash.value)],
       decisions := a.decisions[a.orders[id].decision :=
         a.decisions[a.orders[id].decision].(executableOdd := accepted.acceptedOdd)])
  }

  lemma RecordedChangesOnly(a: Tables, id: nat, accepted: OperatorOrder, book: Book)
    requires Inv(a) && InTables(a, id) && HoldsStake(a.orders[id].status) && a.orders[id].status != ReconciliationRequired
    requires !AcceptanceRefused(a, a.orders[id], accepted)
    requires |book.accounts| == |a.book.accounts|
    ensures ChangesOnly(a, Recorded(a, id, accepted).(book := book), id)
    ensures HasReceipt(Recorded(a, id, accepted).receipts, id)
  {
    OrderOkOf(a, id);
    ReceiptAdded(a.receipts, Receipt(id, accepted.receiptHash.value), id);
  }

  lemma AcceptFullKeepsInv(a: Tables, id: nat, accepted: OperatorOrder)
    requires Inv(a) && InTables(a, id) && HoldsStake(a.orders[id].status) && a.orders[id].status != ReconciliationRequired
    requires !AcceptanceRefused(a, a.orders[id], accepted)
    requires accepted.acceptedStake.value == a.orders[id].requestedStake
    ensures Inv(Recorded(a, id, accepted)) && TablesEvolve(a, Recorded(a, id, accepted))
  {
    hide Inv, TablesEvolve;
    OrderOkOf(a, id);
    RecordedChangesOnly(a, id, accepted, a.book);
    RowKeepsInv(a, Recorded(a, id, accepted), id);
  }

  lemma AcceptedPartOk(a: Tables, id: nat, accepted: OperatorOrder, input: AppendInput, now: int)
    requires Inv(a) && InTables(a, id) && HoldsStake(a.orders[id].status) && a.orders[id].status != ReconciliationRequired
    requires !AcceptanceRefused(a, a.orders[id], accepted)
    requires accepted.acceptedStake.value < a.orders[id].requestedStake
    requires input == PartialInput(a.orders[id], id, a.orders[id].requestedStake - accepted.acceptedStake.value)
    requires Append(a.book, a.orders[id].account, input, now).Ok?
    ensures var b := Recorded(a, id, accepted).(book := Append(a.book, a.orders[id].account, input, now).value.book);
      && InTables(b, id) && OrderOk(b, id)
      && Exposure(b.orders[id], b.book.entries) == accepted.acceptedStake.value
  {
    hide Inv, WellFormed, Append;
    OrderOkOf(a, id);
    BookOf(a);
    AppendEffect(a.book, a.orders[id].account, input, now);
    ReceiptAdded(a.receipts, Receipt(id, accepted.receiptHash.value), id);
  }

  lemma AcceptPartKeepsInv(a: Tables, id: nat, accepted: OperatorOrder, input: AppendInput, now: int)
    requires Inv(a) && InTables(a, id) && HoldsStake(a.orders[id].status) && a.orders[id].status != ReconciliationRequired
    requires !AcceptanceRefused(a, a.orders[id], accepted)
    requires accepted.acceptedStake.value < a.orders[id].requestedStake
    requires input == PartialInput(a.orders[id], id, a.orders[id].requestedStake - accepted.acceptedStake.value)
    requires Append(a.book, a.orders[id].account, input, now).Ok?
    ensures var b := Recorded(a, id, accepted).(book := Append(a.book, a.orders[id].account, input, now).value.book);
      Inv(b) && TablesEvolve(a, b)
  {
    hide Inv, TablesEvolve;
    var book := Append(a.book, a.orders[id].account, input, now).value.book;
    OrderOkOf(a, id);
    RecordedChangesOnly(a, id, accepted, book);
    AcceptedPartOk(a, id, accepted, input, now);
    MovementKeepsInv(a, Recorded(a, id, accepted).(book := book), id, input, now);
  }

  lemma ApplyAcceptanceKeepsInv(a: Tables, id: nat, accepted: OperatorOrder, now: int)
    requires Inv(a) && InTables(a, id)
    requires ApplyAcceptance(a, id, accepted, now).Ok?
    ensures var (b, stop) := ApplyAcceptance(a, id, accepted, now).value;
      && Inv(b) && TablesEvolve(a, b)
      && (stop.Some? ==> b.orders[id].status == ReconciliationRequired)
  {
    hide Inv, TablesEvolve;
    var order := a.orders[id];
    var (b, _) := ApplyAcceptance(a, id, accepted, now).value;
    OrderOkOf(a, id);
    if order.status !in {Submitting, Unknown, Reserved} {
      TablesEvolveReflexive(a);
    } else if AcceptanceRefused(a, order, accepted) {
      assert b == a.(orders := a.orders[id := b.orders[id]]);
      StatusKeepsInv(a, id, b.orders[id]);
    } else if accepted.acceptedStake.value == order.requestedStake {
      AcceptFullKeepsInv(a, id, accepted);
    } else {
      AcceptPartKeepsInv(a, id, accepted,
                         PartialInput(order, id, order.requestedStake - accepted.acceptedStake.value), now);
    }
  }

  /** The unused part of a held stake can always be given back, up to the width of the column. */
  lemma AcceptanceNeverRefused(a: Tables, id: nat, accepted: OperatorOrder, now: int)
    requires Inv(a) && InTables(a, id)
    requires ApplyAcceptance(a, id, accepted, now).Err?
    ensures ApplyAcceptance(a, id, accepted, now) == Err(OutOfRange)
    ensures accepted.acceptedStake.Some? &&
      a.book.accounts[a.orders[id].account].balances.available + a.orders[id].requestedStake - accepted.acceptedStake.value
      > MAX_COLUMN_CENTS
  {
    assert OrderOk(a, id);
    ReservedCovers(a, id);
    var journal := Journal(a.book.entries, a.orders[id].account);
    assert Journaled(a.book.accounts[a.orders[id].account], journal);
    if journal != [] {
      assert LinkOk(journal, |journal| - 1);
    }
  }

  // ---- Settlement ----

  /**
   * Booking a settlement: a first one goes through unless the column is too small; a repeat
   * with the same payout is a replay; one with another payout is a conflict.
   */
  lemma SettleStakeVerdict(a: Tables, id: nat, payout: int, now: int)
    requires Inv(a) && InTables(a, id) && WasAccepted(a.orders[id].status)
    requires a.orders[id].acceptedStake.Some?
    requires 0 <= payout <= MAX_SAFE_INTEGER
    ensures
      var order := a.orders[id];
      var balances := a.book.accounts[order.account].balances;
      var booked := Lookup(a.book.entries, SettleKey(order.key));
      var outcome := SettleStake(a, id, order.acceptedStake.value, payout, now);
      && (outcome.Ok? <==> if booked.Some? then booked.value.effect.amount == payout
                           else balances.available + payout <= MAX_COLUMN_CENTS)
      && (outcome.Err? ==> outcome.error == if booked.Some? then Conflict else OutOfRange)
      && (outcome.Ok? && booked.Some? ==> outcome.value.0 == a)
  {
    assert OrderOk(a, id);
    ReservedCovers(a, id);
    var order := a.orders[id];
    var journal := Journal(a.book.entries, order.account);
    assert Journaled(a.book.accounts[order.account], journal);
    if journal != [] {
      assert LinkOk(journal, |journal| - 1);
    }
  }

  lemma FirstSettlementOk(a: Tables, id: nat, stake: int, payout: int, now: int)
    requires Inv(a) && InTables(a, id) && a.orders[id].status == Accepted
    requires a.orders[id].acceptedStake == Some(stake)
    requires 0 <= payout <= MAX_SAFE_INTEGER
    requires Lookup(a.book.entries, SettleKey(a.orders[id].key)).None?
    requires SettleStake(a, id, stake, payout, now).Ok?
    ensures var b := SettleStake(a, id, stake, payout, now).value.0;
      && b.orders == a.orders && |b.book.accounts| == |a.book.accounts|
      && SettledFor(a.orders[id], id, b.book.entries, payout)
      && InTables(b, id) && OrderOk(b, id)
  {
    OrderOkOf(a, id);
    AppendEffect(a.book, a.orders[id].account, SettleInput(a.orders[id], id, stake, payout), now);
  }

  lemma FirstSettlementKeepsInv(a: Tables, id: nat, stake: int, payout: int, now: int)
    requires Inv(a) && InTables(a, id) && a.orders[id].status == Accepted
    requires a.orders[id].acceptedStake == Some(stake)
    requires 0 <= payout <= MAX_SAFE_INTEGER
    requires Lookup(a.book.entries, SettleKey(a.orders[id].key)).None?
    requires SettleStake(a, id, stake, payout, now).Ok?
    ensures var b := SettleStake(a, id, stake, payout, now).value.0;
      Inv(b) && TablesEvolve(a, b) && SettledFor(a.orders[id], id, b.book.entries, payout)
  {
    hide Inv, TablesEvolve;
    var b := SettleStake(a, id, stake, payout, now).value.0;
    OrderOkOf(a, id);
    FirstSettlementOk(a, id, stake, payout, now);
    MovementKeepsInv(a, b, id, SettleInput(a.orders[id], id, stake, payout), now);
  }

  lemma SettleStakeKeepsInv(a: Tables, id: nat, stake: int, payout: int, now: int)
    requires Inv(a) && InTables(a, id) && WasAccepted(a.orders[id].status)
    requires a.orders[id].acceptedStake == Some(stake)
    requires 0 <= payout <= MAX_SAFE_INTEGER
    requires SettleStake(a, id, stake, payout, now).Ok?
    ensures var b := SettleStake(a, id, stake, payout, now).value.0;
      && Inv(b) && TablesEvolve(a, b) && b.orders == a.orders
      && SettledFor(a.orders[id], id, b.book.entries, payout)
  {
    assert OrderOk(a, id);
    if Lookup(a.book.entries, SettleKey(a.orders[id].key)).None? {
      FirstSettlementKeepsInv(a, id, stake, payout, now);
    } else {
      SettleStakeVerdict(a, id, payout, now);
    }
  }

  lemma ClosedOrderOk(a: Tables, id: nat, stake: int, payout: int, settledAt: int)
    requires Inv(a) && InTables(a, id) && a.orders[id].status == Accepted
    requires a.orders[id].acceptedStake == Some(stake)
    requires SettledFor(a.orders[id], id, a.book.entries, payout)
    ensures var b := CloseOrder(a, id, stake, payout, settledAt);
      && InTables(b, id) && OrderOk(b, id)
      && Exposure(a.orders[id], a.book.entries) == 0 == Exposure(b.orders[id], b.book.entries)
      && Evolves(a.orders[id], b.orders[id]) && b.orders[id].externalId == a.orders[id].externalId
  {
    assert OrderOk(a, id);
  }

  lemma CloseOrderKeepsInv(a: Tables, id: nat, stake: int, payout: int, settledAt: int)
    requires Inv(a) && InTables(a, id)
    requires a.orders[id].acceptedStake == Some(stake)
    requires SettledFor(a.orders[id], id, a.book.entries, payout)
    ensures Inv(CloseOrder(a, id, stake, payout, settledAt))
    ensures TablesEvolve(a, CloseOrder(a, id, stake, payout, settledAt))
  {
    hide Inv, TablesEvolve;
    if a.orders[id].status == Accepted {
      ClosedOrderOk(a, id, stake, payout, settledAt);
      RowKeepsInv(a, CloseOrder(a, id, stake, payout, settledAt), id);
    } else {
      TablesEvolveReflexive(a);
    }
  }

  // ---- Resolution ----

  /** Read between the grace delay and the maximum age. */
  predicate InWindow(order: Order, readAt: int) {
    order.unknownSince.Some? && 5 * 60 * 1000 <= readAt - order.unknownSince.value < 30 * 60 * 1000
  }

  predicate HasRoom(tables: Tables, id: nat)
    requires InTables(tables, id)
  {
    tables.book.accounts[tables.orders[id].account].balances.available + tables.orders[id].requestedStake <= MAX_COLUMN_CENTS
  }

  /**
   * An absent reading rejects the order and gives its stake back exactly within the window, as
   * far as the account's column has room; any other leaves the tables as they are, and past
   * the maximum age stops execution.
   */
  lemma AbsentReleasesWithinWindow(a: Tables, id: nat, readAt: int, now: int)
    requires Inv(a) && InTables(a, id) && a.orders[id].status == Unknown
    ensures
      var order, outcome := a.orders[id], ResolveUnknown(a, id, None, readAt, now);
      if InWindow(order, readAt) && HasRoom(a, id) then
        && outcome.Ok?
        && var after := outcome.value.0;
        && InTables(after, id) && after.orders[id].status == Rejected && after.orders[id].key == order.key
        && Lookup(after.book.entries, ReleaseKey(order.key)).Some?
        && Exposure(after.orders[id], after.book.entries) == 0
        && after.book.accounts[order.account].balances.available
           == a.book.accounts[order.account].balances.available + order.requestedStake
        && after.book.accounts[order.account].balances.reserved
           == a.book.accounts[order.account].balances.reserved - order.requestedStake
      else outcome.Ok? ==> outcome.value.0 == a
    ensures
      a.orders[id].unknownSince.Some? && readAt - a.orders[id].unknownSince.value >= UNKNOWN_MAX_AGE_MS ==>
        ResolveUnknown(a, id, None, readAt, now) == Ok((a, TooOld, Some(UnknownOrderTooOld)))
  {
    hide Inv;
    OrderOkOf(a, id);
    BookOf(a);
    CancelKeepsInv(a, id, {Unknown}, OperatorUnavailable, now);
    ReleaseNeverRefused(a, id, now);
    var order := a.orders[id];
    if InWindow(order, readAt) && HasRoom(a, id) {
      AppendEffect(a.book, order.account, ReleaseInput(order, id), now);
    }
  }

  lemma ResolveKeepsInv(a: Tables, id: nat, answer: Option<OperatorOrder>, readAt: int, now: int)
    requires Inv(a) && InTables(a, id)
    requires ResolveUnknown(a, id, answer, readAt, now).Ok?
    ensures var b := ResolveUnknown(a, id, answer, readAt, now).value.0;
      Inv(b) && TablesEvolve(a, b)
  {
    hide Inv, TablesEvolve, ApplyAcceptance, Cancel;
    if a.orders[id].status != Unknown {
      TablesEvolveReflexive(a);
    } else {
      if answer.Some? && answer.value.status != OpRejected {
        ApplyAcceptanceKeepsInv(a, id, answer.value, now);
      } else {
        CancelKeepsInv(a, id, {Unknown}, OperatorUnavailable, now);
        TablesEvolveReflexive(a);
      }
    }
  }

  lemma ApplyPlacementKeepsInv(a: Tables, id: nat, result: PlaceResult, now: int)
    requires Inv(a) && InTables(a, id)
    requires ApplyPlacement(a, id, result, now).Ok?
    ensures var b := ApplyPlacement(a, id, result, now).value.0;
      Inv(b) && TablesEvolve(a, b)
  {
    if result.PlaceAccepted? && WellFormedAcceptance(result) {
      ApplyAcceptanceKeepsInv(a, id, AcceptanceOf(result), now);
    } else if result.PlaceRejected? {
      CancelKeepsInv(a, id, {Submitting, Reserved}, result.code, now);
    } else {
      MarkUnknownKeepsInv(a, id, now);
    }
  }
}
