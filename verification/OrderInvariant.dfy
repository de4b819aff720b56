/**
 * What holds in every state of the tables: each order's status says exactly which ledger
 * entries and which receipt it has, and each account's reserved balance is the sum of what
 * its orders hold.
 */
module OrderInvariant {
  import opened Wrappers
  import opened Keys
  import opened Sums
  import opened Control
  import opened Ledger
  import opened Risk
  import opened Orders

  // ---- One order ----

  predicate BookedAs(entries: seq<Entry>, key: EntryKey, account: nat, order: nat, entryType: EntryType, effect: Effect) {
    var found := Lookup(entries, key);
    && found.Some?
    && found.value.account == account
    && found.value.order == Some(order)
    && found.value.entryType == entryType
    && found.value.effect == effect
  }

  predicate ReserveBooked(order: Order, id: nat, entries: seq<Entry>) {
    BookedAs(entries, ReserveKey(order.key), order.account, id, Reserve, Effect(-order.requestedStake, order.requestedStake))
  }

  /** The whole requested stake is held. */
  predicate Held(order: Order, id: nat, entries: seq<Entry>) {
    && ReserveBooked(order, id, entries)
    && Lookup(entries, ReleaseKey(order.key)).None?
    && Lookup(entries, PartialKey(order.key)).None?
    && Lookup(entries, SettleKey(order.key)).None?
  }

  /** Nothing is held: never reserved, or reserved and released in full. */
  predicate Returned(order: Order, id: nat, entries: seq<Entry>) {
    && Lookup(entries, PartialKey(order.key)).None?
    && Lookup(entries, SettleKey(order.key)).None?
    && (Lookup(entries, ReserveKey(order.key)).Some? <==> Lookup(entries, ReleaseKey(order.key)).Some?)
    && (Lookup(entries, ReserveKey(order.key)).Some? ==>
          && ReserveBooked(order, id, entries)
          && BookedAs(entries, ReleaseKey(order.key), order.account, id, Release,
                      Effect(order.requestedStake, -order.requestedStake)))
  }

  /** The accepted stake is at the operator and the rest was released. */
  predicate Taken(order: Order, id: nat, entries: seq<Entry>) {
    && order.externalId.Some?
    && order.acceptedOdd.Some? && order.acceptedOdd.value >= order.minimumOdd
    && order.acceptedStake.Some?
    && 0 < order.acceptedStake.value <= order.requestedStake
    && ReserveBooked(order, id, entries)
    && Lookup(entries, ReleaseKey(order.key)).None?
    && var unused := order.requestedStake - order.acceptedStake.value;
    if unused == 0 then Lookup(entries, PartialKey(order.key)).None?
    else BookedAs(entries, PartialKey(order.key), order.account, id, Release, Effect(unused, -unused))
  }

  predicate SettledFor(order: Order, id: nat, entries: seq<Entry>, payout: int)
    requires order.acceptedStake.Some?
  {
    BookedAs(entries, SettleKey(order.key), order.account, id, Settle, Effect(payout, -order.acceptedStake.value))
  }

  predicate StakeOk(order: Order, id: nat, entries: seq<Entry>) {
    match order.status
    case Rejected => Returned(order, id, entries)
    case Accepted =>
      && Taken(order, id, entries)
      && (Lookup(entries, SettleKey(order.key)).Some? ==>
            SettledFor(order, id, entries, Lookup(entries, SettleKey(order.key)).value.effect.amount))
    case Settled =>
      && Taken(order, id, entries)
      && order.payout.Some?
      && order.payout != order.acceptedStake
      && SettledFor(order, id, entries, order.payout.value)
    case Voided =>
      && Taken(order, id, entries)
      && order.payout.Some?
      && order.payout == order.acceptedStake
      && SettledFor(order, id, entries, order.payout.value)
    case _ => Held(order, id, entries)
  }

  predicate WasAccepted(status: OrderStatus) {
    status == Accepted || status == Settled || status == Voided
  }

  /** The order is about what its decision decided. */
  predicate SameDecision(decision: Decision, order: Order) {
    && decision.stake == Some(order.requestedStake)
    && decision.minimumOdd == order.minimumOdd
    && order.key == OrderKeyOf(order.mode, order.operatorKey, decision)
  }

  /** The decision tells what became of its order. */
  predicate DecisionMatches(decision: Decision, order: Order) {
    SameDecision(decision, order)
    && (WasAccepted(order.status) ==> decision.executableOdd == order.acceptedOdd)
    && match order.status
    case Rejected => decision.status == DecisionRejected
    case Settled => decision.status == Completed && decision.outcome != Some(Void)
                    && (order.payout.Some? && order.acceptedStake.Some? ==>
                          decision.profit == Some(order.payout.value - order.acceptedStake.value))
    case Voided => decision.status == Completed && decision.outcome == Some(Void) && decision.profit == Some(0)
    case _ => decision.status == OrderReserved
  }

  predicate OrderOk(tables: Tables, id: nat)
    requires InTables(tables, id)
  {
    var order := tables.orders[id];
    && 0 < order.requestedStake <= MAX_COLUMN_CENTS
    && order.mode != Disabled && order.mode != LiveCanary
    && order.requestedOdd >= order.minimumOdd > 1000
    && StakeOk(order, id, tables.book.entries)
    && (HasReceipt(tables.receipts, id) <==> WasAccepted(order.status))
    && (!WasAccepted(order.status) ==> order.externalId.None?)
    && (order.status == Submitting ==> order.submittedAt.Some?)
    && (order.status == Unknown ==> order.unknownSince.Some?)
    && DecisionMatches(tables.decisions[order.decision], order)
  }

  // ---- All orders ----

  /** What an order holds of its account. */
  function Exposure(order: Order, entries: seq<Entry>): int {
    match order.status
    case Reserved => order.requestedStake
    case Submitting => order.requestedStake
    case Unknown => order.requestedStake
    case ReconciliationRequired => order.requestedStake
    case Accepted =>
      if Lookup(entries, SettleKey(order.key)).None? && order.acceptedStake.Some? then order.acceptedStake.value else 0
    case _ => 0
  }

  function ExposureOn(order: Order, entries: seq<Entry>, account: nat): int {
    if order.account == account then Exposure(order, entries) else 0
  }

  function Exposures(orders: seq<Order>, entries: seq<Entry>, account: nat): (result: seq<int>)
    ensures |result| == |orders|
    ensures forall i | 0 <= i < |orders| :: result[i] == ExposureOn(orders[i], entries, account)
  {
    seq(|orders|, i requires 0 <= i < |orders| => ExposureOn(orders[i], entries, account))
  }

  ghost predicate ReservesMatch(tables: Tables) {
    forall a | 0 <= a < |tables.book.accounts| ::
      tables.book.accounts[a].balances.reserved == Sum(Exposures(tables.orders, tables.book.entries, a))
  }

  ghost predicate DistinctOrders(orders: seq<Order>) {
    && (forall i, j | 0 <= i < j < |orders| :: orders[i].key != orders[j].key)
    && (forall i, j | 0 <= i < j < |orders| :: orders[i].decision != orders[j].decision)
    && (forall i, j | 0 <= i < j < |orders| :: orders[i].operatorKey == orders[j].operatorKey && orders[i].externalId.Some? ==>
          orders[i].externalId != orders[j].externalId)
  }

  /** An opening is the adjustment of its account; every other entry belongs to the order whose key it carries. */
  predicate Owned(entry: Entry, orders: seq<Order>) {
    if entry.key.OpenKey? then entry.entryType.Adjustment? && entry.key.account == entry.account
    else entry.order.Some? && entry.order.value < |orders| && orders[entry.order.value].key == entry.key.order
  }

  ghost predicate EntriesOwned(tables: Tables) {
    forall e | 0 <= e < |tables.book.entries| :: Owned(tables.book.entries[e], tables.orders)
  }

  ghost predicate ReceiptsOk(tables: Tables) {
    && (forall r | 0 <= r < |tables.receipts| :: tables.receipts[r].order < |tables.orders|)
    && (forall q, r | 0 <= q < r < |tables.receipts| ::
          tables.receipts[q].hash != tables.receipts[r].hash && tables.receipts[q].order != tables.receipts[r].order)
  }

  ghost predicate Inv(tables: Tables) {
    && ControlInv(tables.control)
    && WellFormed(tables.book)
    && DistinctOrders(tables.orders)
    && (forall i | 0 <= i < |tables.orders| :: InTables(tables, i) && OrderOk(tables, i))
    && EntriesOwned(tables)
    && ReceiptsOk(tables)
    && ReservesMatch(tables)
  }

  // ---- What is never undone ----

  /** The states an order can still reach, itself included. */
  predicate CanBecome(from: OrderStatus, to: OrderStatus) {
    match from
    case Reserved => true
    case Submitting => to != Reserved
    case Unknown => to != Reserved && to != Submitting
    case Accepted => WasAccepted(to)
    case _ => to == from
  }

  predicate SameIdentity(a: Order, b: Order) {
    && a.decision == b.decision
    && a.account == b.account
    && a.mode == b.mode
    && a.operatorKey == b.operatorKey
    && a.key == b.key
    && a.requestedStake == b.requestedStake
    && a.minimumOdd == b.minimumOdd
  }

  predicate Evolves(a: Order, b: Order) {
    && SameIdentity(a, b)
    && CanBecome(a.status, b.status)
    && (WasAccepted(a.status) ==>
          b.acceptedStake == a.acceptedStake && b.acceptedOdd == a.acceptedOdd && b.externalId == a.externalId)
    && (a.submittedAt.Some? && a.status != Reserved ==> b.submittedAt == a.submittedAt)
  }

  ghost predicate TablesEvolve(a: Tables, b: Tables) {
    && |a.orders| <= |b.orders|
    && (forall i | 0 <= i < |a.orders| :: Evolves(a.orders[i], b.orders[i]))
    && (forall key :: Lookup(a.book.entries, key).Some? ==> Lookup(b.book.entries, key) == Lookup(a.book.entries, key))
    && |a.book.accounts| <= |b.book.accounts|
    && (forall i | 0 <= i < |a.orders| && HasReceipt(a.receipts, i) :: HasReceipt(b.receipts, i))
    && |a.control.policies| <= |b.control.policies|
    && b.control.policies[..|a.control.policies|] == a.control.policies
  }

  lemma EvolvesTransitive(a: Tables, b: Tables, c: Tables)
    requires TablesEvolve(a, b) && TablesEvolve(b, c)
    ensures TablesEvolve(a, c)
  {
    forall i | 0 <= i < |a.orders|
      ensures Evolves(a.orders[i], c.orders[i])
    {
      assert Evolves(a.orders[i], b.orders[i]);
      assert Evolves(b.orders[i], c.orders[i]);
    }
    var n := |a.control.policies|;
    assert c.control.policies[..n] == c.control.policies[..|b.control.policies|][..n];
  }

  // ---- Steps of proof ----

  lemma ReceiptAdded(receipts: seq<Receipt>, receipt: Receipt, id: nat)
    ensures HasReceipt(receipts + [receipt], id) <==> HasReceipt(receipts, id) || receipt.order == id
  {
    var longer := receipts + [receipt];
    if HasReceipt(receipts, id) {
      var i :| 0 <= i < |receipts| && receipts[i].order == id;
      assert longer[i].order == id;
    }
    if receipt.order == id {
      assert longer[|receipts|].order == id;
    }
  }

  /** What a fresh movement changes: one entry, one row. */
  lemma AppendEffect(book: Book, account: nat, input: AppendInput, now: int)
    requires WellFormed(book) && account < |book.accounts|
    requires Lookup(book.entries, input.key).None?
    requires Append(book, account, input, now).Ok?
    ensures
      var outcome := Append(book, account, input, now).value;
      && !outcome.replayed
      && WellFormed(outcome.book)
      && outcome.book.entries == book.entries + [outcome.entry]
      && outcome.entry.key == input.key && outcome.entry.account == account && outcome.entry.order == input.order
      && outcome.entry.entryType == input.entryType && outcome.entry.createdAt == now
      && MovementEffect(input.entryType, input.movement) == Ok(outcome.entry.effect)
      && (forall key :: Lookup(outcome.book.entries, key)
                        == if key == input.key then Some(outcome.entry) else Lookup(book.entries, key))
      && |outcome.book.accounts| == |book.accounts|
      && (forall a | 0 <= a < |book.accounts| && a != account :: outcome.book.accounts[a] == book.accounts[a])
      && outcome.book.accounts[account].balances.reserved
         == book.accounts[account].balances.reserved + outcome.entry.effect.reservedDelta
  {
    var outcome := Append(book, account, input, now).value;
    LookupAppend(book.entries, outcome.entry);
    AppendKeepsWellFormed(book, account, input, now);
  }

  /** An account holds at least what any one of its orders holds. */
  lemma ReservedCovers(tables: Tables, id: nat)
    requires Inv(tables) && id < |tables.orders|
    ensures InTables(tables, id)
    ensures 0 <= Exposure(tables.orders[id], tables.book.entries)
            <= tables.book.accounts[tables.orders[id].account].balances.reserved
  {
    var account := tables.orders[id].account;
    var exposures := Exposures(tables.orders, tables.book.entries, account);
    forall j | 0 <= j < |exposures|
      ensures exposures[j] >= 0
    {
      assert InTables(tables, j) && OrderOk(tables, j);
    }
    assert InTables(tables, id);
    SumDominates(exposures, id);
  }

  /** A transaction about one order that leaves every other order, and what it rests on, alone. */
  ghost predicate Touches(a: Tables, b: Tables, id: nat) {
    && id < |a.orders| == |b.orders|
    && b.orders == a.orders[id := b.orders[id]]
    && SameIdentity(a.orders[id], b.orders[id])
    && b.control == a.control
    && |b.decisions| == |a.decisions|
    && (forall d | 0 <= d < |a.decisions| && d != a.orders[id].decision :: b.decisions[d] == a.decisions[d])
    && (forall j: nat | j != id :: HasReceipt(b.receipts, j) <==> HasReceipt(a.receipts, j))
    && (forall key: EntryKey | !key.OpenKey? && key.order != a.orders[id].key ::
          Lookup(b.book.entries, key) == Lookup(a.book.entries, key))
    && |b.book.accounts| == |a.book.accounts|
    && (forall i | 0 <= i < |a.book.accounts| && i != a.orders[id].account ::
          b.book.accounts[i].balances.reserved == a.book.accounts[i].balances.reserved)
  }

  lemma OthersKeep(a: Tables, b: Tables, id: nat, j: nat)
    requires Inv(a) && Touches(a, b, id) && j < |a.orders| && j != id
    ensures InTables(b, j) && OrderOk(b, j)
    ensures Exposure(b.orders[j], b.book.entries) == Exposure(a.orders[j], a.book.entries)
  {
    var order := a.orders[j];
    assert InTables(a, j) && OrderOk(a, j);
    assert order.key != a.orders[id].key && order.decision != a.orders[id].decision;
    assert Lookup(b.book.entries, ReserveKey(order.key)) == Lookup(a.book.entries, ReserveKey(order.key));
    assert Lookup(b.book.entries, ReleaseKey(order.key)) == Lookup(a.book.entries, ReleaseKey(order.key));
    assert Lookup(b.book.entries, PartialKey(order.key)) == Lookup(a.book.entries, PartialKey(order.key));
    assert Lookup(b.book.entries, SettleKey(order.key)) == Lookup(a.book.entries, SettleKey(order.key));
  }

  lemma TouchKeepsReserves(a: Tables, b: Tables, id: nat)
    requires Inv(a) && Touches(a, b, id)
    requires InTables(a, id)
    requires b.book.accounts[a.orders[id].account].balances.reserved
      == a.book.accounts[a.orders[id].account].balances.reserved
         - Exposure(a.orders[id], a.book.entries) + Exposure(b.orders[id], b.book.entries)
    ensures ReservesMatch(b)
  {
    forall account | 0 <= account < |b.book.accounts|
      ensures b.book.accounts[account].balances.reserved == Sum(Exposures(b.orders, b.book.entries, account))
    {
      var before, after := Exposures(a.orders, a.book.entries, account), Exposures(b.orders, b.book.entries, account);
      forall j | 0 <= j < |after|
        ensures after[j] == before[id := after[id]][j]
      {
        if j != id {
          OthersKeep(a, b, id, j);
        }
      }
      assert after == before[id := after[id]];
      SumUpdate(before, id, after[id]);
    }
  }

  /** Enough to check: the order itself, its account, and the rows added. */
  lemma TouchKeepsInv(a: Tables, b: Tables, id: nat)
    requires Inv(a) && Touches(a, b, id)
    requires InTables(a, id) && InTables(b, id) && OrderOk(b, id)
    requires WellFormed(b.book) && EntriesOwned(b) && ReceiptsOk(b) && DistinctOrders(b.orders)
    requires b.book.accounts[a.orders[id].account].balances.reserved
      == a.book.accounts[a.orders[id].account].balances.reserved
         - Exposure(a.orders[id], a.book.entries) + Exposure(b.orders[id], b.book.entries)
    ensures Inv(b)
  {
    TouchKeepsReserves(a, b, id);
    forall j | 0 <= j < |b.orders|
      ensures InTables(b, j) && OrderOk(b, j)
    {
      if j != id {
        OthersKeep(a, b, id, j);
      }
    }
  }
}
