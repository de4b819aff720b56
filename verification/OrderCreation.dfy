/** Transactions that create rows or touch several orders at once keep the invariant. */
module OrderCreation {
  import opened Wrappers
  import opened Keys
  import opened Sums
  import opened Control
  import opened Ledger
  import opened Risk
  import opened Orders
  import opened OrderInvariant
  import opened OrderSteps

  // ---- Changes that concern no order ----

  /** New accounts, decisions and control rows: every order and what it rests on stays. */
  ghost predicate Grows(a: Tables, b: Tables) {
    && b.orders == a.orders
    && b.receipts == a.receipts
    && (forall key: EntryKey | !key.OpenKey? :: Lookup(b.book.entries, key) == Lookup(a.book.entries, key))
    && |a.book.accounts| <= |b.book.accounts|
    && (forall i | 0 <= i < |a.book.accounts| :: b.book.accounts[i] == a.book.accounts[i])
    && (forall i | |a.book.accounts| <= i < |b.book.accounts| :: b.book.accounts[i].balances.reserved == 0)
    && |a.decisions| <= |b.decisions|
    && (forall i | 0 <= i < |a.orders| && a.orders[i].decision < |a.decisions| ::
          b.decisions[a.orders[i].decision] == a.decisions[a.orders[i].decision])
  }

  lemma GrowsKeepsInv(a: Tables, b: Tables)
    requires Inv(a) && Grows(a, b)
    requires ControlInv(b.control) && WellFormed(b.book) && EntriesOwned(b)
    ensures Inv(b)
  {
    forall i | 0 <= i < |b.orders|
      ensures InTables(b, i) && OrderOk(b, i)
      ensures Exposure(b.orders[i], b.book.entries) == Exposure(a.orders[i], a.book.entries)
    {
      assert InTables(a, i) && OrderOk(a, i);
      var key := a.orders[i].key;
      assert Lookup(b.book.entries, ReserveKey(key)) == Lookup(a.book.entries, ReserveKey(key));
      assert Lookup(b.book.entries, ReleaseKey(key)) == Lookup(a.book.entries, ReleaseKey(key));
      assert Lookup(b.book.entries, PartialKey(key)) == Lookup(a.book.entries, PartialKey(key));
      assert Lookup(b.book.entries, SettleKey(key)) == Lookup(a.book.entries, SettleKey(key));
    }
    forall account | 0 <= account < |b.book.accounts|
      ensures b.book.accounts[account].balances.reserved == Sum(Exposures(b.orders, b.book.entries, account))
    {
      var exposures := Exposures(b.orders, b.book.entries, account);
      if account < |a.book.accounts| {
        assert exposures == Exposures(a.orders, a.book.entries, account);
      } else {
        forall i | 0 <= i < |exposures|
          ensures exposures[i] == 0
        {
          assert InTables(a, i);
        }
        SumZeros(exposures);
      }
    }
  }

  lemma RejectEligibleKeepsInv(a: Tables, decision: nat, code: RejectionCode)
    requires Inv(a)
    ensures Inv(RejectEligible(a, decision, code)) && TablesEvolve(a, RejectEligible(a, decision, code))
  {
    var b := RejectEligible(a, decision, code);
    TablesEvolveReflexive(a);
    forall i | 0 <= i < |a.orders|
      ensures a.orders[i].decision < |a.decisions|
      ensures b.decisions[a.orders[i].decision] == a.decisions[a.orders[i].decision]
    {
      assert InTables(a, i) && OrderOk(a, i);
    }
    GrowsKeepsInv(a, b);
  }

  lemma NewDecisionKeepsInv(a: Tables, decision: Decision)
    requires Inv(a)
    ensures Inv(a.(decisions := a.decisions + [decision])) && TablesEvolve(a, a.(decisions := a.decisions + [decision]))
  {
    TablesEvolveReflexive(a);
    GrowsKeepsInv(a, a.(decisions := a.decisions + [decision]));
  }

  lemma ControlStepKeepsInv(a: Tables, step: ControlStep)
    requires Inv(a)
    ensures Inv(a.(control := ControlNext(a.control, step)))
    ensures TablesEvolve(a, a.(control := ControlNext(a.control, step)))
  {
    StepKeepsControlInv(a.control, step);
    GrowsKeepsInv(a, a.(control := ControlNext(a.control, step)));
  }

  lemma OpenAccountKeepsInv(a: Tables, mode: Mode, operatorKey: string, currency: string, initial: int, now: int)
    requires Inv(a)
    requires OpenAccount(a.book, mode, operatorKey, currency, initial, now).Ok?
    ensures var b := a.(book := OpenAccount(a.book, mode, operatorKey, currency, initial, now).value);
      Inv(b) && TablesEvolve(a, b)
  {
    hide Inv, WellFormed;
    var b := a.(book := OpenAccount(a.book, mode, operatorKey, currency, initial, now).value);
    BookOf(a);
    ControlOf(a);
    OpenAccountKeepsWellFormed(a.book, mode, operatorKey, currency, initial, now);
    OpeningWrites(a, mode, operatorKey, currency, initial, now);
    GrowsKeepsInv(a, b);
    assert a.control.policies[..|a.control.policies|] == a.control.policies;
  }

  lemma ControlOf(a: Tables)
    requires Inv(a)
    ensures ControlInv(a.control) && EntriesOwned(a)
  {
  }

  /** Opening an account adds one row and one entry of its own. */
  lemma OpeningWrites(a: Tables, mode: Mode, operatorKey: string, currency: string, initial: int, now: int)
    requires WellFormed(a.book) && EntriesOwned(a)
    requires OpenAccount(a.book, mode, operatorKey, currency, initial, now).Ok?
    ensures var b := a.(book := OpenAccount(a.book, mode, operatorKey, currency, initial, now).value);
      && Grows(a, b) && EntriesOwned(b)
      && (forall key :: Lookup(a.book.entries, key).Some? ==> Lookup(b.book.entries, key) == Lookup(a.book.entries, key))
  {
    var started := Opening(a.book, mode, operatorKey, currency);
    var input := OpeningInput(|a.book.accounts|, initial);
    OpeningKeepsWellFormed(a.book, mode, operatorKey, currency);
    hide WellFormed, Append;
    KeyNotTaken(a, |a.book.accounts|, input, started, now);
    AppendEffect(started, |a.book.accounts|, input, now);
    var outcome := Append(started, |a.book.accounts|, input, now).value;
    OwnedAfterAppend(a, outcome.book.entries, a.orders, outcome.entry);
  }

  /** A replay of an opening would be a key of an account that does not exist yet. */
  lemma KeyNotTaken(a: Tables, account: nat, input: AppendInput, started: Book, now: int)
    requires WellFormed(a.book) && EntriesOwned(a) && account == |a.book.accounts|
    requires input.key == OpenKey(account) && started.entries == a.book.entries
    ensures Lookup(started.entries, input.key).None?
  {
    LookupFinds(a.book.entries, input.key);
    forall e | 0 <= e < |a.book.entries|
      ensures a.book.entries[e].key != input.key
    {
      assert Owned(a.book.entries[e], a.orders);
    }
  }

  // ---- A new order ----

  lemma {:induction false} DecisionHasNoOrder(orders: seq<Order>, decision: nat)
    ensures OrderOfDecision(orders, decision).None? <==> forall i | 0 <= i < |orders| :: orders[i].decision != decision
  {
    if orders != [] {
      DecisionHasNoOrder(orders[..|orders| - 1], decision);
    }
  }

  /** One order is added, its decision written, and nothing another order rests on changes. */
  ghost predicate Adds(a: Tables, b: Tables) {
    && |b.orders| == |a.orders| + 1
    && b.orders == a.orders + [b.orders[|a.orders|]]
    && b.control == a.control
    && b.receipts == a.receipts
    && InTables(b, |a.orders|)
    && !KeyUsed(a.orders, b.orders[|a.orders|].key)
    && (forall i | 0 <= i < |a.orders| :: a.orders[i].decision != b.orders[|a.orders|].decision)
    && b.orders[|a.orders|].externalId.None?
    && |b.decisions| == |a.decisions|
    && (forall d | 0 <= d < |a.decisions| && d != b.orders[|a.orders|].decision :: b.decisions[d] == a.decisions[d])
    && (forall key: EntryKey | !key.OpenKey? && key.order != b.orders[|a.orders|].key ::
          Lookup(b.book.entries, key) == Lookup(a.book.entries, key))
    && |b.book.accounts| == |a.book.accounts|
    && (forall i | 0 <= i < |a.book.accounts| && i != b.orders[|a.orders|].account ::
          b.book.accounts[i].balances.reserved == a.book.accounts[i].balances.reserved)
  }

  lemma OldOrderKept(a: Tables, b: Tables, j: nat)
    requires Inv(a) && Adds(a, b) && j < |a.orders|
    ensures InTables(b, j) && OrderOk(b, j)
    ensures Exposure(b.orders[j], b.book.entries) == Exposure(a.orders[j], a.book.entries)
  {
    var key := a.orders[j].key;
    assert InTables(a, j) && OrderOk(a, j);
    assert b.orders[j] == a.orders[j] && key != b.orders[|a.orders|].key;
    assert Lookup(b.book.entries, ReserveKey(key)) == Lookup(a.book.entries, ReserveKey(key));
    assert Lookup(b.book.entries, ReleaseKey(key)) == Lookup(a.book.entries, ReleaseKey(key));
    assert Lookup(b.book.entries, PartialKey(key)) == Lookup(a.book.entries, PartialKey(key));
    assert Lookup(b.book.entries, SettleKey(key)) == Lookup(a.book.entries, SettleKey(key));
  }

  lemma ReservesMatchOf(a: Tables)
    requires Inv(a)
    ensures ReservesMatch(a)
  {
  }

  lemma AddedExposures(a: Tables, b: Tables, account: nat)
    requires Inv(a) && Adds(a, b)
    ensures Sum(Exposures(b.orders, b.book.entries, account))
      == Sum(Exposures(a.orders, a.book.entries, account))
         + ExposureOn(b.orders[|a.orders|], b.book.entries, account)
  {
    hide Inv, OrderOk, Exposure, Adds, InTables;
    OneMoreOrder(a, b);
    var before, after := Exposures(a.orders, a.book.entries, account), Exposures(b.orders, b.book.entries, account);
    forall j | 0 <= j < |before|
      ensures after[j] == before[j]
    {
      OldOrderKept(a, b, j);
      assert b.orders[j] == a.orders[j];
    }
    assert after == before + [after[|before|]];
    SumAppend(before, after[|before|]);
  }

  lemma OneMoreOrder(a: Tables, b: Tables)
    requires Adds(a, b)
    ensures b.orders == a.orders + [b.orders[|a.orders|]]
    ensures |b.book.accounts| == |a.book.accounts| && b.orders[|a.orders|].account < |a.book.accounts|
    ensures forall i | 0 <= i < |a.book.accounts| && i != b.orders[|a.orders|].account ::
      b.book.accounts[i].balances.reserved == a.book.accounts[i].balances.reserved
  {
  }

  lemma AddsKeepsReserves(a: Tables, b: Tables)
    requires Inv(a) && Adds(a, b)
    requires var order := b.orders[|a.orders|];
      b.book.accounts[order.account].balances.reserved
      == a.book.accounts[order.account].balances.reserved + Exposure(order, b.book.entries)
    ensures ReservesMatch(b)
  {
    hide Inv, OrderOk, Exposure, Adds, InTables, Exposures;
    ReservesMatchOf(a);
    OneMoreOrder(a, b);
    forall account | 0 <= account < |b.book.accounts|
      ensures b.book.accounts[account].balances.reserved == Sum(Exposures(b.orders, b.book.entries, account))
    {
      AddedExposures(a, b, account);
    }
  }

  lemma AddsKeepsInv(a: Tables, b: Tables)
    requires Inv(a) && Adds(a, b) && OrderOk(b, |a.orders|)
    requires WellFormed(b.book) && EntriesOwned(b)
    requires var order := b.orders[|a.orders|];
      b.book.accounts[order.account].balances.reserved
      == a.book.accounts[order.account].balances.reserved + Exposure(order, b.book.entries)
    ensures Inv(b)
  {
    AddsKeepsReserves(a, b);
    forall j | 0 <= j < |b.orders|
      ensures InTables(b, j) && OrderOk(b, j)
    {
      if j < |a.orders| {
        OldOrderKept(a, b, j);
      }
    }
    assert DistinctOrders(b.orders);
  }

  lemma AddsEvolves(a: Tables, b: Tables)
    requires Adds(a, b)
    requires forall key :: Lookup(a.book.entries, key).Some? ==> Lookup(b.book.entries, key) == Lookup(a.book.entries, key)
    ensures TablesEvolve(a, b)
  {
    assert a.control.policies[..|a.control.policies|] == a.control.policies;
  }

  lemma NoReceiptYet(a: Tables)
    requires ReceiptsOk(a)
    ensures !HasReceipt(a.receipts, |a.orders|)
  {
  }

  lemma DeclinedKeepsInv(a: Tables, order: Order, code: RejectionCode)
    requires Inv(a) && order.status == Rejected && order.externalId.None?
    requires OrderRowOk(order)
    requires order.mode != Disabled && order.mode != LiveCanary
    requires !KeyUsed(a.orders, order.key) && order.decision < |a.decisions| && order.account < |a.book.accounts|
    requires SameDecision(a.decisions[order.decision], order)
    requires forall i | 0 <= i < |a.orders| :: a.orders[i].decision != order.decision
    ensures var b := RejectDecision(a.(orders := a.orders + [order]), order.decision, code);
      Inv(b) && TablesEvolve(a, b)
  {
    var b := RejectDecision(a.(orders := a.orders + [order]), order.decision, code);
    UnusedKeyUnbooked(a, order.key);
    NoReceiptYet(a);
    OwnedStays(a, b.orders);
    AddsKeepsInv(a, b);
    AddsEvolves(a, b);
  }

  lemma BookedKeepsInv(a: Tables, b: Tables, order: Order, now: int)
    requires Inv(a) && order.status == Reserved && order.externalId.None?
    requires OrderRowOk(order)
    requires order.mode != Disabled && order.mode != LiveCanary
    requires !KeyUsed(a.orders, order.key) && order.decision < |a.decisions| && order.account < |a.book.accounts|
    requires SameDecision(a.decisions[order.decision], order)
    requires forall i | 0 <= i < |a.orders| :: a.orders[i].decision != order.decision
    requires Append(a.book, order.account, ReserveInput(order, |a.orders|), now).Ok?
    requires b == a.(
      book := Append(a.book, order.account, ReserveInput(order, |a.orders|), now).value.book,
      orders := a.orders + [order],
      decisions := a.decisions[order.decision := a.decisions[order.decision].(status := OrderReserved)])
    ensures Inv(b) && TablesEvolve(a, b)
  {
    UnusedKeyUnbooked(a, order.key);
    NoReceiptYet(a);
    AppendEffect(a.book, order.account, ReserveInput(order, |a.orders|), now);
    OwnedAfterAppend(a, b.book.entries, b.orders, Append(a.book, order.account, ReserveInput(order, |a.orders|), now).value.entry);
    assert OrderOk(b, |a.orders|);
    AddsKeepsInv(a, b);
    AddsEvolves(a, b);
  }

  lemma CreateOrderKeepsInv(a: Tables, mode: Mode, operatorKey: string, decisionId: nat, account: nat, now: int,
                            clockOk: bool)
    requires Inv(a) && decisionId < |a.decisions| && a.decisions[decisionId].status == Eligible
    requires forall i | 0 <= i < |a.orders| :: a.orders[i].decision != decisionId
    requires mode != Disabled && mode != LiveCanary
    ensures var b := CreateOrder(a, mode, operatorKey, decisionId, account, now, clockOk).tables;
      Inv(b) && TablesEvolve(a, b)
  {
    hide Inv, TablesEvolve;
    var decision := a.decisions[decisionId];
    TablesEvolveReflexive(a);
    RejectEligibleKeepsInv(a, decisionId, NoExecutableOdd);
    RejectEligibleKeepsInv(a, decisionId, RiskCheckFailed);
    if decision.odd.Some? && decision.stake.Some? && decision.observedAt.Some? {
      var order := NewOrder(decision, decisionId, account, mode, operatorKey);
      if !KeyUsed(a.orders, order.key) && OrderRowOk(order) && account < |a.book.accounts| {
        UnusedKeyUnbooked(a, order.key);
        match ReserveWithin(a.control, a.book, mode, order, |a.orders|, decision.observedAt.value, now, clockOk)
        case Threw(_, _) =>
        case Declined(code, _) =>
          DeclinedKeepsInv(a, order.(status := Rejected, rejectionCode := Some(code), version := 2), code);
        case Booked(_) =>
          BookedKeepsInv(a, CreateOrder(a, mode, operatorKey, decisionId, account, now, clockOk).tables, order, now);
      }
    }
  }

  lemma ReserveOrderKeepsInv(a: Tables, ports: map<Mode, string>, decisionId: nat, account: nat, now: int,
                             interlockOpen: bool, clockOk: bool)
    requires Inv(a)
    ensures var b := ReserveOrder(a, ports, decisionId, account, now, interlockOpen, clockOk).tables;
      Inv(b) && TablesEvolve(a, b)
  {
    hide Inv, TablesEvolve;
    TablesEvolveReflexive(a);
    var locked := LockForExecution(a.control, interlockOpen);
    if OrderOfDecision(a.orders, decisionId).None? && locked.Ok? && PortFor(ports, locked.value).Some?
       && decisionId < |a.decisions| && a.decisions[decisionId].status == Eligible {
      DecisionHasNoOrder(a.orders, decisionId);
      CreateOrderKeepsInv(a, locked.value, PortFor(ports, locked.value).value, decisionId, account, now, clockOk);
    }
  }

  // ---- Several orders at once ----

  lemma RecoveredOk(a: Tables, readAt: int, i: nat)
    requires Inv(a) && i < |a.orders|
    ensures var b := RecoverStale(a, readAt);
      && Evolves(a.orders[i], b.orders[i]) && InTables(b, i) && OrderOk(b, i)
      && Exposure(b.orders[i], b.book.entries) == Exposure(a.orders[i], a.book.entries)
      && b.orders[i].externalId == a.orders[i].externalId
  {
    assert InTables(a, i) && OrderOk(a, i);
  }

  lemma RecoverStaleKeepsInv(a: Tables, readAt: int)
    requires Inv(a)
    ensures Inv(RecoverStale(a, readAt)) && TablesEvolve(a, RecoverStale(a, readAt))
  {
    hide OrderOk, Exposure;
    var b := RecoverStale(a, readAt);
    forall i | 0 <= i < |a.orders|
      ensures Evolves(a.orders[i], b.orders[i]) && InTables(b, i) && OrderOk(b, i)
      ensures Exposure(b.orders[i], b.book.entries) == Exposure(a.orders[i], a.book.entries)
      ensures b.orders[i].externalId == a.orders[i].externalId
    {
      RecoveredOk(a, readAt, i);
    }
    forall account | 0 <= account < |b.book.accounts|
      ensures b.book.accounts[account].balances.reserved == Sum(Exposures(b.orders, b.book.entries, account))
    {
      assert Exposures(b.orders, b.book.entries, account) == Exposures(a.orders, a.book.entries, account);
    }
    OwnedStays(a, b.orders);
    assert DistinctOrders(b.orders);
    assert a.control.policies[..|a.control.policies|] == a.control.policies;
  }
}
