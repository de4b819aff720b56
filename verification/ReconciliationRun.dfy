/**
 * A reconciliation run: operator answers are read, ambiguous orders resolved, settled orders
 * settled, every order compared, the balance checked; anything critical stops execution.
 */
module ReconciliationRun {
  import opened Wrappers
  import opened Keys
  import opened Control
  import opened Ledger
  import opened Risk
  import opened Orders
  import opened OrderInvariant
  import opened OrderSteps
  import opened OrderCreation
  import opened Abandoned
  import opened PipelineInvariant
  import opened Overlaps
  import opened Reconciliation
  import opened Database
  import opened OrderService
  import opened ControlService

  datatype Lookup = Failed(reason: string) | Absent | FoundAs(order: OperatorOrder)

  datatype OperatorBalance = OperatorBalance(currency: string, available: int, exposure: int)

  /** What a run reads from outside, and the reasons stored beside the orders. */
  datatype Readings = Readings(
    lookups: map<OrderKey, Lookup>,
    reasons: map<nat, string>,
    balance: Option<OperatorBalance>,
    tracked: bool,
    at: int,
    now: int)

  predicate LookedUp(status: OrderStatus) {
    status != Reserved && status != Submitting
  }

  predicate Unreadable(order: Order, readings: Readings) {
    order.key !in readings.lookups || readings.lookups[order.key].Failed?
  }

  function AnswerOf(order: Order, readings: Readings): Option<OperatorOrder> {
    if order.key in readings.lookups && readings.lookups[order.key].FoundAs? && LookedUp(order.status)
    then Some(readings.lookups[order.key].order)
    else None
  }

  // ---- First loop: what the operator could not say ----

  function FailureItem(order: Order, id: nat, readings: Readings): Draft {
    var reason := if order.key in readings.lookups && readings.lookups[order.key].Failed?
      then readings.lookups[order.key].reason else "Résultat absent";
    Item(id, OrderItem, Unresolved, Critical, "LOOKUP_FAILED : " + reason)
  }

  function Failures(orders: seq<Order>, rows: seq<nat>, readings: Readings): seq<Draft>
    requires AreOrders(rows, orders)
  {
    if rows == [] then []
    else
      var id := rows[|rows| - 1];
      Failures(orders, rows[..|rows| - 1], readings)
      + if LookedUp(orders[id].status) && Unreadable(orders[id], readings)
        then [FailureItem(orders[id], id, readings)] else []
  }

  // ---- Second loop: resolutions and settlements ----

  function Halted(tables: Tables): Tables {
    tables.(control := Stop(tables.control, "", Automatic))
  }

  /** Both transactions of a settlement, and the stop if the day's loss is reached. */
  function Settling(tables: Tables, id: nat, answer: OperatorOrder, now: int): Result<Tables, LedgerError>
    requires InTables(tables, id)
  {
    var order := tables.orders[id];
    if order.status != Accepted || order.acceptedStake.None? || answer.status !in {OpSettled, OpVoided}
       || answer.payout.None? || !(0 <= answer.payout.value <= MAX_COLUMN_CENTS)
    then Ok(tables)
    else
      var stake, payout := order.acceptedStake.value, answer.payout.value;
      match SettleStake(tables, id, stake, payout, now)
      case Err(e) => Err(e)
      case Ok((booked, lossReached)) =>
        var settledAt := if answer.settledAt.Some? then answer.settledAt.value else now;
        var closed := CloseOrder(if lossReached then Halted(booked) else booked, id, stake, payout, settledAt);
        Ok(closed)
  }

  function ResolutionItem(id: nat, resolution: Resolution): Draft {
    match resolution
    case Pending => Item(id, OrderItem, Unresolved, Warning, "UNKNOWN → PENDING")
    case TooOld => Item(id, OrderItem, Mismatch, Critical, "UNKNOWN → TOO_OLD")
    case NeedsReconciliation => Item(id, OrderItem, Mismatch, Critical, "UNKNOWN → RECONCILIATION_REQUIRED")
    case ResolvedAccepted => Item(id, OrderItem, Resolved, Info, "UNKNOWN → ACCEPTED")
    case ResolvedSettled => Item(id, OrderItem, Resolved, Info, "UNKNOWN → SETTLED")
    case ResolvedRejected => Item(id, OrderItem, Resolved, Info, "UNKNOWN → REJECTED")
    case DeclaredNotPlaced => Item(id, OrderItem, Resolved, Info, "UNKNOWN → DECLARED_NOT_PLACED")
  }

  function ResolveRow(tables: Tables, id: nat, readings: Readings): Result<(Tables, seq<Draft>), LedgerError>
    requires InTables(tables, id)
  {
    var order := tables.orders[id];
    var answer := AnswerOf(order, readings);
    if Unreadable(order, readings) then Ok((tables, []))
    else if order.status == Unknown then
      match ResolveUnknown(tables, id, answer, readings.at, readings.now)
      case Err(e) => Err(e)
      case Ok((resolved, resolution, stop)) =>
        var after := if stop.Some? then Halted(resolved) else resolved;
        if resolution == ResolvedSettled && answer.Some? && InTables(after, id) then
          match Settling(after, id, answer.value, readings.now)
          case Err(e) => Err(e)
          case Ok(settled) => Ok((settled, [ResolutionItem(id, resolution)]))
        else Ok((after, [ResolutionItem(id, resolution)]))
    else if order.status == Accepted && answer.Some? && answer.value.status in {OpSettled, OpVoided} then
      match Settling(tables, id, answer.value, readings.now)
      case Err(e) => Err(e)
      case Ok(settled) => Ok((settled, [Item(id, SettlementItem, Resolved, Info, "Règlement opérateur")]))
    else Ok((tables, []))
  }

  function ResolveRows(tables: Tables, rows: seq<nat>, readings: Readings): Result<(Tables, seq<Draft>), LedgerError> {
    if rows == [] then Ok((tables, []))
    else
      match ResolveRows(tables, rows[..|rows| - 1], readings)
      case Err(e) => Err(e)
      case Ok((done, drafts)) =>
        if !InTables(done, rows[|rows| - 1]) then Ok((done, drafts))
        else
          match ResolveRow(done, rows[|rows| - 1], readings)
          case Err(e) => Err(e)
          case Ok((after, items)) => Ok((after, drafts + items))
  }

  // ---- Third loop: comparisons ----

  function Compare(tables: Tables, id: nat, keys: set<EntryKey>, readings: Readings): seq<Draft>
    requires id < |tables.orders|
  {
    var order := tables.orders[id];
    if order.status == Unknown then []
    else if LookedUp(order.status) && order.key in readings.lookups && readings.lookups[order.key].Failed? then []
    else
      CompareOrder(order, id, if id in readings.reasons then Some(readings.reasons[id]) else None,
                   AnswerOf(order, readings), HasReceipt(tables.receipts, id), keys, readings.tracked)
  }

  function Comparisons(tables: Tables, rows: seq<nat>, keys: set<EntryKey>, readings: Readings): seq<Draft>
    requires AreOrders(rows, tables.orders)
  {
    if rows == [] then []
    else Comparisons(tables, rows[..|rows| - 1], keys, readings) + Compare(tables, rows[|rows| - 1], keys, readings)
  }

  // ---- The balance and the ledger itself ----

  predicate Awaiting(status: OrderStatus) {
    status == Reserved || status == Submitting || status == Unknown
  }

  function BalanceItems(tables: Tables, account: nat, rows: seq<nat>, readings: Readings): seq<Draft>
    requires account < |tables.book.accounts| && AreOrders(rows, tables.orders)
  {
    var row := tables.book.accounts[account];
    if !readings.tracked then []
    else if exists r | 0 <= r < |rows| :: Awaiting(tables.orders[rows[r]].status)
    then [Draft(None, BalanceItem, Unresolved, Warning, "Solde non comparable")]
    else
      match readings.balance
      case None => [Draft(None, BalanceItem, Unresolved, Critical, "Solde opérateur illisible")]
      case Some(balance) =>
        if balance == OperatorBalance(row.currency, row.balances.available, row.balances.reserved)
        then [Draft(None, BalanceItem, Match, Info, "Solde concordant")]
        else [Draft(None, BalanceItem, Mismatch, Critical, "Solde opérateur divergent")]
  }

  function InvariantItems(book: Book, account: nat): seq<Draft>
    requires account < |book.accounts|
  {
    if VerifyInvariant(book, account) then []
    else [Draft(None, LedgerItem, Mismatch, Critical, "Invariant du ledger rompu")]
  }

  // ---- What a run guarantees ----

  lemma HaltedKeepsInv(tables: Tables)
    requires Inv(tables)
    ensures Inv(Halted(tables)) && TablesEvolve(tables, Halted(tables))
    ensures CurrentMode(Halted(tables).control) == Disabled
  {
    ControlStepKeepsInv(tables, DoStop("", Automatic));
  }

  lemma SettlingKeepsInv(tables: Tables, id: nat, answer: OperatorOrder, now: int)
    requires Inv(tables) && InTables(tables, id)
    requires Settling(tables, id, answer, now).Ok?
    ensures Inv(Settling(tables, id, answer, now).value) && TablesEvolve(tables, Settling(tables, id, answer, now).value)
  {
    hide Inv, TablesEvolve, SettleStake, CloseOrder;
    TablesEvolveReflexive(tables);
    OrderOkOf(tables, id);
    var order := tables.orders[id];
    if order.status == Accepted && answer.payout.Some? && 0 <= answer.payout.value <= MAX_COLUMN_CENTS
       && answer.status in {OpSettled, OpVoided} {
      var stake, payout := order.acceptedStake.value, answer.payout.value;
      SettleStakeKeepsInv(tables, id, stake, payout, now);
      var (booked, lossReached) := SettleStake(tables, id, stake, payout, now).value;
      HaltedKeepsInv(booked);
      var next := if lossReached then Halted(booked) else booked;
      TablesEvolveReflexive(booked);
      EvolvesTransitive(tables, booked, next);
      StillInTables(next, id);
      CloseOrderKeepsInv(next, id, stake, payout, if answer.settledAt.Some? then answer.settledAt.value else now);
      EvolvesTransitive(tables, next, Settling(tables, id, answer, now).value);
    }
  }

  lemma RowItemsAccuseNobody(tables: Tables, id: nat, readings: Readings)
    requires InTables(tables, id) && ResolveRow(tables, id, readings).Ok?
    ensures
      var items := ResolveRow(tables, id, readings).value.1;
      |items| <= 1 && (items != [] ==> !Accuses(items[0]))
  {
    hide ResolveUnknown, Settling;
  }

  lemma ResolveRowKeepsInv(tables: Tables, id: nat, readings: Readings)
    requires Inv(tables) && InTables(tables, id)
    requires ResolveRow(tables, id, readings).Ok?
    ensures
      var (after, items) := ResolveRow(tables, id, readings).value;
      && Inv(after) && TablesEvolve(tables, after) && !HasAccusation(items)
  {
    hide Inv, TablesEvolve, ResolveUnknown, Settling, Item;
    TablesEvolveReflexive(tables);
    var order := tables.orders[id];
    var answer := AnswerOf(order, readings);
    var (after, items) := ResolveRow(tables, id, readings).value;
    Single(items);
    RowItemsAccuseNobody(tables, id, readings);
    if !Unreadable(order, readings) {
      if order.status == Unknown {
        ResolveKeepsInv(tables, id, answer, readings.at, readings.now);
        var (resolved, resolution, stop) := ResolveUnknown(tables, id, answer, readings.at, readings.now).value;
        HaltedKeepsInv(resolved);
        var next := if stop.Some? then Halted(resolved) else resolved;
        TablesEvolveReflexive(resolved);
        EvolvesTransitive(tables, resolved, next);
        if resolution == ResolvedSettled && answer.Some? && InTables(next, id) {
          SettlingKeepsInv(next, id, answer.value, readings.now);
          EvolvesTransitive(tables, next, after);
        }
      } else if order.status == Accepted && answer.Some? && answer.value.status in {OpSettled, OpVoided} {
        SettlingKeepsInv(tables, id, answer.value, readings.now);
      }
    }
  }

  lemma {:induction false} ResolveRowsKeepInv(tables: Tables, rows: seq<nat>, readings: Readings)
    requires Inv(tables) && ResolveRows(tables, rows, readings).Ok?
    ensures
      var (after, items) := ResolveRows(tables, rows, readings).value;
      && Inv(after) && TablesEvolve(tables, after) && !HasAccusation(items)
  {
    hide Inv, TablesEvolve, ResolveRow, HasAccusation;
    if rows == [] {
      TablesEvolveReflexive(tables);
      Single(ResolveRows(tables, rows, readings).value.1);
    } else {
      var init, id := rows[..|rows| - 1], rows[|rows| - 1];
      ResolveRowsKeepInv(tables, init, readings);
      var (done, drafts) := ResolveRows(tables, init, readings).value;
      if InTables(done, id) {
        ResolveRowKeepsInv(done, id, readings);
        var (after, items) := ResolveRow(done, id, readings).value;
        EvolvesTransitive(tables, done, after);
        Joined(drafts, items);
      }
    }
  }

  /** An order the operator was read not to know, UNKNOWN for thirty minutes or more. */
  predicate TooLongAbsent(tables: Tables, id: nat, readings: Readings) {
    && id < |tables.orders| && tables.orders[id].status == Unknown && tables.orders[id].unknownSince.Some?
    && tables.orders[id].key in readings.lookups && readings.lookups[tables.orders[id].key].Absent?
    && readings.at - tables.orders[id].unknownSince.value >= 30 * 60 * 1000
  }

  lemma ResolveRowAlerts(tables: Tables, id: nat, readings: Readings)
    requires Inv(tables) && InTables(tables, id) && ResolveRow(tables, id, readings).Ok?
    ensures
      var (after, items) := ResolveRow(tables, id, readings).value;
      && |after.orders| == |tables.orders|
      && (forall i | 0 <= i < |tables.orders| && i != id :: after.orders[i] == tables.orders[i])
      && (HasCritical(items) ==> TooLongAbsent(after, id, readings) || SetAside(after, id))
      && (TooLongAbsent(after, id, readings) <==> TooLongAbsent(tables, id, readings))
      && (TooLongAbsent(after, id, readings) ==> HasCritical(items))
      && (SetAside(tables, id) ==> SetAside(after, id))
  {
    hide Inv, Settling, ApplyAcceptance, Cancel, Truncated, ResolveUnknown;
    var order, answer := tables.orders[id], AnswerOf(tables.orders[id], readings);
    var (after, items) := ResolveRow(tables, id, readings).value;
    OrderOkOf(tables, id);
    RowItemsAccuseNobody(tables, id, readings);
    Single(items);
    if !Unreadable(order, readings) {
      if order.status == Unknown {
        ResolvedAlerts(tables, id, answer, readings.at, readings.now);
        var resolved := ResolveUnknown(tables, id, answer, readings.at, readings.now).value;
        var next := if resolved.2.Some? then Halted(resolved.0) else resolved.0;
        if answer.Some? && InTables(next, id) {
          SettlingChangesOne(next, id, answer.value, readings.now);
          SettlingNeverAside(next, id, answer.value, readings.now);
        }
      } else if answer.Some? {
        SettlingChangesOne(tables, id, answer.value, readings.now);
        SettlingNeverAside(tables, id, answer.value, readings.now);
      }
    }
  }

  /** What one reading of an UNKNOWN order leaves of it. */
  lemma ResolvedAlerts(tables: Tables, id: nat, answer: Option<OperatorOrder>, readAt: int, now: int)
    requires InTables(tables, id) && tables.orders[id].status == Unknown && tables.orders[id].unknownSince.Some?
    requires ResolveUnknown(tables, id, answer, readAt, now).Ok?
    ensures
      var (after, resolution, stop) := ResolveUnknown(tables, id, answer, readAt, now).value;
      && |after.orders| == |tables.orders|
      && (forall i | 0 <= i < |tables.orders| && i != id :: after.orders[i] == tables.orders[i])
      && (resolution == NeedsReconciliation <==> after.orders[id].status == ReconciliationRequired)
      && (resolution == TooOld <==> answer.None? && readAt - tables.orders[id].unknownSince.value >= UNKNOWN_MAX_AGE_MS)
      && (resolution == TooOld ==> after == tables)
      && (resolution == Pending ==> after == tables)
      && (resolution in {ResolvedAccepted, ResolvedSettled} ==> after.orders[id].status == Accepted)
      && (resolution in {ResolvedRejected, DeclaredNotPlaced} ==> after.orders[id].status == Rejected)
      && (resolution in {ResolvedAccepted, ResolvedSettled, ResolvedRejected, NeedsReconciliation} <==> answer.Some?)
  {
  }

  lemma SettlingNeverAside(tables: Tables, id: nat, answer: OperatorOrder, now: int)
    requires InTables(tables, id)
    ensures Settling(tables, id, answer, now).Ok? ==>
      var after := Settling(tables, id, answer, now).value.orders;
      && |after| == |tables.orders|
      && (if tables.orders[id].status == Accepted then after[id].status in {Accepted, Settled, Voided}
          else after[id] == tables.orders[id])
  {
  }

  lemma {:induction false} ResolveRowsAlert(tables: Tables, rows: seq<nat>, readings: Readings)
    requires Inv(tables) && AreOrders(rows, tables.orders) && ResolveRows(tables, rows, readings).Ok?
    ensures
      var (after, items) := ResolveRows(tables, rows, readings).value;
      && |after.orders| == |tables.orders|
      && (HasCritical(items) ==> exists r | 0 <= r < |rows| :: TooLongAbsent(after, rows[r], readings) || SetAside(after, rows[r]))
      && ((exists r | 0 <= r < |rows| :: TooLongAbsent(after, rows[r], readings)) ==> HasCritical(items))
  {
    hide Inv, ResolveRow, HasCritical, HasAccusation, TooLongAbsent, SetAside;
    if rows == [] {
      Single(ResolveRows(tables, rows, readings).value.1);
    } else {
      var init, id := rows[..|rows| - 1], rows[|rows| - 1];
      ResolveRowsAlert(tables, init, readings);
      ResolveRowsKeepInv(tables, init, readings);
      var (done, drafts) := ResolveRows(tables, init, readings).value;
      StillInTables(done, id);
      ResolveRowAlerts(done, id, readings);
      var (after, items) := ResolveRow(done, id, readings).value;
      Joined(drafts, items);
      AlertsStay(done, after, init, id, readings);
      if HasCritical(items) {
        assert rows[|rows| - 1] == id;
      }
      if HasCritical(drafts) {
        var r :| 0 <= r < |init| && (TooLongAbsent(done, init[r], readings) || SetAside(done, init[r]));
        assert rows[r] == init[r];
      }
      if r :| 0 <= r < |rows| && TooLongAbsent(after, rows[r], readings) {
        if r < |init| {
          assert init[r] == rows[r];
        }
      }
    }
  }

  lemma AlertsStay(done: Tables, after: Tables, rows: seq<nat>, id: nat, readings: Readings)
    requires |after.orders| == |done.orders| && id < |done.orders| && AreOrders(rows, done.orders)
    requires forall i | 0 <= i < |done.orders| && i != id :: after.orders[i] == done.orders[i]
    requires TooLongAbsent(after, id, readings) <==> TooLongAbsent(done, id, readings)
    requires SetAside(done, id) ==> SetAside(after, id)
    ensures forall r | 0 <= r < |rows| :: TooLongAbsent(after, rows[r], readings) <==> TooLongAbsent(done, rows[r], readings)
    ensures forall r | 0 <= r < |rows| :: SetAside(done, rows[r]) ==> SetAside(after, rows[r])
  {
  }

  lemma {:induction false} FailuresAccuseNobody(orders: seq<Order>, rows: seq<nat>, readings: Readings)
    requires AreOrders(rows, orders)
    ensures !HasAccusation(Failures(orders, rows, readings))
    ensures HasCritical(Failures(orders, rows, readings)) <==>
      exists r | 0 <= r < |rows| :: LookedUp(orders[rows[r]].status) && Unreadable(orders[rows[r]], readings)
  {
    if rows != [] {
      var init, id := rows[..|rows| - 1], rows[|rows| - 1];
      FailuresAccuseNobody(orders, init, readings);
      var added := if LookedUp(orders[id].status) && Unreadable(orders[id], readings)
        then [FailureItem(orders[id], id, readings)] else [];
      JoinedOne(Failures(orders, init, readings), added);
    }
  }

  lemma CausesJoined(first: seq<Draft>, second: seq<Draft>, text: string, itemType: ItemType)
    ensures CriticalAbout(first, text) || CriticalAbout(second, text) ==> CriticalAbout(first + second, text)
    ensures CriticalOf(first, itemType) || CriticalOf(second, itemType) ==> CriticalOf(first + second, itemType)
  {
    hide Contains;
    var both := first + second;
    assert forall i | 0 <= i < |first| :: both[i] == first[i];
    assert forall i | 0 <= i < |second| :: both[|first| + i] == second[i];
  }

  lemma FailureSaysSo(order: Order, id: nat, readings: Readings)
    ensures FailureItem(order, id, readings).severity == Critical
    ensures Contains(FailureItem(order, id, readings).detail, "LOOKUP_FAILED")
  {
    var detail := FailureItem(order, id, readings).detail;
    assert detail[..13] == "LOOKUP_FAILED";
  }

  lemma {:induction false} FailuresSaySo(orders: seq<Order>, rows: seq<nat>, readings: Readings)
    requires AreOrders(rows, orders) && Failures(orders, rows, readings) != []
    ensures CriticalAbout(Failures(orders, rows, readings), "LOOKUP_FAILED")
  {
    hide Contains, FailureItem;
    var init, id := rows[..|rows| - 1], rows[|rows| - 1];
    var earlier, failures := Failures(orders, init, readings), Failures(orders, rows, readings);
    if LookedUp(orders[id].status) && Unreadable(orders[id], readings) {
      FailureSaysSo(orders[id], id, readings);
      assert failures[|earlier|] == FailureItem(orders[id], id, readings);
    } else {
      FailuresSaySo(orders, init, readings);
      assert failures == earlier;
    }
  }

  /** The row of an order the operator could not speak of is left alone. */
  lemma ResolveRowSkips(tables: Tables, id: nat, readings: Readings, i: nat)
    requires InTables(tables, id) && i < |tables.orders| && Unreadable(tables.orders[i], readings)
    requires ResolveRow(tables, id, readings).Ok?
    ensures var after := ResolveRow(tables, id, readings).value.0;
      i < |after.orders| && after.orders[i] == tables.orders[i]
  {
    hide ResolveUnknown, SettleStake, Unreadable;
    var order, answer := tables.orders[id], AnswerOf(tables.orders[id], readings);
    if Unreadable(order, readings) || i == id {
    } else if order.status == Unknown {
      AnswerChangesOne(tables, id, PlaceUnknown, answer, readings.at, readings.now);
      var resolved := ResolveUnknown(tables, id, answer, readings.at, readings.now).value;
      var next := if resolved.2.Some? then Halted(resolved.0) else resolved.0;
      if answer.Some? && InTables(next, id) {
        SettlingChangesOne(next, id, answer.value, readings.now);
      }
    } else if order.status == Accepted && answer.Some? {
      SettlingChangesOne(tables, id, answer.value, readings.now);
    }
  }

  lemma SettlingChangesOne(tables: Tables, id: nat, answer: OperatorOrder, now: int)
    requires InTables(tables, id)
    ensures Settling(tables, id, answer, now).Ok? ==>
      var after := Settling(tables, id, answer, now).value.orders;
      |after| == |tables.orders| && after == tables.orders[id := after[id]]
  {
  }

  lemma {:induction false} ResolveRowsSkip(tables: Tables, rows: seq<nat>, readings: Readings, i: nat)
    requires i < |tables.orders| && Unreadable(tables.orders[i], readings)
    requires ResolveRows(tables, rows, readings).Ok?
    ensures var after := ResolveRows(tables, rows, readings).value.0;
      i < |after.orders| && after.orders[i] == tables.orders[i]
  {
    hide ResolveRow, Unreadable;
    if rows != [] {
      var init, id := rows[..|rows| - 1], rows[|rows| - 1];
      ResolveRowsSkip(tables, init, readings, i);
      var done := ResolveRows(tables, init, readings).value.0;
      if InTables(done, id) {
        ResolveRowSkips(done, id, readings, i);
      }
    }
  }

  /** What the operator was read to say contradicts what is stored of the order. */
  predicate Contradicted(order: Order, readings: Readings) {
    var said := if order.key in readings.lookups then readings.lookups[order.key] else Absent;
    match order.status
    case Rejected => said.FoundAs? && said.order.status != OpRejected
    case Accepted => if said.FoundAs? then OtherTerms(order, said.order) else said.Absent? && readings.tracked
    case Settled => if said.FoundAs? then OtherTerms(order, said.order) || said.order.payout != order.payout
                    else said.Absent? && readings.tracked
    case Voided => if said.FoundAs? then OtherTerms(order, said.order) || said.order.payout != order.payout
                   else said.Absent? && readings.tracked
    case _ => false
  }

  /** The operator refused it, or accepted it under another identifier, for another stake or at another odd. */
  predicate OtherTerms(order: Order, said: OperatorOrder) {
    || said.status == OpRejected
    || said.externalId != order.externalId || said.acceptedStake != order.acceptedStake || said.acceptedOdd != order.acceptedOdd
  }

  lemma ContradictedDisagrees(order: Order, readings: Readings)
    ensures Contradicted(order, readings) <==>
      && !(LookedUp(order.status) && order.key in readings.lookups && readings.lookups[order.key].Failed?)
      && !Agrees(order, AnswerOf(order, readings), readings.tracked)
  {
  }

  lemma ComparisonAccusesNobody(tables: Tables, id: nat, keys: set<EntryKey>, readings: Readings)
    requires id < |tables.orders| && Backed(tables.orders[id], HasReceipt(tables.receipts, id), keys)
    ensures !HasAccusation(Compare(tables, id, keys, readings))
    ensures HasCritical(Compare(tables, id, keys, readings)) ==> Contradicted(tables.orders[id], readings) || SetAside(tables, id)
    ensures Contradicted(tables.orders[id], readings) ==> HasCritical(Compare(tables, id, keys, readings))
    ensures SetAside(tables, id) && !Unreadable(tables.orders[id], readings) ==> HasCritical(Compare(tables, id, keys, readings))
  {
    hide CompareOrder, Backed, Agrees, HasReceipt, HasCritical, HasAccusation, Contradicted, AnswerOf;
    ContradictedDisagrees(tables.orders[id], readings);
    UnknownUncontradicted(tables.orders[id], readings);
    AlertsExactly(tables.orders[id], id, if id in readings.reasons then Some(readings.reasons[id]) else None,
                  AnswerOf(tables.orders[id], readings), HasReceipt(tables.receipts, id), keys, readings.tracked);
    if Compare(tables, id, keys, readings) == [] {
      Single(Compare(tables, id, keys, readings));
    }
  }

  lemma UnknownUncontradicted(order: Order, readings: Readings)
    ensures order.status == Unknown ==> !Contradicted(order, readings)
  {
  }

  predicate SetAside(tables: Tables, id: nat) {
    id < |tables.orders| && tables.orders[id].status == ReconciliationRequired
  }

  /** Some compared order contradicts the operator, or was set aside and could be read. */
  ghost predicate SomeDispute(tables: Tables, rows: seq<nat>, readings: Readings)
    requires AreOrders(rows, tables.orders)
  {
    exists r | 0 <= r < |rows| ::
      || Contradicted(tables.orders[rows[r]], readings)
      || (SetAside(tables, rows[r]) && !Unreadable(tables.orders[rows[r]], readings))
  }

  lemma {:induction false} ComparisonsAccuseNobody(tables: Tables, rows: seq<nat>, keys: set<EntryKey>, readings: Readings)
    requires AreOrders(rows, tables.orders)
    requires forall r | 0 <= r < |rows| ::
      Backed(tables.orders[rows[r]], HasReceipt(tables.receipts, rows[r]), keys)
    ensures !HasAccusation(Comparisons(tables, rows, keys, readings))
    ensures SomeDispute(tables, rows, readings) ==> HasCritical(Comparisons(tables, rows, keys, readings))
    ensures HasCritical(Comparisons(tables, rows, keys, readings)) ==> exists r | 0 <= r < |rows| ::
      Contradicted(tables.orders[rows[r]], readings) || SetAside(tables, rows[r])
  {
    hide Compare, Backed, HasReceipt, HasAccusation, HasCritical, Contradicted, Unreadable;
    if rows == [] {
      Single(Comparisons(tables, rows, keys, readings));
    } else {
      var init, id := rows[..|rows| - 1], rows[|rows| - 1];
      ComparisonsAccuseNobody(tables, init, keys, readings);
      ComparisonAccusesNobody(tables, id, keys, readings);
      Joined(Comparisons(tables, init, keys, readings), Compare(tables, id, keys, readings));
      if HasCritical(Comparisons(tables, init, keys, readings)) {
        var r :| 0 <= r < |init| && (Contradicted(tables.orders[init[r]], readings) || SetAside(tables, init[r]));
        assert rows[r] == init[r];
      }
    }
  }

  /** The rows are those of the account: the keys read for them back them all. */
  lemma RowsBacked(tables: Tables, account: nat, rows: seq<nat>, ids: set<nat>)
    requires Inv(tables) && AreOrders(rows, tables.orders)
    requires forall r | 0 <= r < |rows| :: tables.orders[rows[r]].account == account && rows[r] in ids
    ensures forall r | 0 <= r < |rows| ::
      Backed(tables.orders[rows[r]], HasReceipt(tables.receipts, rows[r]), KeysOf(tables.book.entries, account, ids))
  {
    forall r | 0 <= r < |rows|
      ensures Backed(tables.orders[rows[r]], HasReceipt(tables.receipts, rows[r]), KeysOf(tables.book.entries, account, ids))
    {
      ReadAtOnceIsBacked(tables, rows[r], ids);
    }
  }

  /** Items for the abandoned reservations released at the start of a run. */
  function ReleasedItems(ids: seq<nat>): seq<Draft> {
    seq(|ids|, i requires 0 <= i < |ids| =>
      Item(ids[i], OrderItem, Resolved, Warning, "Réservation jamais soumise relâchée"))
  }

  lemma ReleasedAccuseNobody(ids: seq<nat>)
    ensures !HasAccusation(ReleasedItems(ids)) && !HasCritical(ReleasedItems(ids))
  {
  }

  /** The operator's balance can be compared, and is unreadable or not the account's. */
  predicate BalanceOff(tables: Tables, account: nat, rows: seq<nat>, readings: Readings)
    requires account < |tables.book.accounts| && AreOrders(rows, tables.orders)
  {
    var row := tables.book.accounts[account];
    && readings.tracked
    && (forall r | 0 <= r < |rows| :: tables.orders[rows[r]].status !in {Reserved, Submitting, Unknown})
    && (readings.balance.None?
        || readings.balance.value.currency != row.currency
        || readings.balance.value.available != row.balances.available
        || readings.balance.value.exposure != row.balances.reserved)
  }

  lemma TailAccusesNobody(tables: Tables, account: nat, rows: seq<nat>, readings: Readings)
    requires Inv(tables) && account < |tables.book.accounts| && AreOrders(rows, tables.orders)
    ensures !HasAccusation(BalanceItems(tables, account, rows, readings))
    ensures HasCritical(BalanceItems(tables, account, rows, readings)) <==> BalanceOff(tables, account, rows, readings)
    ensures InvariantItems(tables.book, account) == []
  {
    Single(BalanceItems(tables, account, rows, readings));
    VerifyInvariantExact(tables.book, account, tables.book.accounts[account]);
    assert tables.book.(accounts := tables.book.accounts[account := tables.book.accounts[account]]) == tables.book;
  }

  lemma BalanceOffIsCritical(tables: Tables, account: nat, rows: seq<nat>, readings: Readings)
    requires account < |tables.book.accounts| && AreOrders(rows, tables.orders) && BalanceOff(tables, account, rows, readings)
    ensures CriticalOf(BalanceItems(tables, account, rows, readings), BalanceItem)
  {
    var items := BalanceItems(tables, account, rows, readings);
    assert items[0].severity == Critical && items[0].itemType == BalanceItem;
  }

  // ---- What stops execution, exactly ----

  /** The operator was to be asked about the order and gave no readable answer. */
  predicate AnswerMissing(order: Order, readings: Readings) {
    && order.status !in {Reserved, Submitting}
    && (order.key !in readings.lookups || readings.lookups[order.key].Failed?)
  }

  /**
   * Something about the orders read is wrong: one contradicts the operator, was set aside, got
   * no readable answer or has been absent for too long; or the comparable balance is off.
   */
  ghost predicate MustStop(tables: Tables, account: nat, rows: seq<nat>, readings: Readings)
    requires account < |tables.book.accounts| && AreOrders(rows, tables.orders)
  {
    || (exists r | 0 <= r < |rows| ::
          || Contradicted(tables.orders[rows[r]], readings)
          || SetAside(tables, rows[r])
          || AnswerMissing(tables.orders[rows[r]], readings)
          || TooLongAbsent(tables, rows[r], readings))
    || BalanceOff(tables, account, rows, readings)
  }

  /** Answers that were missing when they were read are those missing in the end. */
  lemma MissingStays(tables: Tables, rows: seq<nat>, readings: Readings)
    requires AreOrders(rows, tables.orders) && ResolveRows(tables, rows, readings).Ok?
    requires TablesEvolve(tables, ResolveRows(tables, rows, readings).value.0)
    ensures var after := ResolveRows(tables, rows, readings).value.0;
      && AreOrders(rows, after.orders)
      && (HasCritical(Failures(tables.orders, rows, readings))
          <==> exists r | 0 <= r < |rows| :: AnswerMissing(after.orders[rows[r]], readings))
  {
    hide ResolveRows, Failures, HasCritical, HasAccusation;
    var after := ResolveRows(tables, rows, readings).value.0;
    FailuresAccuseNobody(tables.orders, rows, readings);
    forall r | 0 <= r < |rows|
      ensures rows[r] < |after.orders|
      ensures AnswerMissing(after.orders[rows[r]], readings)
        <==> LookedUp(tables.orders[rows[r]].status) && Unreadable(tables.orders[rows[r]], readings)
    {
      assert Evolves(tables.orders[rows[r]], after.orders[rows[r]]);
      if Unreadable(tables.orders[rows[r]], readings) {
        ResolveRowsSkip(tables, rows, readings, rows[r]);
      }
    }
  }

  /** The items of a run are critical exactly when execution must stop. */
  lemma CriticalExactly(prepared: Tables, account: nat, rows: seq<nat>, keys: set<EntryKey>, readings: Readings)
    requires Inv(prepared) && AreOrders(rows, prepared.orders) && ResolveRows(prepared, rows, readings).Ok?
    requires var after := ResolveRows(prepared, rows, readings).value.0;
      && Inv(after) && TablesEvolve(prepared, after) && account < |after.book.accounts| && AreOrders(rows, after.orders)
      && forall r | 0 <= r < |rows| :: Backed(after.orders[rows[r]], HasReceipt(after.receipts, rows[r]), keys)
    ensures
      var (after, resolutions) := ResolveRows(prepared, rows, readings).value;
      MustStop(after, account, rows, readings)
      <==> || HasCritical(Failures(prepared.orders, rows, readings)) || HasCritical(resolutions)
           || HasCritical(Comparisons(after, rows, keys, readings)) || HasCritical(BalanceItems(after, account, rows, readings))
  {
    hide Inv, TablesEvolve, ResolveRows, Failures, Comparisons, BalanceItems, HasCritical, HasAccusation, Contradicted, Backed,
      HasReceipt, TooLongAbsent, BalanceOff;
    var (after, resolutions) := ResolveRows(prepared, rows, readings).value;
    MissingStays(prepared, rows, readings);
    ResolveRowsAlert(prepared, rows, readings);
    ComparisonsAccuseNobody(after, rows, keys, readings);
    TailAccusesNobody(after, account, rows, readings);
    if r :| 0 <= r < |rows| && SetAside(after, rows[r]) {
      if Unreadable(after.orders[rows[r]], readings) {
        assert AnswerMissing(after.orders[rows[r]], readings);
      } else {
        assert SomeDispute(after, rows, readings);
      }
    }
    if r :| 0 <= r < |rows| && Contradicted(after.orders[rows[r]], readings) {
      assert SomeDispute(after, rows, readings);
    }
  }

  lemma FourJoined(a: seq<Draft>, b: seq<Draft>, c: seq<Draft>, d: seq<Draft>)
    ensures HasAccusation(a + b + c + d) <==> HasAccusation(a) || HasAccusation(b) || HasAccusation(c) || HasAccusation(d)
    ensures HasCritical(a + b + c + d) <==> HasCritical(a) || HasCritical(b) || HasCritical(c) || HasCritical(d)
  {
    hide HasAccusation, HasCritical;
    Joined(a, b);
    Joined(a + b, c);
    Joined(a + b + c, d);
  }

  lemma RowsStay(a: Tables, b: Tables, rows: seq<nat>, account: nat)
    requires TablesEvolve(a, b) && account < |a.book.accounts| && AreOrders(rows, a.orders)
    requires forall r | 0 <= r < |rows| :: a.orders[rows[r]].account == account
    ensures account < |b.book.accounts| && AreOrders(rows, b.orders)
    ensures forall r | 0 <= r < |rows| :: b.orders[rows[r]].account == account
  {
    forall r | 0 <= r < |rows|
      ensures rows[r] < |b.orders| && b.orders[rows[r]].account == account
    {
      assert Evolves(a.orders[rows[r]], b.orders[rows[r]]);
    }
  }

  lemma UniqueInTables(tables: Tables)
    requires Inv(tables)
    ensures forall i | 0 <= i < |tables.orders| :: InTables(tables, i)
    ensures forall i, j | 0 <= i < j < |tables.orders| :: tables.orders[i].key != tables.orders[j].key
  {
  }

  // ---- The run itself ----

  /** Interrupted submissions swept, then abandoned reservations released. */
  ghost function Prepared(tables: Tables, abandoned: set<nat>, readings: Readings): Result<(Tables, seq<nat>), LedgerError>
    requires Inv(tables)
  {
    RecoverStaleKeepsInv(tables, readings.at);
    UniqueInTables(RecoverStale(tables, readings.at));
    CancelAbandoned(RecoverStale(tables, readings.at), abandoned, readings.now)
  }

  /** What a run writes, the stop at its end aside. */
  ghost function RunWrites(tables: Tables, abandoned: set<nat>, rows: seq<nat>,
                           readings: Readings): Result<Tables, LedgerError>
    requires Inv(tables)
  {
    match Prepared(tables, abandoned, readings)
    case Err(e) => Err(e)
    case Ok((prepared, _)) =>
      match ResolveRows(prepared, rows, readings)
      case Err(e) => Err(e)
      case Ok((after, _)) => Ok(after)
  }

  datatype RunOutcome = CompletedRun(drafts: seq<Draft>, trigger: Option<AutoStopTrigger>) | FailedRun

  class ReconciliationService {
    const db: Database
    const orders: OrderExecutionService
    const control: ExecutionControlService

    constructor (db: Database, orders: OrderExecutionService, control: ExecutionControlService)
      requires orders.db == db && orders.Wired() && control.db == db
      ensures this.db == db && this.orders == orders && this.control == control
    {
      this.db, this.orders, this.control := db, orders, control;
    }

    ghost predicate Wired() {
      orders.db == db && orders.Wired() && control.db == db
    }

    method AutoStop()
      requires Wired()
      modifies db`control
      ensures db.Snapshot() == Halted(old(db.Snapshot()))
    {
      control.Stop("", Automatic);
    }

    /** Settle, and stop if the day's loss is reached. */
    method Settle(id: nat, answer: OperatorOrder, now: int) returns (result: Result<(), LedgerError>)
      requires Wired() && Inv(db.Snapshot()) && InTables(db.Snapshot(), id)
      modifies db
      ensures
        var spec := Settling(old(db.Snapshot()), id, answer, now);
        && (result.Ok? <==> spec.Ok?)
        && db.Snapshot() == (if spec.Ok? then spec.value else old(db.Snapshot()))
    {
      hide Inv, SettleStake;
      OrderOkOf(db.Snapshot(), id);
      var settled := orders.SettleFromOperator(id, answer, now);
      if settled.Err? {
        return Err(settled.error);
      }
      if settled.value {
        AutoStop();
      }
      return Ok(());
    }

    method ResolveOne(id: nat, readings: Readings) returns (result: Result<seq<Draft>, LedgerError>)
      requires Wired() && Inv(db.Snapshot()) && InTables(db.Snapshot(), id)
      modifies db
      ensures
        var spec := ResolveRow(old(db.Snapshot()), id, readings);
        && (result.Ok? <==> spec.Ok?)
        && (result.Ok? ==> result.value == spec.value.1 && db.Snapshot() == spec.value.0)
        && Inv(db.Snapshot())
    {
      hide Inv, TablesEvolve, ResolveUnknown, Settling, Item, OrderOk;
      ghost var before := db.Snapshot();
      var order := db.orders[id];
      var answer := AnswerOf(order, readings);
      if Unreadable(order, readings) {
        return Ok([]);
      }
      if order.status == Unknown {
        var resolved := orders.ResolveUnknown(id, answer, readings.at, readings.now);
        if resolved.Err? {
          return Err(resolved.error);
        }
        ResolveKeepsInv(before, id, answer, readings.at, readings.now);
        HaltedKeepsInv(db.Snapshot());
        var (resolution, stop) := resolved.value;
        if stop.Some? {
          AutoStop();
        }
        if resolution == ResolvedSettled && answer.Some? && InTables(db.Snapshot(), id) {
          if Settling(db.Snapshot(), id, answer.value, readings.now).Ok? {
            SettlingKeepsInv(db.Snapshot(), id, answer.value, readings.now);
          }
          var settled := Settle(id, answer.value, readings.now);
          if settled.Err? {
            return Err(settled.error);
          }
        }
        return Ok([ResolutionItem(id, resolution)]);
      }
      if order.status == Accepted && answer.Some? && answer.value.status in {OpSettled, OpVoided} {
        if Settling(before, id, answer.value, readings.now).Ok? {
          SettlingKeepsInv(before, id, answer.value, readings.now);
        }
        var settled := Settle(id, answer.value, readings.now);
        if settled.Err? {
          return Err(settled.error);
        }
        return Ok([Item(id, SettlementItem, Resolved, Info, "Règlement opérateur")]);
      }
      return Ok([]);
    }

    /** One operator answer per order, each order once; a transaction that throws ends the loop. */
    method ResolveAll(rows: seq<nat>, readings: Readings) returns (result: Result<seq<Draft>, LedgerError>)
      requires Wired() && Inv(db.Snapshot())
      modifies db
      ensures
        var spec := ResolveRows(old(db.Snapshot()), rows, readings);
        && (result.Ok? <==> spec.Ok?)
        && (result.Ok? ==> result.value == spec.value.1 && db.Snapshot() == spec.value.0)
        && Inv(db.Snapshot())
    {
      hide Inv, ResolveRow;
      ghost var before := db.Snapshot();
      var drafts: seq<Draft> := [];
      for i := 0 to |rows|
        invariant ResolveRows(before, rows[..i], readings) == Ok((db.Snapshot(), drafts))
        invariant Inv(db.Snapshot())
      {
        assert rows[..i + 1][..i] == rows[..i];
        if InTables(db.Snapshot(), rows[i]) {
          var items := ResolveOne(rows[i], readings);
          if items.Err? {
            assert ResolveRows(before, rows[..i + 1], readings).Err?;
            ResolveRowsStop(before, rows, i + 1, readings);
            return Err(items.error);
          }
          drafts := drafts + items.value;
        }
      }
      assert rows[..|rows|] == rows;
      return Ok(drafts);
    }

    /** What the operator could not say about the orders read. */
    method ReportFailures(rows: seq<nat>, readings: Readings) returns (drafts: seq<Draft>)
      requires AreOrders(rows, db.orders)
      ensures drafts == Failures(db.orders, rows, readings)
    {
      drafts := [];
      for i := 0 to |rows|
        invariant drafts == Failures(db.orders, rows[..i], readings)
      {
        assert rows[..i + 1][..i] == rows[..i];
        var order := db.orders[rows[i]];
        if LookedUp(order.status) && Unreadable(order, readings) {
          drafts := drafts + [FailureItem(order, rows[i], readings)];
        }
      }
      assert rows[..|rows|] == rows;
    }

    method CompareAll(rows: seq<nat>, keys: set<EntryKey>, readings: Readings) returns (drafts: seq<Draft>)
      requires AreOrders(rows, db.orders)
      ensures drafts == Comparisons(db.Snapshot(), rows, keys, readings)
    {
      drafts := [];
      for i := 0 to |rows|
        invariant drafts == Comparisons(db.Snapshot(), rows[..i], keys, readings)
      {
        assert rows[..i + 1][..i] == rows[..i];
        drafts := drafts + Compare(db.Snapshot(), rows[i], keys, readings);
      }
      assert rows[..|rows|] == rows;
    }

    /** Interrupted submissions become UNKNOWN and abandoned reservations are released. */
    method Prepare(abandoned: set<nat>, readings: Readings) returns (result: Result<seq<Draft>, LedgerError>)
      requires Wired() && Inv(db.Snapshot())
      modifies db
      ensures Inv(db.Snapshot()) && TablesEvolve(old(db.Snapshot()), db.Snapshot())
      ensures result.Ok? ==> !HasAccusation(result.value) && !HasCritical(result.value)
      ensures result.Ok? <==> Prepared(old(db.Snapshot()), abandoned, readings).Ok?
      ensures result.Ok? ==> db.Snapshot() == Prepared(old(db.Snapshot()), abandoned, readings).value.0
    {
      hide Inv, TablesEvolve, HasAccusation, HasCritical, RecoverStale, CancelAbandoned, InTables;
      ghost var before := db.Snapshot();
      RecoverStaleKeepsInv(before, readings.at);
      UniqueInTables(RecoverStale(before, readings.at));
      orders.RecoverStaleSubmissions(readings.at);
      ghost var recovered := db.Snapshot();
      CancelAbandonedKeepsInv(recovered, abandoned, readings.now);
      var cancelled := orders.CancelAbandonedBatch(abandoned, readings.now);
      if cancelled.Err? {
        return Err(cancelled.error);
      }
      EvolvesTransitive(before, recovered, db.Snapshot());
      ReleasedAccuseNobody(cancelled.value);
      return Ok(ReleasedItems(cancelled.value));
    }

    /** Comparisons, balance and the ledger's own invariant, on the state at hand. */
    method Inspect(account: nat, rows: seq<nat>, readings: Readings) returns (drafts: seq<Draft>)
      requires Inv(db.Snapshot()) && account < |db.accounts|
      requires AreOrders(rows, db.orders) && forall r | 0 <= r < |rows| :: db.orders[rows[r]].account == account
      ensures
        var tables := db.Snapshot();
        drafts == Comparisons(tables, rows, KeysOf(tables.book.entries, account, set r | 0 <= r < |rows| :: rows[r]), readings)
                  + BalanceItems(tables, account, rows, readings)
    {
      hide Inv, TablesEvolve, Comparisons, BalanceItems;
      var ids := set r | 0 <= r < |rows| :: rows[r];
      var comparisons := CompareAll(rows, KeysOf(db.entries, account, ids), readings);
      var balance := BalanceItems(db.Snapshot(), account, rows, readings);
      var invariants := InvariantItems(db.LedgerState(), account);
      TailAccusesNobody(db.Snapshot(), account, rows, readings);
      return comparisons + balance + invariants;
    }

    /**
     * A run on the orders of one account. It never blames the ledger or a receipt, keeps the
     * invariant whatever the operator answers, and leaves execution stopped whenever a
     * transaction threw; when it completes, it stops execution exactly when it must.
     */
    method Execute(account: nat, rows: seq<nat>, abandoned: set<nat>, readings: Readings) returns (outcome: RunOutcome)
      requires Wired() && Inv(db.Snapshot()) && account < |db.accounts|
      requires AreOrders(rows, db.orders) && forall r | 0 <= r < |rows| :: db.orders[rows[r]].account == account
      modifies db
      ensures Inv(db.Snapshot())
      ensures outcome.FailedRun? ==> CurrentMode(db.ControlState()) == Disabled
      ensures outcome.CompletedRun? ==>
        && !HasAccusation(outcome.drafts)
        && outcome.trigger == StopTriggerFor(outcome.drafts)
        && (outcome.trigger.Some? ==> CurrentMode(db.ControlState()) == Disabled)
        && AreOrders(rows, db.orders) && account < |db.accounts|
        && (outcome.trigger.Some? <==> MustStop(db.Snapshot(), account, rows, readings))
        && ((exists r | 0 <= r < |rows| :: AnswerMissing(db.orders[rows[r]], readings)) ==>
              outcome.trigger == Some(OperatorErrorRate))
        && (BalanceOff(db.Snapshot(), account, rows, readings) ==>
              outcome.trigger in {Some(OperatorErrorRate), Some(OperatorBalanceMismatch)})
      ensures outcome.FailedRun? <==> RunWrites(old(db.Snapshot()), abandoned, rows, readings).Err?
      ensures outcome.CompletedRun? ==>
        var written := RunWrites(old(db.Snapshot()), abandoned, rows, readings).value;
        db.Snapshot() == if outcome.trigger.Some? then Halted(written) else written
    {
      hide Inv, TablesEvolve, HasAccusation, HasCritical, ResolveRows, Failures, StopTriggerFor, Comparisons,
        BalanceItems, MustStop;
      ghost var before := db.Snapshot();
      var released := Prepare(abandoned, readings);
      HaltedKeepsInv(db.Snapshot());
      if released.Err? {
        AutoStop();
        return FailedRun;
      }
      ghost var prepared := db.Snapshot();
      RowsStay(before, prepared, rows, account);
      var failures := ReportFailures(rows, readings);
      FailuresAccuseNobody(db.orders, rows, readings);
      var resolutions := ResolveAll(rows, readings);
      HaltedKeepsInv(db.Snapshot());
      if resolutions.Err? {
        AutoStop();
        return FailedRun;
      }
      ResolveRowsKeepInv(prepared, rows, readings);
      ghost var after := db.Snapshot();
      RowsStay(prepared, after, rows, account);
      var found := Inspect(account, rows, readings);
      var drafts := released.value + failures + resolutions.value + found;
      InspectedExactly(prepared, account, rows, readings);
      FourJoined(released.value, failures, resolutions.value, found);
      CausesAreNamed(prepared, account, rows, readings, released.value);
      var trigger := StopTriggerFor(drafts);
      if trigger.Some? {
        AutoStop();
        StopLeavesOrders(after, db.Snapshot(), account, rows, readings);
      }
      return CompletedRun(drafts, trigger);
    }
  }

  lemma StopLeavesOrders(a: Tables, b: Tables, account: nat, rows: seq<nat>, readings: Readings)
    requires account < |a.book.accounts| && AreOrders(rows, a.orders) && b == a.(control := b.control)
    ensures MustStop(b, account, rows, readings) <==> MustStop(a, account, rows, readings)
  {
  }

  /** A missing answer and a balance that is off are among the causes a run can name. */
  lemma CausesAreNamed(prepared: Tables, account: nat, rows: seq<nat>, readings: Readings, released: seq<Draft>)
    requires Inv(prepared) && AreOrders(rows, prepared.orders) && ResolveRows(prepared, rows, readings).Ok?
    requires var after := ResolveRows(prepared, rows, readings).value.0;
      && TablesEvolve(prepared, after) && account < |after.book.accounts| && AreOrders(rows, after.orders)
    ensures
      var (after, resolutions) := ResolveRows(prepared, rows, readings).value;
      var found := Comparisons(after, rows, KeysOf(after.book.entries, account, set r | 0 <= r < |rows| :: rows[r]), readings)
                   + BalanceItems(after, account, rows, readings);
      var drafts := released + Failures(prepared.orders, rows, readings) + resolutions + found;
      && ((exists r | 0 <= r < |rows| :: AnswerMissing(after.orders[rows[r]], readings)) ==>
            StopTriggerFor(drafts) == Some(OperatorErrorRate))
      && (BalanceOff(after, account, rows, readings) ==>
            StopTriggerFor(drafts) in {Some(OperatorErrorRate), Some(OperatorBalanceMismatch)})
  {
    hide Inv, TablesEvolve, ResolveRows, Failures, Comparisons, BalanceItems, HasCritical, HasAccusation, CriticalAbout, CriticalOf,
      BalanceOff, StopTriggerFor, AnswerMissing;
    var (after, resolutions) := ResolveRows(prepared, rows, readings).value;
    var failures := Failures(prepared.orders, rows, readings);
    var comparisons := Comparisons(after, rows, KeysOf(after.book.entries, account, set r | 0 <= r < |rows| :: rows[r]), readings);
    var balance := BalanceItems(after, account, rows, readings);
    MissingStays(prepared, rows, readings);
    if failures == [] {
      Single(failures);
    } else {
      FailuresSaySo(prepared.orders, rows, readings);
    }
    if BalanceOff(after, account, rows, readings) {
      BalanceOffIsCritical(after, account, rows, readings);
    }
    CausesJoined(released, failures, "LOOKUP_FAILED", BalanceItem);
    CausesJoined(released + failures, resolutions, "LOOKUP_FAILED", BalanceItem);
    CausesJoined(comparisons, balance, "LOOKUP_FAILED", BalanceItem);
    CausesJoined(released + failures + resolutions, comparisons + balance, "LOOKUP_FAILED", BalanceItem);
  }

  /** The items that follow the releases blame nobody, and are critical exactly when execution must stop. */
  lemma InspectedExactly(prepared: Tables, account: nat, rows: seq<nat>, readings: Readings)
    requires Inv(prepared) && AreOrders(rows, prepared.orders) && ResolveRows(prepared, rows, readings).Ok?
    requires var after := ResolveRows(prepared, rows, readings).value.0;
      && account < |after.book.accounts| && AreOrders(rows, after.orders)
      && forall r | 0 <= r < |rows| :: after.orders[rows[r]].account == account
    ensures
      var (after, resolutions) := ResolveRows(prepared, rows, readings).value;
      var found := Comparisons(after, rows, KeysOf(after.book.entries, account, set r | 0 <= r < |rows| :: rows[r]), readings)
                   + BalanceItems(after, account, rows, readings);
      && !HasAccusation(found)
      && (MustStop(after, account, rows, readings) <==>
            HasCritical(Failures(prepared.orders, rows, readings)) || HasCritical(resolutions) || HasCritical(found))
  {
    hide Inv, TablesEvolve, HasAccusation, HasCritical, ResolveRows, Failures, Comparisons, BalanceItems, MustStop,
      Backed;
    ResolveRowsKeepInv(prepared, rows, readings);
    var after := ResolveRows(prepared, rows, readings).value.0;
    var ids := set r | 0 <= r < |rows| :: rows[r];
    var keys := KeysOf(after.book.entries, account, ids);
    RowsBacked(after, account, rows, ids);
    CriticalExactly(prepared, account, rows, keys, readings);
    ComparisonsAccuseNobody(after, rows, keys, readings);
    TailAccusesNobody(after, account, rows, readings);
    Joined(Comparisons(after, rows, keys, readings), BalanceItems(after, account, rows, readings));
  }

  lemma {:induction false} ResolveRowsStop(tables: Tables, rows: seq<nat>, n: nat, readings: Readings)
    requires n <= |rows| && ResolveRows(tables, rows[..n], readings).Err?
    ensures ResolveRows(tables, rows, readings).Err?
  {
    if n == |rows| {
      assert rows[..n] == rows;
    } else {
      var init := rows[..|rows| - 1];
      assert init[..n] == rows[..n];
      ResolveRowsStop(tables, init, n, readings);
    }
  }
}
