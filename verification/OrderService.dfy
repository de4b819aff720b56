/**
 * The services that move orders, statement by statement: rows inserted and updated inside
 * transactions that are undone as a whole when anything throws. Each method leaves exactly
 * the tables its specification says.
 */
module OrderService {
  import opened Wrappers
  import opened Keys
  import opened Control
  import opened Ledger
  import opened Risk
  import opened Orders
  import opened Database
  import opened LedgerService

  class RiskEngineService {
    const db: Database
    const ledger: LedgerService

    constructor (db: Database, ledger: LedgerService)
      requires ledger.db == db
      ensures this.db == db && this.ledger == ledger
    {
      this.db, this.ledger := db, ledger;
    }

    /** Inside the caller's transaction, which holds the shared lock on the control row. */
    method ReserveWithin(mode: Mode, order: Order, id: nat, observedAt: int, now: int, clockOk: bool)
      returns (verdict: Reservation)
      requires ledger.db == db && order.account < |db.accounts|
      modifies db`accounts, db`entries
      ensures verdict == Orders.ReserveWithin(
        db.ControlState(), old(db.LedgerState()), mode, order, id, observedAt, now, clockOk)
      ensures db.LedgerState() == if verdict.Booked? then verdict.book else old(db.LedgerState())
    {
      var input := ReserveInput(order, id);
      var existing := Lookup(db.entries, input.key);
      if existing.Some? {
        var replay := ledger.Append(order.account, input, now);
        if replay.Err? {
          return Threw(RiskCheckFailed, None);
        }
        return Booked(db.LedgerState());
      }
      if !clockOk {
        return Threw(ControlDisabled, Some(ClockOutOfTolerance));
      }
      var policy := ActivePolicy(db.ControlState());
      if policy.None? {
        return Declined(RiskCheckFailed, Some(ControlUnreadable));
      }
      var account := db.accounts[order.account];
      if account.mode != mode || account.currency != policy.value.currency {
        return Declined(RiskCheckFailed, None);
      }
      var day := UtcDayStart(now);
      var risk := EvaluateRisk(RiskInput(
        policy.value, order.requestedStake, account.balances,
        Total(StakedSince(day), db.entries, order.account), Total(PnlSince(day), db.entries, order.account),
        now - observedAt));
      if risk.Refuse? {
        return Declined(risk.code, risk.autoStop);
      }
      var appended := ledger.Append(order.account, input, now);
      match appended
      case Ok(_) => return Booked(db.LedgerState());
      case Err(OutOfRange) => return Threw(RiskCheckFailed, Some(ControlUnreadable));
      case Err(_) => return Threw(RiskCheckFailed, None);
    }

    /** The first transaction of a settlement. */
    method SettleStake(id: nat, stake: int, payout: int, now: int) returns (result: Result<bool, LedgerError>)
      requires ledger.db == db && InTables(db.Snapshot(), id)
      modifies db`accounts, db`entries
      ensures
        var settled := Orders.SettleStake(old(db.Snapshot()), id, stake, payout, now);
        if settled.Err? then result == Err(settled.error) && db.Snapshot() == old(db.Snapshot())
        else result == Ok(settled.value.1) && db.Snapshot() == settled.value.0
    {
      var order := db.orders[id];
      var appended := ledger.Append(order.account, SettleInput(order, id, stake, payout), now);
      if appended.Err? {
        return Err(appended.error);
      }
      var policy := ActivePolicy(db.ControlState());
      var pnl := Total(PnlSince(UtcDayStart(now)), db.entries, order.account);
      return Ok(policy.Some? && DayLoss(pnl) >= policy.value.maxDailyLoss);
    }
  }

  class OrderExecutionService {
    const db: Database
    const ledger: LedgerService
    const risk: RiskEngineService
    const ports: map<Mode, string>

    constructor (db: Database, ledger: LedgerService, risk: RiskEngineService, ports: map<Mode, string>)
      requires ledger.db == db && risk.db == db && risk.ledger == ledger
      ensures this.db == db && this.ports == ports && Wired()
    {
      this.db, this.ledger, this.risk, this.ports := db, ledger, risk, ports;
    }

    ghost predicate Wired() {
      ledger.db == db && risk.db == db && risk.ledger == ledger
    }

    /** The decision is eligible and has no order: insert one and reserve its stake, or reject. */
    method InsertOrder(mode: Mode, operatorKey: string, decisionId: nat, account: nat, now: int, clockOk: bool)
      returns (order: Option<nat>, thrown: Option<RejectionCode>, stop: Option<AutoStopTrigger>)
      requires Wired() && decisionId < |db.decisions|
      modifies db
      ensures
        var spec := CreateOrder(old(db.Snapshot()), mode, operatorKey, decisionId, account, now, clockOk);
        && order == spec.order && thrown == spec.thrown && stop == spec.stop
        && (thrown.None? ==> db.Snapshot() == spec.tables)
    {
      hide Orders.ReserveWithin, LockForExecution, OrderKeyOf;
      order, thrown, stop := None, None, None;
      var decision := db.decisions[decisionId];
      if decision.odd.None? || decision.stake.None? || decision.observedAt.None? {
        db.decisions := db.decisions[decisionId :=
          decision.(status := DecisionRejected, rejectionCode := Some(NoExecutableOdd))];
        return;
      }
      var inserted := NewOrder(decision, decisionId, account, mode, operatorKey);
      if KeyUsed(db.orders, inserted.key) {
        db.decisions := db.decisions[decisionId :=
          decision.(status := DecisionRejected, rejectionCode := Some(RiskCheckFailed))];
        return;
      }
      if !OrderRowOk(inserted) || account >= |db.accounts| {
        thrown, stop := Some(RiskCheckFailed), Some(ControlUnreadable);
        return;
      }
      var id := |db.orders|;
      db.orders := db.orders + [inserted];
      var verdict := risk.ReserveWithin(mode, inserted, id, decision.observedAt.value, now, clockOk);
      match verdict {
        case Threw(code, cause) =>
          thrown, stop := Some(code), cause;
        case Declined(code, cause) =>
          db.orders := db.orders[id := inserted.(status := Rejected, rejectionCode := Some(code), version := 2)];
          db.decisions := db.decisions[decisionId := decision.(status := DecisionRejected, rejectionCode := Some(code))];
          order, stop := Some(id), cause;
        case Booked(_) =>
          db.decisions := db.decisions[decisionId := decision.(status := OrderReserved)];
          order := Some(id);
      }
    }

    /** Where `lockForExecution` or a constraint throws, `thrown` says so and the caller undoes the writes. */
    method ReserveInTransaction(decisionId: nat, account: nat, now: int, interlockOpen: bool, clockOk: bool)
      returns (order: Option<nat>, thrown: Option<RejectionCode>, stop: Option<AutoStopTrigger>)
      requires Wired()
      modifies db
      ensures
        var spec := ReserveOrder(old(db.Snapshot()), ports, decisionId, account, now, interlockOpen, clockOk);
        && order == spec.order && thrown == spec.thrown && stop == spec.stop
        && (thrown.None? ==> db.Snapshot() == spec.tables)
    {
      order, thrown, stop := None, None, None;
      var existing := OrderOfDecision(db.orders, decisionId);
      if existing.Some? {
        order := existing;
        return;
      }
      var locked := LockForExecution(db.ControlState(), interlockOpen);
      if locked.Err? {
        thrown, stop := Some(ControlDisabled), if locked.error.unreadable then Some(ControlUnreadable) else None;
        return;
      }
      var mode := locked.value;
      var port := PortFor(ports, mode);
      if port.None? {
        thrown := Some(ControlDisabled);
        return;
      }
      if decisionId >= |db.decisions| {
        thrown := Some(RiskCheckFailed);
        return;
      }
      var decision := db.decisions[decisionId];
      if decision.status != Eligible {
        return;
      }
      order, thrown, stop := InsertOrder(mode, port.value, decisionId, account, now, clockOk);
    }

    /** A decision reserved, or rejected in a second transaction when the first one threw. */
    method Reserve(decisionId: nat, account: nat, now: int, interlockOpen: bool, clockOk: bool)
      returns (order: Option<nat>, stop: Option<AutoStopTrigger>)
      requires Wired()
      modifies db
      ensures
        var spec := ReserveOrder(old(db.Snapshot()), ports, decisionId, account, now, interlockOpen, clockOk);
        && order == spec.order && stop == spec.stop
        && db.Snapshot() ==
             if spec.thrown.Some? then RejectEligible(old(db.Snapshot()), decisionId, spec.thrown.value) else spec.tables
    {
      var saved := db.Snapshot();
      var thrown;
      order, thrown, stop := ReserveInTransaction(decisionId, account, now, interlockOpen, clockOk);
      if thrown.Some? {
        db.Rollback(saved);
        if decisionId < |db.decisions| && db.decisions[decisionId].status == Eligible {
          db.decisions := db.decisions[decisionId :=
            db.decisions[decisionId].(status := DecisionRejected, rejectionCode := thrown)];
        }
      }
    }

    /** The locked check before submission. */
    method StartSubmission(id: nat, quote: Option<OperatorQuote>, now: int, interlockOpen: bool)
      returns (verdict: LockVerdict)
      requires id < |db.orders|
      modifies db`orders
      ensures (db.Snapshot(), verdict) == Orders.StartSubmission(old(db.Snapshot()), id, quote, now, interlockOpen)
    {
      var locked := LockForExecution(db.ControlState(), interlockOpen);
      if locked.Err? {
        return MustCancel(ControlDisabled, if locked.error.unreadable then Some(ControlUnreadable) else None);
      }
      var current := db.orders[id];
      if current.status != Reserved {
        return Current(current);
      }
      if locked.value != current.mode {
        return MustCancel(ControlDisabled, None);
      }
      if quote.None? || !quote.value.available {
        return MustCancel(NoExecutableOdd, None);
      }
      var age, policy := now - quote.value.capturedAt, ActivePolicy(db.ControlState());
      if policy.None? || age < 0 || age > policy.value.maxQuoteAgeMs {
        return MustCancel(StaleOdd, Some(StaleOrSuspendedOdd));
      }
      if quote.value.odd < current.minimumOdd {
        return MustCancel(OddMoved, None);
      }
      db.orders := db.orders[id := current.(status := Submitting, requestedOdd := quote.value.odd,
                                            submittedAt := Some(now), version := current.version + 1)];
      return Current(db.orders[id]);
    }

    /** Give the stake back and reject, if the order is still in one of the given states. */
    method Cancel(id: nat, from: set<OrderStatus>, code: RejectionCode, now: int) returns (result: Result<(), LedgerError>)
      requires Wired() && InTables(db.Snapshot(), id)
      modifies db`accounts, db`entries, db`orders, db`decisions
      ensures
        var spec := Orders.Cancel(old(db.Snapshot()), id, from, code, now);
        if spec.Err? then result == Err(spec.error) && db.Snapshot() == old(db.Snapshot())
        else result.Ok? && db.Snapshot() == spec.value
    {
      var order := db.orders[id];
      if order.status !in from {
        return Ok(());
      }
      if Lookup(db.entries, ReserveKey(order.key)).Some? {
        var appended := ledger.Append(order.account, ReleaseInput(order, id), now);
        if appended.Err? {
          return Err(appended.error);
        }
      }
      db.orders := db.orders[id := order.(status := Rejected, rejectionCode := Some(code), version := order.version + 1)];
      db.decisions := db.decisions[order.decision :=
        db.decisions[order.decision].(status := DecisionRejected, rejectionCode := Some(code))];
      return Ok(());
    }

    /** Record an acceptance: receipt, order, unused stake, decision; or set the order aside. */
    method ApplyAcceptance(id: nat, accepted: OperatorOrder, now: int)
      returns (result: Result<Option<AutoStopTrigger>, LedgerError>)
      requires Wired() && InTables(db.Snapshot(), id)
      modifies db
      ensures
        var spec := Orders.ApplyAcceptance(old(db.Snapshot()), id, accepted, now);
        if spec.Err? then result == Err(spec.error) && db.Snapshot() == old(db.Snapshot())
        else result == Ok(spec.value.1) && db.Snapshot() == spec.value.0
    {
      var saved := db.Snapshot();
      var order := db.orders[id];
      if order.status !in {Submitting, Unknown, Reserved} {
        return Ok(None);
      }
      var receiptTaken := accepted.receiptHash.Some? && HashTaken(db.receipts, accepted.receiptHash.value);
      var externalTaken := accepted.externalId.Some? && ExternalTaken(db.orders, order.operatorKey, accepted.externalId.value);
      if AcceptanceViolation(order, accepted) || receiptTaken || externalTaken {
        var missing := accepted.receiptHash.None? || accepted.receiptHash.value == "";
        db.orders := db.orders[id := order.(
          status := ReconciliationRequired,
          unknownSince := if order.unknownSince.Some? then order.unknownSince else Some(now),
          version := order.version + 1)];
        return Ok(Some(if receiptTaken || missing then ReceiptInvalid else OperatorContractViolation));
      }
      db.receipts := db.receipts + [Receipt(id, accepted.receiptHash.value)];
      db.orders := db.orders[id := AcceptedOrder(order, accepted)];
      var unused := order.requestedStake - accepted.acceptedStake.value;
      if unused > 0 {
        var appended := ledger.Append(order.account, PartialInput(order, id, unused), now);
        if appended.Err? {
          db.Rollback(saved);
          return Err(appended.error);
        }
      }
      db.decisions := db.decisions[order.decision := db.decisions[order.decision].(executableOdd := accepted.acceptedOdd)];
      return Ok(None);
    }

    /** The operator's answer to a placement; a malformed acceptance is as good as no answer. */
    method ApplyPlacementResult(id: nat, answer: PlaceResult, now: int)
      returns (result: Result<Option<AutoStopTrigger>, LedgerError>)
      requires Wired() && InTables(db.Snapshot(), id)
      modifies db
      ensures
        var spec := ApplyPlacement(old(db.Snapshot()), id, answer, now);
        if spec.Err? then result == Err(spec.error) && db.Snapshot() == old(db.Snapshot())
        else result == Ok(spec.value.1) && db.Snapshot() == spec.value.0
    {
      if answer.PlaceAccepted? && WellFormedAcceptance(answer) {
        result := ApplyAcceptance(id, AcceptanceOf(answer), now);
        return;
      }
      if answer.PlaceRejected? {
        var cancelled := Cancel(id, {Submitting, Reserved}, answer.code, now);
        return if cancelled.Err? then Err(cancelled.error) else Ok(None);
      }
      var order := db.orders[id];
      if order.status == Submitting {
        db.orders := db.orders[id := order.(status := Unknown, unknownSince := Some(now), version := order.version + 1)];
      }
      return Ok(None);
    }

    /** Both transactions of a settlement; nothing is done for an order not accepted or an unreadable payout. */
    method SettleFromOperator(id: nat, answer: OperatorOrder, now: int) returns (result: Result<bool, LedgerError>)
      requires Wired() && InTables(db.Snapshot(), id)
      requires db.orders[id].status == Accepted ==> db.orders[id].acceptedStake.Some?
      modifies db
      ensures
        var before := old(db.Snapshot());
        if before.orders[id].status != Accepted
           || answer.status !in {OpSettled, OpVoided} || answer.payout.None?
           || !(0 <= answer.payout.value <= MAX_COLUMN_CENTS)
        then result == Ok(false) && db.Snapshot() == before
        else
          var stake, payout := before.orders[id].acceptedStake.value, answer.payout.value;
          var booked := Orders.SettleStake(before, id, stake, payout, now);
          if booked.Err? then result == Err(booked.error) && db.Snapshot() == before
          else
            && result == Ok(booked.value.1)
            && db.Snapshot() == CloseOrder(booked.value.0, id, stake, payout,
                                           if answer.settledAt.Some? then answer.settledAt.value else now)
    {
      var order := db.orders[id];
      if order.status != Accepted {
        return Ok(false);
      }
      if answer.status !in {OpSettled, OpVoided} || answer.payout.None?
         || !(0 <= answer.payout.value <= MAX_COLUMN_CENTS) {
        return Ok(false);
      }
      var stake, payout := order.acceptedStake.value, answer.payout.value;
      var lossReached := risk.SettleStake(id, stake, payout, now);
      if lossReached.Err? {
        return lossReached;
      }
      var (outcome, profit) := SettlementOutcome(stake, payout);
      var current := db.orders[id];
      if current.status == Accepted {
        var settledAt := if answer.settledAt.Some? then answer.settledAt.value else now;
        db.orders := db.orders[id := current.(
          status := if outcome == Void then Voided else Settled,
          payout := Some(payout), settledAt := Some(settledAt), version := current.version + 1)];
        db.decisions := db.decisions[current.decision :=
          db.decisions[current.decision].(status := Completed, outcome := Some(outcome), profit := Some(profit))];
      }
      return lossReached;
    }

    /** The order is as the caller read it, just before. */
    method ResolveUnknown(id: nat, answer: Option<OperatorOrder>, readAt: int, now: int)
      returns (result: Result<(Resolution, Option<AutoStopTrigger>), LedgerError>)
      requires Wired() && InTables(db.Snapshot(), id)
      modifies db
      ensures
        var spec := Orders.ResolveUnknown(old(db.Snapshot()), id, answer, readAt, now);
        if spec.Err? then result == Err(spec.error) && db.Snapshot() == old(db.Snapshot())
        else result == Ok((spec.value.1, spec.value.2)) && db.Snapshot() == spec.value.0
    {
      var order := db.orders[id];
      if order.status != Unknown {
        return Ok((Pending, None));
      }
      if answer.Some? {
        if answer.value.status == OpRejected {
          var cancelled := Cancel(id, {Unknown}, OperatorUnavailable, now);
          return if cancelled.Err? then Err(cancelled.error) else Ok((ResolvedRejected, None));
        }
        var applied := ApplyAcceptance(id, answer.value, now);
        if applied.Err? {
          return Err(applied.error);
        }
        if applied.value.Some? {
          return Ok((NeedsReconciliation, applied.value));
        }
        return Ok((if answer.value.status == OpAccepted then ResolvedAccepted else ResolvedSettled, None));
      }
      var age := if order.unknownSince.Some? then readAt - order.unknownSince.value else 0;
      if age >= UNKNOWN_MAX_AGE_MS {
        return Ok((TooOld, Some(UnknownOrderTooOld)));
      }
      if age >= UNKNOWN_GRACE_MS {
        var cancelled := Cancel(id, {Unknown}, OperatorUnavailable, now);
        return if cancelled.Err? then Err(cancelled.error) else Ok((DeclaredNotPlaced, None));
      }
      return Ok((Pending, None));
    }

    /** Interrupted submissions become UNKNOWN, all in one statement. */
    method RecoverStaleSubmissions(readAt: int)
      modifies db`orders
      ensures db.Snapshot() == RecoverStale(old(db.Snapshot()), readAt)
    {
      db.orders := RecoverStale(db.Snapshot(), readAt).orders;
    }

    /** Reservations never submitted, cancelled together. Idempotency keys are unique in the table. */
    method CancelAbandonedBatch(ids: set<nat>, now: int) returns (result: Result<seq<nat>, LedgerError>)
      requires Wired() && (forall i | 0 <= i < |db.orders| :: InTables(db.Snapshot(), i))
      requires forall i, j | 0 <= i < j < |db.orders| :: db.orders[i].key != db.orders[j].key
      modifies db`accounts, db`entries, db`orders, db`decisions
      ensures
        var spec := CancelAbandoned(old(db.Snapshot()), ids, now);
        && (result.Ok? <==> spec.Ok?)
        && db.Snapshot() == (if spec.Ok? then spec.value.0 else old(db.Snapshot()))
        && (result.Ok? ==> result.value == spec.value.1)
    {
      hide MarkAllRejected, ReservedAmong, Releasable, ReleaseInputs, AppendAll;
      var rows := ReservedAmong(db.orders, ids);
      if rows == [] {
        return Ok([]);
      }
      if !OneAccount(db.orders, rows) {
        return Err(MixedAccounts);
      }
      var releasable := Releasable(db.Snapshot(), rows);
      var inputs := ReleaseInputs(db.orders, releasable);
      ReleasesAreDistinct(db.orders, releasable);
      assert InTables(db.Snapshot(), rows[0]);
      var booked := ledger.AppendBatch(db.orders[rows[0]].account, inputs, now);
      if booked.Err? {
        return Err(booked.error);
      }
      ghost var before := old(db.Snapshot());
      assert RowsStored(before, releasable);
      MarkingKeepsBook(before, db.LedgerState(), releasable);
      assert db.Snapshot() == before.(book := db.LedgerState());
      var marked := MarkAllRejected(db.Snapshot(), releasable, OperatorUnavailable);
      db.orders, db.decisions := marked.orders, marked.decisions;
      return Ok(releasable);
    }
  }

  lemma ReleasesAreDistinct(orders: seq<Order>, rows: seq<nat>)
    requires AreOrders(rows, orders) && Ascending(rows)
    requires forall i, j | 0 <= i < j < |orders| :: orders[i].key != orders[j].key
    ensures DistinctInputs(ReleaseInputs(orders, rows))
  {
  }

  /** Marking orders rejected and booking their releases are independent writes. */
  lemma {:induction false} MarkingKeepsBook(tables: Tables, book: Book, rows: seq<nat>)
    requires |book.accounts| == |tables.book.accounts| && RowsStored(tables, rows)
    ensures RowsStored(tables.(book := book), rows)
    ensures MarkAllRejected(tables.(book := book), rows, OperatorUnavailable)
      == MarkAllRejected(tables, rows, OperatorUnavailable).(book := book)
    ensures MarkAllRejected(tables, rows, OperatorUnavailable).control == tables.control
    ensures MarkAllRejected(tables, rows, OperatorUnavailable).receipts == tables.receipts
  {
    forall r | 0 <= r < |rows|
      ensures InTables(tables.(book := book), rows[r])
    {
      assert InTables(tables, rows[r]);
    }
    if rows != [] {
      MarkingKeepsBook(tables, book, rows[..|rows| - 1]);
    }
  }
}
