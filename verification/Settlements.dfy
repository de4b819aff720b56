/**
 * What the ledger says in every run of the pipeline: what is reserved, what is refused, what
 * a settlement leaves behind whatever crashes, and where the money went.
 */
module Settlements {
  import opened Wrappers
  import opened Keys
  import opened Sums
  import opened Control
  import opened Ledger
  import opened Risk
  import opened Orders
  import opened OrderInvariant
  import opened OrderSteps
  import opened OrderCreation
  import opened Abandoned
  import opened Pipeline
  import opened PipelineInvariant

  /** In every run an account's reserved balance is what its orders hold, and the ledger checks out. */
  lemma ReservedIsExposure(s: State, account: nat)
    requires Reachable(s) && account < |s.tables.book.accounts|
    ensures
      var book := s.tables.book;
      && book.accounts[account].balances.reserved == Sum(Exposures(s.tables.orders, book.entries, account))
      && book.accounts[account].balances.available >= 0
      && Journaled(book.accounts[account], Journal(book.entries, account))
      && VerifyInvariant(book, account)
  {
    ReachableInv(s);
    var book := s.tables.book;
    var journal := Journal(book.entries, account);
    VerifyInvariantExact(book, account, book.accounts[account]);
    assert book.(accounts := book.accounts[account := book.accounts[account]]) == book;
    assert Journaled(book.accounts[account], journal);
    if journal != [] {
      assert LinkOk(journal, |journal| - 1);
    }
  }

  /**
   * In every run an order says what its decision decided: same stake, same minimum, a key made
   * of the decision; it is never asked nor accepted below the minimum odd, and its decision
   * tells what became of it.
   */
  lemma OrdersFollowDecisions(s: State, id: nat)
    requires Reachable(s) && id < |s.tables.orders|
    ensures InTables(s.tables, id)
    ensures
      var order := s.tables.orders[id];
      var decision := s.tables.decisions[order.decision];
      && SameDecision(decision, order)
      && order.mode in {Simulation, Sandbox}
      && order.requestedOdd >= order.minimumOdd
      && (WasAccepted(order.status) ==>
            && decision.executableOdd == order.acceptedOdd
            && order.acceptedOdd.Some? && order.acceptedOdd.value >= order.minimumOdd)
      && (order.status == Rejected <==> decision.status == DecisionRejected)
      && (order.status in {Settled, Voided} <==> decision.status == Completed)
      && (order.status in {Settled, Voided} ==>
            && order.payout.Some? && order.acceptedStake.Some?
            && decision.profit == Some(order.payout.value - order.acceptedStake.value))
  {
    ReachableInv(s);
    OrderOkOf(s.tables, id);
  }

  // ---- Refusals ----

  /** Cents an account can still receive before its column is full. */
  function Room(tables: Tables, id: nat): int
    requires InTables(tables, id)
  {
    MAX_COLUMN_CENTS - tables.book.accounts[tables.orders[id].account].balances.available
  }

  /** No RELEASE of a cancellation is ever refused for lack of reserve: only a full column refuses it. */
  lemma CancellationsAreCovered(s: State, sid: nat)
    requires Reachable(s) && sid in s.sessions && s.sessions[sid].phase.Cancelling?
    ensures Active(s, sid)
    ensures
      var id, phase := s.sessions[sid].order, s.sessions[sid].phase;
      Cancel(s.tables, id, phase.from, phase.code, s.clock).Ok?
      <==> s.tables.orders[id].status !in phase.from || s.tables.orders[id].requestedStake <= Room(s.tables, id)
  {
    ReachableInv(s);
    SessionOf(s, sid);
    CancelKeepsInv(s.tables, s.sessions[sid].order, s.sessions[sid].phase.from, s.sessions[sid].phase.code, s.clock);
  }

  /** Nor is the transaction that records the operator's answer. */
  lemma AnswersAreCovered(s: State, sid: nat)
    requires Reachable(s) && sid in s.sessions && s.sessions[sid].phase.Answered?
    ensures Active(s, sid)
    ensures
      var id, phase := s.sessions[sid].order, s.sessions[sid].phase;
      var applied := ApplyPlacement(s.tables, id, phase.result, s.clock);
      && (applied.Err? ==> applied.error == OutOfRange)
      && (s.tables.orders[id].requestedStake <= Room(s.tables, id) ==> applied.Ok?)
  {
    hide StateInv, Inv, ApplyPlacement;
    ReachableInv(s);
    SessionOf(s, sid);
    var id, phase := s.sessions[sid].order, s.sessions[sid].phase;
    InvOf(s);
    if ApplyPlacement(s.tables, id, phase.result, s.clock).Err? {
      PlacementRefusal(s.tables, id, phase.result, s.clock);
    }
  }

  /** Nor is the booking of a settlement; a repeat is refused exactly when it quotes another payout. */
  lemma SettlementsAreCovered(s: State, sid: nat)
    requires Reachable(s) && sid in s.sessions && s.sessions[sid].phase.Settling?
    ensures Active(s, sid)
    ensures
      var id, phase := s.sessions[sid].order, s.sessions[sid].phase;
      var booked := Lookup(s.tables.book.entries, SettleKey(s.tables.orders[id].key));
      SettleStake(s.tables, id, phase.stake, phase.payout, s.clock).Ok?
      <==> if booked.Some? then booked.value.effect.amount == phase.payout else phase.payout <= Room(s.tables, id)
  {
    ReachableInv(s);
    SessionOf(s, sid);
    SettleStakeVerdict(s.tables, s.sessions[sid].order, s.sessions[sid].phase.payout, s.clock);
  }

  lemma PlacementRefusal(a: Tables, id: nat, result: PlaceResult, now: int)
    requires Inv(a) && InTables(a, id)
    requires ApplyPlacement(a, id, result, now).Err?
    ensures ApplyPlacement(a, id, result, now) == Err(OutOfRange)
    ensures a.book.accounts[a.orders[id].account].balances.available + a.orders[id].requestedStake > MAX_COLUMN_CENTS
  {
    OrderOkOf(a, id);
    if result.PlaceAccepted? && WellFormedAcceptance(result) {
      AcceptanceNeverRefused(a, id, AcceptanceOf(result), now);
    } else {
      ReleaseNeverRefused(a, id, now);
    }
  }

  /** Nor is the batch that releases abandoned reservations. */
  lemma AbandonedAreCovered(s: State, ids: set<nat>)
    requires Reachable(s)
    ensures Links(s.tables)
    ensures CancelAbandoned(s.tables, ids, s.clock).Err? ==>
      CancelAbandoned(s.tables, ids, s.clock).error in {MixedAccounts, OutOfRange}
  {
    ReachableInv(s);
    AllInTables(s.tables);
    var rows := ReservedAmong(s.tables.orders, ids);
    if rows != [] && OneAccount(s.tables.orders, rows) {
      BatchIsOneByOne(s.tables, ids, s.clock);
      OneByOneRefusal(s.tables, rows, s.clock);
    }
  }

  lemma {:induction false} OneByOneRefusal(a: Tables, rows: seq<nat>, now: int)
    requires Inv(a) && RowsStored(a, rows)
    ensures CancelEach(a, rows, now).Err? ==> CancelEach(a, rows, now).error == OutOfRange
  {
    if rows != [] {
      var init, id := rows[..|rows| - 1], rows[|rows| - 1];
      OneByOneRefusal(a, init, now);
      assert InTables(a, id);
      if CancelEach(a, init, now).Ok? {
        CancelEachKeepsInv(a, init, now);
        var done := CancelEach(a, init, now).value;
        if done.orders[id].status == Reserved {
          ReleaseNeverRefused(done, id, now);
        }
      }
    }
  }

  // ---- Settlement across a crash ----

  /** A settled or voided order has exactly one settlement in the ledger, and it is the order's own. */
  lemma SettledOnce(s: State, id: nat)
    requires Reachable(s) && id < |s.tables.orders| && s.tables.orders[id].status in {Settled, Voided}
    ensures
      var order, entries := s.tables.orders[id], s.tables.book.entries;
      && order.payout.Some? && order.acceptedStake.Some?
      && exists e | 0 <= e < |entries| ::
           && entries[e].key == SettleKey(order.key)
           && entries[e].account == order.account
           && entries[e].effect == Effect(order.payout.value, -order.acceptedStake.value)
           && (forall f | 0 <= f < |entries| && f != e :: entries[f].key != SettleKey(order.key))
  {
    ReachableInv(s);
    assert InTables(s.tables, id) && OrderOk(s.tables, id);
    LookupFinds(s.tables.book.entries, SettleKey(s.tables.orders[id].key));
  }

  /** Conversely every settlement in the ledger is that of an order accepted for that stake. */
  lemma SettlementsAreOfOrders(s: State, e: nat)
    requires Reachable(s) && e < |s.tables.book.entries| && s.tables.book.entries[e].entryType == Settle
    ensures
      var entry := s.tables.book.entries[e];
      && entry.order.Some? && entry.order.value < |s.tables.orders|
      && var order := s.tables.orders[entry.order.value];
      && entry.key == SettleKey(order.key) && entry.account == order.account
      && WasAccepted(order.status)
      && order.acceptedStake == Some(-entry.effect.reservedDelta)
      && (order.status != Accepted ==> order.payout == Some(entry.effect.amount))
  {
    hide Inv;
    ReachableInv(s);
    EntryOfOrder(s.tables, e);
  }

  lemma EntryOfOrder(tables: Tables, e: nat)
    requires Inv(tables) && e < |tables.book.entries|
    ensures
      var entry := tables.book.entries[e];
      || (entry.key == OpenKey(entry.account) && entry.entryType == Adjustment)
      || (&& !entry.key.OpenKey? && entry.order.Some? && entry.order.value < |tables.orders|
          && var id := entry.order.value;
             var order := tables.orders[id];
          && entry.key.order == order.key && entry.account == order.account
          && match entry.key
             case ReserveKey(_) => entry.entryType == Reserve
             case ReleaseKey(_) => entry.entryType == Release
             case PartialKey(_) => entry.entryType == Release
             case SettleKey(_) =>
               && entry.entryType == Settle && WasAccepted(order.status)
               && order.acceptedStake == Some(-entry.effect.reservedDelta)
               && (order.status != Accepted ==> order.payout == Some(entry.effect.amount)))
  {
    var entry := tables.book.entries[e];
    assert Owned(entry, tables.orders);
    LookupIs(tables.book.entries, e);
    if !entry.key.OpenKey? {
      var id := entry.order.value;
      assert InTables(tables, id) && OrderOk(tables, id);
    }
  }

  /**
   * A crash between the two transactions of a settlement leaves the order ACCEPTED with its
   * stake settled. A new call with the same payout then closes the order without touching the
   * ledger; one with another payout changes nothing.
   */
  lemma RetryAfterCrash(s: State, sid: nat, id: nat, reading: OperatorOrder)
    requires Reachable(s) && sid !in s.sessions
    requires InTables(s.tables, id) && s.tables.orders[id].status == Accepted
    requires Lookup(s.tables.book.entries, SettleKey(s.tables.orders[id].key)).Some?
    requires Settleable(reading)
    ensures
      var after := RunFrom(s, [SettleRead(sid, id, reading), SettleBook(sid), SettleClose(sid)]);
      var booked := Lookup(s.tables.book.entries, SettleKey(s.tables.orders[id].key)).value.effect.amount;
      && after.tables.book == s.tables.book && after.sessions == s.sessions
      && if reading.payout == Some(booked)
         then id < |after.tables.orders|
              && after.tables.orders[id].status in {Settled, Voided}
              && after.tables.orders[id].payout == Some(booked)
         else after.tables == s.tables
  {
    hide Inv, StateInv, Reachable, SettleStake, Next, RunFrom;
    ReachableInv(s);
    InvOf(s);
    OrderOkOf(s.tables, id);
    var stake, payout := s.tables.orders[id].acceptedStake.value, reading.payout.value;
    SettleStakeVerdict(s.tables, id, payout, s.clock);
    SettlementSteps(s, sid, id, reading);
    var one := SettleReadStep(s, sid, id, reading);
    assert one == At(s, sid, id, Settling(stake, payout, reading.settledAt));
    var two := SettleBookStep(one, sid);
    SettleBookOnReplay(one, sid, s);
    assert s.sessions[sid := Session(id, Closing(stake, payout, reading.settledAt))] - {sid} == s.sessions;
    assert one.sessions - {sid} == s.sessions;
  }

  lemma SettlementSteps(s: State, sid: nat, id: nat, reading: OperatorOrder)
    ensures RunFrom(s, [SettleRead(sid, id, reading), SettleBook(sid), SettleClose(sid)])
      == SettleCloseStep(SettleBookStep(SettleReadStep(s, sid, id, reading), sid), sid)
  {
    hide SettleReadStep, SettleBookStep, SettleCloseStep, ReserveOrder, ResolveUnknown, CancelAbandoned, ControlNext, OpenAccount,
      LockStep, CancelStep, ApplyStep;
    var steps := [SettleRead(sid, id, reading), SettleBook(sid), SettleClose(sid)];
    RunFromCons(s, steps);
    RunFromCons(Next(s, steps[0]), steps[1..]);
    RunFromCons(Next(Next(s, steps[0]), steps[1]), steps[2..]);
  }

  lemma SettleBookOnReplay(one: State, sid: nat, s: State)
    requires Active(one, sid) && one.sessions[sid].phase.Settling? && one == s.(sessions := one.sessions)
    requires
      var id, phase := one.sessions[sid].order, one.sessions[sid].phase;
      var settled := SettleStake(one.tables, id, phase.stake, phase.payout, one.clock);
      settled.Ok? ==> settled.value.0 == one.tables
    ensures
      var id, phase := one.sessions[sid].order, one.sessions[sid].phase;
      SettleBookStep(one, sid) ==
        if SettleStake(one.tables, id, phase.stake, phase.payout, one.clock).Ok?
        then At(one, sid, id, Closing(phase.stake, phase.payout, phase.settledAt))
        else End(one, sid)
  {
  }

  // ---- Conservation ----

  /** Every account was opened by one adjustment. */
  ghost predicate AllOpened(book: Book) {
    forall a | 0 <= a < |book.accounts| :: Lookup(book.entries, OpenKey(a)).Some?
  }

  lemma OpenStepOpens(a: State, mode: Mode, operatorKey: string, currency: string, initial: int)
    requires StateInv(a) && AllOpened(a.tables.book)
    ensures AllOpened(OpenStep(a, mode, operatorKey, currency, initial).tables.book)
  {
    var book := a.tables.book;
    if OpenAccount(book, mode, operatorKey, currency, initial, a.clock).Ok? {
      var started, input := Opening(book, mode, operatorKey, currency), OpeningInput(|book.accounts|, initial);
      OpeningKeepsWellFormed(book, mode, operatorKey, currency);
      if Lookup(started.entries, input.key).None? {
        AppendEffect(started, |book.accounts|, input, a.clock);
      }
    }
  }

  lemma AccountsStay(a: State, step: Step)
    requires !step.Open?
    ensures |Next(a, step).tables.book.accounts| == |a.tables.book.accounts|
  {
    hide StartSubmission, ApplyPlacement, ResolveUnknown, ReserveOrder, CancelAbandoned;
    match step
    case SubmitLock(sid, quote, interlockOpen) =>
      if Active(a, sid) {
        StartSubmissionBooksNothing(a.tables, a.sessions[sid].order, quote, a.clock, interlockOpen);
      }
    case SubmitApply(sid) =>
      if Active(a, sid) && a.sessions[sid].phase.Answered? {
        AnswersAddNoAccount(a.tables, a.sessions[sid].order, a.sessions[sid].phase.result, None, a.clock, a.clock);
      }
    case Resolve(order, answer, readAt) =>
      if InTables(a.tables, order) {
        AnswersAddNoAccount(a.tables, order, PlaceUnknown, answer, readAt, a.clock);
      }
    case ReserveStep(decision, account, interlockOpen, clockOk) =>
      ReservationsAddNoAccount(a.tables, a.ports, decision, account, a.clock, interlockOpen, clockOk);
    case Abandon(ids) =>
      if Links(a.tables) {
        BatchAddsNoAccount(a.tables, ids, a.clock);
      }
    case _ =>
  }

  lemma AnswersAddNoAccount(tables: Tables, id: nat, result: PlaceResult, answer: Option<OperatorOrder>, readAt: int,
                            now: int)
    requires InTables(tables, id)
    ensures ApplyPlacement(tables, id, result, now).Ok? ==>
      |ApplyPlacement(tables, id, result, now).value.0.book.accounts| == |tables.book.accounts|
    ensures ResolveUnknown(tables, id, answer, readAt, now).Ok? ==>
      |ResolveUnknown(tables, id, answer, readAt, now).value.0.book.accounts| == |tables.book.accounts|
  {
  }

  lemma ReservationsAddNoAccount(tables: Tables, ports: map<Mode, string>, decision: nat, account: nat, now: int,
                                 interlockOpen: bool, clockOk: bool)
    ensures |ReserveOrder(tables, ports, decision, account, now, interlockOpen, clockOk).tables.book.accounts|
      == |tables.book.accounts|
  {
  }

  lemma BatchAddsNoAccount(tables: Tables, ids: set<nat>, now: int)
    requires Links(tables)
    ensures CancelAbandoned(tables, ids, now).Ok? ==>
      |CancelAbandoned(tables, ids, now).value.0.book.accounts| == |tables.book.accounts|
  {
    var rows := ReservedAmong(tables.orders, ids);
    if rows != [] {
      assert InTables(tables, rows[0]);
    }
  }

  lemma {:induction false} EveryAccountOpened(setup: Setup, steps: seq<Step>)
    ensures AllOpened(Run(setup, steps).tables.book)
  {
    if steps != [] {
      var a, step := Run(setup, steps[..|steps| - 1]), steps[|steps| - 1];
      EveryAccountOpened(setup, steps[..|steps| - 1]);
      EveryRun(setup, steps[..|steps| - 1]);
      StepOpens(a, step);
    }
  }

  lemma OpenIsNext(a: State, step: Step)
    requires step.Open?
    ensures Next(a, step) == OpenStep(a, step.mode, step.operatorKey, step.currency, step.initial)
  {
  }

  lemma StepOpens(a: State, step: Step)
    requires StateInv(a) && AllOpened(a.tables.book)
    ensures AllOpened(Next(a, step).tables.book)
  {
    hide Inv, StateInv, SessionOk, Next;
    StepKeepsStateInv(a, step);
    if step.Open? {
      OpenStepOpens(a, step.mode, step.operatorKey, step.currency, step.initial);
      OpenIsNext(a, step);
    } else {
      AccountsStay(a, step);
    }
  }

  /** What an account was opened with. */
  function InitialDeposit(entries: seq<Entry>, account: nat): int {
    match Lookup(entries, OpenKey(account))
    case None => 0
    case Some(entry) => entry.effect.amount
  }

  lemma {:induction false} OneDeposit(entries: seq<Entry>, account: nat)
    requires DistinctKeys(entries)
    requires forall e | 0 <= e < |entries| :: entries[e].entryType == Adjustment <==> entries[e].key.OpenKey?
    requires forall e | 0 <= e < |entries| && entries[e].key.OpenKey? :: entries[e].key.account == entries[e].account
    ensures Total(Openings, entries, account) == InitialDeposit(entries, account)
  {
    if entries != [] {
      var init, last := entries[..|entries| - 1], entries[|entries| - 1];
      OneDeposit(init, account);
      if last.key == OpenKey(account) {
        LookupFinds(init, OpenKey(account));
      }
    }
  }

  /**
   * Money is conserved in every run: what an account has, free or reserved, is what it was
   * opened with plus payout minus accepted stake over its settlements. Nothing else creates
   * or destroys a cent.
   */
  lemma MoneyIsConserved(s: State, account: nat)
    requires Reachable(s) && account < |s.tables.book.accounts|
    ensures
      var book := s.tables.book;
      && Lookup(book.entries, OpenKey(account)).Some?
      && book.accounts[account].balances.available + book.accounts[account].balances.reserved
         == InitialDeposit(book.entries, account) + Total(SettledResults, book.entries, account)
  {
    var setup, steps :| s == Run(setup, steps);
    EveryRun(setup, steps);
    EveryAccountOpened(setup, steps);
    MoneyConserved(s.tables.book, account);
    forall e | 0 <= e < |s.tables.book.entries|
      ensures
        var entry := s.tables.book.entries[e];
        && (entry.entryType == Adjustment <==> entry.key.OpenKey?)
        && (entry.key.OpenKey? ==> entry.key.account == entry.account)
    {
      EntryOfOrder(s.tables, e);
    }
    OneDeposit(s.tables.book.entries, account);
  }
}
