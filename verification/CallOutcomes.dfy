/** What a whole uninterrupted call comes to: a submission, and a settlement. */
module CallOutcomes {
  import opened Wrappers
  import opened Keys
  import opened Control
  import opened Ledger
  import opened Risk
  import opened Orders
  import opened OrderInvariant
  import opened OrderSteps
  import opened OrderOutcomes
  import opened Pipeline
  import opened PipelineInvariant
  import opened Settlements
  import opened SubmitCall

  /** The lock transaction runs and finds the order, the mode, the policy and the quote as they must be. */
  predicate Submits(s: State, id: nat, outside: Outside)
    requires id < |s.tables.orders|
  {
    var order, policy := s.tables.orders[id], ActivePolicy(s.tables.control);
    && order.mode != LiveCanary && order.mode in s.ports && !outside.lockThrows
    && LockForExecution(s.tables.control, outside.interlockAtLock) == Ok(order.mode)
    && outside.quote.Some? && outside.quote.value.available && outside.quote.value.odd >= order.minimumOdd
    && policy.Some? && 0 <= s.clock - outside.quote.value.capturedAt <= policy.value.maxQuoteAgeMs
  }

  /** The order given up before it was submitted, for this reason. */
  function GivenUpFor(s: State, id: nat, outside: Outside): RejectionCode
    requires id < |s.tables.orders|
  {
    var order := s.tables.orders[id];
    if order.mode == LiveCanary || order.mode !in s.ports then ControlDisabled
    else if outside.lockThrows then RiskCheckFailed
    else
      var verdict := StartSubmission(s.tables, id, outside.quote, s.clock, outside.interlockAtLock).1;
      if verdict.MustCancel? then verdict.code else ControlDisabled
  }

  /** Sent to the operator: the operator can be reached and the mode is still the order's. */
  predicate Sends(s: State, id: nat, outside: Outside)
    requires id < |s.tables.orders|
  {
    && Submits(s, id, outside) && outside.reachable
    && LockForExecution(s.tables.control, outside.interlockAtPermit) == Ok(s.tables.orders[id].mode)
  }

  /** Rejected with the stake back where the account has room for it, as it was where it has not. */
  predicate GaveUp(a: Tables, b: Tables, id: nat, code: RejectionCode)
    requires InTables(a, id)
  {
    if HasRoom(a, id) then GivenBack(a, b, id, code) else b == a
  }

  lemma GivesUp(s: State, id: nat, outside: Outside)
    requires Inv(s.tables) && InTables(s.tables, id) && s.sessions == map[] && s.tables.orders[id].status == Reserved
    requires !Submits(s, id, outside)
    ensures
      var after := RunFrom(s, CallSteps(id, outside));
      after == s.(tables := after.tables) && GaveUp(s.tables, after.tables, id, GivenUpFor(s, id, outside))
  {
    hide Inv, Cancel, LockForExecution, StartSubmission, AfterLock, LockOf, ReadStep, RunFrom, GivenBack, HasRoom;
    var code := GivenUpFor(s, id, outside);
    CallUnfolds(s, id, outside);
    LockedCall(s, id, outside);
    SubmittedExactly(s.tables, id, outside.quote, s.clock, outside.interlockAtLock);
    CancellingTail(s, id, {Reserved}, code, outside);
    CancelGivesBack(s.tables, id, {Reserved}, code, s.clock);
  }

  lemma Begins(s: State, id: nat, outside: Outside)
    requires Inv(s.tables) && InTables(s.tables, id) && s.sessions == map[] && s.tables.orders[id].status == Reserved
    requires Submits(s, id, outside)
    ensures
      var order := s.tables.orders[id];
      var (begun, verdict) := StartSubmission(s.tables, id, outside.quote, s.clock, outside.interlockAtLock);
      && Inv(begun) && InTables(begun, id) && begun.control == s.tables.control && verdict == Current(begun.orders[id])
      && begun.orders[id].status == Submitting && begun.orders[id].mode == order.mode
      && begun.orders[id].key == order.key && begun.orders[id].requestedStake == order.requestedStake
      && RunFrom(s, CallSteps(id, outside)) == AfterLock(Alone(s.(tables := begun), id, Ready(begun.orders[id])), outside)
  {
    hide Inv, LockForExecution, StartSubmission, AfterLock, LockOf, ReadStep, RunFrom;
    CallUnfolds(s, id, outside);
    LockedCall(s, id, outside);
    SubmittedExactly(s.tables, id, outside.quote, s.clock, outside.interlockAtLock);
    StartSubmissionKeepsInv(s.tables, id, outside.quote, s.clock, outside.interlockAtLock);
  }

  /**
   * A call on an order RESERVED places it, once and as stored, exactly when it may be submitted
   * and sent. An order not submitted, or whose mode is gone by the permit, is given up; one
   * whose operator cannot be reached is lost from sight; one that was sent gets its answer.
   */
  lemma SubmitsExactly(s: State, id: nat, outside: Outside)
    requires Inv(s.tables) && InTables(s.tables, id) && s.sessions == map[] && s.tables.orders[id].status == Reserved
    ensures InTables(StartSubmission(s.tables, id, outside.quote, s.clock, outside.interlockAtLock).0, id)
    ensures
      var order, after := s.tables.orders[id], RunFrom(s, CallSteps(id, outside));
      var begun := StartSubmission(s.tables, id, outside.quote, s.clock, outside.interlockAtLock).0;
      && after == s.(tables := after.tables, placed := after.placed)
      && after.placed == (if Sends(s, id, outside)
                          then s.placed + [Placement(id, order.key, order.requestedStake, s.clock)] else s.placed)
      && if !Submits(s, id, outside) then GaveUp(s.tables, after.tables, id, GivenUpFor(s, id, outside))
         else
           && begun.orders[id].status == Submitting
           && if !outside.reachable then
                && OnlyAbout(begun, after.tables, id) && after.tables.book == begun.book
                && after.tables.orders[id].status == Unknown && after.tables.orders[id].unknownSince == Some(s.clock)
              else if !Sends(s, id, outside) then GaveUp(begun, after.tables, id, ControlDisabled)
              else
                var answered := ApplyPlacement(begun, id, outside.answer, s.clock);
                after.tables == if answered.Ok? then answered.value.0 else begun
  {
    hide Inv, Cancel, ApplyPlacement, LockForExecution, StartSubmission, AfterLock, RunFrom, GivenBack, HasRoom,
      OnlyAbout;
    StartSubmissionKeepsInv(s.tables, id, outside.quote, s.clock, outside.interlockAtLock);
    if !Submits(s, id, outside) {
      GivesUp(s, id, outside);
    } else {
      var begun := StartSubmission(s.tables, id, outside.quote, s.clock, outside.interlockAtLock).0;
      Begins(s, id, outside);
      ReadyTail(s.(tables := begun), id, begun.orders[id], outside);
      if !outside.reachable {
        UnknownOnlyUnread(begun, id, PlaceUnknown, s.clock);
      } else if !Sends(s, id, outside) {
        CancelGivesBack(begun, id, {Submitting, Reserved}, ControlDisabled, s.clock);
      }
    }
  }

  lemma SettlementRuns(s: State, sid: nat, id: nat, reading: OperatorOrder)
    requires InTables(s.tables, id) && sid !in s.sessions && s.tables.orders[id].status == Accepted
    requires s.tables.orders[id].acceptedStake.Some?
    ensures
      var after := RunFrom(s, [SettleRead(sid, id, reading), SettleBook(sid), SettleClose(sid)]);
      if !PaysOut(reading) then after == s
      else
        var stake, payout := s.tables.orders[id].acceptedStake.value, reading.payout.value;
        var booked := SettleStake(s.tables, id, stake, payout, s.clock);
        if booked.Err? then after == s
        else
          InTables(booked.value.0, id) ==>
            after == s.(tables := CloseOrder(booked.value.0, id, stake, payout,
                                             if reading.settledAt.Some? then reading.settledAt.value else s.clock))
  {
    hide SettleStake, RunFrom, CloseOrder;
    SettlementSteps(s, sid, id, reading);
    if PaysOut(reading) {
      var stake, payout := s.tables.orders[id].acceptedStake.value, reading.payout.value;
      var one := SettleReadStep(s, sid, id, reading);
      assert one == At(s, sid, id, Settling(stake, payout, reading.settledAt));
      assert one.sessions - {sid} == s.sessions;
      var booked := SettleStake(s.tables, id, stake, payout, s.clock);
      if booked.Ok? {
        var two := SettleBookStep(one, sid);
        assert two == At(one.(tables := booked.value.0), sid, id, Closing(stake, payout, reading.settledAt));
        assert two.sessions - {sid} == s.sessions;
      }
    }
  }

  /**
   * A settlement call on an ACCEPTED order does nothing unless the operator pays out; then it
   * pays, the first time, and closes the order, unless the account has no room or another
   * payout was booked.
   */
  lemma SettlesExactly(s: State, sid: nat, id: nat, reading: OperatorOrder)
    requires Inv(s.tables) && InTables(s.tables, id) && sid !in s.sessions && s.tables.orders[id].status == Accepted
    ensures s.tables.orders[id].acceptedStake.Some?
    ensures
      var order, after := s.tables.orders[id], RunFrom(s, [SettleRead(sid, id, reading), SettleBook(sid), SettleClose(sid)]);
      var paid := Lookup(s.tables.book.entries, SettleKey(order.key));
      && after == s.(tables := after.tables)
      && if !PaysOut(reading)
            || (if paid.Some? then paid.value.effect.amount != reading.payout.value
                else s.tables.book.accounts[order.account].balances.available + reading.payout.value > MAX_COLUMN_CENTS)
         then after.tables == s.tables
         else
           && ClosedFor(s.tables, after.tables, id, reading, s.clock) && after.tables.control == s.tables.control
           && if paid.Some? then after.tables.book == s.tables.book else PaidFor(s.tables, after.tables, id, reading)
  {
    hide Inv, SettleStake, RunFrom, ClosedFor, PaidFor, CloseOrder, Lookup;
    OrderOkOf(s.tables, id);
    SettlementRuns(s, sid, id, reading);
    if PaysOut(reading) {
      var stake, payout := s.tables.orders[id].acceptedStake.value, reading.payout.value;
      SettlementCompletes(s.tables, id, reading, s.clock, s.tables.control);
      var booked := SettleStake(s.tables, id, stake, payout, s.clock);
      if booked.Ok? {
        BookLeavesControl(s.tables, id, stake, payout, s.clock);
        assert booked.value.0.(control := s.tables.control) == booked.value.0;
      }
    }
  }

  lemma BookLeavesControl(a: Tables, id: nat, stake: int, payout: int, now: int)
    requires InTables(a, id) && SettleStake(a, id, stake, payout, now).Ok?
    ensures SettleStake(a, id, stake, payout, now).value.0.control == a.control
  {
  }

  // ---- Steps of one transaction ----

  predicate WritesOnly(s: State, after: State) {
    after == s.(tables := after.tables)
  }

  /** A transaction that goes through leaves its tables and one that throws leaves the old ones; nothing else moves. */
  lemma StepsAreTransactions(s: State, ids: set<nat>, order: nat, answer: Option<OperatorOrder>, readAt: int,
                             decision: nat, code: RejectionCode)
    requires Inv(s.tables) && order < |s.tables.orders|
    ensures forall id | id in ids && id < |s.tables.orders| :: InTables(s.tables, id)
    ensures InTables(s.tables, order)
    ensures
      var abandoned := CancelAbandoned(s.tables, ids, s.clock);
      var resolved := ResolveUnknown(s.tables, order, answer, readAt, s.clock);
      && WritesOnly(s, Next(s, Abandon(ids))) && WritesOnly(s, Next(s, Resolve(order, answer, readAt)))
      && WritesOnly(s, Next(s, Discard(decision, code))) && WritesOnly(s, Next(s, Recover(readAt)))
      && Next(s, Abandon(ids)).tables == (if abandoned.Ok? then abandoned.value.0 else s.tables)
      && Next(s, Resolve(order, answer, readAt)).tables == (if resolved.Ok? then resolved.value.0 else s.tables)
      && Next(s, Discard(decision, code)).tables == RejectEligible(s.tables, decision, code)
      && (readAt <= s.clock ==> Next(s, Recover(readAt)).tables == RecoverStale(s.tables, readAt))
  {
    hide Inv, InTables, CancelAbandoned, ResolveUnknown, RecoverStale, RejectEligible, ReserveOrder, OpenStep, GovernStep, ReadStep,
      LockStep, LockFailsStep, CancelStep, PermitStep, AnswerStep, ApplyStep, SettleReadStep, SettleBookStep, SettleCloseStep;
    LinksHold(s.tables);
  }

  lemma LinksHold(tables: Tables)
    requires Inv(tables)
    ensures Links(tables) && forall i: nat | i < |tables.orders| :: InTables(tables, i)
  {
  }
}
