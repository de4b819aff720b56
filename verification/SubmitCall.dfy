/** One whole call of `submit`, uninterrupted, is six steps of the protocol. */
module SubmitCall {
  import opened Wrappers
  import opened Keys
  import opened Control
  import opened Ledger
  import opened Risk
  import opened Orders
  import opened Database
  import opened OrderService
  import opened Pipeline

  /** What the outside world answers during the call. */
  datatype Outside = Outside(
    quote: Option<OperatorQuote>,
    lockThrows: bool,
    interlockAtLock: bool,
    interlockAtPermit: bool,
    reachable: bool,
    answer: PlaceResult)

  function CallSteps(id: nat, outside: Outside): seq<Step> {
    [SubmitRead(0, id),
     if outside.lockThrows then SubmitLockFails(0) else SubmitLock(0, outside.quote, outside.interlockAtLock),
     SubmitPermit(0, outside.interlockAtPermit, outside.reachable),
     SubmitAnswer(0, outside.answer), SubmitApply(0), SubmitCancel(0)]
  }

  function LockOf(s: State, outside: Outside): State {
    if outside.lockThrows then LockFailsStep(s, 0) else LockStep(s, 0, outside.quote, outside.interlockAtLock)
  }

  /** The steps that follow the lock. */
  function AfterLock(s: State, outside: Outside): State {
    CancelStep(
      ApplyStep(AnswerStep(PermitStep(s, 0, outside.interlockAtPermit, outside.reachable), 0, outside.answer), 0), 0)
  }

  lemma CallUnfolds(s: State, id: nat, outside: Outside)
    ensures RunFrom(s, CallSteps(id, outside))
      == AfterLock(LockOf(ReadStep(s, 0, id), outside), outside)
  {
    hide Next, LockOf, ReadStep, PermitStep, AnswerStep, ApplyStep, CancelStep;
    var steps := CallSteps(id, outside);
    var one := ReadStep(s, 0, id);
    var two := LockOf(one, outside);
    var three := PermitStep(two, 0, outside.interlockAtPermit, outside.reachable);
    var four := AnswerStep(three, 0, outside.answer);
    var five := ApplyStep(four, 0);
    CallMoves(s, id, outside);
    RunFromCons(s, steps);
    CallMoves(one, id, outside);
    RunFromCons(one, steps[1..]);
    CallMoves(two, id, outside);
    RunFromCons(two, steps[2..]);
    CallMoves(three, id, outside);
    RunFromCons(three, steps[3..]);
    CallMoves(four, id, outside);
    RunFromCons(four, steps[4..]);
    CallMoves(five, id, outside);
    RunFromCons(five, steps[5..]);
  }

  lemma CallMoves(s: State, id: nat, outside: Outside)
    ensures
      var steps := CallSteps(id, outside);
      && Next(s, steps[0]) == ReadStep(s, 0, id)
      && Next(s, steps[1]) == LockOf(s, outside)
      && Next(s, steps[2]) == PermitStep(s, 0, outside.interlockAtPermit, outside.reachable)
      && Next(s, steps[3]) == AnswerStep(s, 0, outside.answer)
      && Next(s, steps[4]) == ApplyStep(s, 0)
      && Next(s, steps[5]) == CancelStep(s, 0)
  {
    hide ReadStep, LockStep, LockFailsStep, PermitStep, AnswerStep, ApplyStep, CancelStep;
  }

  lemma OverTail(s: State, outside: Outside)
    requires s.sessions == map[]
    ensures AfterLock(s, outside) == s
  {
  }

  /** The state with the one session of the call. */
  function Alone(s: State, id: nat, phase: Phase): State {
    s.(sessions := map[0 := Session(id, phase)])
  }

  lemma NothingToSubmit(s: State, id: nat, outside: Outside)
    requires InTables(s.tables, id) && s.sessions == map[] && s.tables.orders[id].status != Reserved
    ensures AfterLock(LockOf(ReadStep(s, 0, id), outside), outside) == s
  {
    OverTail(s, outside);
  }

  lemma CancellingTail(s: State, id: nat, from: set<OrderStatus>, code: RejectionCode, outside: Outside)
    requires InTables(s.tables, id) && s.sessions == map[]
    ensures
      var cancelled := Cancel(s.tables, id, from, code, s.clock);
      AfterLock(Alone(s, id, Cancelling(from, code)), outside)
      == if cancelled.Ok? then s.(tables := cancelled.value) else s
  {
    hide Cancel;
  }

  lemma ReadyTail(s: State, id: nat, order: Order, outside: Outside)
    requires InTables(s.tables, id) && s.sessions == map[]
    ensures
      var after := AfterLock(Alone(s, id, Ready(order)), outside);
      if !outside.reachable then
        var applied := ApplyPlacement(s.tables, id, PlaceUnknown, s.clock);
        after == if applied.Ok? then s.(tables := applied.value.0) else s
      else if LockForExecution(s.tables.control, outside.interlockAtPermit) != Ok(order.mode) then
        var cancelled := Cancel(s.tables, id, {Submitting, Reserved}, ControlDisabled, s.clock);
        after == if cancelled.Ok? then s.(tables := cancelled.value) else s
      else
        var applied := ApplyPlacement(s.tables, id, outside.answer, s.clock);
        var placed := s.placed + [Placement(id, order.key, order.requestedStake, s.clock)];
        after == if applied.Ok? then s.(tables := applied.value.0, placed := placed) else s.(placed := placed)
  {
    hide Cancel, ApplyPlacement, LockForExecution, ApplyStep, AnswerStep, CancelStep;
    var ready := Alone(s, id, Ready(order));
    var next := PermitStep(ready, 0, outside.interlockAtPermit, outside.reachable);
    if !outside.reachable {
      assert next == Alone(s, id, Answered(PlaceUnknown));
      AnsweredTail(s, id, PlaceUnknown, outside.answer);
    } else if LockForExecution(s.tables.control, outside.interlockAtPermit) != Ok(order.mode) {
      assert next == Alone(s, id, Cancelling({Submitting, Reserved}, ControlDisabled));
      RefusedTail(s, id, outside.answer);
    } else {
      var sent := s.(placed := s.placed + [Placement(id, order.key, order.requestedStake, s.clock)]);
      assert next == Alone(sent, id, Holding(order));
      AnswerLands(sent, id, order, outside.answer);
      AnsweredTail(sent, id, outside.answer, outside.answer);
    }
  }

  lemma AnswerLands(s: State, id: nat, order: Order, answer: PlaceResult)
    requires InTables(s.tables, id) && s.sessions == map[]
    ensures AnswerStep(Alone(s, id, Holding(order)), 0, answer) == Alone(s, id, Answered(answer))
    ensures AnswerStep(Alone(s, id, Answered(answer)), 0, answer) == Alone(s, id, Answered(answer))
  {
    assert map[0 := Session(id, Holding(order))][0 := Session(id, Answered(answer))] == map[0 := Session(id, Answered(answer))];
  }

  lemma RefusedTail(s: State, id: nat, answer: PlaceResult)
    requires InTables(s.tables, id) && s.sessions == map[]
    ensures
      var cancelled := Cancel(s.tables, id, {Submitting, Reserved}, ControlDisabled, s.clock);
      CancelStep(ApplyStep(AnswerStep(Alone(s, id, Cancelling({Submitting, Reserved}, ControlDisabled)), 0, answer), 0), 0)
      == if cancelled.Ok? then s.(tables := cancelled.value) else s
  {
    hide Cancel;
  }

  lemma AnsweredTail(s: State, id: nat, result: PlaceResult, answer: PlaceResult)
    requires InTables(s.tables, id) && s.sessions == map[]
    ensures
      var applied := ApplyPlacement(s.tables, id, result, s.clock);
      CancelStep(ApplyStep(AnswerStep(Alone(s, id, Answered(result)), 0, answer), 0), 0)
      == if applied.Ok? then s.(tables := applied.value.0) else s
  {
    hide ApplyPlacement, Cancel;
  }

  lemma LockedCall(s: State, id: nat, outside: Outside)
    requires InTables(s.tables, id) && s.sessions == map[] && s.tables.orders[id].status == Reserved
    ensures
      var locked := LockOf(ReadStep(s, 0, id), outside);
      if PortFor(s.ports, s.tables.orders[id].mode).None? then locked == Alone(s, id, Cancelling({Reserved}, ControlDisabled))
      else if outside.lockThrows then locked == Alone(s, id, Cancelling({Reserved}, RiskCheckFailed))
      else
        var (tables, verdict) := StartSubmission(s.tables, id, outside.quote, s.clock, outside.interlockAtLock);
        if verdict.MustCancel? then locked == Alone(s, id, Cancelling({Reserved}, verdict.code))
        else if verdict.order.status == Submitting then locked == Alone(s.(tables := tables), id, Ready(verdict.order))
        else locked == s
  {
    hide StartSubmission;
  }

  /** Nothing under way, no placement yet. */
  function Quiet(ports: map<Mode, string>, tables: Tables, now: int): State {
    State(ports, tables, map[], [], now)
  }

  class Submission {
    const db: Database
    const orders: OrderExecutionService

    constructor (db: Database, orders: OrderExecutionService)
      requires orders.db == db && orders.Wired()
      ensures this.db == db && this.orders == orders
    {
      this.db, this.orders := db, orders;
    }

    /** The order as it was read, checked under lock, sent under permit, and its answer recorded. */
    method Submit(id: nat, outside: Outside, now: int) returns (placed: seq<Placement>)
      requires orders.db == db && orders.Wired() && InTables(db.Snapshot(), id)
      modifies db
      ensures
        var after := RunFrom(Quiet(orders.ports, old(db.Snapshot()), now), CallSteps(id, outside));
        db.Snapshot() == after.tables && placed == after.placed && after.sessions == map[]
    {
      hide AfterLock, LockOf, ReadStep, RunFrom, Orders.Cancel, ApplyPlacement, Orders.StartSubmission;
      ghost var s := Quiet(orders.ports, db.Snapshot(), now);
      CallUnfolds(s, id, outside);
      placed := [];
      var reserved := db.orders[id];
      if reserved.status != Reserved {
        NothingToSubmit(s, id, outside);
        return;
      }
      LockedCall(s, id, outside);
      if PortFor(orders.ports, reserved.mode).None? {
        CancellingTail(s, id, {Reserved}, ControlDisabled, outside);
        var _ := orders.Cancel(id, {Reserved}, ControlDisabled, now);
        return;
      }
      if outside.lockThrows {
        CancellingTail(s, id, {Reserved}, RiskCheckFailed, outside);
        var _ := orders.Cancel(id, {Reserved}, RiskCheckFailed, now);
        return;
      }
      var verdict := orders.StartSubmission(id, outside.quote, now, outside.interlockAtLock);
      StartKeepsLinks(s.tables, id, outside.quote, now, outside.interlockAtLock);
      if verdict.MustCancel? {
        CancellingTail(s, id, {Reserved}, verdict.code, outside);
        var _ := orders.Cancel(id, {Reserved}, verdict.code, now);
        return;
      }
      var order := verdict.order;
      if order.status != Submitting {
        OverTail(s, outside);
        return;
      }
      ReadyTail(s.(tables := db.Snapshot()), id, order, outside);
      if !outside.reachable {
        var _ := orders.ApplyPlacementResult(id, PlaceUnknown, now);
        return;
      }
      if LockForExecution(db.ControlState(), outside.interlockAtPermit) != Ok(order.mode) {
        var _ := orders.Cancel(id, {Submitting, Reserved}, ControlDisabled, now);
        return;
      }
      placed := [Placement(id, order.key, order.requestedStake, now)];
      var _ := orders.ApplyPlacementResult(id, outside.answer, now);
    }
  }

  lemma StartKeepsLinks(tables: Tables, id: nat, quote: Option<OperatorQuote>, now: int, interlockOpen: bool)
    requires InTables(tables, id)
    ensures
      var (after, verdict) := StartSubmission(tables, id, quote, now, interlockOpen);
      && InTables(after, id)
      && (verdict.MustCancel? ==> after == tables)
      && (verdict.Current? && verdict.order.status != Submitting ==> after == tables)
  {
  }
}
