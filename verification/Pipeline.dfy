/**
 * The pipeline as a protocol: transactions, operator calls and crashes interleaved in any
 * order. A session is one call of `submit` or `settleFromOperator` between two transactions.
 */
module Pipeline {
  import opened Wrappers
  import opened Keys
  import opened Control
  import opened Ledger
  import opened Risk
  import opened Orders
  import opened OrderInvariant

  /** Where a call stands. `Holding`: the shared lock is held while the operator is called. */
  datatype Phase =
    | Reading
    | Cancelling(from: set<OrderStatus>, code: RejectionCode)
    | Ready(order: Order)
    | Holding(order: Order)
    | Answered(result: PlaceResult)
    | Settling(stake: int, payout: int, settledAt: Option<int>)
    | Closing(stake: int, payout: int, settledAt: Option<int>)

  datatype Session = Session(order: nat, phase: Phase)

  /** A call of the operator's placeOrder. */
  datatype Placement = Placement(order: nat, key: OrderKey, stake: int, at: int)

  datatype State = State(
    ports: map<Mode, string>,
    tables: Tables,
    sessions: map<nat, Session>,
    placed: seq<Placement>,
    clock: int)

  datatype Step =
    | Wait(ms: nat)
    | Open(mode: Mode, operatorKey: string, currency: string, initial: int)
    | Decide(row: Decision)
    | Govern(control: ControlStep)
    | ReserveStep(decision: nat, account: nat, interlockOpen: bool, clockOk: bool)
    | Discard(decision: nat, code: RejectionCode)
    | SubmitRead(sid: nat, order: nat)
    | SubmitLock(sid: nat, quote: Option<OperatorQuote>, interlockOpen: bool)
    | SubmitLockFails(sid: nat)
    | SubmitCancel(sid: nat)
    | SubmitPermit(sid: nat, interlockOpen: bool, reachable: bool)
    | SubmitAnswer(sid: nat, result: PlaceResult)
    | SubmitApply(sid: nat)
    | Resolve(order: nat, answer: Option<OperatorOrder>, readAt: int)
    | Recover(readAt: int)
    | Abandon(ids: set<nat>)
    | SettleRead(sid: nat, order: nat, reading: OperatorOrder)
    | SettleBook(sid: nat)
    | SettleClose(sid: nat)
    | Crash(sid: nat)

  /** The control row is write-locked only when no shared lock is held. */
  predicate PermitHeld(s: State) {
    exists sid | sid in s.sessions :: s.sessions[sid].phase.Holding?
  }

  function End(s: State, sid: nat): State {
    s.(sessions := s.sessions - {sid})
  }

  function At(s: State, sid: nat, order: nat, phase: Phase): State {
    s.(sessions := s.sessions[sid := Session(order, phase)])
  }

  /** The session exists in the given shape and its order is in the tables. */
  predicate Active(s: State, sid: nat) {
    sid in s.sessions && InTables(s.tables, s.sessions[sid].order)
  }

  function OpenStep(s: State, mode: Mode, operatorKey: string, currency: string, initial: int): State {
    match OpenAccount(s.tables.book, mode, operatorKey, currency, initial, s.clock)
    case Err(_) => s
    case Ok(book) => s.(tables := s.tables.(book := book))
  }

  ghost function GovernStep(s: State, step: ControlStep): State {
    if PermitHeld(s) && !step.DoRecordEvidence? then s
    else s.(tables := s.tables.(control := ControlNext(s.tables.control, step)))
  }

  function ReadStep(s: State, sid: nat, order: nat): State {
    if sid in s.sessions || !InTables(s.tables, order) || s.tables.orders[order].status != Reserved then s
    else if PortFor(s.ports, s.tables.orders[order].mode).None?
    then At(s, sid, order, Cancelling({Reserved}, ControlDisabled))
    else At(s, sid, order, Reading)
  }

  function LockStep(s: State, sid: nat, quote: Option<OperatorQuote>, interlockOpen: bool): State {
    if !Active(s, sid) || !s.sessions[sid].phase.Reading? then s
    else
      var id := s.sessions[sid].order;
      match StartSubmission(s.tables, id, quote, s.clock, interlockOpen)
      case (_, MustCancel(code, _)) => At(s, sid, id, Cancelling({Reserved}, code))
      case (tables, Current(order)) =>
        if order.status == Submitting then At(s.(tables := tables), sid, id, Ready(order)) else End(s, sid)
  }

  /** The lock transaction throws for a reason of its own: nothing is written and the call gives the order up. */
  function LockFailsStep(s: State, sid: nat): State {
    if !Active(s, sid) || !s.sessions[sid].phase.Reading? then s
    else At(s, sid, s.sessions[sid].order, Cancelling({Reserved}, RiskCheckFailed))
  }

  function CancelStep(s: State, sid: nat): State {
    if !Active(s, sid) || !s.sessions[sid].phase.Cancelling? then s
    else
      var phase := s.sessions[sid].phase;
      match Cancel(s.tables, s.sessions[sid].order, phase.from, phase.code, s.clock)
      case Err(_) => End(s, sid)
      case Ok(tables) => End(s.(tables := tables), sid)
  }

  /** Take the shared lock and call the operator, unless execution stopped or changed mode. */
  function PermitStep(s: State, sid: nat, interlockOpen: bool, reachable: bool): State {
    if !Active(s, sid) || !s.sessions[sid].phase.Ready? then s
    else
      var id, order := s.sessions[sid].order, s.sessions[sid].phase.order;
      if !reachable then At(s, sid, id, Answered(PlaceUnknown))
      else if LockForExecution(s.tables.control, interlockOpen) != Ok(order.mode)
      then At(s, sid, id, Cancelling({Submitting, Reserved}, ControlDisabled))
      else
        At(s, sid, id, Holding(order)).(placed := s.placed + [Placement(id, order.key, order.requestedStake, s.clock)])
  }

  function AnswerStep(s: State, sid: nat, result: PlaceResult): State {
    if !Active(s, sid) || !s.sessions[sid].phase.Holding? then s
    else At(s, sid, s.sessions[sid].order, Answered(result))
  }

  function ApplyStep(s: State, sid: nat): State {
    if !Active(s, sid) || !s.sessions[sid].phase.Answered? then s
    else
      match ApplyPlacement(s.tables, s.sessions[sid].order, s.sessions[sid].phase.result, s.clock)
      case Err(_) => End(s, sid)
      case Ok((tables, _)) => End(s.(tables := tables), sid)
  }

  function ResolveStep(s: State, order: nat, answer: Option<OperatorOrder>, readAt: int): State {
    if !InTables(s.tables, order) then s
    else
      match ResolveUnknown(s.tables, order, answer, readAt, s.clock)
      case Err(_) => s
      case Ok((tables, _, _)) => s.(tables := tables)
  }

  predicate Links(tables: Tables) {
    forall i | 0 <= i < |tables.orders| :: InTables(tables, i)
  }

  function AbandonStep(s: State, ids: set<nat>): State {
    if !Links(s.tables) then s
    else
      match CancelAbandoned(s.tables, ids, s.clock)
      case Err(_) => s
      case Ok((tables, _)) => s.(tables := tables)
  }

  /** A settled or voided operator order with a readable payout. */
  predicate Settleable(answer: OperatorOrder) {
    (answer.status == OpSettled || answer.status == OpVoided)
    && answer.payout.Some? && 0 <= answer.payout.value <= MAX_COLUMN_CENTS
  }

  function SettleReadStep(s: State, sid: nat, order: nat, answer: OperatorOrder): State {
    if sid in s.sessions || !InTables(s.tables, order) || s.tables.orders[order].status != Accepted
       || s.tables.orders[order].acceptedStake.None? || !Settleable(answer)
    then s
    else At(s, sid, order, Settling(s.tables.orders[order].acceptedStake.value, answer.payout.value, answer.settledAt))
  }

  function SettleBookStep(s: State, sid: nat): State {
    if !Active(s, sid) || !s.sessions[sid].phase.Settling? then s
    else
      var id, phase := s.sessions[sid].order, s.sessions[sid].phase;
      match SettleStake(s.tables, id, phase.stake, phase.payout, s.clock)
      case Err(_) => End(s, sid)
      case Ok((tables, _)) => At(s.(tables := tables), sid, id, Closing(phase.stake, phase.payout, phase.settledAt))
  }

  function SettleCloseStep(s: State, sid: nat): State {
    if !Active(s, sid) || !s.sessions[sid].phase.Closing? then s
    else
      var id, phase := s.sessions[sid].order, s.sessions[sid].phase;
      var settledAt := if phase.settledAt.Some? then phase.settledAt.value else s.clock;
      End(s.(tables := CloseOrder(s.tables, id, phase.stake, phase.payout, settledAt)), sid)
  }

  ghost function Next(s: State, step: Step): State {
    match step
    case Wait(ms) => s.(clock := s.clock + ms)
    case Open(mode, operatorKey, currency, initial) => OpenStep(s, mode, operatorKey, currency, initial)
    case Decide(row) =>
      if row.status != Eligible then s
      else s.(tables := s.tables.(decisions := s.tables.decisions + [row]))
    case Govern(control) => GovernStep(s, control)
    case ReserveStep(decision, account, interlockOpen, clockOk) =>
      s.(tables := ReserveOrder(s.tables, s.ports, decision, account, s.clock, interlockOpen, clockOk).tables)
    case Discard(decision, code) => s.(tables := RejectEligible(s.tables, decision, code))
    case SubmitRead(sid, order) => ReadStep(s, sid, order)
    case SubmitLock(sid, quote, interlockOpen) => LockStep(s, sid, quote, interlockOpen)
    case SubmitLockFails(sid) => LockFailsStep(s, sid)
    case SubmitCancel(sid) => CancelStep(s, sid)
    case SubmitPermit(sid, interlockOpen, reachable) => PermitStep(s, sid, interlockOpen, reachable)
    case SubmitAnswer(sid, result) => AnswerStep(s, sid, result)
    case SubmitApply(sid) => ApplyStep(s, sid)
    case Resolve(order, answer, readAt) => ResolveStep(s, order, answer, readAt)
    case Recover(readAt) => if readAt > s.clock then s else s.(tables := RecoverStale(s.tables, readAt))
    case Abandon(ids) => AbandonStep(s, ids)
    case SettleRead(sid, order, reading) => SettleReadStep(s, sid, order, reading)
    case SettleBook(sid) => SettleBookStep(s, sid)
    case SettleClose(sid) => SettleCloseStep(s, sid)
    case Crash(sid) => End(s, sid)
  }

  /** Nothing but the bootstrap control row. */
  function Initial(ports: map<Mode, string>, controlId: string, clock: int): State {
    State(ports, Tables(Bootstrapped(controlId), Book([], []), [], [], []), map[], [], clock)
  }

  /** Where a run starts: adapters, control identifier, time. */
  datatype Setup = Setup(ports: map<Mode, string>, controlId: string, clock: int)

  ghost function Run(setup: Setup, steps: seq<Step>): State {
    if steps == [] then Initial(setup.ports, setup.controlId, setup.clock)
    else Next(Run(setup, steps[..|steps| - 1]), steps[|steps| - 1])
  }

  lemma RunOneMore(setup: Setup, steps: seq<Step>, last: nat)
    requires 0 < last <= |steps|
    ensures Run(setup, steps[..last]) == Next(Run(setup, steps[..last - 1]), steps[last - 1])
  {
    hide Next;
    assert steps[..last][..last - 1] == steps[..last - 1];
  }

  ghost function RunFrom(s: State, steps: seq<Step>): State {
    if steps == [] then s else Next(RunFrom(s, steps[..|steps| - 1]), steps[|steps| - 1])
  }

  lemma {:induction false} RunSplits(setup: Setup, first: seq<Step>, second: seq<Step>)
    ensures Run(setup, first + second) == RunFrom(Run(setup, first), second)
  {
    if second == [] {
      assert first + second == first;
    } else {
      RunSplits(setup, first, second[..|second| - 1]);
      assert (first + second)[..|first + second| - 1] == first + second[..|second| - 1];
    }
  }

  lemma RunFromSnoc(s: State, steps: seq<Step>, step: Step)
    ensures RunFrom(s, steps + [step]) == Next(RunFrom(s, steps), step)
  {
    assert (steps + [step])[..|steps|] == steps;
  }

  lemma {:induction false} RunFromCons(s: State, steps: seq<Step>)
    requires steps != []
    ensures RunFrom(s, steps) == RunFrom(Next(s, steps[0]), steps[1..])
  {
    hide Next;
    var n := |steps| - 1;
    if n == 0 {
      assert steps[..0] == [];
    } else {
      RunFromCons(s, steps[..n]);
      assert steps[..n][1..] == steps[1..][..n - 1];
    }
  }
}
