/** The invariant of every run of the pipeline, under any interleaving and any crashes. */
module PipelineInvariant {
  import opened Wrappers
  import opened Keys
  import opened Control
  import opened Ledger
  import opened Risk
  import opened Orders
  import opened OrderInvariant
  import opened OrderSteps
  import opened OrderCreation
  import opened Abandoned
  import opened Pipeline

  /** What a call may rely on, whatever the others did since its last transaction. */
  ghost predicate SessionOk(s: State, session: Session) {
    && InTables(s.tables, session.order)
    && var order := s.tables.orders[session.order];
    match session.phase
    case Reading => true
    case Cancelling(from, _) => from <= {Submitting, Reserved}
    case Ready(copy) => SameIdentity(copy, order) && order.status != Reserved && copy.submittedAt.Some? && copy.submittedAt == order.submittedAt
    case Holding(copy) => SameIdentity(copy, order) && order.status != Reserved
                          && CurrentMode(s.tables.control) == order.mode
    case Answered(_) => order.status != Reserved
    case Settling(stake, payout, _) =>
      WasAccepted(order.status) && order.acceptedStake == Some(stake) && 0 <= payout <= MAX_COLUMN_CENTS
    case Closing(stake, payout, _) =>
      && WasAccepted(order.status)
      && order.acceptedStake == Some(stake)
      && SettledFor(order, session.order, s.tables.book.entries, payout)
  }

  /** A placement carries the identity of its order, in a mode with an adapter. */
  predicate PlacementOk(s: State, placement: Placement) {
    && placement.order < |s.tables.orders|
    && var order := s.tables.orders[placement.order];
    && placement.key == order.key
    && placement.stake == order.requestedStake
    && order.status != Reserved
  }

  ghost predicate StateInv(s: State) {
    && Inv(s.tables)
    && (forall sid | sid in s.sessions :: SessionOk(s, s.sessions[sid]))
    && (forall p | 0 <= p < |s.placed| :: PlacementOk(s, s.placed[p]))
    && (forall e | 0 <= e < |s.tables.book.entries| :: s.tables.book.entries[e].createdAt <= s.clock)
  }

  // ---- What the passage of others leaves ----

  /** The control mode can only have changed if no permit was held. */
  predicate ModeKept(a: State, b: State) {
    CurrentMode(b.tables.control) == CurrentMode(a.tables.control) || !PermitHeld(a)
  }

  lemma SessionStays(a: State, b: State, session: Session)
    requires Inv(a.tables) && Inv(b.tables) && TablesEvolve(a.tables, b.tables)
    requires SessionOk(a, session)
    requires session.phase.Holding? ==> CurrentMode(b.tables.control) == CurrentMode(a.tables.control)
    ensures SessionOk(b, session)
  {
    var id := session.order;
    assert InTables(b.tables, id);
    assert Evolves(a.tables.orders[id], b.tables.orders[id]);
    if session.phase.Closing? {
      var key := SettleKey(a.tables.orders[id].key);
      assert Lookup(b.tables.book.entries, key) == Lookup(a.tables.book.entries, key);
    }
  }

  /** Sessions other than the one that moved, placements and dates survive any change of the tables. */
  lemma OthersStay(a: State, b: State, mover: Option<nat>)
    requires StateInv(a) && Inv(b.tables) && TablesEvolve(a.tables, b.tables)
    requires forall sid | sid in b.sessions && Some(sid) != mover ::
      sid in a.sessions && b.sessions[sid] == a.sessions[sid]
    requires mover.Some? && mover.value in b.sessions ==> SessionOk(b, b.sessions[mover.value])
    requires forall p | 0 <= p < |b.placed| ::
      (p < |a.placed| && b.placed[p] == a.placed[p]) || PlacementOk(b, b.placed[p])
    requires ModeKept(a, b)
    requires forall e | 0 <= e < |b.tables.book.entries| :: b.tables.book.entries[e].createdAt <= b.clock
    ensures StateInv(b)
  {
    hide Inv;
    forall sid | sid in b.sessions
      ensures SessionOk(b, b.sessions[sid])
    {
      if Some(sid) != mover {
        assert SessionOk(a, a.sessions[sid]);
        SessionStays(a, b, a.sessions[sid]);
      }
    }
    forall p | 0 <= p < |b.placed|
      ensures PlacementOk(b, b.placed[p])
    {
      if p < |a.placed| && b.placed[p] == a.placed[p] {
        assert PlacementOk(a, a.placed[p]);
        var id := a.placed[p].order;
        assert Evolves(a.tables.orders[id], b.tables.orders[id]);
      }
    }
  }

  // ---- What a step writes in the ledger ----

  /** The ledger is only appended to, at the time of the step. */
  ghost predicate Continues(book: Book, after: Book, now: int) {
    && |book.entries| <= |after.entries|
    && after.entries[..|book.entries|] == book.entries
    && forall e | |book.entries| <= e < |after.entries| :: after.entries[e].createdAt == now
  }

  ghost predicate NoReserve(book: Book, after: Book) {
    forall e | |book.entries| <= e < |after.entries| :: !after.entries[e].entryType.Reserve?
  }

  lemma {:induction false} AppendAllContinues(book: Book, account: nat, inputs: seq<AppendInput>, now: int)
    requires account < |book.accounts| && AppendAll(book, account, inputs, now).Ok?
    requires forall i | 0 <= i < |inputs| :: !inputs[i].entryType.Reserve?
    ensures Continues(book, AppendAll(book, account, inputs, now).value.book, now)
    ensures NoReserve(book, AppendAll(book, account, inputs, now).value.book)
  {
    if inputs != [] {
      var init := inputs[..|inputs| - 1];
      AppendAllContinues(book, account, init, now);
      var done, after := AppendAll(book, account, init, now).value.book, AppendAll(book, account, inputs, now).value.book;
      assert after.entries[..|book.entries|] == after.entries[..|done.entries|][..|book.entries|];
      forall e | |book.entries| <= e < |after.entries|
        ensures after.entries[e].createdAt == now && !after.entries[e].entryType.Reserve?
      {
        if e < |done.entries| {
          assert after.entries[e] == after.entries[..|done.entries|][e];
        }
      }
    }
  }

  lemma AbandonContinues(tables: Tables, ids: set<nat>, now: int)
    requires Links(tables) && CancelAbandoned(tables, ids, now).Ok?
    ensures Continues(tables.book, CancelAbandoned(tables, ids, now).value.0.book, now)
    ensures NoReserve(tables.book, CancelAbandoned(tables, ids, now).value.0.book)
  {
    var rows := ReservedAmong(tables.orders, ids);
    if rows != [] {
      assert InTables(tables, rows[0]);
      AppendAllContinues(tables.book, tables.orders[rows[0]].account,
                         ReleaseInputs(tables.orders, Releasable(tables, rows)), now);
    }
  }

  lemma ReserveOrderContinues(a: State, decision: nat, account: nat, interlockOpen: bool, clockOk: bool)
    ensures Continues(
      a.tables.book,
      ReserveOrder(a.tables, a.ports, decision, account, a.clock, interlockOpen, clockOk).tables.book, a.clock)
  {
  }

  lemma ApplyAcceptanceContinues(tables: Tables, id: nat, accepted: OperatorOrder, now: int)
    requires InTables(tables, id) && ApplyAcceptance(tables, id, accepted, now).Ok?
    ensures var after := ApplyAcceptance(tables, id, accepted, now).value.0.book;
      Continues(tables.book, after, now) && NoReserve(tables.book, after)
  {
  }

  lemma CancelContinues(tables: Tables, id: nat, from: set<OrderStatus>, code: RejectionCode, now: int)
    requires InTables(tables, id) && Cancel(tables, id, from, code, now).Ok?
    ensures var after := Cancel(tables, id, from, code, now).value.book;
      Continues(tables.book, after, now) && NoReserve(tables.book, after)
  {
  }

  lemma AnswerContinues(tables: Tables, id: nat, result: PlaceResult, answer: Option<OperatorOrder>, readAt: int, now: int)
    requires InTables(tables, id)
    ensures ApplyPlacement(tables, id, result, now).Ok? ==>
      var after := ApplyPlacement(tables, id, result, now).value.0.book;
      Continues(tables.book, after, now) && NoReserve(tables.book, after)
    ensures ResolveUnknown(tables, id, answer, readAt, now).Ok? ==>
      var after := ResolveUnknown(tables, id, answer, readAt, now).value.0.book;
      Continues(tables.book, after, now) && NoReserve(tables.book, after)
  {
    hide ApplyAcceptance, Cancel;
    if result.PlaceAccepted? && ApplyAcceptance(tables, id, AcceptanceOf(result), now).Ok? {
      ApplyAcceptanceContinues(tables, id, AcceptanceOf(result), now);
    }
    if result.PlaceRejected? && Cancel(tables, id, {Submitting, Reserved}, result.code, now).Ok? {
      CancelContinues(tables, id, {Submitting, Reserved}, result.code, now);
    }
    if answer.Some? && ApplyAcceptance(tables, id, answer.value, now).Ok? {
      ApplyAcceptanceContinues(tables, id, answer.value, now);
    }
    if Cancel(tables, id, {Unknown}, OperatorUnavailable, now).Ok? {
      CancelContinues(tables, id, {Unknown}, OperatorUnavailable, now);
    }
  }

  lemma SettleContinues(tables: Tables, id: nat, stake: int, payout: int, now: int)
    requires InTables(tables, id) && SettleStake(tables, id, stake, payout, now).Ok?
    ensures var after := SettleStake(tables, id, stake, payout, now).value.0.book;
      Continues(tables.book, after, now) && NoReserve(tables.book, after)
  {
  }

  /** The step's entries are added at its time, and only a reservation adds a RESERVE. */
  ghost predicate StepBooks(a: State, step: Step) {
    && Continues(a.tables.book, Next(a, step).tables.book, a.clock)
    && (!step.ReserveStep? ==> NoReserve(a.tables.book, Next(a, step).tables.book))
  }

  lemma SessionContinues(a: State, step: Step)
    requires Mover(step).Some?
    ensures StepBooks(a, step)
  {
    hide ApplyPlacement, Cancel, StartSubmission, SettleStake;
    match step
    case SubmitLock(sid, quote, interlockOpen) =>
      if Active(a, sid) {
        StartSubmissionBooksNothing(a.tables, a.sessions[sid].order, quote, a.clock, interlockOpen);
      }
    case SubmitCancel(sid) =>
      if Active(a, sid) && a.sessions[sid].phase.Cancelling? {
        var id, phase := a.sessions[sid].order, a.sessions[sid].phase;
        if Cancel(a.tables, id, phase.from, phase.code, a.clock).Ok? {
          CancelContinues(a.tables, id, phase.from, phase.code, a.clock);
        }
      }
    case SubmitApply(sid) =>
      if Active(a, sid) && a.sessions[sid].phase.Answered? {
        AnswerContinues(a.tables, a.sessions[sid].order, a.sessions[sid].phase.result, None, a.clock, a.clock);
      }
    case SettleBook(sid) =>
      if Active(a, sid) && a.sessions[sid].phase.Settling? {
        var id, phase := a.sessions[sid].order, a.sessions[sid].phase;
        if SettleStake(a.tables, id, phase.stake, phase.payout, a.clock).Ok? {
          SettleContinues(a.tables, id, phase.stake, phase.payout, a.clock);
        }
      }
    case _ =>
  }

  lemma OtherContinues(a: State, step: Step)
    requires Mover(step).None?
    ensures StepBooks(a, step)
  {
    hide ResolveUnknown, CancelAbandoned, ReserveOrder, ControlNext;
    match step
    case ReserveStep(decision, account, interlockOpen, clockOk) =>
      ReserveOrderContinues(a, decision, account, interlockOpen, clockOk);
    case Resolve(order, answer, readAt) =>
      if InTables(a.tables, order) {
        AnswerContinues(a.tables, order, PlaceUnknown, answer, readAt, a.clock);
      }
    case Abandon(ids) =>
      if Links(a.tables) && CancelAbandoned(a.tables, ids, a.clock).Ok? {
        AbandonContinues(a.tables, ids, a.clock);
      }
    case _ =>
  }

  lemma StepContinues(a: State, step: Step)
    ensures Continues(a.tables.book, Next(a, step).tables.book, a.clock)
    ensures !step.ReserveStep? ==> NoReserve(a.tables.book, Next(a, step).tables.book)
  {
    hide Next, Continues, NoReserve;
    if Mover(step).Some? {
      SessionContinues(a, step);
    } else {
      OtherContinues(a, step);
    }
  }

  lemma StartSubmissionBooksNothing(tables: Tables, id: nat, quote: Option<OperatorQuote>, now: int, interlockOpen: bool)
    requires InTables(tables, id)
    ensures StartSubmission(tables, id, quote, now, interlockOpen).0.book == tables.book
  {
  }

  lemma StepDated(a: State, step: Step)
    requires StateInv(a)
    ensures var b := Next(a, step);
      forall e | 0 <= e < |b.tables.book.entries| :: b.tables.book.entries[e].createdAt <= b.clock
  {
    hide Inv, SessionOk, Next;
    var b := Next(a, step);
    StepContinues(a, step);
    ClockGrows(a, step);
    forall e | 0 <= e < |b.tables.book.entries|
      ensures b.tables.book.entries[e].createdAt <= b.clock
    {
      if e < |a.tables.book.entries| {
        assert b.tables.book.entries[e] == b.tables.book.entries[..|a.tables.book.entries|][e];
      }
    }
  }

  lemma ClockGrows(a: State, step: Step)
    ensures Next(a, step).clock == a.clock + if step.Wait? then step.ms else 0
  {
  }

  // ---- Every step keeps the invariant ----

  lemma SessionOf(a: State, sid: nat)
    requires StateInv(a) && sid in a.sessions
    ensures SessionOk(a, a.sessions[sid]) && InTables(a.tables, a.sessions[sid].order)
  {
  }

  lemma ApplyStepTables(a: State, sid: nat)
    requires StateInv(a) && sid in a.sessions
    ensures Inv(ApplyStep(a, sid).tables) && TablesEvolve(a.tables, ApplyStep(a, sid).tables)
  {
    hide Inv, TablesEvolve, ApplyPlacement;
    TablesEvolveReflexive(a.tables);
    SessionOf(a, sid);
    var id, phase := a.sessions[sid].order, a.sessions[sid].phase;
    if phase.Answered? && ApplyPlacement(a.tables, id, phase.result, a.clock).Ok? {
      ApplyPlacementKeepsInv(a.tables, id, phase.result, a.clock);
    }
  }

  lemma CancelStepTables(a: State, sid: nat)
    requires StateInv(a) && sid in a.sessions
    ensures Inv(CancelStep(a, sid).tables) && TablesEvolve(a.tables, CancelStep(a, sid).tables)
  {
    hide Inv, TablesEvolve, Cancel;
    TablesEvolveReflexive(a.tables);
    SessionOf(a, sid);
    var id, phase := a.sessions[sid].order, a.sessions[sid].phase;
    if phase.Cancelling? {
      CancelKeepsInv(a.tables, id, phase.from, phase.code, a.clock);
    }
  }

  lemma SettleBookStepTables(a: State, sid: nat)
    requires StateInv(a) && sid in a.sessions
    ensures var b := SettleBookStep(a, sid);
      && Inv(b.tables) && TablesEvolve(a.tables, b.tables)
      && (sid in b.sessions ==> SessionOk(b, b.sessions[sid]))
  {
    hide Inv, TablesEvolve, SettleStake;
    TablesEvolveReflexive(a.tables);
    SessionOf(a, sid);
    var id, phase := a.sessions[sid].order, a.sessions[sid].phase;
    if phase.Settling? && SettleStake(a.tables, id, phase.stake, phase.payout, a.clock).Ok? {
      SettleStakeKeepsInv(a.tables, id, phase.stake, phase.payout, a.clock);
      StillInTables(SettleStake(a.tables, id, phase.stake, phase.payout, a.clock).value.0, id);
    }
  }

  lemma StillInTables(tables: Tables, id: nat)
    requires Inv(tables) && id < |tables.orders|
    ensures InTables(tables, id)
  {
  }

  lemma SettleCloseStepTables(a: State, sid: nat)
    requires StateInv(a) && sid in a.sessions
    ensures Inv(SettleCloseStep(a, sid).tables) && TablesEvolve(a.tables, SettleCloseStep(a, sid).tables)
  {
    hide Inv, TablesEvolve, CloseOrder;
    TablesEvolveReflexive(a.tables);
    SessionOf(a, sid);
    var id, phase := a.sessions[sid].order, a.sessions[sid].phase;
    if phase.Closing? {
      var settledAt := if phase.settledAt.Some? then phase.settledAt.value else a.clock;
      CloseOrderKeepsInv(a.tables, id, phase.stake, phase.payout, settledAt);
    }
  }

  lemma LockStepKeeps(a: State, sid: nat, quote: Option<OperatorQuote>, interlockOpen: bool)
    requires StateInv(a) && sid in a.sessions
    ensures var b := LockStep(a, sid, quote, interlockOpen);
      && Inv(b.tables) && TablesEvolve(a.tables, b.tables)
      && (sid in b.sessions ==> SessionOk(b, b.sessions[sid]))
  {
    hide Inv, TablesEvolve, StartSubmission;
    TablesEvolveReflexive(a.tables);
    SessionOf(a, sid);
    if a.sessions[sid].phase.Reading? {
      var id := a.sessions[sid].order;
      StartSubmissionKeepsInv(a.tables, id, quote, a.clock, interlockOpen);
      OrderOkOf(StartSubmission(a.tables, id, quote, a.clock, interlockOpen).0, id);
    }
  }

  lemma StepKeepsTables(a: State, step: Step)
    requires StateInv(a)
    ensures Inv(Next(a, step).tables) && TablesEvolve(a.tables, Next(a, step).tables)
  {
    hide Inv, TablesEvolve, ReserveOrder, CancelAbandoned, ControlNext, RecoverStale, ResolveUnknown, RejectEligible,
      LockStep, CancelStep, ApplyStep, SettleBookStep, SettleCloseStep;
    TablesEvolveReflexive(a.tables);
    assert Inv(a.tables);
    match step
    case Open(mode, operatorKey, currency, initial) =>
      if OpenAccount(a.tables.book, mode, operatorKey, currency, initial, a.clock).Ok? {
        OpenAccountKeepsInv(a.tables, mode, operatorKey, currency, initial, a.clock);
      }
    case Decide(row) => NewDecisionKeepsInv(a.tables, row);
    case Govern(control) => ControlStepKeepsInv(a.tables, control);
    case ReserveStep(decision, account, interlockOpen, clockOk) =>
      ReserveOrderKeepsInv(a.tables, a.ports, decision, account, a.clock, interlockOpen, clockOk);
    case Discard(decision, code) => RejectEligibleKeepsInv(a.tables, decision, code);
    case SubmitLock(sid, quote, interlockOpen) => StepOfSession(a, step, sid);
    case SubmitCancel(sid) => StepOfSession(a, step, sid);
    case SubmitApply(sid) => StepOfSession(a, step, sid);
    case Resolve(order, answer, readAt) =>
      if InTables(a.tables, order) && ResolveUnknown(a.tables, order, answer, readAt, a.clock).Ok? {
        ResolveKeepsInv(a.tables, order, answer, readAt, a.clock);
      }
    case Recover(readAt) => RecoverStaleKeepsInv(a.tables, readAt);
    case Abandon(ids) => CancelAbandonedKeepsInv(a.tables, ids, a.clock);
    case SettleBook(sid) => StepOfSession(a, step, sid);
    case SettleClose(sid) => StepOfSession(a, step, sid);
    case _ =>
  }

  lemma SessionlessStays(a: State, step: Step)
    requires step.SubmitLock? || step.SubmitCancel? || step.SubmitApply? || step.SettleBook? || step.SettleClose?
    ensures step.sid !in a.sessions ==> Next(a, step) == a
  {
  }

  lemma StepOfSession(a: State, step: Step, sid: nat)
    requires StateInv(a)
    requires step.SubmitLock? || step.SubmitCancel? || step.SubmitApply? || step.SettleBook? || step.SettleClose?
    requires step.sid == sid
    ensures Inv(Next(a, step).tables) && TablesEvolve(a.tables, Next(a, step).tables)
  {
    hide Inv, TablesEvolve, StateInv, LockStep, CancelStep, ApplyStep, SettleBookStep, SettleCloseStep;
    TablesEvolveReflexive(a.tables);
    InvOf(a);
    SessionlessStays(a, step);
    if sid in a.sessions {
      match step
      case SubmitLock(_, quote, interlockOpen) => LockStepKeeps(a, sid, quote, interlockOpen);
      case SubmitCancel(_) => CancelStepTables(a, sid);
      case SubmitApply(_) => ApplyStepTables(a, sid);
      case SettleBook(_) => SettleBookStepTables(a, sid);
      case SettleClose(_) => SettleCloseStepTables(a, sid);
    }
  }

  /** The session a step moves, if any. */
  function Mover(step: Step): Option<nat> {
    match step
    case SubmitRead(sid, _) => Some(sid)
    case SubmitLock(sid, _, _) => Some(sid)
    case SubmitLockFails(sid) => Some(sid)
    case SubmitCancel(sid) => Some(sid)
    case SubmitPermit(sid, _, _) => Some(sid)
    case SubmitAnswer(sid, _) => Some(sid)
    case SubmitApply(sid) => Some(sid)
    case SettleRead(sid, _, _) => Some(sid)
    case SettleBook(sid) => Some(sid)
    case SettleClose(sid) => Some(sid)
    case Crash(sid) => Some(sid)
    case _ => None
  }

  lemma OthersUnmoved(a: State, step: Step)
    ensures var b := Next(a, step);
      forall sid | sid in b.sessions && Some(sid) != Mover(step) :: sid in a.sessions && b.sessions[sid] == a.sessions[sid]
  {
    hide StartSubmission, Cancel, ApplyPlacement, SettleStake, CloseOrder, ReserveOrder, CancelAbandoned,
      ResolveUnknown;
  }

  /** Only a governance step writes the control tables. */
  lemma ControlOnlyGoverned(a: State, step: Step)
    requires !step.Govern?
    ensures Next(a, step).tables.control == a.tables.control
  {
    hide Cancel, CloseOrder, ReserveOrder, CancelAbandoned, ResolveUnknown, ApplyPlacement;
    match step
    case SubmitLock(sid, quote, interlockOpen) =>
    case ReserveStep(decision, account, interlockOpen, clockOk) =>
      ControlUntouched(a.tables, a.ports, decision, account, a.clock, interlockOpen, clockOk);
    case SubmitCancel(sid) =>
      if Active(a, sid) && a.sessions[sid].phase.Cancelling? {
        CancelLeavesControl(a.tables, a.sessions[sid].order, a.sessions[sid].phase.from, a.sessions[sid].phase.code, a.clock);
      }
    case SubmitApply(sid) =>
      if Active(a, sid) && a.sessions[sid].phase.Answered? {
        AnswerLeavesControl(a.tables, a.sessions[sid].order, a.sessions[sid].phase.result, None, a.clock, a.clock);
      }
    case Resolve(order, answer, readAt) =>
      if InTables(a.tables, order) {
        AnswerLeavesControl(a.tables, order, PlaceUnknown, answer, readAt, a.clock);
      }
    case Abandon(ids) =>
      if Links(a.tables) && CancelAbandoned(a.tables, ids, a.clock).Ok? {
        AbandonLeavesControl(a.tables, ids, a.clock);
      }
    case SettleClose(sid) =>
      if Active(a, sid) && a.sessions[sid].phase.Closing? {
        var phase := a.sessions[sid].phase;
        CloseLeavesControl(a.tables, a.sessions[sid].order, phase.stake, phase.payout,
                           if phase.settledAt.Some? then phase.settledAt.value else a.clock);
      }
    case _ =>
  }

  lemma ModeStays(a: State, step: Step)
    ensures ModeKept(a, Next(a, step))
  {
    if !step.Govern? {
      hide Next;
      ControlOnlyGoverned(a, step);
    }
  }

  lemma ControlUntouched(tables: Tables, ports: map<Mode, string>, decision: nat, account: nat, now: int,
                         interlockOpen: bool, clockOk: bool)
    ensures ReserveOrder(tables, ports, decision, account, now, interlockOpen, clockOk).tables.control == tables.control
  {
  }

  lemma CancelLeavesControl(tables: Tables, id: nat, from: set<OrderStatus>, code: RejectionCode, now: int)
    requires InTables(tables, id)
    ensures Cancel(tables, id, from, code, now).Ok? ==> Cancel(tables, id, from, code, now).value.control == tables.control
  {
  }

  lemma AnswerLeavesControl(tables: Tables, id: nat, result: PlaceResult, answer: Option<OperatorOrder>, readAt: int,
                            now: int)
    requires InTables(tables, id)
    ensures ApplyPlacement(tables, id, result, now).Ok? ==>
      ApplyPlacement(tables, id, result, now).value.0.control == tables.control
    ensures ResolveUnknown(tables, id, answer, readAt, now).Ok? ==>
      ResolveUnknown(tables, id, answer, readAt, now).value.0.control == tables.control
  {
  }

  lemma CloseLeavesControl(tables: Tables, id: nat, stake: int, payout: int, settledAt: int)
    requires InTables(tables, id)
    ensures CloseOrder(tables, id, stake, payout, settledAt).control == tables.control
  {
  }

  lemma {:induction false} MarkingLeavesControl(tables: Tables, rows: seq<nat>, code: RejectionCode)
    requires RowsStored(tables, rows)
    ensures MarkAllRejected(tables, rows, code).control == tables.control
  {
    if rows != [] {
      MarkingLeavesControl(tables, rows[..|rows| - 1], code);
    }
  }

  lemma AbandonLeavesControl(tables: Tables, ids: set<nat>, now: int)
    requires Links(tables) && CancelAbandoned(tables, ids, now).Ok?
    ensures CancelAbandoned(tables, ids, now).value.0.control == tables.control
  {
    var rows := ReservedAmong(tables.orders, ids);
    if rows != [] {
      var kept := Releasable(tables, rows);
      assert RowsStored(tables, kept);
      MarkingLeavesControl(tables, kept, OperatorUnavailable);
    }
  }

  /** The session that moved stands on solid ground in the new state. */
  lemma MoverStays(a: State, step: Step)
    requires StateInv(a)
    ensures var b := Next(a, step);
      Mover(step).Some? && Mover(step).value in b.sessions ==> SessionOk(b, b.sessions[Mover(step).value])
  {
    hide Inv, StartSubmission, Cancel, ApplyPlacement, SettleStake, CloseOrder;
    var b := Next(a, step);
    if Mover(step).Some? && Mover(step).value in a.sessions {
      SessionOf(a, Mover(step).value);
    }
    match step
    case SubmitLock(sid, quote, interlockOpen) =>
      if sid in a.sessions {
        LockStepKeeps(a, sid, quote, interlockOpen);
      }
    case SettleBook(sid) =>
      if sid in a.sessions {
        SettleBookStepTables(a, sid);
      }
    case _ =>
  }

  lemma StepPlaces(a: State, step: Step)
    requires StateInv(a)
    ensures var b := Next(a, step);
      || b.placed == a.placed
      || (&& step.SubmitPermit? && b.tables == a.tables
          && |b.placed| == |a.placed| + 1
          && b.placed[..|a.placed|] == a.placed
          && PlacementOk(b, b.placed[|a.placed|]))
  {
    hide Inv, StartSubmission, Cancel, ApplyPlacement, SettleStake, CloseOrder, ReserveOrder, CancelAbandoned,
      ResolveUnknown;
    if step.SubmitPermit? && step.sid in a.sessions {
      SessionOf(a, step.sid);
    }
  }

  lemma StepKeepsStateInv(a: State, step: Step)
    requires StateInv(a)
    ensures StateInv(Next(a, step)) && TablesEvolve(a.tables, Next(a, step).tables)
  {
    hide Next, SessionOk, PlacementOk;
    StepKeepsTables(a, step);
    MoverStays(a, step);
    OthersUnmoved(a, step);
    ModeStays(a, step);
    StepDated(a, step);
    StepPlaces(a, step);
    OthersStay(a, Next(a, step), Mover(step));
  }

  /** The invariant holds in every run: under any interleaving, with crashes anywhere. */
  lemma {:induction false} EveryRun(setup: Setup, steps: seq<Step>)
    ensures StateInv(Run(setup, steps))
  {
    if steps == [] {
      assert Inv(Run(setup, steps).tables);
    } else {
      EveryRun(setup, steps[..|steps| - 1]);
      StepKeepsStateInv(Run(setup, steps[..|steps| - 1]), steps[|steps| - 1]);
    }
  }

  lemma {:induction false} RunsEvolve(setup: Setup, steps: seq<Step>, n: nat)
    requires n <= |steps|
    ensures TablesEvolve(Run(setup, steps[..n]).tables, Run(setup, steps).tables)
  {
    hide Next, TablesEvolve, StateInv;
    if n == |steps| {
      assert steps[..n] == steps;
      TablesEvolveReflexive(Run(setup, steps).tables);
    } else {
      var init := steps[..|steps| - 1];
      assert init[..n] == steps[..n];
      RunsEvolve(setup, init, n);
      EveryRun(setup, init);
      StepKeepsStateInv(Run(setup, init), steps[|steps| - 1]);
      EvolvesTransitive(Run(setup, steps[..n]).tables, Run(setup, init).tables, Run(setup, steps).tables);
    }
  }

  lemma InvOf(s: State)
    requires StateInv(s)
    ensures Inv(s.tables)
  {
  }

  ghost predicate Reachable(s: State) {
    exists setup, steps :: s == Run(setup, steps)
  }

  lemma ReachableInv(s: State)
    requires Reachable(s)
    ensures StateInv(s)
  {
    var setup, steps :| s == Run(setup, steps);
    EveryRun(setup, steps);
  }
}
