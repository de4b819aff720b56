/**
 * An UNKNOWN order the operator does not find, in every continuation of a run: given back by a
 * reading made between the grace delay and the maximum age, and by no later one.
 */
module OldUnknowns {
  import opened Wrappers
  import opened Keys
  import opened Control
  import opened Ledger
  import opened Risk
  import opened Orders
  import opened OrderInvariant
  import opened OrderSteps
  import opened Pipeline
  import opened PipelineInvariant
  import opened Submissions
  import opened Overlaps
  import opened Witnesses

  // ---- What moves an UNKNOWN order ----

  /** The steps that may: the operator finds the order, or is read in time, or accepts the placement after all. */
  predicate Rescues(a: State, step: Step, order: Order, id: nat) {
    || (step.Resolve? && step.order == id && (step.answer.Some? || InWindow(order, step.readAt)))
    || (&& step.SubmitApply? && step.sid in a.sessions && a.sessions[step.sid].order == id
        && a.sessions[step.sid].phase.Answered? && a.sessions[step.sid].phase.result.PlaceAccepted?)
  }

  predicate RowStays(a: Tables, b: Tables, id: nat) {
    id < |a.orders| && id < |b.orders| && b.orders[id] == a.orders[id]
  }

  lemma TransactionsLeaveUnknown(a: Tables, other: nat, id: nat, quote: Option<OperatorQuote>, now: int,
                                 interlockOpen: bool,
                                 from: set<OrderStatus>, code: RejectionCode)
    requires InTables(a, other) && id < |a.orders| && a.orders[id].status == Unknown
    ensures RowStays(a, StartSubmission(a, other, quote, now, interlockOpen).0, id)
    ensures from <= {Submitting, Reserved} && Cancel(a, other, from, code, now).Ok? ==>
      RowStays(a, Cancel(a, other, from, code, now).value, id)
  {
  }

  lemma ClosingLeavesUnknown(a: Tables, other: nat, id: nat, stake: int, payout: int, settledAt: int)
    requires InTables(a, other) && id < |a.orders| && a.orders[id].status == Unknown
    ensures RowStays(a, CloseOrder(a, other, stake, payout, settledAt), id)
  {
  }

  lemma AnswersLeaveUnknown(a: Tables, other: nat, id: nat, result: PlaceResult, answer: Option<OperatorOrder>,
                            readAt: int, now: int)
    requires InTables(a, other) && id < |a.orders| && a.orders[id].status == Unknown && a.orders[id].unknownSince.Some?
    ensures (other != id || !result.PlaceAccepted?) && ApplyPlacement(a, other, result, now).Ok? ==>
      RowStays(a, ApplyPlacement(a, other, result, now).value.0, id)
    ensures (other != id || (answer.None? && !InWindow(a.orders[id], readAt))) && ResolveUnknown(a, other, answer, readAt, now).Ok? ==>
      RowStays(a, ResolveUnknown(a, other, answer, readAt, now).value.0, id)
  {
    AnswerChangesOne(a, other, result, answer, readAt, now);
  }

  lemma SessionLeavesUnknown(a: State, step: Step, id: nat)
    requires Mover(step).Some? && id < |a.tables.orders|
    requires Mover(step).value in a.sessions ==> SessionOk(a, a.sessions[Mover(step).value])
    requires a.tables.orders[id].status == Unknown && a.tables.orders[id].unknownSince.Some?
    requires !Rescues(a, step, a.tables.orders[id], id)
    ensures RowStays(a.tables, Next(a, step).tables, id)
  {
    hide ApplyPlacement, Cancel, StartSubmission, SettleStake, CloseOrder;
    var sid := Mover(step).value;
    if sid in a.sessions {
      var other, phase := a.sessions[sid].order, a.sessions[sid].phase;
      match step
      case SubmitLock(_, quote, interlockOpen) =>
        TransactionsLeaveUnknown(a.tables, other, id, quote, a.clock, interlockOpen, {}, ControlDisabled);
      case SubmitCancel(_) =>
        if phase.Cancelling? {
          TransactionsLeaveUnknown(a.tables, other, id, None, a.clock, false, phase.from, phase.code);
        }
      case SubmitApply(_) =>
        if phase.Answered? {
          AnswersLeaveUnknown(a.tables, other, id, phase.result, None, a.clock, a.clock);
        }
      case SettleBook(_) =>
        if phase.Settling? {
          BookingKeepsOrders(a.tables, other, phase.stake, phase.payout, a.clock);
        }
      case SettleClose(_) =>
        if phase.Closing? {
          ClosingLeavesUnknown(a.tables, other, id, phase.stake, phase.payout,
                               if phase.settledAt.Some? then phase.settledAt.value else a.clock);
        }
      case _ =>
    }
  }

  lemma OthersLeaveUnknown(a: State, step: Step, id: nat)
    requires Mover(step).None? && id < |a.tables.orders|
    requires a.tables.orders[id].status == Unknown && a.tables.orders[id].unknownSince.Some?
    requires !Rescues(a, step, a.tables.orders[id], id)
    ensures RowStays(a.tables, Next(a, step).tables, id)
  {
    hide ResolveUnknown, ReserveOrder, CancelAbandoned, ControlNext;
    match step
    case ReserveStep(decision, account, interlockOpen, clockOk) =>
      ReservationsOnlyAdd(a.tables, a.ports, decision, account, a.clock, interlockOpen, clockOk);
      var after := ReserveOrder(a.tables, a.ports, decision, account, a.clock, interlockOpen, clockOk).tables.orders;
      assert after[..|a.tables.orders|][id] == after[id];
    case Resolve(order, answer, readAt) =>
      if InTables(a.tables, order) {
        AnswersLeaveUnknown(a.tables, order, id, PlaceUnknown, answer, readAt, a.clock);
      }
    case Abandon(ids) =>
      if Links(a.tables) && CancelAbandoned(a.tables, ids, a.clock).Ok? {
        BatchOnlyRejects(a.tables, ids, a.clock);
      }
    case _ =>
  }

  /** Nothing but a rescue writes the row of an UNKNOWN order. */
  lemma OnlyRescuesMove(a: State, step: Step, id: nat)
    requires StateInv(a) && id < |a.tables.orders| && a.tables.orders[id].status == Unknown
    requires !Rescues(a, step, a.tables.orders[id], id)
    ensures RowStays(a.tables, Next(a, step).tables, id)
  {
    hide Next, Inv, SessionOk, Rescues;
    UnknownIsDated(a, id);
    if Mover(step).Some? {
      if Mover(step).value in a.sessions {
        SessionOf(a, Mover(step).value);
      }
      SessionLeavesUnknown(a, step, id);
    } else {
      OthersLeaveUnknown(a, step, id);
    }
  }

  lemma UnknownIsDated(s: State, id: nat)
    requires StateInv(s) && id < |s.tables.orders| && s.tables.orders[id].status == Unknown
    ensures InTables(s.tables, id) && s.tables.orders[id].unknownSince.Some?
  {
    assert InTables(s.tables, id) && OrderOk(s.tables, id);
  }

  // ---- No rescue, no release ----

  /** The stake of the order is still taken out of what its account may use. */
  ghost predicate StillReserved(s: State, order: Order, id: nat) {
    && InTables(s.tables, id) && s.tables.orders[id] == order
    && Exposure(order, s.tables.book.entries) == order.requestedStake
    && order.requestedStake <= s.tables.book.accounts[order.account].balances.reserved
    && Lookup(s.tables.book.entries, ReleaseKey(order.key)).None?
  }

  lemma UnknownIsReserved(s: State, id: nat)
    requires StateInv(s) && id < |s.tables.orders| && s.tables.orders[id].status == Unknown
    ensures StillReserved(s, s.tables.orders[id], id)
  {
    assert InTables(s.tables, id) && OrderOk(s.tables, id);
    ReservedCovers(s.tables, id);
  }

  /** An UNKNOWN order stays as it is, its stake reserved, for as long as nothing rescues it. */
  lemma {:induction false} UnknownUntilRescued(s: State, steps: seq<Step>, id: nat)
    requires StateInv(s) && id < |s.tables.orders| && s.tables.orders[id].status == Unknown
    requires forall i | 0 <= i < |steps| :: !Rescues(RunFrom(s, steps[..i]), steps[i], s.tables.orders[id], id)
    ensures StateInv(RunFrom(s, steps)) && StillReserved(RunFrom(s, steps), s.tables.orders[id], id)
  {
    hide Next, StateInv, Rescues;
    if steps == [] {
      UnknownIsReserved(s, id);
    } else {
      var n := |steps| - 1;
      var init, last := steps[..n], RunFrom(s, steps[..n]);
      forall i | 0 <= i < n
        ensures !Rescues(RunFrom(s, init[..i]), init[i], s.tables.orders[id], id)
      {
        assert init[..i] == steps[..i];
      }
      UnknownUntilRescued(s, init, id);
      OnlyRescuesMove(last, steps[n], id);
      StepKeepsStateInv(last, steps[n]);
      UnknownIsReserved(RunFrom(s, steps), id);
    }
  }

  predicate NoCallOn(s: State, id: nat) {
    forall sid | sid in s.sessions :: s.sessions[sid].order != id
  }

  /** No call starts on an UNKNOWN order. */
  lemma NoCallStarts(a: State, step: Step, id: nat)
    requires NoCallOn(a, id) && id < |a.tables.orders| && a.tables.orders[id].status == Unknown
    ensures NoCallOn(Next(a, step), id)
  {
    hide Cancel, ApplyPlacement, SettleStake, CloseOrder, ReserveOrder, CancelAbandoned, ResolveUnknown,
      StartSubmission;
  }

  /** If the step reads the order at the operator, it does not find it. */
  predicate OnlyAbsent(step: Step, id: nat) {
    step.Resolve? && step.order == id ==> step.answer.None?
  }

  /** The step reads the order within the window, while its account has room for the stake. */
  predicate ReadInTime(a: State, step: Step, order: Order, id: nat) {
    && step.Resolve? && step.order == id && InWindow(order, step.readAt)
    && InTables(a.tables, id) && HasRoom(a.tables, id)
  }

  ghost predicate NeverInTime(s: State, steps: seq<Step>, order: Order, id: nat) {
    forall i | 0 <= i < |steps| :: !ReadInTime(RunFrom(s, steps[..i]), steps[i], order, id)
  }

  lemma NeverInTimeSnoc(s: State, steps: seq<Step>, order: Order, id: nat)
    requires steps != []
    ensures
      var n := |steps| - 1;
      NeverInTime(s, steps, order, id) <==>
        NeverInTime(s, steps[..n], order, id) && !ReadInTime(RunFrom(s, steps[..n]), steps[n], order, id)
  {
    hide RunFrom, ReadInTime;
    var n := |steps| - 1;
    assert forall i | 0 <= i < n :: steps[..n][..i] == steps[..i] && steps[..n][i] == steps[i];
    if NeverInTime(s, steps[..n], order, id) {
      forall i | 0 <= i < n
        ensures !ReadInTime(RunFrom(s, steps[..i]), steps[i], order, id)
      {
        assert !ReadInTime(RunFrom(s, steps[..n][..i]), steps[..n][i], order, id);
      }
    }
  }

  lemma ReadingOf(a: State, step: Step, id: nat)
    requires StateInv(a) && InTables(a.tables, id) && a.tables.orders[id].status == Unknown
    requires step.Resolve? && step.order == id && step.answer.None?
    ensures ReadInTime(a, step, a.tables.orders[id], id) ==>
      id < |Next(a, step).tables.orders| && Next(a, step).tables.orders[id].status == Rejected
    ensures !ReadInTime(a, step, a.tables.orders[id], id) ==> Next(a, step) == a
  {
    hide Inv, SessionOk, ResolveUnknown;
    AbsentReleasesWithinWindow(a.tables, id, step.readAt, a.clock);
  }

  /** One step: the order goes if read in time, and otherwise stays as it is. */
  lemma GoesOnlyInTime(a: State, step: Step, id: nat)
    requires StateInv(a) && id < |a.tables.orders| && a.tables.orders[id].status == Unknown && NoCallOn(a, id)
    requires OnlyAbsent(step, id)
    ensures
      if ReadInTime(a, step, a.tables.orders[id], id)
      then id < |Next(a, step).tables.orders| && Next(a, step).tables.orders[id].status == Rejected
      else RowStays(a.tables, Next(a, step).tables, id)
  {
    hide Next, Inv, StateInv, SessionOk, InTables, HasRoom, InWindow;
    UnknownIsDated(a, id);
    if step.Resolve? && step.order == id {
      ReadingOf(a, step, id);
    } else {
      OnlyRescuesMove(a, step, id);
    }
  }

  /**
   * An order nobody is working on and no reading finds: it stays UNKNOWN with its stake
   * reserved, whatever else happens, exactly until it is read in time.
   */
  lemma {:induction false} ReleasedExactlyInTime(s: State, steps: seq<Step>, id: nat)
    requires StateInv(s) && id < |s.tables.orders| && s.tables.orders[id].status == Unknown && NoCallOn(s, id)
    requires forall i | 0 <= i < |steps| :: OnlyAbsent(steps[i], id)
    ensures StateInv(RunFrom(s, steps))
    ensures
      var order, after := s.tables.orders[id], RunFrom(s, steps);
      if NeverInTime(s, steps, order, id) then StillReserved(after, order, id) && NoCallOn(after, id)
      else id < |after.tables.orders| && after.tables.orders[id].status == Rejected
  {
    hide Next, StateInv, NeverInTime, ReadInTime, OnlyAbsent;
    if steps == [] {
      UnknownIsReserved(s, id);
      NeverYet(s, s.tables.orders[id], id);
    } else {
      var n := |steps| - 1;
      var last, order := RunFrom(s, steps[..n]), s.tables.orders[id];
      ReleasedExactlyInTime(s, steps[..n], id);
      NeverInTimeSnoc(s, steps, order, id);
      StepKeepsStateInv(last, steps[n]);
      if NeverInTime(s, steps[..n], order, id) {
        NoCallStarts(last, steps[n], id);
        GoesOnlyInTime(last, steps[n], id);
        if !ReadInTime(last, steps[n], order, id) {
          UnknownIsReserved(RunFrom(s, steps), id);
        }
      } else {
        assert Evolves(last.tables.orders[id], Next(last, steps[n]).tables.orders[id]);
      }
    }
  }

  lemma NeverYet(s: State, order: Order, id: nat)
    ensures NeverInTime(s, [], order, id)
  {
  }

  /** So an order first read at its maximum age or later is never given back by readings that do not find it. */
  lemma OldUnknownIsNeverReleased(s: State, steps: seq<Step>, id: nat)
    requires StateInv(s) && id < |s.tables.orders| && s.tables.orders[id].status == Unknown && NoCallOn(s, id)
    requires forall i | 0 <= i < |steps| :: OnlyAbsent(steps[i], id)
    requires forall i | 0 <= i < |steps| && steps[i].Resolve? && steps[i].order == id ::
      !InWindow(s.tables.orders[id], steps[i].readAt)
    ensures StillReserved(RunFrom(s, steps), s.tables.orders[id], id)
  {
    hide Next, StateInv, RunFrom, InWindow;
    ReleasedExactlyInTime(s, steps, id);
  }

  // ---- A run where it happens ----

  /** One call crashes between its lock and its permit, and nobody looks for half an hour. */
  function UnattendedSteps(): seq<Step> {
    OpeningSteps()
    + [SubmitRead(1, 0), SubmitLock(1, Some(SOME_QUOTE), false)]
    + [Crash(1), Wait(UNKNOWN_MAX_AGE_MS), Recover(UNKNOWN_MAX_AGE_MS)]
  }

  lemma ReachesOldUnknown()
    ensures
      var s := Run(SOME_SETUP, UnattendedSteps());
      && s.sessions == map[] && s.placed == [] && s.clock == UNKNOWN_MAX_AGE_MS
      && |s.tables.orders| > 0 && s.tables.orders[0].status == Unknown
      && s.tables.orders[0].unknownSince == Some(0) && s.tables.orders[0].requestedStake == 500
  {
    hide OpeningSteps, Next, StateInv, WouldSubmit;
    ReachesReserved();
    var s := Run(SOME_SETUP, OpeningSteps());
    var first := [SubmitRead(1, 0), SubmitLock(1, Some(SOME_QUOTE), false)];
    var second := [Crash(1), Wait(UNKNOWN_MAX_AGE_MS), Recover(UNKNOWN_MAX_AGE_MS)];
    OneCallLocks(s, 1, 0, SOME_QUOTE);
    var locked := LockedBy(At(s, 1, 0, Reading), 1, 0, SOME_QUOTE);
    SweptAfterCrash(locked, 1, 0);
    RunSplits(SOME_SETUP, OpeningSteps(), first);
    RunSplits(SOME_SETUP, OpeningSteps() + first, second);
  }

  lemma SweptAfterCrash(s: State, x: nat, id: nat)
    requires id < |s.tables.orders| && s.tables.orders[id].status == Submitting && s.tables.orders[id].submittedAt == Some(s.clock)
    ensures
      var later := s.clock + UNKNOWN_MAX_AGE_MS;
      var after := RunFrom(s, [Crash(x), Wait(UNKNOWN_MAX_AGE_MS), Recover(later)]);
      && after.sessions == s.sessions - {x} && after.placed == s.placed && after.clock == later
      && |after.tables.orders| == |s.tables.orders| && after.tables.orders[id] == Recovered(s.tables.orders[id])
  {
    var later := s.clock + UNKNOWN_MAX_AGE_MS;
    var steps := [Crash(x), Wait(UNKNOWN_MAX_AGE_MS), Recover(later)];
    RunFromCons(s, steps);
    assert Next(s, steps[0]) == End(s, x);
    RunFromCons(End(s, x), steps[1..]);
    assert Next(End(s, x), steps[1]) == End(s, x).(clock := later);
    RunFromCons(End(s, x).(clock := later), steps[2..]);
  }

  /** However long the run goes on with the operator not finding the order, its stake of 5.00 is never given back. */
  lemma UnattendedIsNeverReleased(more: seq<Step>)
    requires forall i | 0 <= i < |more| :: more[i].Resolve? && more[i].order == 0 ==>
      more[i].answer.None? && more[i].readAt >= UNKNOWN_MAX_AGE_MS
    ensures
      var s := Run(SOME_SETUP, UnattendedSteps() + more);
      && |s.tables.orders| > 0 && s.tables.orders[0].status == Unknown
      && Exposure(s.tables.orders[0], s.tables.book.entries) == 500
  {
    hide Run, Next, StateInv, UnattendedSteps;
    ReachesOldUnknown();
    EveryRun(SOME_SETUP, UnattendedSteps());
    var s := Run(SOME_SETUP, UnattendedSteps());
    OldUnknownIsNeverReleased(s, more, 0);
    RunSplits(SOME_SETUP, UnattendedSteps(), more);
  }
}
