/**
 * When calls of `submit` for one order never overlap, no lock transaction comes late and what
 * is placed is still SUBMITTING within the stale delay.
 */
module Overlaps {
  import opened Wrappers
  import opened Keys
  import opened Control
  import opened Ledger
  import opened Risk
  import opened Orders
  import opened OrderInvariant
  import opened OrderSteps
  import opened OrderCreation
  import opened Abandoned
  import opened Pipeline
  import opened PipelineInvariant
  import opened Submissions

  // ---- Which steps change a status ----

  lemma {:induction false} MarkingRejects(tables: Tables, rows: seq<nat>, code: RejectionCode, i: nat)
    requires RowsStored(tables, rows) && i < |tables.orders|
    ensures MarkAllRejected(tables, rows, code).orders[i].status in {tables.orders[i].status, Rejected}
  {
    if rows != [] {
      MarkingRejects(tables, rows[..|rows| - 1], code, i);
    }
  }

  lemma BatchOnlyRejects(tables: Tables, ids: set<nat>, now: int)
    requires Links(tables) && CancelAbandoned(tables, ids, now).Ok?
    ensures
      var after := CancelAbandoned(tables, ids, now).value.0.orders;
      && |after| == |tables.orders|
      && (forall i | 0 <= i < |after| :: after[i].status in {tables.orders[i].status, Rejected})
      && (forall i | 0 <= i < |after| && tables.orders[i].status != Reserved :: after[i] == tables.orders[i])
  {
    var rows := ReservedAmong(tables.orders, ids);
    if rows != [] {
      var kept := Releasable(tables, rows);
      assert RowsStored(tables, kept);
      forall i | 0 <= i < |tables.orders|
        ensures
          var after := MarkAllRejected(tables, kept, OperatorUnavailable).orders[i];
          && after.status in {tables.orders[i].status, Rejected}
          && (tables.orders[i].status != Reserved ==> after == tables.orders[i])
      {
        MarkingRejects(tables, kept, OperatorUnavailable, i);
        if tables.orders[i].status != Reserved {
          NotAmong(tables, rows, kept, i);
          UnmarkedStays(tables, kept, OperatorUnavailable, i);
        }
      }
    }
  }

  lemma NotAmong(tables: Tables, rows: seq<nat>, kept: seq<nat>, i: nat)
    requires AreOrders(rows, tables.orders) && i < |tables.orders| && tables.orders[i].status != Reserved
    requires forall r | 0 <= r < |rows| :: tables.orders[rows[r]].status == Reserved
    requires forall k | 0 <= k < |kept| :: kept[k] in rows
    ensures forall k | 0 <= k < |kept| :: kept[k] != i
  {
  }

  lemma AnswerChangesOne(tables: Tables, id: nat, result: PlaceResult, answer: Option<OperatorOrder>, readAt: int, now: int)
    requires InTables(tables, id)
    ensures ApplyPlacement(tables, id, result, now).Ok? ==>
      var after := ApplyPlacement(tables, id, result, now).value.0.orders;
      && after == tables.orders[id := after[id]]
      && (after[id].status == Submitting ==> after[id] == tables.orders[id])
    ensures ResolveUnknown(tables, id, answer, readAt, now).Ok? ==>
      var after := ResolveUnknown(tables, id, answer, readAt, now).value.0.orders;
      && after == tables.orders[id := after[id]]
      && (after != tables.orders ==> tables.orders[id].status == Unknown && after[id].status != Submitting)
  {
  }

  lemma CancelOnlyRejects(tables: Tables, id: nat, from: set<OrderStatus>, code: RejectionCode, now: int)
    requires InTables(tables, id) && Cancel(tables, id, from, code, now).Ok?
    ensures
      var after := Cancel(tables, id, from, code, now).value.orders;
      after == tables.orders[id := after[id]] && after[id].status in {tables.orders[id].status, Rejected}
  {
  }

  lemma StartOnlySubmits(tables: Tables, id: nat, quote: Option<OperatorQuote>, now: int, interlockOpen: bool)
    requires id < |tables.orders|
    ensures
      var after := StartSubmission(tables, id, quote, now, interlockOpen).0.orders;
      && after == tables.orders[id := after[id]]
      && after[id].status in {tables.orders[id].status, Submitting}
      && (tables.orders[id].status == Submitting ==> after[id] == tables.orders[id])
  {
  }

  lemma ReservationsOnlyAdd(tables: Tables, ports: map<Mode, string>, decision: nat, account: nat, now: int,
                            interlockOpen: bool, clockOk: bool)
    ensures
      var after := ReserveOrder(tables, ports, decision, account, now, interlockOpen, clockOk).tables.orders;
      && |tables.orders| <= |after|
      && after[..|tables.orders|] == tables.orders
      && (forall i | |tables.orders| <= i < |after| :: after[i].status != Submitting)
  {
  }

  /** Moves of session `sid` that may take order `id` out of SUBMITTING. */
  predicate Finishes(a: State, step: Step, id: nat) {
    && (step.SubmitCancel? || step.SubmitApply?) && step.sid in a.sessions
    && a.sessions[step.sid].order == id
    && (a.sessions[step.sid].phase.Cancelling? || a.sessions[step.sid].phase.Answered?)
  }

  predicate Sweeps(a: State, step: Step, id: nat)
    requires id < |a.tables.orders|
  {
    step.Recover? && step.readAt <= a.clock && IsStale(a.tables.orders[id], step.readAt)
  }

  predicate StartsSubmitting(a: State, step: Step, id: nat) {
    && step.SubmitLock? && Active(a, step.sid) && a.sessions[step.sid].phase.Reading?
    && a.sessions[step.sid].order == id
  }

  ghost predicate SubmittingMovesBy(a: State, step: Step, id: nat)
    requires id < |Next(a, step).tables.orders|
  {
    && (Next(a, step).tables.orders[id].status == Submitting ==>
          (id < |a.tables.orders| && a.tables.orders[id].status == Submitting) || StartsSubmitting(a, step, id))
    && (id < |a.tables.orders| && a.tables.orders[id].status == Submitting
        && Next(a, step).tables.orders[id].status != Submitting ==>
          Finishes(a, step, id) || Sweeps(a, step, id))
  }

  lemma SessionMoves(a: State, step: Step, id: nat)
    requires id < |Next(a, step).tables.orders| && Mover(step).Some?
    ensures SubmittingMovesBy(a, step, id)
  {
    hide ApplyPlacement, Cancel, StartSubmission, SettleStake, ReserveOrder, ResolveUnknown, CancelAbandoned,
      ControlNext, OpenAccount;
    match step
    case SubmitLock(sid, quote, interlockOpen) =>
      if Active(a, sid) {
        StartOnlySubmits(a.tables, a.sessions[sid].order, quote, a.clock, interlockOpen);
      }
    case SubmitCancel(sid) =>
      if Active(a, sid) && a.sessions[sid].phase.Cancelling? {
        var canceller, phase := a.sessions[sid].order, a.sessions[sid].phase;
        if Cancel(a.tables, canceller, phase.from, phase.code, a.clock).Ok? {
          CancelOnlyRejects(a.tables, canceller, phase.from, phase.code, a.clock);
        }
      }
    case SubmitApply(sid) =>
      if Active(a, sid) && a.sessions[sid].phase.Answered? {
        AnswerChangesOne(a.tables, a.sessions[sid].order, a.sessions[sid].phase.result, None, a.clock, a.clock);
      }
    case SettleBook(sid) =>
      if Active(a, sid) && a.sessions[sid].phase.Settling? {
        BookingKeepsOrders(a.tables, a.sessions[sid].order, a.sessions[sid].phase.stake, a.sessions[sid].phase.payout, a.clock);
      }
    case _ =>
  }

  lemma BookingKeepsOrders(tables: Tables, id: nat, stake: int, payout: int, now: int)
    requires InTables(tables, id)
    ensures SettleStake(tables, id, stake, payout, now).Ok? ==>
      SettleStake(tables, id, stake, payout, now).value.0.orders == tables.orders
  {
  }

  lemma OtherMoves(a: State, step: Step, id: nat)
    requires id < |Next(a, step).tables.orders| && Mover(step).None?
    ensures SubmittingMovesBy(a, step, id)
  {
    hide ResolveUnknown, ReserveOrder, CancelAbandoned, ControlNext;
    match step
    case ReserveStep(decision, account, interlockOpen, clockOk) =>
      ReservationsOnlyAdd(a.tables, a.ports, decision, account, a.clock, interlockOpen, clockOk);
      var after := ReserveOrder(a.tables, a.ports, decision, account, a.clock, interlockOpen, clockOk).tables.orders;
      assert id < |a.tables.orders| ==> after[..|a.tables.orders|][id] == after[id];
    case Resolve(order, answer, readAt) =>
      if InTables(a.tables, order) {
        AnswerChangesOne(a.tables, order, PlaceUnknown, answer, readAt, a.clock);
      }
    case Abandon(ids) =>
      if Links(a.tables) && CancelAbandoned(a.tables, ids, a.clock).Ok? {
        BatchOnlyRejects(a.tables, ids, a.clock);
      }
    case _ =>
  }

  /**
   * An order becomes SUBMITTING only through its own lock transaction and stops being so only
   * through its own call or the sweep of stale submissions.
   */
  lemma SubmittingMoves(a: State, step: Step, id: nat)
    requires id < |Next(a, step).tables.orders|
    ensures SubmittingMovesBy(a, step, id)
  {
    hide Next, SubmittingMovesBy;
    if Mover(step).Some? {
      SessionMoves(a, step, id);
    } else {
      OtherMoves(a, step, id);
    }
  }

  // ---- Calls that do not overlap ----

  /** Session `sid` is a call of `submit` on order `id` that has not returned. */
  predicate Submits(s: State, sid: nat, id: nat) {
    && sid in s.sessions && s.sessions[sid].order == id
    && !s.sessions[sid].phase.Settling? && !s.sessions[sid].phase.Closing?
  }

  /** A call starts only when no other call on the same order is under way. */
  ghost predicate Solo(setup: Setup, steps: seq<Step>) {
    forall i | 0 <= i < |steps| && steps[i].SubmitRead? ::
      forall sid :: !Submits(Run(setup, steps[..i]), sid, steps[i].order)
  }

  ghost predicate SoloInv(s: State) {
    && (forall x, y, id | Submits(s, x, id) && Submits(s, y, id) :: x == y)
    && (forall sid: nat, id: nat | Submits(s, sid, id) && id < |s.tables.orders| :: Timely(s, sid, id))
  }

  /** A call still reading has not submitted; one about to place is within its delay or swept. */
  predicate Timely(s: State, sid: nat, id: nat)
    requires sid in s.sessions && id < |s.tables.orders|
  {
    match s.sessions[sid].phase
    case Reading => s.tables.orders[id].status != Submitting
    case Ready(copy) =>
      copy.submittedAt.Some? && s.clock <= copy.submittedAt.value + SUBMITTING_STALE_MS ==>
        s.tables.orders[id].status == Submitting
    case _ => true
  }

  /** A call on an order after a step was one before, unless it has just started. */
  lemma SubmitsEarlier(a: State, step: Step, sid: nat, id: nat)
    requires Submits(Next(a, step), sid, id)
    ensures Submits(a, sid, id) || (step == SubmitRead(sid, id) && sid !in a.sessions && InTables(a.tables, id)
                                    && a.tables.orders[id].status == Reserved
                                    && Next(a, step).tables == a.tables)
    ensures Submits(a, sid, id) && Next(a, step).sessions[sid].phase.Reading? ==>
      a.sessions[sid] == Next(a, step).sessions[sid] && (StartsSubmitting(a, step, id) ==> step.sid != sid)
  {
    hide Cancel, ApplyPlacement, SettleStake, CloseOrder, ReserveOrder, CancelAbandoned, ResolveUnknown,
      StartSubmission;
    OthersUnmoved(a, step);
  }

  lemma ReadyEarlier(a: State, step: Step, sid: nat, id: nat)
    requires ReadyFor(Next(a, step), sid, id)
    ensures
      || (ReadyFor(a, sid, id) && a.sessions[sid] == Next(a, step).sessions[sid] && (Finishes(a, step, id) ==> step.sid != sid))
      || (Submits(a, sid, id) && StartsSubmitting(a, step, id) && id < |Next(a, step).tables.orders|
          && Next(a, step).tables.orders[id].status == Submitting)
  {
    hide Cancel, ApplyPlacement, SettleStake, CloseOrder, ReserveOrder, CancelAbandoned, ResolveUnknown;
    if !step.SubmitLock? {
      hide StartSubmission;
      OthersUnmoved(a, step);
    }
  }

  lemma StepKeepsTimely(a: State, step: Step, sid: nat, id: nat)
    requires StateInv(a) && SoloInv(a)
    requires Submits(Next(a, step), sid, id) && id < |Next(a, step).tables.orders|
    ensures Timely(Next(a, step), sid, id)
  {
    hide Next, Inv, StateInv, SoloInv, SessionOk;
    var b := Next(a, step);
    SubmitsEarlier(a, step, sid, id);
    SubmittingMoves(a, step, id);
    OtherSubmitters(a, step, sid, id);
    if Submits(a, sid, id) {
      SessionOf(a, sid);
      TimelyOf(a, sid, id);
    }
    if b.sessions[sid].phase.Ready? {
      ReadyEarlier(a, step, sid, id);
      ClockGrows(a, step);
      StepKeepsStateInv(a, step);
      ReadyCopy(b, sid);
      if ReadyFor(a, sid, id) {
        ReadyCopy(a, sid);
      }
    }
  }

  lemma TimelyOf(s: State, sid: nat, id: nat)
    requires SoloInv(s) && Submits(s, sid, id) && id < |s.tables.orders|
    ensures Timely(s, sid, id)
  {
  }

  /** The copy a call carries shows when its order was submitted. */
  lemma ReadyCopy(s: State, sid: nat)
    requires StateInv(s) && sid in s.sessions && s.sessions[sid].phase.Ready?
    ensures InTables(s.tables, s.sessions[sid].order)
    ensures s.sessions[sid].phase.order.submittedAt.Some?
    ensures s.sessions[sid].phase.order.submittedAt == s.tables.orders[s.sessions[sid].order].submittedAt
  {
    assert SessionOk(s, s.sessions[sid]);
  }

  /** The only call on an order is the one that moves it. */
  lemma OtherSubmitters(a: State, step: Step, sid: nat, id: nat)
    requires SoloInv(a)
    ensures StartsSubmitting(a, step, id) && Submits(a, sid, id) ==> step.sid == sid
    ensures Finishes(a, step, id) && Submits(a, sid, id) ==> step.sid == sid
  {
    if StartsSubmitting(a, step, id) || Finishes(a, step, id) {
      assert Submits(a, step.sid, id);
    }
  }

  /** The step starts a call on an order that already has one under way. */
  ghost predicate StartsOverlap(a: State, step: Step) {
    step.SubmitRead? && exists sid :: Submits(a, sid, step.order)
  }

  lemma StepKeepsSolo(a: State, step: Step)
    requires StateInv(a) && SoloInv(a) && !StartsOverlap(a, step)
    ensures SoloInv(Next(a, step))
  {
    hide Next, Inv, StateInv, SessionOk;
    var b := Next(a, step);
    forall x, y, id | Submits(b, x, id) && Submits(b, y, id)
      ensures x == y
    {
      SubmitsEarlier(a, step, x, id);
      SubmitsEarlier(a, step, y, id);
    }
    forall sid: nat, id: nat | Submits(b, sid, id) && id < |b.tables.orders|
      ensures Timely(b, sid, id)
    {
      StepKeepsTimely(a, step, sid, id);
    }
  }

  lemma SoloPrefix(setup: Setup, steps: seq<Step>, n: nat)
    requires Solo(setup, steps) && n <= |steps|
    ensures Solo(setup, steps[..n])
  {
    forall i | 0 <= i < n && steps[..n][i].SubmitRead?
      ensures forall sid :: !Submits(Run(setup, steps[..n][..i]), sid, steps[..n][i].order)
    {
      assert steps[..n][..i] == steps[..i];
    }
  }

  lemma {:induction false} SoloInEveryRun(setup: Setup, steps: seq<Step>)
    requires Solo(setup, steps)
    ensures SoloInv(Run(setup, steps))
  {
    hide Next, StateInv;
    if steps != [] {
      var n := |steps| - 1;
      SoloPrefix(setup, steps, n);
      SoloInEveryRun(setup, steps[..n]);
      EveryRun(setup, steps[..n]);
      StepKeepsSolo(Run(setup, steps[..n]), steps[n]);
    }
  }

  /** Without overlap no lock comes late, so none lets on a call one too many. */
  lemma SoloNeverLate(setup: Setup, steps: seq<Step>)
    requires Solo(setup, steps)
    ensures forall i | 0 <= i < |steps| :: !LocksLate(Run(setup, steps[..i]), steps[i])
    ensures NeverOneTooMany(setup, steps)
  {
    hide Next, Run, Solo;
    forall i | 0 <= i < |steps|
      ensures !LocksLate(Run(setup, steps[..i]), steps[i])
    {
      var s := Run(setup, steps[..i]);
      SoloPrefix(setup, steps, i);
      SoloInEveryRun(setup, steps[..i]);
      assert LocksLate(s, steps[i]) ==> Submits(s, steps[i].sid, s.sessions[steps[i].sid].order);
    }
  }

  /**
   * When the calls of `submit` on one order do not overlap, with crashes anywhere, every order
   * is placed at most once, and what is placed within the stale delay is still SUBMITTING.
   */
  lemma SoloPlacesOnce(setup: Setup, steps: seq<Step>)
    requires Solo(setup, steps)
    ensures
      var s := Run(setup, steps);
      && (forall p, q | 0 <= p < q < |s.placed| :: s.placed[p].order != s.placed[q].order)
      && (forall sid: nat, id: nat | ReadyFor(s, sid, id) ::
            && InTables(s.tables, id) && !Placed(s, id)
            && (s.tables.orders[id].submittedAt.Some?
                && s.clock <= s.tables.orders[id].submittedAt.value + SUBMITTING_STALE_MS ==>
                  s.tables.orders[id].status == Submitting))
  {
    SoloNeverLate(setup, steps);
    OnceExactly(setup, steps);
    SoloInEveryRun(setup, steps);
    EveryRun(setup, steps);
    var s := Run(setup, steps);
    forall sid: nat, id: nat | ReadyFor(s, sid, id)
      ensures InTables(s.tables, id) && !Placed(s, id)
      ensures s.tables.orders[id].submittedAt.Some?
              && s.clock <= s.tables.orders[id].submittedAt.value + SUBMITTING_STALE_MS ==>
                s.tables.orders[id].status == Submitting
    {
      SessionOf(s, sid);
      assert Submits(s, sid, id);
      assert Timely(s, sid, id);
    }
  }

  // ---- When a call about to place still has its order submitted ----

  /** Session `sid` took its lock for order `id` at step `n` and has been about to place it since. */
  ghost predicate ReadySince(setup: Setup, steps: seq<Step>, sid: nat, id: nat, n: nat) {
    && n < |steps|
    && !ReadyFor(Run(setup, steps[..n]), sid, id)
    && forall m | n < m <= |steps| :: ReadyFor(Run(setup, steps[..m]), sid, id)
  }

  /** The sweep of stale submissions hit the order between steps `n` and `last`. */
  ghost predicate SweptBetween(setup: Setup, steps: seq<Step>, id: nat, n: nat, last: nat)
    requires last <= |steps|
  {
    exists m: nat | n < m < last ::
      id < |Run(setup, steps[..m]).tables.orders| && Sweeps(Run(setup, steps[..m]), steps[m], id)
  }

  /** Every call about to place took its lock at some step. */
  lemma {:induction false} ReadySinceSome(setup: Setup, steps: seq<Step>, sid: nat, id: nat)
    requires ReadyFor(Run(setup, steps), sid, id)
    ensures exists n: nat :: ReadySince(setup, steps, sid, id, n)
  {
    hide Next;
    if steps != [] {
      var last := |steps| - 1;
      assert steps[..|steps|] == steps;
      if ReadyFor(Run(setup, steps[..last]), sid, id) {
        ReadySinceSome(setup, steps[..last], sid, id);
        var n: nat :| ReadySince(setup, steps[..last], sid, id, n);
        assert forall m | 0 <= m <= last :: steps[..last][..m] == steps[..m];
        forall m | n < m <= |steps|
          ensures ReadyFor(Run(setup, steps[..m]), sid, id)
        {
          if m <= last {
            assert ReadyFor(Run(setup, steps[..last][..m]), sid, id);
          }
        }
        assert ReadySince(setup, steps, sid, id, n);
      } else {
        assert ReadySince(setup, steps, sid, id, last);
      }
    }
  }

  lemma SweepsAway(a: State, step: Step, id: nat)
    requires id < |a.tables.orders| && Sweeps(a, step, id)
    ensures id < |Next(a, step).tables.orders| && Next(a, step).tables.orders[id].status == Unknown
  {
  }

  /** One step of a call about to place: its order stays as it is, unless swept. */
  lemma StaysUnlessSwept(a: State, step: Step, sid: nat, id: nat)
    requires StateInv(a) && SoloInv(a) && ReadyFor(a, sid, id) && ReadyFor(Next(a, step), sid, id)
    ensures id < |a.tables.orders| && id < |Next(a, step).tables.orders|
    ensures Next(a, step).tables.orders[id].status == Submitting
      <==> a.tables.orders[id].status == Submitting && !Sweeps(a, step, id)
  {
    hide Next, Inv, StateInv, SoloInv, SessionOk, Sweeps;
    SessionOf(a, sid);
    StepKeepsStateInv(a, step);
    SessionOf(Next(a, step), sid);
    OtherSubmitters(a, step, sid, id);
    SubmittingMoves(a, step, id);
    if Sweeps(a, step, id) {
      SweepsAway(a, step, id);
    }
  }

  lemma {:induction false} SubmittingUpTo(setup: Setup, steps: seq<Step>, sid: nat, id: nat, n: nat, last: nat)
    requires Solo(setup, steps) && ReadySince(setup, steps, sid, id, n) && n < last <= |steps|
    ensures id < |Run(setup, steps[..last]).tables.orders|
    ensures Run(setup, steps[..last]).tables.orders[id].status == Submitting
      <==> !SweptBetween(setup, steps, id, n, last)
  {
    hide Next, Run, StateInv, SoloInv, Sweeps, Solo, ReadyFor, Submits, StartsSubmitting, Finishes;
    var a, step := Run(setup, steps[..last - 1]), steps[last - 1];
    RunOneMore(setup, steps, last);
    assert ReadyFor(Run(setup, steps[..last]), sid, id);
    if last == n + 1 {
      ReadyEarlier(a, step, sid, id);
    } else {
      assert ReadyFor(a, sid, id);
      SubmittingUpTo(setup, steps, sid, id, n, last - 1);
      EveryRun(setup, steps[..last - 1]);
      SoloPrefix(setup, steps, last - 1);
      SoloInEveryRun(setup, steps[..last - 1]);
      StaysUnlessSwept(a, step, sid, id);
    }
  }

  /**
   * In a run without overlap, the order of a call about to place is still SUBMITTING exactly
   * when no sweep of stale submissions hit it since the call's lock.
   */
  lemma SubmittingUnlessSwept(setup: Setup, steps: seq<Step>, sid: nat, id: nat)
    requires Solo(setup, steps) && ReadyFor(Run(setup, steps), sid, id)
    ensures id < |Run(setup, steps).tables.orders|
    ensures exists n: nat :: ReadySince(setup, steps, sid, id, n)
    ensures forall n: nat | ReadySince(setup, steps, sid, id, n) ::
      Run(setup, steps).tables.orders[id].status == Submitting <==> !SweptBetween(setup, steps, id, n, |steps|)
  {
    hide Next, Run, Solo, ReadyFor, SweptBetween;
    ReadySinceSome(setup, steps, sid, id);
    assert steps[..|steps|] == steps;
    forall n: nat | ReadySince(setup, steps, sid, id, n)
      ensures id < |Run(setup, steps).tables.orders|
      ensures Run(setup, steps).tables.orders[id].status == Submitting <==> !SweptBetween(setup, steps, id, n, |steps|)
    {
      SubmittingUpTo(setup, steps, sid, id, n, |steps|);
    }
  }
}
