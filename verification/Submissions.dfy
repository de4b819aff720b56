/**
 * The kill switch as a barrier, and how often the operator is asked to place an order:
 * at most once, exactly as long as no lock transaction lets on a call one too many.
 */
module Submissions {
  import opened Wrappers
  import opened Keys
  import opened Control
  import opened Ledger
  import opened Risk
  import opened Orders
  import opened OrderInvariant
  import opened OrderSteps
  import opened Pipeline
  import opened PipelineInvariant

  // ---- The barrier ----

  /** What the shared lock means: no write to the control row commits while a permit is held. */
  lemma NoControlWriteUnderPermit(a: State, step: Step)
    requires PermitHeld(a)
    ensures Next(a, step).tables.control.control == a.tables.control.control
  {
    hide StartSubmission, Cancel, ApplyPlacement, SettleStake, CloseOrder, ReserveOrder, CancelAbandoned,
      ResolveUnknown;
    if !step.Govern? {
      ControlOnlyGoverned(a, step);
    }
  }

  /**
   * While a permit is held the control is in the order's own mode, which is never real money,
   * and the lock keeps it so through the next step.
   */
  lemma PermitMatchesMode(s: State, sid: nat)
    requires Reachable(s) && sid in s.sessions && s.sessions[sid].phase.Holding?
    ensures Active(s, sid)
    ensures
      var order := s.tables.orders[s.sessions[sid].order];
      && CurrentMode(s.tables.control) == order.mode
      && order.mode in {Simulation, Sandbox}
      && forall interlockOpen :: LockForExecution(s.tables.control, interlockOpen) == Ok(order.mode)
    ensures forall step :: Next(s, step).tables.control.control == s.tables.control.control
  {
    hide Next;
    ReachableInv(s);
    SessionOf(s, sid);
    OrderOkOf(s.tables, s.sessions[sid].order);
    forall step
      ensures Next(s, step).tables.control.control == s.tables.control.control
    {
      NoControlWriteUnderPermit(s, step);
    }
  }

  predicate RaisesMode(step: Step) {
    step.Govern? && IsModeChange(step.control)
  }

  lemma StoppedStep(a: State, step: Step)
    requires StateInv(a) && CurrentMode(a.tables.control) == Disabled && !RaisesMode(step)
    ensures CurrentMode(Next(a, step).tables.control) == Disabled
    ensures Next(a, step).placed == a.placed
  {
    hide Inv, SessionOk, Next;
    StepPlaces(a, step);
    if !step.Govern? {
      ControlOnlyGoverned(a, step);
    } else {
      GovernWithoutRaise(a, step);
    }
    if step.SubmitPermit? {
      if step.sid in a.sessions {
        SessionOf(a, step.sid);
        assert SessionOk(a, a.sessions[step.sid]);
      }
      NoPermitWhenStopped(a, step);
    }
  }

  lemma GovernWithoutRaise(a: State, step: Step)
    requires StateInv(a) && CurrentMode(a.tables.control) == Disabled && step.Govern? && !RaisesMode(step)
    ensures CurrentMode(Next(a, step).tables.control) == Disabled
  {
  }

  lemma NoPermitWhenStopped(a: State, step: Step)
    requires CurrentMode(a.tables.control) == Disabled && step.SubmitPermit?
    requires step.sid in a.sessions ==> InTables(a.tables, a.sessions[step.sid].order)
    ensures Next(a, step).placed == a.placed
  {
    NothingRunsWhenStopped(a.tables, step.interlockOpen);
  }

  lemma NothingRunsWhenStopped(tables: Tables, interlockOpen: bool)
    requires CurrentMode(tables.control) == Disabled
    ensures LockForExecution(tables.control, interlockOpen).Err?
  {
  }

  /** After a stop nothing is placed until somebody raises the mode again, whatever was under way. */
  lemma {:induction false} StopIsABarrier(s: State, steps: seq<Step>)
    requires StateInv(s) && CurrentMode(s.tables.control) == Disabled
    requires forall i | 0 <= i < |steps| :: !RaisesMode(steps[i])
    ensures StateInv(RunFrom(s, steps))
    ensures CurrentMode(RunFrom(s, steps).tables.control) == Disabled
    ensures RunFrom(s, steps).placed == s.placed
  {
    hide Next, StateInv;
    if steps != [] {
      var init := steps[..|steps| - 1];
      StopIsABarrier(s, init);
      StoppedStep(RunFrom(s, init), steps[|steps| - 1]);
      StepKeepsStateInv(RunFrom(s, init), steps[|steps| - 1]);
    }
  }

  /** A stop that commits leaves execution disabled, and it commits exactly when no permit is held. */
  lemma StopCommits(s: State, freshId: string, source: StopSource)
    requires Reachable(s)
    ensures PermitHeld(s) ==> Next(s, Govern(DoStop(freshId, source))) == s
    ensures !PermitHeld(s) ==> CurrentMode(Next(s, Govern(DoStop(freshId, source))).tables.control) == Disabled
  {
    hide Inv, SessionOk;
    ReachableInv(s);
  }

  // ---- What is never submitted again ----

  /** An order past submission stays past it, in every continuation of every run. */
  lemma NeverSubmittedAgain(setup: Setup, steps: seq<Step>, n: nat, id: nat)
    requires n <= |steps| && id < |Run(setup, steps[..n]).tables.orders|
    requires Run(setup, steps[..n]).tables.orders[id].status !in {Reserved, Submitting}
    ensures
      var before, after := Run(setup, steps[..n]).tables.orders[id], Run(setup, steps).tables.orders;
      && id < |after|
      && after[id].status !in {Reserved, Submitting}
      && CanBecome(before.status, after[id].status)
      && after[id].key == before.key
  {
    hide Run;
    RunsEvolve(setup, steps, n);
    assert Evolves(Run(setup, steps[..n]).tables.orders[id], Run(setup, steps).tables.orders[id]);
  }

  // ---- At most once ----

  /** The lock transaction finds the order already SUBMITTING and lets the call go on. */
  predicate LocksLate(s: State, step: Step) {
    && step.SubmitLock? && Active(s, step.sid) && s.sessions[step.sid].phase.Reading?
    && s.tables.orders[s.sessions[step.sid].order].status == Submitting
  }

  predicate ReadyFor(s: State, sid: nat, id: nat) {
    sid in s.sessions && s.sessions[sid].phase.Ready? && s.sessions[sid].order == id
  }

  predicate Placed(s: State, id: nat) {
    exists p | 0 <= p < |s.placed| :: s.placed[p].order == id
  }

  /** One call at most is about to place an order, none once it was placed, and none places it twice. */
  ghost predicate OnceInv(s: State) {
    && (forall x, y, id | ReadyFor(s, x, id) && ReadyFor(s, y, id) :: x == y)
    && (forall x, id | ReadyFor(s, x, id) :: !Placed(s, id))
    && (forall p, q | 0 <= p < q < |s.placed| :: s.placed[p].order != s.placed[q].order)
  }

  /**
   * The lock transaction lets a call on although another one is about to place the order, or
   * the order was placed already.
   */
  ghost predicate OneTooMany(s: State, step: Step) {
    && LocksLate(s, step)
    && LockForExecution(s.tables.control, step.interlockOpen).Ok?
    && var id := s.sessions[step.sid].order;
    (exists x :: ReadyFor(s, x, id)) || Placed(s, id)
  }

  /** A step makes a call ready only by moving its order from RESERVED to SUBMITTING, or by finding it there. */
  lemma BecomesReady(a: State, step: Step, sid: nat, id: nat)
    requires ReadyFor(Next(a, step), sid, id)
    ensures
      || ReadyFor(a, sid, id)
      || (&& step.SubmitLock? && step.sid == sid && Active(a, sid) && a.sessions[sid].phase.Reading?
          && a.sessions[sid].order == id && Next(a, step).placed == a.placed
          && LockForExecution(a.tables.control, step.interlockOpen).Ok?
          && a.tables.orders[id].status in {Reserved, Submitting})
  {
    hide Cancel, ApplyPlacement, SettleStake, CloseOrder, ReserveOrder, CancelAbandoned, ResolveUnknown;
    if !step.SubmitLock? {
      hide StartSubmission;
      OthersUnmoved(a, step);
    }
  }

  lemma PlacedMeansPastReserved(s: State, id: nat)
    requires StateInv(s) && Placed(s, id) && id < |s.tables.orders|
    ensures s.tables.orders[id].status != Reserved
  {
    var p :| 0 <= p < |s.placed| && s.placed[p].order == id;
    assert PlacementOk(s, s.placed[p]);
  }

  lemma ReadyMeansPastReserved(s: State, sid: nat, id: nat)
    requires StateInv(s) && ReadyFor(s, sid, id)
    ensures InTables(s.tables, id) && s.tables.orders[id].status != Reserved
  {
    assert SessionOk(s, s.sessions[sid]);
  }

  lemma PlacesReady(a: State, step: Step)
    requires Next(a, step).placed != a.placed
    ensures
      && step.SubmitPermit? && step.sid in a.sessions && ReadyFor(a, step.sid, a.sessions[step.sid].order)
      && |Next(a, step).placed| == |a.placed| + 1
      && Next(a, step).placed[|a.placed|].order == a.sessions[step.sid].order
      && Next(a, step).placed[..|a.placed|] == a.placed
      && (forall sid, id | ReadyFor(Next(a, step), sid, id) :: sid != step.sid && ReadyFor(a, sid, id))
  {
    hide StartSubmission, Cancel, ApplyPlacement, SettleStake, CloseOrder, ReserveOrder, CancelAbandoned,
      ResolveUnknown;
  }

  lemma StepKeepsOnce(a: State, step: Step)
    requires StateInv(a) && OnceInv(a) && !OneTooMany(a, step)
    ensures OnceInv(Next(a, step))
  {
    hide Next, Inv, SessionOk, PlacementOk;
    var b := Next(a, step);
    forall x, id | ReadyFor(b, x, id)
      ensures !Placed(b, id)
      ensures forall y | ReadyFor(b, y, id) :: x == y
    {
      BecomesReady(a, step, x, id);
      forall y | ReadyFor(b, y, id)
        ensures x == y
      {
        BecomesReady(a, step, y, id);
        if ReadyFor(a, x, id) && !ReadyFor(a, y, id) {
          ReadyMeansPastReserved(a, x, id);
        } else if ReadyFor(a, y, id) && !ReadyFor(a, x, id) {
          ReadyMeansPastReserved(a, y, id);
        }
      }
      if Placed(b, id) {
        if b.placed != a.placed {
          PlacesReady(a, step);
        } else if !ReadyFor(a, x, id) {
          assert Placed(a, id);
          PlacedMeansPastReserved(a, id);
        }
      }
    }
    PlacementsStayApart(a, step);
  }

  /** The call that is one too many is let on. */
  lemma LateLockGoesOn(a: State, step: Step)
    requires LocksLate(a, step) && LockForExecution(a.tables.control, step.interlockOpen).Ok?
    ensures
      var id := a.sessions[step.sid].order;
      Next(a, step) == At(a, step.sid, id, Ready(a.tables.orders[id]))
  {
  }

  /** A step breaks it exactly by letting on a call one too many. */
  lemma StepKeepsOnceExactly(a: State, step: Step)
    requires StateInv(a) && OnceInv(a)
    ensures OnceInv(Next(a, step)) <==> !OneTooMany(a, step)
  {
    hide Next, Inv, SessionOk, PlacementOk, LockForExecution;
    if OneTooMany(a, step) {
      LateLockGoesOn(a, step);
      var b, id := Next(a, step), a.sessions[step.sid].order;
      assert ReadyFor(b, step.sid, id);
      if Placed(a, id) {
        assert Placed(b, id);
      } else {
        var x :| ReadyFor(a, x, id);
        assert ReadyFor(b, x, id);
      }
    } else {
      StepKeepsOnce(a, step);
    }
  }

  lemma PlacementsStayApart(a: State, step: Step)
    requires OnceInv(a)
    ensures var b := Next(a, step); forall p, q | 0 <= p < q < |b.placed| :: b.placed[p].order != b.placed[q].order
  {
    hide Next;
    var b := Next(a, step);
    if b.placed != a.placed {
      PlacesReady(a, step);
      forall p, q | 0 <= p < q < |b.placed|
        ensures b.placed[p].order != b.placed[q].order
      {
        assert b.placed[p] == b.placed[..|a.placed|][p];
        assert q < |a.placed| ==> b.placed[q] == b.placed[..|a.placed|][q];
      }
    }
  }

  ghost predicate NeverOneTooMany(setup: Setup, steps: seq<Step>) {
    forall i | 0 <= i < |steps| :: !OneTooMany(Run(setup, steps[..i]), steps[i])
  }

  ghost predicate OnceThroughout(setup: Setup, steps: seq<Step>) {
    forall i | 0 <= i <= |steps| :: OnceInv(Run(setup, steps[..i]))
  }

  lemma {:induction false} OnceUpTo(setup: Setup, steps: seq<Step>, n: nat)
    requires n <= |steps|
    ensures (forall i | 0 <= i <= n :: OnceInv(Run(setup, steps[..i])))
      <==> (forall i | 0 <= i < n :: !OneTooMany(Run(setup, steps[..i]), steps[i]))
  {
    hide Next, Run, StateInv, OnceInv, OneTooMany;
    if n == 0 {
      assert steps[..0] == [];
      NothingYet(setup);
    } else {
      OnceUpTo(setup, steps, n - 1);
      EveryRun(setup, steps[..n - 1]);
      RunOneMore(setup, steps, n);
      if OnceInv(Run(setup, steps[..n - 1])) {
        StepKeepsOnceExactly(Run(setup, steps[..n - 1]), steps[n - 1]);
      }
    }
  }

  lemma NothingYet(setup: Setup)
    ensures OnceInv(Run(setup, []))
  {
  }

  /** A run keeps it throughout exactly when no lock transaction lets on a call one too many. */
  lemma OnceExactly(setup: Setup, steps: seq<Step>)
    ensures OnceThroughout(setup, steps) <==> NeverOneTooMany(setup, steps)
    ensures NeverOneTooMany(setup, steps) ==> OnceInv(Run(setup, steps))
  {
    hide Run, OnceInv, OneTooMany;
    OnceUpTo(setup, steps, |steps|);
    assert steps[..|steps|] == steps;
  }

  /**
   * As long as no lock transaction lets on a call one too many, each order is placed at most
   * once, under its stored idempotency key and for its stored stake; no two placements share
   * a key.
   */
  lemma PlacedAtMostOnce(setup: Setup, steps: seq<Step>)
    requires NeverOneTooMany(setup, steps)
    ensures
      var s := Run(setup, steps);
      && (forall p, q | 0 <= p < q < |s.placed| :: s.placed[p].key != s.placed[q].key)
      && (forall p | 0 <= p < |s.placed| ::
            && s.placed[p].order < |s.tables.orders|
            && s.placed[p].key == s.tables.orders[s.placed[p].order].key
            && s.placed[p].stake == s.tables.orders[s.placed[p].order].requestedStake)
  {
    OnceExactly(setup, steps);
    EveryRun(setup, steps);
    var s := Run(setup, steps);
    forall p, q | 0 <= p < q < |s.placed|
      ensures s.placed[p].key != s.placed[q].key
    {
      assert PlacementOk(s, s.placed[p]) && PlacementOk(s, s.placed[q]);
      OrdersApart(s.tables.orders, s.placed[p].order, s.placed[q].order);
    }
  }

  lemma OrdersApart(orders: seq<Order>, i: nat, j: nat)
    requires DistinctOrders(orders) && i < |orders| && j < |orders| && i != j
    ensures orders[i].key != orders[j].key
  {
    if j < i {
      assert orders[j].key != orders[i].key;
    }
  }
}
