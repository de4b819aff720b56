/**
 * Runs that show the limits of at-most-once: two overlapping calls place one order twice,
 * before or after its first placement, and a call that lingers places an order already given up.
 */
module Witnesses {
  import opened Wrappers
  import opened Keys
  import opened Gates
  import opened Control
  import opened Ledger
  import opened Risk
  import opened Orders
  import opened OrderInvariant
  import opened OrderSteps
  import opened OrderCreation
  import opened Pipeline
  import opened PipelineInvariant
  import opened Submissions
  import opened Overlaps

  /** The operator's quote would pass the check before submission of a RESERVED order now. */
  predicate WouldSubmit(s: State, id: nat, quote: OperatorQuote, interlockOpen: bool)
    requires InTables(s.tables, id)
  {
    var order, policy := s.tables.orders[id], ActivePolicy(s.tables.control);
    && LockForExecution(s.tables.control, interlockOpen) == Ok(order.mode)
    && PortFor(s.ports, order.mode).Some?
    && quote.available && quote.odd >= order.minimumOdd
    && policy.Some? && 0 <= s.clock - quote.capturedAt <= policy.value.maxQuoteAgeMs
  }

  function PlacementOf(s: State, id: nat): Placement
    requires id < |s.tables.orders|
  {
    Placement(id, s.tables.orders[id].key, s.tables.orders[id].requestedStake, s.clock)
  }

  /**
   * Two calls that both read the order RESERVED: the second finds it SUBMITTING under the
   * lock, goes on, and the operator is asked twice.
   */
  lemma LateLockPlacesTwice(s: State, x: nat, y: nat, id: nat, interlockOpen: bool)
    requires StateInv(s) && x != y && ReadyFor(s, x, id) && LocksLate(s, SubmitLock(y, None, interlockOpen))
    requires s.sessions[y].order == id
    requires LockForExecution(s.tables.control, interlockOpen) == Ok(s.tables.orders[id].mode)
    ensures
      var after := RunFrom(s, [SubmitLock(y, None, interlockOpen), SubmitPermit(x, interlockOpen, true),
                               SubmitPermit(y, interlockOpen, true)]);
      after.placed == s.placed + [PlacementOf(s, id), PlacementOf(s, id)]
  {
    hide StateInv, Inv, Next, LockForExecution;
    SessionOf(s, x);
    var steps := [SubmitLock(y, None, interlockOpen), SubmitPermit(x, interlockOpen, true), SubmitPermit(y, interlockOpen, true)];
    var one := Next(s, steps[0]);
    RunFromCons(s, steps);
    LateLockGoesOn(s, steps[0]);
    ReadyIsThatOrder(s, x, id);
    PermitPlaces(one, x, id, interlockOpen);
    var two := Next(one, steps[1]);
    RunFromCons(one, steps[1..]);
    PermitPlaces(two, y, id, interlockOpen);
    RunFromCons(two, steps[2..]);
  }

  /** A granted permit sends the order the call carries. */
  lemma PermitPlaces(s: State, sid: nat, id: nat, interlockOpen: bool)
    requires ReadyFor(s, sid, id) && InTables(s.tables, id)
    requires LockForExecution(s.tables.control, interlockOpen) == Ok(s.sessions[sid].phase.order.mode)
    ensures
      var order := s.sessions[sid].phase.order;
      Next(s, SubmitPermit(sid, interlockOpen, true))
      == At(s, sid, id, Holding(order)).(placed := s.placed + [Placement(id, order.key, order.requestedStake, s.clock)])
  {
    hide LockForExecution;
  }

  lemma ReadyIsThatOrder(s: State, x: nat, id: nat)
    requires StateInv(s) && ReadyFor(s, x, id)
    ensures id < |s.tables.orders| && SameIdentity(s.sessions[x].phase.order, s.tables.orders[id])
  {
    SessionOf(s, x);
  }

  /**
   * A call let on late places the order whatever became of the other one: for the second time
   * when the order was placed already, for the first time when the other call crashed before.
   */
  lemma LateLockPlaces(s: State, y: nat, id: nat, interlockOpen: bool)
    requires LocksLate(s, SubmitLock(y, None, interlockOpen)) && s.sessions[y].order == id
    requires LockForExecution(s.tables.control, interlockOpen) == Ok(s.tables.orders[id].mode)
    ensures
      var after := RunFrom(s, [SubmitLock(y, None, interlockOpen), SubmitPermit(y, interlockOpen, true)]);
      after.placed == s.placed + [PlacementOf(s, id)]
  {
    hide Next, LockForExecution;
    var steps := [SubmitLock(y, None, interlockOpen), SubmitPermit(y, interlockOpen, true)];
    LateLockGoesOn(s, steps[0]);
    PermitPlaces(Next(s, steps[0]), y, id, interlockOpen);
    RunFromCons(s, steps);
    RunFromCons(Next(s, steps[0]), steps[1..]);
  }

  lemma OneRead(s: State, sid: nat, id: nat)
    requires sid !in s.sessions && InTables(s.tables, id) && s.tables.orders[id].status == Reserved
    requires PortFor(s.ports, s.tables.orders[id].mode).Some?
    ensures Next(s, SubmitRead(sid, id)) == At(s, sid, id, Reading)
  {
  }

  /** The order once its lock transaction has gone through. */
  function SubmittedWith(s: State, id: nat, quote: OperatorQuote): Order
    requires id < |s.tables.orders|
  {
    s.tables.orders[id].(status := Submitting, requestedOdd := quote.odd, submittedAt := Some(s.clock),
                         version := s.tables.orders[id].version + 1)
  }

  function LockedBy(s: State, x: nat, id: nat, quote: OperatorQuote): State
    requires id < |s.tables.orders|
  {
    At(s.(tables := s.tables.(orders := s.tables.orders[id := SubmittedWith(s, id, quote)])),
       x, id, Ready(SubmittedWith(s, id, quote)))
  }

  lemma LockGoesThrough(s: State, x: nat, id: nat, quote: OperatorQuote, interlockOpen: bool)
    requires x in s.sessions && s.sessions[x] == Session(id, Reading)
    requires InTables(s.tables, id) && s.tables.orders[id].status == Reserved && WouldSubmit(s, id, quote, interlockOpen)
    ensures Next(s, SubmitLock(x, Some(quote), interlockOpen)) == LockedBy(s, x, id, quote)
  {
  }

  /** From any state with an order about to be submitted, one call takes its lock. */
  lemma OneCallLocks(s: State, x: nat, id: nat, quote: OperatorQuote)
    requires x !in s.sessions
    requires InTables(s.tables, id) && s.tables.orders[id].status == Reserved && WouldSubmit(s, id, quote, false)
    ensures
      var after := RunFrom(s, [SubmitRead(x, id), SubmitLock(x, Some(quote), false)]);
      after == LockedBy(At(s, x, id, Reading), x, id, quote)
  {
    hide Next;
    var steps := [SubmitRead(x, id), SubmitLock(x, Some(quote), false)];
    var one := At(s, x, id, Reading);
    OneRead(s, x, id);
    LockGoesThrough(one, x, id, quote, false);
    RunFromCons(s, steps);
    RunFromCons(one, steps[1..]);
  }

  /** With a second call in between that read the order too, that call's lock would come late. */
  lemma OverlapLocksLate(s: State, x: nat, y: nat, id: nat, quote: OperatorQuote, interlockOpen: bool)
    requires x != y && x !in s.sessions && y !in s.sessions
    requires InTables(s.tables, id) && s.tables.orders[id].status == Reserved
    requires WouldSubmit(s, id, quote, interlockOpen)
    ensures
      var after := RunFrom(s, [SubmitRead(x, id), SubmitRead(y, id), SubmitLock(x, Some(quote), interlockOpen)]);
      && after.placed == s.placed && id < |after.tables.orders|
      && ReadyFor(after, x, id) && LocksLate(after, SubmitLock(y, None, interlockOpen)) && after.sessions[y].order == id
      && LockForExecution(after.tables.control, interlockOpen) == Ok(after.tables.orders[id].mode)
  {
    hide Next, LockForExecution;
    var steps := [SubmitRead(x, id), SubmitRead(y, id), SubmitLock(x, Some(quote), interlockOpen)];
    var one, two := At(s, x, id, Reading), At(At(s, x, id, Reading), y, id, Reading);
    OneRead(s, x, id);
    OneRead(one, y, id);
    LockGoesThrough(two, x, id, quote, interlockOpen);
    RunFromCons(s, steps);
    RunFromCons(one, steps[1..]);
    RunFromCons(two, steps[2..]);
  }

  // ---- A run where it happens ----

  function Witness(gate: GateKey): Evidence {
    Evidence("control", gate, Go, "approver", if gate == G1 then "first" else "second", 0, 1)
  }

  const SOME_POLICY := RiskPolicy(1, "EUR", 1000, 1000, 1000, 1000, 1000)

  const SOME_DECISION := Decision(Eligible, None, "fixture", "market", "selection", "v1", 0, "EUR",
                                  Some(500), Some(2000), Some(0), 1500, None, None, None)

  const SOME_SETUP := Setup(map[Simulation := "simulator"], "control", 0)

  function OpeningSteps(): seq<Step> {
    [Govern(DoRecordEvidence(Witness(G1))),
     Govern(DoRecordEvidence(Witness(G2))),
     Govern(DoCreatePolicy(SOME_POLICY, true, None)),
     Govern(DoChangeMode(Simulation, 2, [0, 1], false, "unused")),
     Open(Simulation, "simulator", "EUR", 10000),
     Decide(SOME_DECISION),
     ReserveStep(0, 0, false, true)]
  }

  const RUNNING := ControlTables(
    Some(ControlRow("control", Stored(Simulation), 3, Some(0), None)), [SOME_POLICY], [Witness(G1), Witness(G2)])

  lemma ControlReachesSimulation()
    ensures
      var steps := OpeningSteps();
      var start := Bootstrapped("control");
      ControlNext(ControlNext(ControlNext(ControlNext(start, steps[0].control), steps[1].control), steps[2].control),
                  steps[3].control) == RUNNING
  {
    var steps, start := OpeningSteps(), Bootstrapped("control");
    var row := start.control.value;
    var two := ControlTables(Some(row), [], [Witness(G1), Witness(G2)]);
    var three := ControlTables(Some(row.(policy := Some(0), version := 2)), [SOME_POLICY], [Witness(G1), Witness(G2)]);
    assert ControlNext(start, steps[0].control) == ControlTables(Some(row), [], [Witness(G1)]);
    assert ControlNext(ControlTables(Some(row), [], [Witness(G1)]), steps[1].control) == two;
    assert ControlNext(two, steps[2].control) == three;
    EvidenceSuffices(three);
    assert ControlNext(three, steps[3].control) == RUNNING;
  }

  function WithControl(s: State, control: ControlTables): State {
    s.(tables := s.tables.(control := control))
  }

  lemma Governs(s: State, step: ControlStep)
    requires s.sessions == map[]
    ensures Next(s, Govern(step)) == WithControl(s, ControlNext(s.tables.control, step))
  {
  }

  lemma ReachesSimulation()
    ensures Run(SOME_SETUP, OpeningSteps()[..4]) == WithControl(Initial(SOME_SETUP.ports, "control", 0), RUNNING)
  {
    hide Next, ControlNext, CreateRiskPolicy, RecordEvidence, ChangeMode;
    var steps, start := OpeningSteps(), Initial(SOME_SETUP.ports, "control", 0);
    assert Run(SOME_SETUP, []) == start;
    var one := WithControl(start, ControlNext(start.tables.control, steps[0].control));
    var two := WithControl(start, ControlNext(one.tables.control, steps[1].control));
    var three := WithControl(start, ControlNext(two.tables.control, steps[2].control));
    assert steps[..4][..3] == steps[..3] && steps[..3][..2] == steps[..2] && steps[..2][..1] == steps[..1] && steps[..1][..0] == [];
    Governs(start, steps[0].control);
    assert Run(SOME_SETUP, steps[..1]) == one;
    Governs(one, steps[1].control);
    assert Run(SOME_SETUP, steps[..2]) == two;
    Governs(two, steps[2].control);
    assert Run(SOME_SETUP, steps[..3]) == three;
    Governs(three, steps[3].control);
    ControlReachesSimulation();
  }

  lemma EvidenceSuffices(tables: ControlTables)
    requires tables.evidence == [Witness(G1), Witness(G2)]
    ensures TransitionProven(tables, "control", Disabled, Simulation, [0, 1])
  {
    var ids, required := [0, 1], [G1, G2];
    var found := Found(tables.evidence, ids);
    assert ids[0] in found && ids[1] in found;
    assert found[0] == Witness(G1) && found[1] == Witness(G2);
    assert DefectOf(ids[0], found, required, "control").None? && DefectOf(ids[1], found, required, "control").None?;
    assert CoveredBy(required[0], ids, found, required, "control") && CoveredBy(required[1], ids, found, required, "control");
  }

  const SOME_QUOTE := OperatorQuote(2000, 0, true)

  /** One order of 5.00 on an account of 100.00, reserved and about to be submitted; no call under way. */
  predicate JustReserved(s: State) {
    && s.sessions == map[] && s.placed == [] && s.clock == 0
    && |s.tables.orders| == 1 && InTables(s.tables, 0) && s.tables.receipts == []
    && var order := s.tables.orders[0];
    && order.status == Reserved && order.requestedStake == 500 && order.minimumOdd == 1500 && order.account == 0
    && order.externalId.None?
    && s.tables.book.accounts[0].balances == Balances(9500, 500)
    && Lookup(s.tables.book.entries, ReleaseKey(order.key)).None?
    && Lookup(s.tables.book.entries, SettleKey(order.key)).None?
    && LockForExecution(s.tables.control, false) == Ok(order.mode)
    && WouldSubmit(s, 0, SOME_QUOTE, false)
  }

  /** A run that leads there. */
  lemma ReachesReserved()
    ensures JustReserved(Run(SOME_SETUP, OpeningSteps()))
  {
    hide JustReserved, Next, ReserveOrder;
    var steps := OpeningSteps();
    ReachesDecided();
    assert steps[..7] == steps && steps[..7][..6] == steps[..6];
    LastOpeningSteps(DECIDED);
    ReservesSome(DECIDED.tables);
    StandsReserved(Run(SOME_SETUP, steps));
  }

  /** The account is opened and the decision stored. */
  const DECIDED := State(SOME_SETUP.ports, Tables(RUNNING, SOME_BOOK, [SOME_DECISION], [], []), map[], [], 0)

  lemma ReachesDecided()
    ensures Run(SOME_SETUP, OpeningSteps()[..6]) == DECIDED
  {
    hide Next, OpenAccount;
    var steps := OpeningSteps();
    ReachesSimulation();
    assert steps[..6][..5] == steps[..5] && steps[..5][..4] == steps[..4];
    var four := Run(SOME_SETUP, steps[..4]);
    OpensSome();
    LastOpeningSteps(four);
    LastOpeningSteps(four.(tables := four.tables.(book := SOME_BOOK)));
  }

  lemma LastOpeningSteps(s: State)
    ensures Next(s, OpeningSteps()[4]) == OpenStep(s, Simulation, "simulator", "EUR", 10000)
    ensures Next(s, OpeningSteps()[5]) == s.(tables := s.tables.(decisions := s.tables.decisions + [SOME_DECISION]))
    ensures Next(s, OpeningSteps()[6])
      == s.(tables := ReserveOrder(s.tables, s.ports, 0, 0, s.clock, false, true).tables)
  {
    hide OpenStep, ReserveOrder;
  }

  lemma StandsReserved(s: State)
    requires s.ports == SOME_SETUP.ports && s.sessions == map[] && s.placed == [] && s.clock == 0
    requires s.tables.receipts == [] && ReservedSome(s.tables)
    ensures JustReserved(s)
  {
  }

  const SOME_BOOK := Book(
    [Account(Simulation, "simulator", "EUR", Balances(10000, 0), 2)],
    [Entry(0, None, OpenKey(0), Adjustment, Effect(10000, 0), Balances(10000, 0), 2, 0)])

  lemma OpensSome()
    ensures OpenAccount(Book([], []), Simulation, "simulator", "EUR", 10000, 0) == Ok(SOME_BOOK)
  {
    var opening := Opening(Book([], []), Simulation, "simulator", "EUR");
    var entry := SOME_BOOK.entries[0];
    assert Append(opening, 0, OpeningInput(0, 10000), 0).Ok?;
    assert Written(opening, entry) == SOME_BOOK;
  }

  predicate ReservedSome(tables: Tables) {
    && tables.control == RUNNING && |tables.orders| == 1 && |tables.decisions| == 1 && |tables.book.accounts| == 1
    && tables.book.accounts[0].balances == Balances(9500, 500)
    && var order := tables.orders[0];
    && order.status == Reserved && order.mode == Simulation && order.decision == 0 && order.account == 0
    && order.minimumOdd == 1500 && order.requestedStake == 500 && order.externalId.None?
    && Lookup(tables.book.entries, ReleaseKey(order.key)).None?
    && Lookup(tables.book.entries, SettleKey(order.key)).None?
  }

  lemma ReservesSome(tables: Tables)
    requires tables.control == RUNNING && tables.orders == [] && tables.decisions == [SOME_DECISION]
    requires tables.book == SOME_BOOK
    ensures
      var after := ReserveOrder(tables, SOME_SETUP.ports, 0, 0, 0, false, true).tables;
      after.receipts == tables.receipts && ReservedSome(after)
  {
    var order := NewOrder(SOME_DECISION, 0, 0, Simulation, "simulator");
    var entries := tables.book.entries;
    assert Lookup(entries, ReserveKey(order.key)).None? by {
      assert entries[..0] == [];
    }
    assert Total(StakedSince(0), entries, 0) == 0 && Total(PnlSince(0), entries, 0) == 0 by {
      assert entries[..0] == [];
    }
    assert UtcDayStart(0) == 0;
    assert AssessRisk(SOME_POLICY, tables.book, 0, 500, 0, 0) == Accept;
  }

  /** At most once does fail when calls overlap: a concrete run in which the operator is asked twice for one order. */
  lemma OverlapPlacesTwice()
    ensures
      var steps := OpeningSteps()
        + [SubmitRead(1, 0), SubmitRead(2, 0), SubmitLock(1, Some(SOME_QUOTE), false)]
        + [SubmitLock(2, None, false), SubmitPermit(1, false, true), SubmitPermit(2, false, true)];
      var s := Run(SOME_SETUP, steps);
      |s.placed| == 2 && s.placed[0] == s.placed[1]
  {
    hide OpeningSteps, Next, StateInv, WouldSubmit;
    ReachesReserved();
    var s := Run(SOME_SETUP, OpeningSteps());
    var first := [SubmitRead(1, 0), SubmitRead(2, 0), SubmitLock(1, Some(SOME_QUOTE), false)];
    var second := [SubmitLock(2, None, false), SubmitPermit(1, false, true), SubmitPermit(2, false, true)];
    OverlapLocksLate(s, 1, 2, 0, SOME_QUOTE, false);
    RunSplits(SOME_SETUP, OpeningSteps(), first);
    EveryRun(SOME_SETUP, OpeningSteps() + first);
    LateLockPlacesTwice(RunFrom(s, first), 1, 2, 0, false);
    RunSplits(SOME_SETUP, OpeningSteps() + first, second);
  }

  /** A lock by session `y` would come late for order `id`, and its permit be granted. */
  predicate WouldLockLate(s: State, y: nat, id: nat) {
    && LocksLate(s, SubmitLock(y, None, false)) && s.sessions[y].order == id
    && LockForExecution(s.tables.control, false) == Ok(s.tables.orders[id].mode)
  }

  /** The first call places the order before the second one takes its lock. */
  lemma FirstCallPlaces(s: State, x: nat, y: nat, id: nat)
    requires StateInv(s) && x != y && ReadyFor(s, x, id) && WouldLockLate(s, y, id)
    ensures
      var held := Next(s, SubmitPermit(x, false, true));
      && held.tables == s.tables && held.clock == s.clock
      && held.placed == s.placed + [PlacementOf(s, id)]
      && WouldLockLate(held, y, id)
  {
    hide StateInv, Inv, LockForExecution;
    ReadyIsThatOrder(s, x, id);
    PermitPlaces(s, x, id, false);
  }

  /** The first call crashes before the second one takes its lock. */
  lemma FirstCallCrashes(s: State, x: nat, y: nat, id: nat)
    requires x != y && WouldLockLate(s, y, id)
    ensures
      var crashed := Next(s, Crash(x));
      crashed.tables == s.tables && crashed.placed == s.placed && WouldLockLate(crashed, y, id)
  {
    hide LockForExecution;
  }

  lemma ThenLate(setup: Setup, opening: seq<Step>, step: Step, y: nat, id: nat)
    requires WouldLockLate(Run(setup, opening + [step]), y, id)
    ensures Run(setup, opening + [step]) == Next(Run(setup, opening), step)
    ensures
      var s := Run(setup, opening + [step]);
      Run(setup, opening + [step] + [SubmitLock(y, None, false), SubmitPermit(y, false, true)]).placed
        == s.placed + [PlacementOf(s, id)]
  {
    hide Next;
    LateLockPlaces(Run(setup, opening + [step]), y, id, false);
    RunSplits(setup, opening + [step], [SubmitLock(y, None, false), SubmitPermit(y, false, true)]);
    assert (opening + [step])[..|opening|] == opening;
  }

  /** The second call takes its lock while the operator is still answering the first: the order is placed again. */
  lemma LockAfterPlacementPlacesAgain()
    ensures
      var steps := OpeningSteps()
        + [SubmitRead(1, 0), SubmitRead(2, 0), SubmitLock(1, Some(SOME_QUOTE), false)]
        + [SubmitPermit(1, false, true)]
        + [SubmitLock(2, None, false), SubmitPermit(2, false, true)];
      var s := Run(SOME_SETUP, steps);
      |s.placed| == 2 && s.placed[0] == s.placed[1]
  {
    hide OpeningSteps, Next, StateInv, WouldSubmit;
    ReachesReserved();
    var s := Run(SOME_SETUP, OpeningSteps());
    var first := [SubmitRead(1, 0), SubmitRead(2, 0), SubmitLock(1, Some(SOME_QUOTE), false)];
    EveryRun(SOME_SETUP, OpeningSteps() + first);
    OverlapLocksLate(s, 1, 2, 0, SOME_QUOTE, false);
    RunSplits(SOME_SETUP, OpeningSteps(), first);
    var locked, opening := RunFrom(s, first), OpeningSteps() + first;
    FirstCallPlaces(locked, 1, 2, 0);
    assert (opening + [SubmitPermit(1, false, true)])[..|opening|] == opening;
    ThenLate(SOME_SETUP, opening, SubmitPermit(1, false, true), 2, 0);
  }

  /** The first call crashes between its lock and its permit: the second one places the order for the first time. */
  lemma LockAfterCrashPlacesOnce()
    ensures
      var steps := OpeningSteps()
        + [SubmitRead(1, 0), SubmitRead(2, 0), SubmitLock(1, Some(SOME_QUOTE), false)]
        + [Crash(1)]
        + [SubmitLock(2, None, false), SubmitPermit(2, false, true)];
      |Run(SOME_SETUP, steps).placed| == 1
  {
    hide OpeningSteps, Next, StateInv, WouldSubmit;
    ReachesReserved();
    var s := Run(SOME_SETUP, OpeningSteps());
    var first := [SubmitRead(1, 0), SubmitRead(2, 0), SubmitLock(1, Some(SOME_QUOTE), false)];
    EveryRun(SOME_SETUP, OpeningSteps() + first);
    OverlapLocksLate(s, 1, 2, 0, SOME_QUOTE, false);
    RunSplits(SOME_SETUP, OpeningSteps(), first);
    var locked, opening := RunFrom(s, first), OpeningSteps() + first;
    FirstCallCrashes(locked, 1, 2, 0);
    assert (opening + [Crash(1)])[..|opening|] == opening;
    ThenLate(SOME_SETUP, opening, Crash(1), 2, 0);
  }

  // ---- A call that lingers ----

  /**
   * A single call, paused between its lock and its permit until the order was swept, found
   * absent at the operator after the grace delay, rejected and its stake released, still
   * asks the operator to place it: the permit looks at the control, not at the order.
   */
  lemma LateCallPlacesRejected(s: State, x: nat, id: nat, interlockOpen: bool)
    requires StateInv(s) && ReadyFor(s, x, id) && id < |s.tables.orders| && s.tables.orders[id].status == Submitting
    requires LockForExecution(s.tables.control, interlockOpen) == Ok(s.tables.orders[id].mode)
    requires s.tables.orders[id].submittedAt == Some(s.clock)
    requires InTables(s.tables, id) && s.tables.orders[id].requestedStake
      <= MAX_COLUMN_CENTS - s.tables.book.accounts[s.tables.orders[id].account].balances.available
    ensures
      var later := s.clock + UNKNOWN_GRACE_MS;
      var after := RunFrom(s, [Wait(UNKNOWN_GRACE_MS), Recover(later), Resolve(id, None, later),
                               SubmitPermit(x, interlockOpen, true)]);
      && |after.placed| == |s.placed| + 1 && after.placed[|s.placed|].order == id
      && id < |after.tables.orders| && after.tables.orders[id].status == Rejected
      && Lookup(after.tables.book.entries, ReleaseKey(after.tables.orders[id].key)).Some?
  {
    hide StateInv, Inv, TablesEvolve, ResolveStep, Next, LockForExecution;
    var later := s.clock + UNKNOWN_GRACE_MS;
    var steps := [Wait(UNKNOWN_GRACE_MS), Recover(later), Resolve(id, None, later), SubmitPermit(x, interlockOpen, true)];
    SessionOf(s, x);
    SweptLate(s, id);
    var swept := s.(clock := later, tables := RecoverStale(s.tables, later));
    var resolved := ResolveStep(swept, id, None, later);
    ReadingRejects(swept, id, later);
    RunFromCons(s, steps);
    StepsUnfold(s, UNKNOWN_GRACE_MS, later, id);
    RunFromCons(s.(clock := later), steps[1..]);
    StepsUnfold(s.(clock := later), UNKNOWN_GRACE_MS, later, id);
    RunFromCons(swept, steps[2..]);
    StepsUnfold(swept, UNKNOWN_GRACE_MS, later, id);
    RunFromCons(resolved, steps[3..]);
    ReadyIsThatOrder(s, x, id);
    PermitPlaces(resolved, x, id, interlockOpen);
  }

  /** A run with a single call in which it happens. */
  lemma LingeringCallPlacesRejected()
    ensures
      var steps := OpeningSteps()
        + [SubmitRead(1, 0), SubmitLock(1, Some(SOME_QUOTE), false)]
        + [Wait(UNKNOWN_GRACE_MS), Recover(UNKNOWN_GRACE_MS), Resolve(0, None, UNKNOWN_GRACE_MS),
           SubmitPermit(1, false, true)];
      var s := Run(SOME_SETUP, steps);
      && Solo(SOME_SETUP, steps)
      && |s.placed| == 1 && s.placed[0].order == 0
      && 0 < |s.tables.orders| && s.tables.orders[0].status == Rejected
      && Lookup(s.tables.book.entries, ReleaseKey(s.tables.orders[0].key)).Some?
  {
    hide OpeningSteps, Next, StateInv, WouldSubmit, Solo;
    ReachesReserved();
    var s := Run(SOME_SETUP, OpeningSteps());
    var first := [SubmitRead(1, 0), SubmitLock(1, Some(SOME_QUOTE), false)];
    var second := [Wait(UNKNOWN_GRACE_MS), Recover(UNKNOWN_GRACE_MS), Resolve(0, None, UNKNOWN_GRACE_MS),
                   SubmitPermit(1, false, true)];
    OneCallLocks(s, 1, 0, SOME_QUOTE);
    RunSplits(SOME_SETUP, OpeningSteps(), first);
    EveryRun(SOME_SETUP, OpeningSteps() + first);
    LateCallPlacesRejected(LockedBy(At(s, 1, 0, Reading), 1, 0, SOME_QUOTE), 1, 0, false);
    RunSplits(SOME_SETUP, OpeningSteps() + first, second);
    OneReadIsSolo(OpeningSteps(), first + second);
    assert OpeningSteps() + (first + second) == OpeningSteps() + first + second;
  }

  lemma OneReadIsSolo(opening: seq<Step>, more: seq<Step>)
    requires opening == OpeningSteps() && more != [] && Run(SOME_SETUP, opening).sessions == map[]
    requires forall i | 1 <= i < |more| :: !more[i].SubmitRead?
    ensures Solo(SOME_SETUP, opening + more)
  {
    hide Run, Next;
    var steps := opening + more;
    assert forall i | 0 <= i < |opening| :: steps[i] == opening[i] && !opening[i].SubmitRead?;
    forall i | 0 <= i < |steps| && steps[i].SubmitRead?
      ensures forall sid :: !Submits(Run(SOME_SETUP, steps[..i]), sid, steps[i].order)
    {
      assert i >= |opening| ==> steps[i] == more[i - |opening|];
      assert i == |opening|;
      assert steps[..i] == opening;
    }
  }

  lemma StepsUnfold(s: State, ms: nat, readAt: int, id: nat)
    ensures Next(s, Wait(ms)) == s.(clock := s.clock + ms)
    ensures readAt <= s.clock ==> Next(s, Recover(readAt)) == s.(tables := RecoverStale(s.tables, readAt))
    ensures Next(s, Resolve(id, None, readAt)) == ResolveStep(s, id, None, readAt)
  {
    hide ResolveStep;
  }

  lemma SweptLate(s: State, id: nat)
    requires StateInv(s) && InTables(s.tables, id) && s.tables.orders[id].status == Submitting
    requires s.tables.orders[id].submittedAt == Some(s.clock)
    ensures
      var later := s.clock + UNKNOWN_GRACE_MS;
      var swept := s.(clock := later, tables := RecoverStale(s.tables, later));
      && StateInv(swept) && InTables(swept.tables, id)
      && swept.tables.orders[id] == Recovered(s.tables.orders[id])
  {
    hide StateInv, Inv, TablesEvolve;
    var later := s.clock + UNKNOWN_GRACE_MS;
    StepKeepsStateInv(s, Wait(UNKNOWN_GRACE_MS));
    StepKeepsStateInv(s.(clock := later), Recover(later));
  }

  lemma ReadingRejects(s: State, id: nat, readAt: int)
    requires StateInv(s) && InTables(s.tables, id) && s.tables.orders[id].status == Unknown
    requires InWindow(s.tables.orders[id], readAt) && HasRoom(s.tables, id)
    ensures
      var after := ResolveStep(s, id, None, readAt);
      && after == s.(tables := after.tables) && after.tables.control == s.tables.control
      && InTables(after.tables, id) && after.tables.orders[id].status == Rejected
      && after.tables.orders[id].key == s.tables.orders[id].key
      && Lookup(after.tables.book.entries, ReleaseKey(after.tables.orders[id].key)).Some?
  {
    hide StateInv, Inv, ResolveUnknown, InWindow, HasRoom;
    InvOf(s);
    AbsentReleasesWithinWindow(s.tables, id, readAt, s.clock);
    AnswerLeavesControl(s.tables, id, PlaceUnknown, None, readAt, s.clock);
  }
}
