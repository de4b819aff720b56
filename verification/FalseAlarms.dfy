/**
 * Runs in which reconciliation, reading in parallel, stops execution although nothing is
 * wrong: after a settlement, after an acceptance and after a rejection.
 */
module FalseAlarms {
  import opened Wrappers
  import opened Keys
  import opened Control
  import opened Ledger
  import opened Risk
  import opened Orders
  import opened OrderInvariant
  import opened OrderSteps
  import opened Pipeline
  import opened PipelineInvariant
  import opened Submissions
  import opened Witnesses
  import opened Reconciliation

  function Zeros(n: nat): (text: string)
    ensures |text| == n && forall i | 0 <= i < n :: text[i] == '0'
  {
    if n == 0 then "" else Zeros(n - 1) + "0"
  }

  const SOME_HASH := Zeros(64)

  const SOME_ACCEPTANCE := PlaceAccepted("external", Some(2000), Some(500), true, SOME_HASH)

  const SOME_SETTLEMENT := OperatorOrder(
    Some("external"), OpSettled, Some(2000), Some(500), Some(SOME_HASH), Some(1000), Some(0))

  /** The only order is ready to be placed by call 1. */
  predicate AboutToPlace(s: State) {
    && s.sessions.Keys == {1} && ReadyFor(s, 1, 0)
    && |s.tables.orders| == 1 && InTables(s.tables, 0) && s.tables.receipts == []
    && var order := s.tables.orders[0];
    && order.status == Submitting && order.requestedStake == 500 && order.minimumOdd <= 2000 && order.externalId.None?
    && s.sessions[1].phase.order.mode == order.mode
    && LockForExecution(s.tables.control, false) == Ok(order.mode)
    && s.tables.book.accounts[order.account].balances == Balances(9500, 500)
    && Lookup(s.tables.book.entries, SettleKey(order.key)).None?
  }

  function PlacingSteps(): seq<Step> {
    [SubmitPermit(1, false, true), SubmitAnswer(1, SOME_ACCEPTANCE), SubmitApply(1)]
  }

  function SettlingSteps(): seq<Step> {
    [SettleRead(1, 0, SOME_SETTLEMENT), SettleBook(1), SettleClose(1)]
  }

  /** The order is accepted in full and no call is under way. */
  predicate AcceptedInFull(s: State) {
    && s.sessions == map[] && |s.tables.orders| == 1 && InTables(s.tables, 0)
    && var order := s.tables.orders[0];
    && order.status == Accepted && order.acceptedStake == Some(500)
    && s.tables.book.accounts[order.account].balances == Balances(9500, 500)
    && Lookup(s.tables.book.entries, SettleKey(order.key)).None?
  }

  lemma AcceptsSome(tables: Tables, now: int)
    requires |tables.orders| == 1 && InTables(tables, 0) && tables.receipts == []
    requires tables.orders[0].status == Submitting && tables.orders[0].requestedStake == 500
    requires tables.orders[0].minimumOdd <= 2000 && tables.orders[0].externalId.None?
    ensures ApplyPlacement(tables, 0, SOME_ACCEPTANCE, now).Ok?
    ensures
      var after := ApplyPlacement(tables, 0, SOME_ACCEPTANCE, now).value.0;
      && after.orders == [AcceptedOrder(tables.orders[0], AcceptanceOf(SOME_ACCEPTANCE))]
      && after.book == tables.book && |after.decisions| == |tables.decisions|
  {
    assert IsHash(SOME_HASH);
  }

  lemma PlacingMoves(s: State)
    requires AboutToPlace(s)
    ensures
      var steps := PlacingSteps();
      && Next(s, steps[0]).tables == s.tables
      && Next(Next(s, steps[0]), steps[1]) == At(Next(s, steps[0]), 1, 0, Answered(SOME_ACCEPTANCE))
      && Next(s, steps[0]).sessions.Keys == {1}
  {
    hide LockForExecution;
  }

  lemma Applies(s: State)
    requires s.sessions.Keys == {1} && s.sessions[1] == Session(0, Answered(SOME_ACCEPTANCE)) && InTables(s.tables, 0)
    requires ApplyPlacement(s.tables, 0, SOME_ACCEPTANCE, s.clock).Ok?
    ensures
      var after := Next(s, SubmitApply(1));
      && after.sessions == map[]
      && after.tables == ApplyPlacement(s.tables, 0, SOME_ACCEPTANCE, s.clock).value.0
  {
    hide ApplyPlacement;
    assert s.sessions - {1} == map[];
  }

  lemma PlacingAccepts(s: State)
    requires AboutToPlace(s)
    ensures AcceptedInFull(RunFrom(s, PlacingSteps()))
  {
    hide ApplyPlacement, Next, LockForExecution;
    var steps := PlacingSteps();
    PlacingMoves(s);
    var held := Next(s, steps[0]);
    var answered := At(held, 1, 0, Answered(SOME_ACCEPTANCE));
    RunFromCons(s, steps);
    RunFromCons(held, steps[1..]);
    RunFromCons(answered, steps[2..]);
    AcceptsSome(answered.tables, answered.clock);
    Applies(answered);
  }

  lemma BooksSome(tables: Tables, now: int)
    requires |tables.orders| == 1 && InTables(tables, 0)
    requires tables.book.accounts[tables.orders[0].account].balances == Balances(9500, 500)
    requires Lookup(tables.book.entries, SettleKey(tables.orders[0].key)).None?
    ensures SettleStake(tables, 0, 500, 1000, now).Ok?
    ensures
      var after := SettleStake(tables, 0, 500, 1000, now).value.0;
      after.orders == tables.orders && InTables(after, 0)
  {
  }

  lemma SettlingMoves(s: State)
    requires AcceptedInFull(s)
    ensures
      var steps := SettlingSteps();
      var read := At(s, 1, 0, Settling(500, 1000, Some(0)));
      && Next(s, steps[0]) == read
      && var booked := Next(read, steps[1]);
      && 1 in booked.sessions && booked.sessions[1] == Session(0, Closing(500, 1000, Some(0)))
      && booked.tables.orders == s.tables.orders && InTables(booked.tables, 0)
  {
    hide SettleStake, ApplyPlacement, ResolveUnknown, ReserveOrder, CancelAbandoned, ControlNext;
    BooksSome(s.tables, s.clock);
  }

  lemma Closes(s: State)
    requires 1 in s.sessions && s.sessions[1] == Session(0, Closing(500, 1000, Some(0)))
    requires |s.tables.orders| == 1 && InTables(s.tables, 0) && s.tables.orders[0].status == Accepted
    ensures
      var after := Next(s, SettleClose(1)).tables.orders;
      |after| == 1 && after[0].status == Settled && after[0].key == s.tables.orders[0].key
  {
    hide SettleStake, ApplyPlacement, ResolveUnknown, ReserveOrder, CancelAbandoned, ControlNext;
  }

  lemma SettlesSome(s: State)
    requires AcceptedInFull(s)
    ensures
      var after := RunFrom(s, SettlingSteps()).tables.orders;
      |after| == 1 && after[0].status == Settled && after[0].key == s.tables.orders[0].key
  {
    hide Next;
    var steps := SettlingSteps();
    var read := At(s, 1, 0, Settling(500, 1000, Some(0)));
    SettlingMoves(s);
    Closes(Next(read, steps[1]));
    RunFromCons(s, steps);
    RunFromCons(read, steps[1..]);
    RunFromCons(Next(read, steps[1]), steps[2..]);
  }

  // ---- One run, two early reads ----

  function FullSteps(): seq<Step> {
    OpeningSteps() + [SubmitRead(1, 0), SubmitLock(1, Some(SOME_QUOTE), false)] + PlacingSteps() + SettlingSteps()
  }

  lemma ReachesAboutToPlace()
    ensures AboutToPlace(Run(SOME_SETUP, OpeningSteps() + [SubmitRead(1, 0), SubmitLock(1, Some(SOME_QUOTE), false)]))
  {
    hide OpeningSteps, Next, StateInv, WouldSubmit, LockForExecution;
    ReachesReserved();
    var s := Run(SOME_SETUP, OpeningSteps());
    OneCallLocks(s, 1, 0, SOME_QUOTE);
    RunSplits(SOME_SETUP, OpeningSteps(), [SubmitRead(1, 0), SubmitLock(1, Some(SOME_QUOTE), false)]);
  }

  /** Where the run stands once opened, once the order is accepted, and once it is settled. */
  lemma FullRun()
    ensures |FullSteps()| == 15
    ensures Run(SOME_SETUP, FullSteps()[..7]) == Run(SOME_SETUP, OpeningSteps())
    ensures AcceptedInFull(Run(SOME_SETUP, FullSteps()[..12]))
    ensures
      var settled, accepted := Run(SOME_SETUP, FullSteps()).tables.orders, Run(SOME_SETUP, FullSteps()[..12]).tables.orders;
      |settled| == |accepted| == 1 && settled[0].status == Settled && settled[0].key == accepted[0].key
  {
    hide Next, Run, AboutToPlace;
    var opening, first := OpeningSteps(), [SubmitRead(1, 0), SubmitLock(1, Some(SOME_QUOTE), false)];
    var locked := opening + first;
    assert FullSteps()[..7] == opening && FullSteps()[..12] == locked + PlacingSteps();
    assert FullSteps() == FullSteps()[..12] + SettlingSteps();
    ReachesAboutToPlace();
    RunSplits(SOME_SETUP, locked, PlacingSteps());
    PlacingAccepts(Run(SOME_SETUP, locked));
    RunSplits(SOME_SETUP, FullSteps()[..12], SettlingSteps());
    SettlesSome(Run(SOME_SETUP, FullSteps()[..12]));
  }

  /**
   * The ledger read before the settlement was booked, the orders after it was closed; or the
   * receipts read before the acceptance, the orders after it: an item is raised and execution
   * stops, though reading the same run in order raises none.
   */
  lemma ParallelReadsAlarm()
    ensures |FullSteps()| == 15 && |Run(SOME_SETUP, FullSteps()[..15]).tables.orders| == 1
    ensures |Run(SOME_SETUP, FullSteps()[..12]).tables.orders| == 1
    ensures forall j | 12 <= j <= 15 ::
      var items := ItemsRead(SOME_SETUP, FullSteps(), 15, j, 12, 0, {0}, None, None, false);
      HasAccusation(items) && StopTriggerFor(items).Some?
    ensures forall k | 7 <= k <= 15 ::
      var items := ItemsRead(SOME_SETUP, FullSteps(), 12, 7, k, 0, {0}, None, None, false);
      HasAccusation(items) && StopTriggerFor(items).Some?
    ensures !HasAccusation(ItemsRead(SOME_SETUP, FullSteps(), 15, 15, 15, 0, {0}, None, None, false))
    ensures !HasAccusation(ItemsRead(SOME_SETUP, FullSteps(), 12, 12, 12, 0, {0}, None, None, false))
  {
    hide Next, Run, FullSteps, OpeningSteps, StateInv, HasAccusation, StopTriggerFor, ItemsRead, WouldSubmit;
    FullRun();
    ReachesReserved();
    var steps := FullSteps();
    assert steps[..15] == steps;
    forall j | 12 <= j <= 15
      ensures
        var items := ItemsRead(SOME_SETUP, steps, 15, j, 12, 0, {0}, None, None, false);
        HasAccusation(items) && StopTriggerFor(items).Some?
    {
      LedgerReadFirstAlarms(SOME_SETUP, steps, 15, j, 12, 0, {0}, None, None, false);
    }
    forall k | 7 <= k <= 15
      ensures
        var items := ItemsRead(SOME_SETUP, steps, 12, 7, k, 0, {0}, None, None, false);
        HasAccusation(items) && StopTriggerFor(items).Some?
    {
      AccusedExactly(SOME_SETUP, steps, 12, 7, k, 0, {0}, None, None, false);
    }
    NoFalseAlarm(SOME_SETUP, steps, 15, 15, 15, 0, {0}, None, None, false);
    NoFalseAlarm(SOME_SETUP, steps, 12, 12, 12, 0, {0}, None, None, false);
  }

  // ---- A rejection in between ----

  function RejectingSteps(): seq<Step> {
    [SubmitRead(1, 0), SubmitLock(1, None, false), SubmitCancel(1)]
  }

  lemma Rejects(s: State)
    requires JustReserved(s)
    ensures
      var after := RunFrom(s, RejectingSteps()).tables.orders;
      |after| == 1 && after[0].status == Rejected
  {
    hide Cancel, ApplyPlacement, ResolveUnknown, SettleStake, ReserveOrder, CancelAbandoned, ControlNext;
    var steps := RejectingSteps();
    var one := At(s, 1, 0, Reading);
    var two := At(one, 1, 0, Cancelling({Reserved}, NoExecutableOdd));
    assert Next(s, steps[0]) == one && Next(one, steps[1]) == two;
    RunFromCons(s, steps);
    RunFromCons(one, steps[1..]);
    RunFromCons(two, steps[2..]);
    CancelsSome(s.tables, s.clock);
  }

  lemma CancelsSome(tables: Tables, now: int)
    requires |tables.orders| == 1 && InTables(tables, 0)
    requires tables.orders[0].status == Reserved && tables.orders[0].requestedStake == 500
    requires tables.book.accounts[tables.orders[0].account].balances == Balances(9500, 500)
    requires Lookup(tables.book.entries, ReleaseKey(tables.orders[0].key)).None?
    ensures Cancel(tables, 0, {Reserved}, NoExecutableOdd, now).Ok?
    ensures
      var after := Cancel(tables, 0, {Reserved}, NoExecutableOdd, now).value.orders;
      |after| == 1 && after[0].status == Rejected
  {
  }

  /** The ledger read while the stake was held, the orders after the rejection that gave it back. */
  lemma RejectionInBetweenAlarms()
    ensures |OpeningSteps() + RejectingSteps()| == 10
    ensures |Run(SOME_SETUP, (OpeningSteps() + RejectingSteps())[..10]).tables.orders| == 1
    ensures forall j | 0 <= j <= 10 ::
      var items := ItemsRead(SOME_SETUP, OpeningSteps() + RejectingSteps(), 10, j, 7, 0, {0}, None, None, false);
      HasAccusation(items) && StopTriggerFor(items).Some?
    ensures !HasAccusation(ItemsRead(SOME_SETUP, OpeningSteps() + RejectingSteps(), 10, 10, 10, 0, {0}, None, None, false))
  {
    hide Next, Run, StateInv, HasAccusation, StopTriggerFor, ItemsRead, WouldSubmit;
    ReachesReserved();
    var steps := OpeningSteps() + RejectingSteps();
    assert steps[..10] == steps && steps[..7] == OpeningSteps();
    Rejects(Run(SOME_SETUP, OpeningSteps()));
    RunSplits(SOME_SETUP, OpeningSteps(), RejectingSteps());
    forall j | 0 <= j <= 10
      ensures
        var items := ItemsRead(SOME_SETUP, steps, 10, j, 7, 0, {0}, None, None, false);
        HasAccusation(items) && StopTriggerFor(items).Some?
    {
      AccusedExactly(SOME_SETUP, steps, 10, j, 7, 0, {0}, None, None, false);
    }
    NoFalseAlarm(SOME_SETUP, steps, 10, 10, 10, 0, {0}, None, None, false);
  }
}
