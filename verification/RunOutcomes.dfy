/** What a reconciliation run does with each order: which answers settle, take on, give back or set aside what. */
module RunOutcomes {
  import opened Wrappers
  import opened Keys
  import opened Sums
  import opened Control
  import opened Ledger
  import opened Risk
  import opened Orders
  import opened OrderInvariant
  import opened OrderSteps
  import opened OrderCreation
  import opened OrderOutcomes
  import opened Abandoned
  import opened PipelineInvariant
  import opened DayTotals
  import opened Reconciliation
  import opened ReconciliationRun

  /** Execution goes on as it did, or is stopped. */
  predicate StoppedIf(stop: bool, a: Tables, b: Tables) {
    if stop then CurrentMode(b.control) == Disabled && b.control == Stop(a.control, "", Automatic) else b.control == a.control
  }

  /** A payout that can be booked: it fits the column, or is the one booked already. */
  predicate CanSettle(a: Tables, id: nat, answer: OperatorOrder)
    requires InTables(a, id) && PaysOut(answer)
  {
    var paid := Ledger.Lookup(a.book.entries, SettleKey(a.orders[id].key));
    if paid.Some? then paid.value.effect.amount == answer.payout.value
    else a.book.accounts[a.orders[id].account].balances.available + answer.payout.value <= MAX_COLUMN_CENTS
  }

  /**
   * Paid if it was not yet, closed, and execution stopped if the orders settled in the day lose
   * what the policy allows.
   */
  predicate SettledIn(a: Tables, b: Tables, id: nat, answer: OperatorOrder, now: int)
    requires InTables(a, id) && a.orders[id].acceptedStake.Some? && PaysOut(answer)
  {
    var order, policy := a.orders[id], ActivePolicy(a.control);
    && ClosedFor(a, b, id, answer, now)
    && (if Ledger.Lookup(a.book.entries, SettleKey(order.key)).Some? then b.book == a.book else PaidFor(a, b, id, answer))
    && StoppedIf(
         policy.Some? && -Sum(ResultsOn(a.(book := b.book), order.account, UtcDayStart(now))) >= policy.value.maxDailyLoss,
         a, b)
  }

  lemma LossStops(a: Tables, id: nat, payout: int, now: int)
    requires Inv(a) && InTables(a, id) && a.orders[id].status == Accepted && a.orders[id].acceptedStake.Some?
    requires 0 <= payout <= MAX_COLUMN_CENTS && SettleStake(a, id, a.orders[id].acceptedStake.value, payout, now).Ok?
    ensures
      var order, policy := a.orders[id], ActivePolicy(a.control);
      var (booked, lossReached) := SettleStake(a, id, order.acceptedStake.value, payout, now).value;
      && booked == a.(book := booked.book)
      && (lossReached <==> policy.Some? && -Sum(ResultsOn(booked, order.account, UtcDayStart(now))) >= policy.value.maxDailyLoss)
  {
    hide Inv, Append, ResultsOn, UtcDayStart, Total;
    SettleStakeKeepsInv(a, id, a.orders[id].acceptedStake.value, payout, now);
    var booked := SettleStake(a, id, a.orders[id].acceptedStake.value, payout, now).value.0;
    ResultsAreOfOrders(booked, a.orders[id].account, UtcDayStart(now));
    if ActivePolicy(a.control).Some? {
      PolicyIsPositive(a);
    }
  }

  lemma SettlingExactly(a: Tables, id: nat, answer: OperatorOrder, now: int)
    requires Inv(a) && InTables(a, id) && a.orders[id].status == Accepted
    ensures a.orders[id].acceptedStake.Some?
    ensures
      var outcome := Settling(a, id, answer, now);
      if !PaysOut(answer) then outcome == Ok(a)
      else if CanSettle(a, id, answer) then outcome.Ok? && SettledIn(a, outcome.value, id, answer, now)
      else outcome.Err?
  {
    hide Inv, SettleStake, CloseOrder, ClosedFor, PaidFor, Ledger.Lookup, ResultsOn, UtcDayStart, Stop;
    OrderOkOf(a, id);
    if PaysOut(answer) {
      var stake, payout := a.orders[id].acceptedStake.value, answer.payout.value;
      SettlementCompletes(a, id, answer, now, a.control);
      SettlementCompletes(a, id, answer, now, Stop(a.control, "", Automatic));
      var booked := SettleStake(a, id, stake, payout, now);
      if booked.Ok? {
        LossStops(a, id, payout, now);
        assert booked.value.0.(control := a.control) == booked.value.0;
        StopIsDisabled(a.control);
        ClosingKeepsBook(booked.value.0, id, stake, payout, if answer.settledAt.Some? then answer.settledAt.value else now);
        ClosingKeepsBook(Halted(booked.value.0), id, stake, payout, if answer.settledAt.Some? then answer.settledAt.value else now);
      }
    }
  }

  lemma StopIsDisabled(control: ControlTables)
    ensures CurrentMode(Stop(control, "", Automatic)) == Disabled
  {
  }

  lemma ClosingKeepsBook(a: Tables, id: nat, stake: int, payout: int, settledAt: int)
    requires InTables(a, id)
    ensures CloseOrder(a, id, stake, payout, settledAt).book == a.book
  {
  }

  // ---- One order of the run ----

  /** Nothing was said of the order, or nothing that could be read. */
  predicate Unsaid(order: Order, readings: Readings) {
    order.key !in readings.lookups || readings.lookups[order.key].Failed?
  }

  /**
   * An order UNKNOWN the operator does not know: kept for five minutes, given back up to thirty,
   * then execution stops.
   */
  predicate AbsentAs(a: Tables, outcome: Result<Tables, LedgerError>, id: nat, readAt: int)
    requires InTables(a, id) && a.orders[id].unknownSince.Some?
  {
    var age := readAt - a.orders[id].unknownSince.value;
    if age >= 30 * 60 * 1000 then
      outcome.Ok? && outcome.value == a.(control := outcome.value.control) && StoppedIf(true, a, outcome.value)
    else if age < 5 * 60 * 1000 then outcome == Ok(a)
    else if HasRoom(a, id) then outcome.Ok? && GivenBack(a, outcome.value, id, OperatorUnavailable)
    else outcome == Err(OutOfRange)
  }

  /**
   * One it knows: given back if refused, set aside with a stop if the contract is broken, taken on
   * otherwise, and settled if it pays.
   */
  ghost predicate FoundAs(a: Tables, outcome: Result<Tables, LedgerError>, id: nat, answer: OperatorOrder, now: int)
    requires InTables(a, id)
  {
    if answer.status == OpRejected then
      if HasRoom(a, id) then outcome.Ok? && GivenBack(a, outcome.value, id, OperatorUnavailable) else outcome == Err(OutOfRange)
    else if !KeepsContract(a, id, answer) then
      outcome.Ok? && PutAside(a, outcome.value.(control := a.control), id, now) && StoppedIf(true, a, outcome.value)
    else if a.book.accounts[a.orders[id].account].balances.available
            + a.orders[id].requestedStake - answer.acceptedStake.value > MAX_COLUMN_CENTS then outcome == Err(OutOfRange)
    else
      exists taken: Tables ::
        && TakenOn(a, taken, id, answer) && InTables(taken, id)
        && if !PaysOut(answer) then outcome == Ok(taken)
           else if CanSettle(taken, id, answer) then outcome.Ok? && SettledIn(taken, outcome.value, id, answer, now)
           else outcome.Err?
  }

  function TablesOf(outcome: Result<(Tables, seq<Draft>), LedgerError>): Result<Tables, LedgerError> {
    match outcome
    case Ok((tables, _)) => Ok(tables)
    case Err(e) => Err(e)
  }

  lemma GivenBackOrAside(a: Tables, id: nat, readings: Readings)
    requires Inv(a) && InTables(a, id) && a.orders[id].status == Unknown
    requires a.orders[id].key in readings.lookups && readings.lookups[a.orders[id].key].FoundAs?
    requires
      var answer := readings.lookups[a.orders[id].key].order;
      answer.status == OpRejected || !KeepsContract(a, id, answer)
    ensures FoundAs(a, TablesOf(ResolveRow(a, id, readings)), id, readings.lookups[a.orders[id].key].order, readings.now)
  {
    hide Inv, ResolveUnknown, Settling, GivenBack, PutAside, KeepsContract, TakenOn, HasRoom, Item, Stop;
    var answer := readings.lookups[a.orders[id].key].order;
    FoundIsDecided(a, id, answer, readings.at, readings.now);
    StopsFor(a, id, answer, readings.at, readings.now);
    HadRoom(a, id);
    StopIsDisabled(a.control);
    var resolved := ResolveUnknown(a, id, Some(answer), readings.at, readings.now);
    if resolved.Ok? {
      assert resolved.value.0.(control := a.control) == resolved.value.0;
    }
  }

  lemma TakenExactly(a: Tables, id: nat, readings: Readings)
    requires Inv(a) && InTables(a, id) && a.orders[id].status == Unknown
    requires a.orders[id].key in readings.lookups && readings.lookups[a.orders[id].key].FoundAs?
    requires
      var answer := readings.lookups[a.orders[id].key].order;
      answer.status != OpRejected && KeepsContract(a, id, answer)
    ensures FoundAs(a, TablesOf(ResolveRow(a, id, readings)), id, readings.lookups[a.orders[id].key].order, readings.now)
  {
    hide Inv, ResolveUnknown, Settling, TakenOn, SettledIn, CanSettle, Item, Stop, KeepsContract;
    var answer := readings.lookups[a.orders[id].key].order;
    ContractTerms(a, id, answer);
    FoundIsDecided(a, id, answer, readings.at, readings.now);
    StopsFor(a, id, answer, readings.at, readings.now);
    var resolved := ResolveUnknown(a, id, Some(answer), readings.at, readings.now);
    if resolved.Ok? {
      var taken := resolved.value.0;
      ResolveKeepsInv(a, id, Some(answer), readings.at, readings.now);
      StillThere(a, taken, id);
      TakenIsAccepted(a, taken, id, answer);
      SettlingExactly(taken, id, answer, readings.now);
    }
  }

  lemma ContractTerms(a: Tables, id: nat, answer: OperatorOrder)
    requires id < |a.orders| && KeepsContract(a, id, answer)
    ensures answer.acceptedStake.Some? && answer.receiptHash.Some?
  {
  }

  lemma HadRoom(a: Tables, id: nat)
    requires InTables(a, id)
    ensures HasRoom(a, id) <==>
      a.book.accounts[a.orders[id].account].balances.available + a.orders[id].requestedStake <= MAX_COLUMN_CENTS
  {
  }

  lemma StopsFor(a: Tables, id: nat, answer: OperatorOrder, readAt: int, now: int)
    requires Inv(a) && InTables(a, id) && a.orders[id].status == Unknown
    ensures ResolveUnknown(a, id, Some(answer), readAt, now).Ok? ==>
      var (after, resolution, stop) := ResolveUnknown(a, id, Some(answer), readAt, now).value;
      && (stop.Some? <==> resolution == NeedsReconciliation)
      && after.control == a.control
  {
    AnswerLeavesControl(a, id, PlaceUnknown, Some(answer), readAt, now);
  }

  lemma StillThere(a: Tables, b: Tables, id: nat)
    requires Inv(a) && Inv(b) && TablesEvolve(a, b) && InTables(a, id)
    ensures InTables(b, id)
  {
    StillInTables(b, id);
  }

  lemma TakenIsAccepted(a: Tables, taken: Tables, id: nat, answer: OperatorOrder)
    requires InTables(a, id) && answer.acceptedStake.Some? && answer.receiptHash.Some? && TakenOn(a, taken, id, answer)
    ensures id < |taken.orders| && taken.orders[id].status == Accepted
  {
  }

  lemma AbsentExactly(a: Tables, id: nat, readings: Readings)
    requires Inv(a) && InTables(a, id) && a.orders[id].status == Unknown
    requires a.orders[id].key in readings.lookups && readings.lookups[a.orders[id].key].Absent?
    ensures a.orders[id].unknownSince.Some?
    ensures AbsentAs(a, TablesOf(ResolveRow(a, id, readings)), id, readings.at)
  {
    hide Inv, Settling, GivenBack, Cancel, Item, HasRoom, Stop;
    OrderOkOf(a, id);
    CancelGivesBack(a, id, {Unknown}, OperatorUnavailable, readings.now);
    StopIsDisabled(a.control);
  }

  /**
   * What the run does with one order: nothing without a readable answer; an order UNKNOWN is
   * resolved by what the operator knows of it, an ACCEPTED one settled if the operator pays;
   * every other is left as it is.
   */
  lemma ResolvedExactly(a: Tables, id: nat, readings: Readings)
    requires Inv(a) && InTables(a, id)
    ensures
      var order, outcome := a.orders[id], TablesOf(ResolveRow(a, id, readings));
      if Unsaid(order, readings) then outcome == Ok(a)
      else
        var said := readings.lookups[order.key];
        if order.status == Unknown then
          if said.Absent? then order.unknownSince.Some? && AbsentAs(a, outcome, id, readings.at)
          else FoundAs(a, outcome, id, said.order, readings.now)
        else if order.status == Accepted && said.FoundAs? && PaysOut(said.order) then
          && order.acceptedStake.Some?
          && if CanSettle(a, id, said.order) then outcome.Ok? && SettledIn(a, outcome.value, id, said.order, readings.now)
             else outcome.Err?
        else outcome == Ok(a)
  {
    hide Inv, ResolveUnknown, Settling, AbsentAs, FoundAs, SettledIn, CanSettle, Item;
    var order := a.orders[id];
    if !Unsaid(order, readings) {
      var said := readings.lookups[order.key];
      if order.status == Unknown {
        if said.Absent? {
          AbsentExactly(a, id, readings);
        } else {
          if said.order.status == OpRejected || !KeepsContract(a, id, said.order) {
            GivenBackOrAside(a, id, readings);
          } else {
            TakenExactly(a, id, readings);
          }
        }
      } else if order.status == Accepted && said.FoundAs? {
        SettlingExactly(a, id, said.order, readings.now);
      }
    }
  }

  // ---- All orders of the run ----

  /** As far as the operator's answer goes, nothing is left to do about the order. */
  predicate DealtWith(tables: Tables, id: nat, readings: Readings) {
    && id < |tables.orders|
    && var order := tables.orders[id];
    || Unsaid(order, readings)
    || (&& (order.status == Unknown ==>
              && readings.lookups[order.key].Absent? && order.unknownSince.Some?
              && !(5 * 60 * 1000 <= readings.at - order.unknownSince.value < 30 * 60 * 1000))
        && (order.status == Accepted ==>
              !(readings.lookups[order.key].FoundAs? && PaysOut(readings.lookups[order.key].order))))
  }

  lemma RowDealtWith(a: Tables, id: nat, readings: Readings)
    requires Inv(a) && InTables(a, id) && ResolveRow(a, id, readings).Ok?
    ensures DealtWith(ResolveRow(a, id, readings).value.0, id, readings)
  {
    hide Inv, ResolveRow, CanSettle, KeepsContract, HasRoom, Moves, PaidFor, StoppedIf, UtcDayStart, ResultsOn;
    ResolvedExactly(a, id, readings);
    ResolveRowKeepsInv(a, id, readings);
    var after := ResolveRow(a, id, readings).value.0;
    assert Evolves(a.orders[id], after.orders[id]);
  }

  /** After the loop, every order of the run that got an answer is dealt with. */
  lemma {:induction false} EveryRowDealtWith(a: Tables, rows: seq<nat>, readings: Readings)
    requires Inv(a) && AreOrders(rows, a.orders) && ResolveRows(a, rows, readings).Ok?
    ensures forall r | 0 <= r < |rows| :: DealtWith(ResolveRows(a, rows, readings).value.0, rows[r], readings)
  {
    hide Inv, TablesEvolve, ResolveRow, DealtWith;
    if rows != [] {
      var init, id := rows[..|rows| - 1], rows[|rows| - 1];
      EveryRowDealtWith(a, init, readings);
      ResolveRowsKeepInv(a, init, readings);
      ResolveRowsAlert(a, init, readings);
      var done := ResolveRows(a, init, readings).value.0;
      StillInTables(done, id);
      RowDealtWith(done, id, readings);
      ResolveRowAlerts(done, id, readings);
      var after := ResolveRow(done, id, readings).value.0;
      forall r | 0 <= r < |rows|
        ensures DealtWith(after, rows[r], readings)
      {
        if rows[r] != id {
          assert rows[r] == init[r];
          SameOrderDealtWith(done, after, rows[r], readings);
        }
      }
    }
  }

  lemma SameOrderDealtWith(a: Tables, b: Tables, id: nat, readings: Readings)
    requires DealtWith(a, id, readings) && id < |b.orders| && b.orders[id] == a.orders[id]
    ensures DealtWith(b, id, readings)
  {
  }

  // ---- The start of the run ----

  function StakesAmong(orders: seq<Order>, rows: seq<nat>, account: nat): int
    requires AreOrders(rows, orders)
  {
    if rows == [] then 0
    else
      var last := orders[rows[|rows| - 1]];
      StakesAmong(orders, rows[..|rows| - 1], account) + if last.account == account then last.requestedStake else 0
  }

  /** Rejected as never submitted, with its decision. */
  predicate WrittenOff(tables: Tables, id: nat) {
    && InTables(tables, id)
    && tables.orders[id].status == Rejected && tables.orders[id].rejectionCode == Some(OperatorUnavailable)
    && tables.decisions[tables.orders[id].decision].status == DecisionRejected
  }

  /** These orders written off and no other touched, every stake back on its account in an entry of its own. */
  predicate AllWrittenOff(a: Tables, b: Tables, rows: seq<nat>)
    requires AreOrders(rows, a.orders)
  {
    && |b.orders| == |a.orders| && |b.book.accounts| == |a.book.accounts|
    && b.control == a.control && b.receipts == a.receipts
    && (forall r | 0 <= r < |rows| :: WrittenOff(b, rows[r]))
    && (forall i: nat | i < |a.orders| && i !in rows :: b.orders[i] == a.orders[i])
    && |b.book.entries| == |a.book.entries| + |rows|
    && forall n | 0 <= n < |a.book.accounts| ::
      && b.book.accounts[n].balances.available == a.book.accounts[n].balances.available + StakesAmong(a.orders, rows, n)
      && b.book.accounts[n].balances.reserved == a.book.accounts[n].balances.reserved - StakesAmong(a.orders, rows, n)
  }

  lemma GivenBackIsWrittenOff(a: Tables, done: Tables, b: Tables, rows: seq<nat>)
    requires AreOrders(rows, a.orders) && rows != [] && Ascending(rows)
    requires AllWrittenOff(a, done, rows[..|rows| - 1]) && InTables(done, rows[|rows| - 1])
    requires InTables(b, rows[|rows| - 1]) && b.orders[rows[|rows| - 1]].decision == done.orders[rows[|rows| - 1]].decision
    requires GivenBack(done, b, rows[|rows| - 1], OperatorUnavailable)
    ensures AllWrittenOff(a, b, rows)
  {
    var init, id := rows[..|rows| - 1], rows[|rows| - 1];
    assert rows == init + [id];
    assert id !in init;
    forall r | 0 <= r < |rows|
      ensures WrittenOff(b, rows[r])
    {
      if r < |init| {
        assert WrittenOff(done, init[r]) && rows[r] == init[r];
      }
    }
  }

  lemma {:induction false} EachWrittenOff(a: Tables, rows: seq<nat>, now: int)
    requires Inv(a) && RowsStored(a, rows) && AreOrders(rows, a.orders) && Ascending(rows)
    requires forall r | 0 <= r < |rows| :: a.orders[rows[r]].status == Reserved
    requires CancelEach(a, rows, now).Ok?
    ensures AllWrittenOff(a, CancelEach(a, rows, now).value, rows)
  {
    hide Inv, TablesEvolve, GivenBack, AllWrittenOff, Cancel, HasRoom, InTables;
    if rows == [] {
      NoneWrittenOff(a);
    } else {
      var init, id := rows[..|rows| - 1], rows[|rows| - 1];
      EachWrittenOff(a, init, now);
      CancelEachKeepsInv(a, init, now);
      var done, after := CancelEach(a, init, now).value, CancelEach(a, rows, now).value;
      assert InTables(a, id);
      NotYetTouched(a, done, rows);
      CancelGivesBack(done, id, {Reserved}, OperatorUnavailable, now);
      CancelKeepsInv(done, id, {Reserved}, OperatorUnavailable, now);
      StillThere(done, after, id);
      SameDecision(done, after, id);
      GivenBackIsWrittenOff(a, done, after, rows);
    }
  }

  lemma NoneWrittenOff(a: Tables)
    ensures AllWrittenOff(a, a, [])
  {
  }

  lemma NotYetTouched(a: Tables, done: Tables, rows: seq<nat>)
    requires Inv(done) && AreOrders(rows, a.orders) && rows != [] && Ascending(rows)
    requires AllWrittenOff(a, done, rows[..|rows| - 1])
    ensures InTables(done, rows[|rows| - 1]) && done.orders[rows[|rows| - 1]] == a.orders[rows[|rows| - 1]]
  {
    StillInTables(done, rows[|rows| - 1]);
    assert rows[|rows| - 1] !in rows[..|rows| - 1];
  }

  lemma SameDecision(a: Tables, b: Tables, id: nat)
    requires TablesEvolve(a, b) && id < |a.orders|
    ensures id < |b.orders| && b.orders[id].decision == a.orders[id].decision
  {
    assert Evolves(a.orders[id], b.orders[id]);
  }

  /** A batch writes off exactly the reservations it names, and gives every stake back. */
  lemma BatchWritesOff(a: Tables, ids: set<nat>, now: int)
    requires Inv(a)
    ensures forall id | id in ids && id < |a.orders| :: InTables(a, id)
    ensures CancelAbandoned(a, ids, now).Ok? ==>
      var (b, rows) := CancelAbandoned(a, ids, now).value;
      && AreOrders(rows, a.orders) && AllWrittenOff(a, b, rows)
      && forall i: nat | i < |a.orders| :: i in rows <==> i in ids && a.orders[i].status == Reserved
  {
    hide Inv, CancelEach, AllWrittenOff;
    AllInTables(a);
    if CancelAbandoned(a, ids, now).Ok? {
      BatchIsOneByOne(a, ids, now);
      var rows := ReservedAmong(a.orders, ids);
      EachWrittenOff(a, rows, now);
    }
  }

  /** Submitted more than a minute ago and not heard of since. */
  predicate IsInterrupted(order: Order, readAt: int) {
    order.status == Submitting && order.submittedAt.Some? && readAt - order.submittedAt.value > 60 * 1000
  }

  /**
   * A run that completes has swept every stale submission, written off every abandoned
   * reservation and dealt with every order that got an answer.
   */
  lemma RunDealsWithAll(a: Tables, abandoned: set<nat>, rows: seq<nat>, readings: Readings)
    requires Inv(a) && AreOrders(rows, a.orders) && RunWrites(a, abandoned, rows, readings).Ok?
    ensures
      var b := RunWrites(a, abandoned, rows, readings).value;
      && |a.orders| <= |b.orders|
      && (forall r | 0 <= r < |rows| :: DealtWith(b, rows[r], readings))
      && (forall i | 0 <= i < |a.orders| && IsInterrupted(a.orders[i], readings.at) :: b.orders[i].status != Submitting)
      && (forall i: nat | i in abandoned && i < |a.orders| && a.orders[i].status == Reserved :: b.orders[i].status == Rejected)
  {
    hide Inv, TablesEvolve, ResolveRows, DealtWith, AllWrittenOff, CancelAbandoned, RecoverStale;
    var swept := RecoverStale(a, readings.at);
    RecoverStaleKeepsInv(a, readings.at);
    SweptIsSweep(a, readings.at);
    CancelAbandonedKeepsInv(swept, abandoned, readings.now);
    BatchWritesOff(swept, abandoned, readings.now);
    var prepared := CancelAbandoned(swept, abandoned, readings.now).value.0;
    RowsRemain(a, swept, rows);
    RowsRemain(swept, prepared, rows);
    EveryRowDealtWith(prepared, rows, readings);
    ResolveRowsKeepInv(prepared, rows, readings);
    var b := ResolveRows(prepared, rows, readings).value.0;
    Written(swept, prepared, b, CancelAbandoned(swept, abandoned, readings.now).value.1);
  }

  lemma SweptIsSweep(a: Tables, readAt: int)
    ensures var b := RecoverStale(a, readAt);
      && |b.orders| == |a.orders|
      && forall i | 0 <= i < |a.orders| ::
        && (IsInterrupted(a.orders[i], readAt) ==> b.orders[i].status == Unknown)
        && (a.orders[i].status != Submitting ==> b.orders[i] == a.orders[i])
  {
    hide RecoverStale;
    forall i | 0 <= i < |a.orders|
      ensures |RecoverStale(a, readAt).orders| == |a.orders|
      ensures IsInterrupted(a.orders[i], readAt) ==> RecoverStale(a, readAt).orders[i].status == Unknown
      ensures a.orders[i].status != Submitting ==> RecoverStale(a, readAt).orders[i] == a.orders[i]
    {
      SweptExactly(a, readAt, i);
    }
    SweptLength(a, readAt);
  }

  lemma SweptLength(a: Tables, readAt: int)
    ensures |RecoverStale(a, readAt).orders| == |a.orders|
  {
  }

  lemma RowsRemain(a: Tables, b: Tables, rows: seq<nat>)
    requires TablesEvolve(a, b) && AreOrders(rows, a.orders)
    ensures AreOrders(rows, b.orders) && |a.orders| <= |b.orders|
  {
  }

  /** Orders written off stay so, and those no longer submitting too. */
  lemma Written(swept: Tables, prepared: Tables, b: Tables, rows: seq<nat>)
    requires TablesEvolve(swept, prepared) && TablesEvolve(prepared, b)
    requires AreOrders(rows, swept.orders) && AllWrittenOff(swept, prepared, rows)
    ensures |swept.orders| <= |b.orders|
    ensures forall i | 0 <= i < |swept.orders| :: swept.orders[i].status == Unknown ==> b.orders[i].status != Submitting
    ensures forall i: nat | i in rows :: i < |b.orders| && b.orders[i].status == Rejected
  {
    forall i | 0 <= i < |swept.orders|
      ensures swept.orders[i].status == Unknown ==> b.orders[i].status != Submitting
      ensures prepared.orders[i].status == Rejected ==> b.orders[i].status == Rejected
    {
      assert Evolves(swept.orders[i], prepared.orders[i]) && Evolves(prepared.orders[i], b.orders[i]);
    }
  }
}
