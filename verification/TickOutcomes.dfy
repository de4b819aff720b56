/**
 * What a tick of a simulation does to each row and to each signal: which orders are executed
 * and at which quote, which are completed and with which outcome, which new rows appear and
 * why, and what each of these does to the bankroll.
 */
module TickOutcomes {
  import opened Wrappers
  import opened Risk
  import opened Quotes
  import opened Sorting
  import opened Simulation
  import opened PlannerProofs
  import opened SimulationRun
  import Money

  // ---- Rows already in the journal ----

  /** The freshest loaded quote of the provider and bookmaker the order was decided on, when its latency has passed. */
  ghost predicate ExecutesAt(row: Row, candidates: seq<Quote>, input: TickInput, answer: Option<Quote>)
    requires row.dueAt.Some?
  {
    IsFreshest(candidates, input.rank,
               row.target.(providerKey := if row.quote.Some? then Some(row.quote.value.providerKey) else None,
                           bookmakerKey := if row.quote.Some? then Some(row.quote.value.bookmakerKey) else None),
               row.dueAt.value, input.maxQuoteAge, answer)
  }

  predicate IsDue(row: Row, now: int) {
    row.status == RowReserved && row.executableOdd.None? && row.dueAt.Some? && row.dueAt.value <= now
  }

  /** The order executed at an odd, or rejected because no quote was left or it had moved below the minimum. */
  predicate ExecutedAs(row: Row, after: Row, answer: Option<Quote>) {
    match answer
    case None => after == row.(status := RowRejected, code := Some(NoExecutableOdd))
    case Some(quote) =>
      if quote.odd < row.minOdd
      then after == row.(executableOdd := Some(quote.odd), status := RowRejected, code := Some(OddMoved))
      else after == row.(executableOdd := Some(quote.odd))
  }

  /** What the match came to by the tick: the resolver's outcome, or none after a day without one. */
  function KnownOutcome(row: Row, input: TickInput): Option<Outcome> {
    if input.resolve(row).Some? then input.resolve(row)
    else if input.now - row.decidedAt >= 24 * 60 * 60 * 1000 then Some(NoResult)
    else None
  }

  /**
   * Completed with that outcome: a win pays its odd to the nearest cent, a loss costs the stake,
   * anything else nothing.
   */
  predicate CompletedAs(row: Row, after: Row, outcome: Outcome)
    requires row.stake.Some? && row.executableOdd.Some?
  {
    && after == row.(status := RowCompleted, outcome := Some(outcome), profit := after.profit)
    && after.profit.Some?
    && match outcome
       case Won =>
         -500 < 1000 * after.profit.value - row.stake.value * (row.executableOdd.value - 1000) <= 500
       case Lost => after.profit.value == -row.stake.value
       case Void => after.profit.value == 0
       case NoResult => after.profit.value == 0
  }

  /** An order already executed is completed exactly when its outcome is known. */
  predicate SettledAs(row: Row, after: Row, input: TickInput)
    requires row.stake.Some? && row.executableOdd.Some?
  {
    match KnownOutcome(row, input)
    case Some(outcome) => CompletedAs(row, after, outcome)
    case None => after == row
  }

  /**
   * A tick executes the orders that are due, then completes the executed ones whose outcome is
   * known; no other row changes.
   */
  ghost predicate RowAfterTick(row: Row, after: Row, candidates: seq<Quote>, input: TickInput) {
    if row.status != RowReserved || row.stake.None? then after == row
    else if row.executableOdd.Some? then SettledAs(row, after, input)
    else if !IsDue(row, input.now) then after == row
    else
      exists answer, executed ::
        && ExecutesAt(row, candidates, input, answer)
        && ExecutedAs(row, executed, answer)
        && if executed.status != RowReserved then after == executed else SettledAs(executed, after, input)
  }

  lemma SettlementExactly(row: Row, input: TickInput)
    requires RowOk(row) && row.status == RowReserved && row.executableOdd.Some?
    ensures row.stake.Some?
    ensures
      var settlement := PlanSettlement(row, input.resolve(row), input.now);
      SettledAs(row, if settlement.Some? then settlement.value else row, input)
  {
    hide Money.WinningProfit;
    Money.WinningProfitIsNearest(row.stake.value, row.executableOdd.value);
  }

  lemma AdvancedExactly(row: Row, candidates: seq<Quote>, input: TickInput)
    requires RowOk(row)
    ensures
      var select := Selector(candidates, input.maxQuoteAge, input.rank);
      RowAfterTick(row, Advance(row, select, input.resolve, input.now), candidates, input)
  {
    hide PlanSettlement, SettledAs, IsFreshest, SelectLatest;
    var select := Selector(candidates, input.maxQuoteAge, input.rank);
    var executed := Executed(row, select, input.now);
    var after := Advance(row, select, input.resolve, input.now);
    if row.status == RowReserved && row.stake.Some? {
      if row.executableOdd.Some? {
        SettlementExactly(row, input);
      } else if IsDue(row, input.now) {
        var target := row.target.(
          providerKey := if row.quote.Some? then Some(row.quote.value.providerKey) else None,
          bookmakerKey := if row.quote.Some? then Some(row.quote.value.bookmakerKey) else None);
        SelectsFreshest(candidates, QuoteQuery(target, row.dueAt.value, input.maxQuoteAge), input.rank);
        var answer := select(target, row.dueAt.value);
        assert ExecutesAt(row, candidates, input, answer) && ExecutedAs(row, executed, answer);
        NotReservedStays(executed, input);
        if executed.status == RowReserved {
          ExecutedOk(row, executed, answer, candidates, target, input);
          SettlementExactly(executed, input);
        }
      } else {
        NotExecutedStays(row, input);
      }
    }
  }

  lemma NotReservedStays(row: Row, input: TickInput)
    ensures row.status != RowReserved ==> PlanSettlement(row, input.resolve(row), input.now).None?
  {
  }

  lemma NotExecutedStays(row: Row, input: TickInput)
    ensures row.executableOdd.None? ==> PlanSettlement(row, input.resolve(row), input.now).None?
  {
  }

  lemma ExecutedOk(row: Row, executed: Row, answer: Option<Quote>, candidates: seq<Quote>, target: Target, input: TickInput)
    requires RowOk(row) && IsDue(row, input.now) && ExecutedAs(row, executed, answer) && executed.status == RowReserved
    requires IsFreshest(candidates, input.rank, target, row.dueAt.value, input.maxQuoteAge, answer)
    ensures RowOk(executed) && executed.executableOdd.Some?
  {
  }

  /** The rows a tick finds are advanced one by one, whatever it then decides. */
  lemma TickAdvancesExactly(journal: seq<Row>, initial: int, input: TickInput, i: nat)
    requires JournalInv(journal, initial, input.risk) && i < |journal|
    ensures
      var after := Tick(journal, initial, input);
      && |journal| <= |after|
      && RowAfterTick(journal[i], after[i], LoadCandidates(input.snapshots, WindowOf(journal, input), input.rank), input)
  {
    hide RowAfterTick, Advance, JournalInv, Planned, LoadCandidates, WindowOf;
    TickKeepsInv(journal, initial, input);
    RowsAreOk(journal, initial, input.risk);
    AdvancedExactly(journal[i], LoadCandidates(input.snapshots, WindowOf(journal, input), input.rank), input);
  }

  lemma RowsAreOk(journal: seq<Row>, initial: int, risk: RiskSnapshot)
    requires JournalInv(journal, initial, risk)
    ensures forall i | 0 <= i < |journal| :: RowOk(journal[i])
  {
  }

  // ---- New rows ----

  predicate IsWanted(signal: Signal, strategy: Strategy) {
    && signal.market in strategy.markets
    && strategy.minEdge <= signal.edge
    && (0.0 < strategy.minConfidence ==> signal.confidence.Some? && strategy.minConfidence <= signal.confidence.value)
  }

  /** The whole number nearest to it, halves up. */
  predicate IsNearest(n: int, x: real) {
    -0.5 < n as real - x <= 0.5
  }

  /** A flat amount in cents, or a share of what is available in hundredths of a percent, rounded down. */
  ghost predicate IsAsked(asked: int, staking: Staking, available: int) {
    match staking
    case Flat(amount) => IsNearest(asked, 100.0 * amount)
    case Percent(amount) =>
      exists points ::
        IsNearest(points, 100.0 * amount) && 10000 * asked <= available * points < 10000 * asked + 10000
  }

  /** The least of what is asked, what is available, the limit per bet and the exposure left. */
  ghost predicate IsStake(stake: int, strategy: Strategy, risk: RiskSnapshot, bankroll: Bankroll) {
    exists asked ::
      && IsAsked(asked, strategy.staking, bankroll.available)
      && stake <= asked && stake <= bankroll.available
      && (risk.maxStakePerBet.Some? ==> stake <= risk.maxStakePerBet.value)
      && (risk.maxOpenExposure.Some? ==> bankroll.open + stake <= risk.maxOpenExposure.value)
      && (|| stake == asked
          || stake == bankroll.available
          || Some(stake) == risk.maxStakePerBet
          || Some(bankroll.open + stake) == risk.maxOpenExposure)
  }

  /** The freshest loaded quote for the signal now, at the run's bookmaker if it is tied to one. */
  ghost predicate IsQuoted(signal: Signal, candidates: seq<Quote>, input: TickInput, quote: Option<Quote>) {
    IsFreshest(
      candidates, input.rank,
      signal.quoteTarget.(
        bookmakerKey := if input.risk.bookmakerKey.Some? then input.risk.bookmakerKey else signal.quoteTarget.bookmakerKey),
      input.now, input.maxQuoteAge, quote)
  }

  /** Why the signal is refused, if it is: no quote, one below its minimum, or no stake left. */
  ghost predicate IsDecision(code: Option<RejectionCode>, signal: Signal, quote: Option<Quote>, stake: int) {
    if quote.None? then code == Some(NoExecutableOdd)
    else if quote.value.odd < signal.minOdd then code == Some(BelowMinOdd)
    else code == if stake > 0 then None else Some(LimitExceeded)
  }

  /**
   * A new row says what was decided about its signal at this bankroll: an order due after the
   * latency, or the refusal.
   */
  ghost predicate DecidedRow(row: Row, signal: Signal, candidates: seq<Quote>, bankroll: Bankroll, input: TickInput) {
    && (row.signal, row.fixtureId, row.target, row.minOdd) == (signal.key, signal.fixtureId, signal.quoteTarget, signal.minOdd)
    && row.decidedAt == input.now && row.executableOdd.None? && row.outcome.None? && row.profit.None?
    && IsQuoted(signal, candidates, input, row.quote)
    && exists stake ::
      && IsStake(stake, input.strategy, input.risk, bankroll)
      && IsDecision(row.code, signal, row.quote, stake)
      && match row.code
         case None =>
           && row.kind.OrderKind? && row.status == RowReserved && row.stake == Some(stake)
           && row.dueAt == Some(input.now + input.risk.latency)
         case Some(code) => row.kind == RejectedKind(code) && row.status == RowRejected && row.stake.None? && row.dueAt.None?
  }

  lemma RoundIsNearest(x: real)
    ensures IsNearest(Round(x), x)
  {
  }

  lemma RequestedIsAsked(strategy: Strategy, available: int)
    ensures IsAsked(RequestedStake(strategy, available), strategy.staking, available)
  {
    hide Round;
    RoundIsNearest(strategy.staking.amount * 100.0);
    var points := Round(strategy.staking.amount * 100.0);
    var share := available * points;
    assert 10000 * (share / 10000) <= share < 10000 * (share / 10000) + 10000;
  }

  lemma StakeIsLeast(strategy: Strategy, risk: RiskSnapshot, bankroll: Bankroll)
    ensures IsStake(StakeFor(strategy, risk, bankroll), strategy, risk, bankroll)
  {
    hide RequestedStake, IsAsked;
    RequestedIsAsked(strategy, bankroll.available);
  }

  /** What the planner of a tick plans with. */
  function PlannerInput(candidates: seq<Quote>, existing: seq<Row>, input: TickInput): PlanInput {
    PlanInput(input.strategy, input.risk, existing, Selector(candidates, input.maxQuoteAge, input.rank), input.now)
  }

  lemma QuoteForIsQuoted(signal: Signal, candidates: seq<Quote>, existing: seq<Row>, input: TickInput)
    ensures IsQuoted(signal, candidates, input, QuoteFor(signal, PlannerInput(candidates, existing, input)))
  {
    hide IsFreshest, SelectLatest;
    var target := signal.quoteTarget.(
      bookmakerKey := if input.risk.bookmakerKey.Some? then input.risk.bookmakerKey else signal.quoteTarget.bookmakerKey);
    assert target == if input.risk.bookmakerKey.Some?
      then signal.quoteTarget.(bookmakerKey := input.risk.bookmakerKey) else signal.quoteTarget;
    SelectsFreshest(candidates, QuoteQuery(target, input.now, input.maxQuoteAge), input.rank);
  }

  lemma PlanOneDecided(state: PlanState, signal: Signal, candidates: seq<Quote>, existing: seq<Row>, input: TickInput)
    ensures var next := PlanOne(state, signal, PlannerInput(candidates, existing, input));
      next.rows == state.rows
      || (&& signal.key !in state.decided && !HasActive(History(existing, signal.key))
          && next.rows == state.rows + [next.rows[|state.rows|]]
          && DecidedRow(next.rows[|state.rows|], signal, candidates, state.bankroll, input))
  {
    hide StakeFor, IsStake, IsQuoted, QuoteFor, HasActive, History, Attempts;
    var planInput := PlannerInput(candidates, existing, input);
    QuoteForIsQuoted(signal, candidates, existing, input);
    StakeIsLeast(input.strategy, input.risk, state.bankroll);
    var stake := StakeFor(input.strategy, input.risk, state.bankroll);
    var next := PlanOne(state, signal, planInput);
    if next.rows != state.rows {
      var row := next.rows[|state.rows|];
      assert row.quote == if QuoteFor(signal, planInput).None? then None else QuoteFor(signal, planInput);
      assert IsDecision(row.code, signal, row.quote, stake);
    }
  }

  /** The row was decided about one of the signals, one with no active row, on the bankroll the rows before it leave. */
  ghost predicate RowDecided(rows: seq<Row>, r: nat, signals: seq<Signal>, advanced: seq<Row>, initial: int,
                             candidates: seq<Quote>, existing: seq<Row>, input: TickInput)
    requires r < |rows|
  {
    exists i | 0 <= i < |signals| ::
      && !HasActive(History(existing, signals[i].key))
      && DecidedRow(rows[r], signals[i], candidates, JournalBankroll(initial, advanced + rows[..r]), input)
  }

  lemma RowDecidedStays(rows: seq<Row>, r: nat, signals: seq<Signal>, advanced: seq<Row>, initial: int,
                        candidates: seq<Quote>, existing: seq<Row>, input: TickInput, moreRows: seq<Row>, moreSignals: seq<Signal>)
    requires r < |rows| && RowDecided(rows, r, signals, advanced, initial, candidates, existing, input)
    ensures RowDecided(rows + moreRows, r, signals + moreSignals, advanced, initial, candidates, existing, input)
  {
    hide DecidedRow, HasActive, JournalBankroll;
    var i :| 0 <= i < |signals| && !HasActive(History(existing, signals[i].key))
      && DecidedRow(rows[r], signals[i], candidates, JournalBankroll(initial, advanced + rows[..r]), input);
    assert (rows + moreRows)[..r] == rows[..r];
    assert (signals + moreSignals)[i] == signals[i];
  }

  lemma {:induction false} PlanEachDecided(signals: seq<Signal>, advanced: seq<Row>, initial: int, candidates: seq<Quote>,
                                           existing: seq<Row>, input: TickInput)
    ensures
      var start := Start(JournalBankroll(initial, advanced), existing);
      var rows := PlanEach(start, signals, PlannerInput(candidates, existing, input)).rows;
      forall r | 0 <= r < |rows| :: RowDecided(rows, r, signals, advanced, initial, candidates, existing, input)
  {
    hide PlanOne, RowDecided, JournalBankroll;
    if signals != [] {
      var init, last := signals[..|signals| - 1], signals[|signals| - 1];
      assert signals == init + [last];
      var planInput, start := PlannerInput(candidates, existing, input), Start(JournalBankroll(initial, advanced), existing);
      var before, after := PlanEach(start, init, planInput), PlanEach(start, signals, planInput);
      PlanEachDecided(init, advanced, initial, candidates, existing, input);
      assert advanced + [] == advanced;
      PlanEachDrawsDown(start, init, planInput, initial, advanced);
      PlanOneDecided(before, last, candidates, existing, input);
      var more := if after.rows == before.rows then [] else [after.rows[|before.rows|]];
      assert after.rows == before.rows + more;
      forall r | 0 <= r < |after.rows|
        ensures RowDecided(after.rows, r, signals, advanced, initial, candidates, existing, input)
      {
        if r < |before.rows| {
          RowDecidedStays(before.rows, r, init, advanced, initial, candidates, existing, input, more, [last]);
        } else {
          assert after.rows[..r] == before.rows;
          LastDecided(after.rows, signals, advanced, initial, candidates, existing, input);
        }
      }
    }
  }

  lemma LastDecided(rows: seq<Row>, signals: seq<Signal>, advanced: seq<Row>, initial: int, candidates: seq<Quote>,
                    existing: seq<Row>, input: TickInput)
    requires rows != [] && signals != []
    requires !HasActive(History(existing, signals[|signals| - 1].key))
    requires DecidedRow(rows[|rows| - 1], signals[|signals| - 1], candidates,
                        JournalBankroll(initial, advanced + rows[..|rows| - 1]), input)
    ensures RowDecided(rows, |rows| - 1, signals, advanced, initial, candidates, existing, input)
  {
    hide DecidedRow, HasActive, JournalBankroll;
  }

  lemma {:induction false} HistoryActive(rows: seq<Row>, key: nat)
    ensures HasActive(History(rows, key)) <==> exists k | 0 <= k < |rows| :: rows[k].signal == key && IsActive(rows[k])
  {
    if rows != [] {
      var init, last := rows[..|rows| - 1], rows[|rows| - 1];
      HistoryActive(init, key);
      var earlier := History(init, key);
      assert forall k | 0 <= k < |init| :: init[k] == rows[k];
      assert HasActive(earlier + [last]) <==> HasActive(earlier) || IsActive(last) by {
        assert (earlier + [last])[|earlier|] == last;
        assert forall k | 0 <= k < |earlier| :: (earlier + [last])[k] == earlier[k];
      }
    }
  }

  /** Every order ever placed on the signal was rejected. */
  predicate NoneActive(journal: seq<Row>, key: nat) {
    forall k | 0 <= k < |journal| && journal[k].signal == key :: journal[k].status == RowRejected
  }

  lemma {:induction false} ConsideredIsWanted(strategy: Strategy, signals: seq<Signal>, signal: Signal)
    ensures signal in Considered(strategy, signals) <==> signal in signals && IsWanted(signal, strategy)
  {
    EligibleCount(strategy, signals, signal);
    assert signal in Considered(strategy, signals) <==> signal in multiset(Considered(strategy, signals));
    assert signal in EligibleOf(strategy, signals) <==> signal in multiset(EligibleOf(strategy, signals));
    assert signal in signals <==> signal in multiset(signals);
  }

  lemma PlannedIsPlanEach(journal: seq<Row>, initial: int, input: TickInput)
    ensures
      var candidates := LoadCandidates(input.snapshots, WindowOf(journal, input), input.rank);
      var advanced := Advanced(journal, TickSelector(journal, input), input.resolve, input.now);
      var existing := RowsAbout(journal, input.signals);
      Planned(journal, initial, input) ==
        PlanEach(Start(JournalBankroll(initial, advanced), existing), Considered(input.strategy, input.signals),
                 PlannerInput(candidates, existing, input))
  {
  }

  /** Each new row was decided about a wanted signal with no active row, on the bankroll the rows before it leave. */
  lemma NewRowsAreDecided(journal: seq<Row>, initial: int, input: TickInput, i: nat)
    requires JournalInv(journal, initial, input.risk) && |journal| <= i < |Tick(journal, initial, input)|
    ensures
      var after := Tick(journal, initial, input);
      exists signal | signal in input.signals && IsWanted(signal, input.strategy) && NoneActive(journal, signal.key) ::
        DecidedRow(after[i], signal, LoadCandidates(input.snapshots, WindowOf(journal, input), input.rank),
                   JournalBankroll(initial, after[..i]), input)
  {
    hide JournalInv, LoadCandidates, WindowOf, PlanEach, Considered, DecidedRow, JournalBankroll, HasActive,
      TickSelector, IsWanted;
    TickKeepsInv(journal, initial, input);
    PlannedIsPlanEach(journal, initial, input);
    var candidates := LoadCandidates(input.snapshots, WindowOf(journal, input), input.rank);
    var advanced := Advanced(journal, TickSelector(journal, input), input.resolve, input.now);
    var existing, considered := RowsAbout(journal, input.signals), Considered(input.strategy, input.signals);
    var after, rows, r := Tick(journal, initial, input), Planned(journal, initial, input).rows, i - |journal|;
    PlanEachDecided(considered, advanced, initial, candidates, existing, input);
    assert RowDecided(rows, r, considered, advanced, initial, candidates, existing, input);
    var s :| 0 <= s < |considered| && !HasActive(History(existing, considered[s].key))
      && DecidedRow(rows[r], considered[s], candidates, JournalBankroll(initial, advanced + rows[..r]), input);
    var signal := considered[s];
    ConsideredIsWanted(input.strategy, input.signals, signal);
    HistoryAbout(journal, input.signals, signal.key);
    HistoryActive(journal, signal.key);
    ActiveOrRejected(journal, signal.key);
    assert after[..i] == advanced + rows[..r];
  }

  lemma ActiveOrRejected(journal: seq<Row>, key: nat)
    ensures NoneActive(journal, key) <==> !exists k | 0 <= k < |journal| :: journal[k].signal == key && IsActive(journal[k])
  {
  }

  lemma {:induction false} PlanEachInOrder(start: PlanState, signals: seq<Signal>, input: PlanInput)
    requires start.rows == [] && start.decided == {} && start.known == KeysOf(input.existing)
    requires Sorted(signals, ByKey())
    ensures
      var rows := PlanEach(start, signals, input).rows;
      forall q, r | 0 <= q < r < |rows| :: rows[q].signal < rows[r].signal
  {
    hide KeysOf, PlanOne, NewOk;
    if signals != [] {
      var init, last := signals[..|signals| - 1], signals[|signals| - 1];
      PlanEachInOrder(start, init, input);
      PlanEachPlans(start, init, input);
      var before := PlanEach(start, init, input);
      PlanOneAdds(before, last, input);
      forall q | 0 <= q < |before.rows| && last.key !in before.decided
        ensures before.rows[q].signal < last.key
      {
        DecidedIsKey(init, before.rows[q].signal);
        var i :| 0 <= i < |init| && init[i].key == before.rows[q].signal;
        assert !ByKey()(signals[|signals| - 1], signals[i]);
      }
    }
  }

  /** The signals are taken in the order of their keys. */
  lemma NewRowsAreInOrder(journal: seq<Row>, initial: int, input: TickInput, i: nat, j: nat)
    requires JournalInv(journal, initial, input.risk) && |journal| <= i < j < |Tick(journal, initial, input)|
    ensures Tick(journal, initial, input)[i].signal < Tick(journal, initial, input)[j].signal
  {
    hide JournalInv, LoadCandidates, WindowOf, PlanEach, TickSelector;
    TickKeepsInv(journal, initial, input);
    PlannedIsPlanEach(journal, initial, input);
    SortSorts(EligibleOf(input.strategy, input.signals), ByKey());
    var candidates := LoadCandidates(input.snapshots, WindowOf(journal, input), input.rank);
    var advanced := Advanced(journal, TickSelector(journal, input), input.resolve, input.now);
    var existing := RowsAbout(journal, input.signals);
    PlanEachInOrder(Start(JournalBankroll(initial, advanced), existing), Considered(input.strategy, input.signals),
                    PlannerInput(candidates, existing, input));
  }

  /** A refusal of the signal that still stands is on record. */
  ghost predicate IsRefused(signal: Signal, candidates: seq<Quote>, rows: seq<Row>, bankroll: Bankroll, input: TickInput) {
    exists code, quote, stake, k: nat ::
      && IsQuoted(signal, candidates, input, quote)
      && IsStake(stake, input.strategy, input.risk, bankroll)
      && IsDecision(Some(code), signal, quote, stake)
      && k < |rows| && (rows[k].signal, rows[k].kind) == (signal.key, RejectedKind(code))
  }

  lemma {:induction false} FirstOfKey(signals: seq<Signal>, key: nat)
    requires key in KeysDecided(signals)
    ensures exists i | 0 <= i < |signals| && IsFirst(signals, i) :: signals[i].key == key
  {
    var init, last := signals[..|signals| - 1], signals[|signals| - 1];
    if key in KeysDecided(init) {
      FirstOfKey(init, key);
      var i :| 0 <= i < |init| && IsFirst(init, i) && init[i].key == key;
      assert signals[..i] == init[..i] && IsFirst(signals, i);
    } else {
      assert IsFirst(signals, |signals| - 1);
    }
  }

  lemma {:induction false} KeyIsDecided(signals: seq<Signal>, signal: Signal)
    requires signal in signals
    ensures signal.key in KeysDecided(signals)
  {
    var init, last := signals[..|signals| - 1], signals[|signals| - 1];
    assert signals == init + [last];
    if signal in init {
      KeyIsDecided(init, signal);
    }
  }

  /** Active before the tick, given an order in it, or refused for a reason that still stands when it ends. */
  ghost predicate IsAnswered(signal: Signal, journal: seq<Row>, after: seq<Row>, initial: int, input: TickInput)
    requires |journal| <= |after|
  {
    || !NoneActive(journal, signal.key)
    || (exists i | |journal| <= i < |after| :: after[i].signal == signal.key && after[i].status == RowReserved)
    || IsRefused(signal, LoadCandidates(input.snapshots, WindowOf(journal, input), input.rank), after,
                 JournalBankroll(initial, after), input)
  }

  /** Silence, in the words of the journal the tick leaves. */
  lemma {:induction false} SilentIsAnswered(signal: Signal, journal: seq<Row>, advanced: seq<Row>, rows: seq<Row>,
                                            initial: int,
                         candidates: seq<Quote>, input: TickInput)
    requires signal in input.signals
    requires candidates == LoadCandidates(input.snapshots, WindowOf(journal, input), input.rank)
    requires |advanced| == |journal| && forall i | 0 <= i < |journal| :: Improves(journal[i], advanced[i])
    requires forall i | 0 <= i < |rows| :: rows[i].status != RowCompleted
    requires Silent(signal, PlannerInput(candidates, RowsAbout(journal, input.signals), input),
                    RowsAbout(journal, input.signals) + rows, JournalBankroll(initial, advanced + rows))
    ensures IsAnswered(signal, journal, advanced + rows, initial, input)
  {
    hide LoadCandidates, JournalBankroll, History, HasActive, IsStake, IsQuoted, StakeFor, QuoteFor, Improves,
      RowsAbout;
    var existing, after := RowsAbout(journal, input.signals), advanced + rows;
    var planInput, bankroll := PlannerInput(candidates, existing, input), JournalBankroll(initial, advanced + rows);
    assert exists i | 0 <= i < |input.signals| :: input.signals[i].key == signal.key by {
      var i :| 0 <= i < |input.signals| && input.signals[i] == signal;
    }
    HistoryAbout(journal, input.signals, signal.key);
    HistoryActive(journal, signal.key);
    HistoryActive(rows, signal.key);
    ActiveConcat(existing, rows, signal.key);
    if HasActive(History(existing, signal.key)) {
      assert !NoneActive(journal, signal.key);
    } else if HasActive(History(rows, signal.key)) {
      var k :| 0 <= k < |rows| && rows[k].signal == signal.key && IsActive(rows[k]);
      assert after[|journal| + k] == rows[k];
    } else {
      QuoteForIsQuoted(signal, candidates, existing, input);
      StakeIsLeast(input.strategy, input.risk, bankroll);
      var code := Refusal(signal, planInput, bankroll).value;
      KeysAreKept(journal, advanced, rows, input.signals, (signal.key, RejectedKind(code)));
      var k :| 0 <= k < |after| && (after[k].signal, after[k].kind) == (signal.key, RejectedKind(code));
      assert IsDecision(Some(code), signal, QuoteFor(signal, planInput), StakeFor(input.strategy, input.risk, bankroll));
    }
  }

  lemma KeysAreKept(journal: seq<Row>, advanced: seq<Row>, rows: seq<Row>, signals: seq<Signal>, key: (nat, Kind))
    requires |advanced| == |journal| && forall i | 0 <= i < |journal| :: Improves(journal[i], advanced[i])
    requires key in KeysOf(RowsAbout(journal, signals) + rows)
    ensures exists k | 0 <= k < |advanced + rows| :: ((advanced + rows)[k].signal, (advanced + rows)[k].kind) == key
  {
    hide RowOk;
    var existing, after := RowsAbout(journal, signals), advanced + rows;
    var k :| 0 <= k < |existing + rows| && ((existing + rows)[k].signal, (existing + rows)[k].kind) == key;
    if k < |existing| {
      AboutIsRow(journal, signals, existing[k]);
      var j :| 0 <= j < |journal| && journal[j] == existing[k];
      assert Improves(journal[j], advanced[j]) && after[j] == advanced[j];
    } else {
      assert after[|journal| + (k - |existing|)] == rows[k - |existing|];
    }
  }

  lemma {:induction false} AboutIsRow(journal: seq<Row>, signals: seq<Signal>, row: Row)
    requires row in RowsAbout(journal, signals)
    ensures row in journal
  {
    var init, last := journal[..|journal| - 1], journal[|journal| - 1];
    assert journal == init + [last];
    if row in RowsAbout(init, signals) {
      AboutIsRow(init, signals, row);
    }
  }

  /** No wanted signal is passed over: the first of its key is answered. */
  lemma WantedSignalsAreAnswered(journal: seq<Row>, initial: int, input: TickInput, signal: Signal)
    requires JournalInv(journal, initial, input.risk)
    requires signal in input.signals && IsWanted(signal, input.strategy)
    ensures |journal| <= |Tick(journal, initial, input)|
    ensures exists first | first in input.signals && IsWanted(first, input.strategy) && first.key == signal.key ::
      IsAnswered(first, journal, Tick(journal, initial, input), initial, input)
  {
    hide JournalInv, LoadCandidates, WindowOf, PlanEach, Considered, JournalBankroll, Silent, IsAnswered,
      TickSelector, Improves, IsWanted, NewOk;
    TickKeepsInv(journal, initial, input);
    PlannedIsPlanEach(journal, initial, input);
    TickQuotesAreSane(journal, input);
    RowsImprove(journal, initial, input);
    var candidates := LoadCandidates(input.snapshots, WindowOf(journal, input), input.rank);
    var advanced := Advanced(journal, TickSelector(journal, input), input.resolve, input.now);
    var existing, considered := RowsAbout(journal, input.signals), Considered(input.strategy, input.signals);
    var planInput, start := PlannerInput(candidates, existing, input), Start(JournalBankroll(initial, advanced), existing);
    var rows := Planned(journal, initial, input).rows;
    assert advanced + [] == advanced && existing + [] == existing;
    PlanEachSilences(start, considered, planInput, initial, advanced);
    PlanEachDrawsDown(start, considered, planInput, initial, advanced);
    PlanEachPlans(start, considered, planInput);
    ConsideredIsWanted(input.strategy, input.signals, signal);
    KeyIsDecided(considered, signal);
    FirstOfKey(considered, signal.key);
    var i :| 0 <= i < |considered| && IsFirst(considered, i) && considered[i].key == signal.key;
    ConsideredIsWanted(input.strategy, input.signals, considered[i]);
    forall r | 0 <= r < |rows|
      ensures rows[r].status != RowCompleted
    {
      NewIsNotCompleted(rows[r], existing);
    }
    SilentIsAnswered(considered[i], journal, advanced, rows, initial, candidates, input);
  }

  lemma NewIsNotCompleted(row: Row, existing: seq<Row>)
    requires NewOk(row, existing)
    ensures row.status != RowCompleted
  {
  }

  // ---- What it does to the bankroll ----

  lemma {:induction false} RealizedUpdate(rows: seq<Row>, i: nat, row: Row)
    requires i < |rows|
    ensures Realized(rows[i := row]) == Realized(rows) - RealizedOf(rows[i]) + RealizedOf(row)
    ensures Exposed(rows[i := row]) == Exposed(rows) - OpenOf(rows[i]) + OpenOf(row)
  {
    var n := |rows| - 1;
    if i < n {
      RealizedUpdate(rows[..n], i, row);
      assert rows[i := row][..n] == rows[..n][i := row];
    } else {
      assert rows[i := row][..n] == rows[..n];
    }
  }

  /** A run starts with what it was given. */
  lemma NothingBetYet(initial: int)
    ensures JournalBankroll(initial, []) == Bankroll(initial, 0, 0, initial)
  {
  }

  /** An order takes its stake out of what is available until it is completed, with its profit, or rejected. */
  lemma OrdersMoveTheBankroll(initial: int, journal: seq<Row>, i: nat, after: Row)
    requires i < |journal| && journal[i].status == RowReserved && journal[i].stake.Some?
    requires after.stake == journal[i].stake
    ensures
      var stake := journal[i].stake.value;
      var one, two := JournalBankroll(initial, journal), JournalBankroll(initial, journal[i := after]);
      && two.initial == one.initial
      && (after.status == RowReserved ==> two == one)
      && (after.status == RowRejected ==> two == one.(open := one.open - stake, available := one.available + stake))
      && (after.status == RowCompleted && after.profit.Some? ==>
            two == one.(realized := one.realized + after.profit.value, open := one.open - stake,
                        available := one.available + stake + after.profit.value))
  {
    RealizedUpdate(journal, i, after);
  }

  /** A new order takes its stake out of what is available; a rejection takes nothing. */
  lemma NewRowsMoveTheBankroll(initial: int, journal: seq<Row>, row: Row)
    requires row.status != RowCompleted && (row.status == RowReserved ==> row.stake.Some?)
    ensures
      var one, two := JournalBankroll(initial, journal), JournalBankroll(initial, journal + [row]);
      two == if row.status == RowReserved
             then one.(open := one.open + row.stake.value, available := one.available - row.stake.value) else one
  {
    JournalSnoc(initial, journal, row);
  }
}
