/** Ticks of a simulation run: execute, settle, decide, on a history read before the first two. */
module SimulationRun {
  import opened Wrappers
  import opened Risk
  import opened Quotes
  import opened Simulation
  import opened PlannerProofs
  import Money

  /** What a tick is given: the run's settings, the live signals and the outside data at its instant. */
  datatype TickInput = TickInput(
    strategy: Strategy,
    risk: RiskSnapshot,
    signals: seq<Signal>,
    snapshots: seq<Snapshot>,
    maxQuoteAge: int,
    rank: Collation,
    resolve: Row -> Option<Outcome>,
    now: int)

  // ---- Quotes of a tick ----

  function FixturesOf(journal: seq<Row>, signals: seq<Signal>): (fixtures: seq<string>)
    ensures forall i | 0 <= i < |journal| && journal[i].status == RowReserved :: journal[i].target.providerFixtureId in fixtures
    ensures forall i | 0 <= i < |signals| :: signals[i].quoteTarget.providerFixtureId in fixtures
  {
    SignalFixtures(signals) + OpenFixtures(journal)
  }

  function SignalFixtures(signals: seq<Signal>): (fixtures: seq<string>)
    ensures forall i | 0 <= i < |signals| :: signals[i].quoteTarget.providerFixtureId in fixtures
  {
    if signals == [] then []
    else SignalFixtures(signals[..|signals| - 1]) + [signals[|signals| - 1].quoteTarget.providerFixtureId]
  }

  function OpenFixtures(journal: seq<Row>): (fixtures: seq<string>)
    ensures forall i | 0 <= i < |journal| && journal[i].status == RowReserved :: journal[i].target.providerFixtureId in fixtures
  {
    if journal == [] then []
    else
      var last := journal[|journal| - 1];
      OpenFixtures(journal[..|journal| - 1])
      + if last.status == RowReserved then [last.target.providerFixtureId] else []
  }

  /** The earliest instant the tick may ask about: now, or the due time of an open order. */
  function Earliest(journal: seq<Row>, now: int): (at: int)
    ensures at <= now
    ensures forall i | 0 <= i < |journal| && journal[i].status == RowReserved && journal[i].dueAt.Some? ::
      at <= journal[i].dueAt.value
  {
    if journal == [] then now
    else
      var last, earlier := journal[|journal| - 1], Earliest(journal[..|journal| - 1], now);
      if last.status == RowReserved && last.dueAt.Some? && last.dueAt.value < earlier then last.dueAt.value else earlier
  }

  function WindowOf(journal: seq<Row>, input: TickInput): Window {
    Window(FixturesOf(journal, input.signals), Earliest(journal, input.now) - input.maxQuoteAge, input.now)
  }

  function Selector(candidates: seq<Quote>, maxQuoteAge: int, rank: Collation): QuoteSelector {
    (target: Target, at: int) => SelectLatest(candidates, QuoteQuery(target, at, maxQuoteAge), rank)
  }

  function TickSelector(journal: seq<Row>, input: TickInput): QuoteSelector {
    Selector(LoadCandidates(input.snapshots, WindowOf(journal, input), input.rank), input.maxQuoteAge, input.rank)
  }

  // ---- The tick ----

  function Executed(row: Row, select: QuoteSelector, now: int): Row {
    var execution := PlanExecution(row, select, now);
    if execution.Some? then execution.value else row
  }

  function Advance(row: Row, select: QuoteSelector, resolve: Row -> Option<Outcome>, now: int): Row {
    if row.status != RowReserved then row
    else
      var executed := Executed(row, select, now);
      var settlement := PlanSettlement(executed, resolve(executed), now);
      if settlement.Some? then settlement.value else executed
  }

  function Advanced(journal: seq<Row>, select: QuoteSelector, resolve: Row -> Option<Outcome>, now: int): (after: seq<Row>)
    ensures |after| == |journal|
    ensures forall i | 0 <= i < |journal| :: after[i] == Advance(journal[i], select, resolve, now)
  {
    seq(|journal|, i requires 0 <= i < |journal| => Advance(journal[i], select, resolve, now))
  }

  /** The stored rows of the given signals. */
  function RowsAbout(journal: seq<Row>, signals: seq<Signal>): seq<Row> {
    if journal == [] then []
    else
      var last, earlier := journal[|journal| - 1], RowsAbout(journal[..|journal| - 1], signals);
      if exists i | 0 <= i < |signals| :: signals[i].key == last.signal then earlier + [last] else earlier
  }

  /** The insert that drops rows whose key is taken. */
  function InsertIgnore(journal: seq<Row>, rows: seq<Row>): seq<Row> {
    if rows == [] then journal
    else
      var last, earlier := rows[|rows| - 1], InsertIgnore(journal, rows[..|rows| - 1]);
      if (last.signal, last.kind) in KeysOf(earlier) then earlier else earlier + [last]
  }

  function Planned(journal: seq<Row>, initial: int, input: TickInput): PlanState {
    var select := TickSelector(journal, input);
    var advanced := Advanced(journal, select, input.resolve, input.now);
    Plan(input.signals, JournalBankroll(initial, advanced),
         PlanInput(input.strategy, input.risk, RowsAbout(journal, input.signals), select, input.now))
  }

  /** History is read from the journal as the tick found it; the bankroll from the journal it has updated. */
  function Tick(journal: seq<Row>, initial: int, input: TickInput): seq<Row> {
    var advanced := Advanced(journal, TickSelector(journal, input), input.resolve, input.now);
    if input.signals == [] then advanced else InsertIgnore(advanced, Planned(journal, initial, input).rows)
  }

  // ---- What every journal keeps ----

  /**
   * Only orders are staked; an order is decided and executed at its minimum odd or better, and
   * a completed one has exactly the profit of its outcome.
   */
  predicate RowOk(row: Row) {
    && (row.stake.Some? <==> row.kind.OrderKind?)
    && (row.stake.Some? ==> row.stake.value > 0)
    && (IsActive(row) ==> row.stake.Some?)
    && (row.executableOdd.Some? ==> row.executableOdd.value > 1000)
    && (IsActive(row) ==> row.quote.Some? && row.quote.value.odd >= row.minOdd)
    && (IsActive(row) && row.executableOdd.Some? ==> row.executableOdd.value >= row.minOdd)
    && (row.status == RowCompleted ==>
          && row.executableOdd.Some? && row.outcome.Some?
          && row.profit == Some(
               match row.outcome.value
               case Won => Money.WinningProfit(row.stake.value, row.executableOdd.value)
               case Lost => -row.stake.value
               case Void => 0
               case NoResult => 0))
  }

  /** Staked rows of a signal so far. */
  function Staked(rows: seq<Row>, key: nat): nat {
    if rows == [] then 0
    else Staked(rows[..|rows| - 1], key) + if rows[|rows| - 1].signal == key && rows[|rows| - 1].stake.Some? then 1 else 0
  }

  /** The staked rows of each signal carry ORDER:0, ORDER:1, … in the order they were written. */
  ghost predicate Numbered(journal: seq<Row>) {
    forall i | 0 <= i < |journal| && journal[i].stake.Some? ::
      journal[i].kind == OrderKind(Staked(journal[..i], journal[i].signal))
  }

  ghost predicate DistinctRows(journal: seq<Row>) {
    forall i, j | 0 <= i < j < |journal| && journal[i].signal == journal[j].signal :: journal[i].kind != journal[j].kind
  }

  ghost predicate OneActive(journal: seq<Row>) {
    forall i, j | 0 <= i < j < |journal| && journal[i].signal == journal[j].signal ::
      !(IsActive(journal[i]) && IsActive(journal[j]))
  }

  ghost predicate JournalInv(journal: seq<Row>, initial: int, risk: RiskSnapshot) {
    && (forall i | 0 <= i < |journal| :: RowOk(journal[i]))
    && Numbered(journal)
    && DistinctRows(journal)
    && OneActive(journal)
    && Solvent(JournalBankroll(initial, journal), risk)
  }

  // ---- Executions and settlements ----

  /** An update that changes no identity and never lowers what is available. */
  predicate Improves(before: Row, after: Row) {
    && after.signal == before.signal && after.kind == before.kind && after.stake == before.stake
    && RowOk(after)
    && (IsActive(after) ==> IsActive(before))
    && RealizedOf(after) - OpenOf(after) >= RealizedOf(before) - OpenOf(before)
    && OpenOf(after) <= OpenOf(before)
  }

  ghost predicate SaneQuotes(select: QuoteSelector) {
    forall target, at :: select(target, at).Some? ==> select(target, at).value.odd > 1000
  }

  lemma AdvanceImproves(row: Row, select: QuoteSelector, resolve: Row -> Option<Outcome>, now: int)
    requires RowOk(row) && SaneQuotes(select)
    ensures Improves(row, Advance(row, select, resolve, now))
  {
    hide Money.WinningProfit;
    var executed := Executed(row, select, now);
    if executed.stake.Some? && executed.executableOdd.Some? {
      Money.WinningProfitIsNearest(executed.stake.value, executed.executableOdd.value);
    }
  }

  lemma {:induction false} ImprovedTotals(before: seq<Row>, after: seq<Row>)
    requires |before| == |after| && forall i | 0 <= i < |before| :: Improves(before[i], after[i])
    ensures Realized(after) - Exposed(after) >= Realized(before) - Exposed(before)
    ensures Exposed(after) <= Exposed(before)
  {
    if before != [] {
      ImprovedTotals(before[..|before| - 1], after[..|after| - 1]);
      assert Improves(before[|before| - 1], after[|after| - 1]);
    }
  }

  lemma {:induction false} SameStaked(before: seq<Row>, after: seq<Row>, key: nat)
    requires |before| == |after|
    requires forall i | 0 <= i < |before| :: after[i].signal == before[i].signal && after[i].stake == before[i].stake
    ensures Staked(after, key) == Staked(before, key)
  {
    if before != [] {
      SameStaked(before[..|before| - 1], after[..|after| - 1], key);
    }
  }

  lemma AdvancedKeepsInv(before: seq<Row>, after: seq<Row>, initial: int, risk: RiskSnapshot)
    requires JournalInv(before, initial, risk)
    requires |before| == |after| && forall i | 0 <= i < |before| :: Improves(before[i], after[i])
    ensures JournalInv(after, initial, risk)
  {
    ImprovedTotals(before, after);
    forall i | 0 <= i < |after| && after[i].stake.Some?
      ensures after[i].kind == OrderKind(Staked(after[..i], after[i].signal))
    {
      assert Improves(before[i], after[i]);
      forall j | 0 <= j < i
        ensures after[..i][j].signal == before[..i][j].signal && after[..i][j].stake == before[..i][j].stake
      {
        assert Improves(before[j], after[j]);
      }
      SameStaked(before[..i], after[..i], after[i].signal);
    }
    assert DistinctRows(after) by {
      forall i, j | 0 <= i < j < |after| && after[i].signal == after[j].signal
        ensures after[i].kind != after[j].kind
      {
        assert Improves(before[i], after[i]) && Improves(before[j], after[j]);
      }
    }
    assert OneActive(after) by {
      forall i, j | 0 <= i < j < |after| && after[i].signal == after[j].signal
        ensures !(IsActive(after[i]) && IsActive(after[j]))
      {
        assert Improves(before[i], after[i]) && Improves(before[j], after[j]);
      }
    }
  }

  // ---- New rows ----

  /** What planning promises about a row, given the rows it planned from. */
  predicate NewOk(row: Row, existing: seq<Row>) {
    && RowOk(row) && row.status != RowCompleted
    && if row.stake.Some?
       then row.status == RowReserved && row.kind == OrderKind(Attempts(History(existing, row.signal)))
            && !HasActive(History(existing, row.signal))
       else row.status == RowRejected && (row.signal, row.kind) !in KeysOf(existing)
  }

  ghost predicate RowsPlanned(rows: seq<Row>, signals: seq<Signal>, existing: seq<Row>) {
    && (forall r | 0 <= r < |rows| :: NewOk(rows[r], existing))
    && (forall r | 0 <= r < |rows| :: rows[r].signal in KeysDecided(signals))
    && (forall q, r | 0 <= q < r < |rows| :: rows[q].signal != rows[r].signal)
  }

  lemma PlanOneAdds(state: PlanState, signal: Signal, input: PlanInput)
    requires KeysOf(input.existing) <= state.known
    ensures var next := PlanOne(state, signal, input);
      && state.known <= next.known && next.decided == state.decided + {signal.key}
      && (next.rows == state.rows
          || (signal.key !in state.decided
              && next.rows == state.rows + [next.rows[|state.rows|]]
              && next.rows[|state.rows|].signal == signal.key
              && NewOk(next.rows[|state.rows|], input.existing)))
  {
    hide HasActive, History, KeysOf, StakeFor, QuoteFor;
    assert signal.key in state.decided ==> state.decided + {signal.key} == state.decided;
  }

  lemma {:induction false} PlanEachPlans(start: PlanState, signals: seq<Signal>, input: PlanInput)
    requires start.rows == [] && start.decided == {} && start.known == KeysOf(input.existing)
    ensures var next := PlanEach(start, signals, input);
      && RowsPlanned(next.rows, signals, input.existing)
      && next.decided == KeysDecided(signals) && KeysOf(input.existing) <= next.known
  {
    hide NewOk, KeysOf, PlanOne;
    if signals != [] {
      PlanEachPlans(start, signals[..|signals| - 1], input);
      PlanOneAdds(PlanEach(start, signals[..|signals| - 1], input), signals[|signals| - 1], input);
    }
  }

  // ---- Reading part of the journal is enough ----

  lemma {:induction false} HistoryAbout(journal: seq<Row>, signals: seq<Signal>, key: nat)
    requires exists i | 0 <= i < |signals| :: signals[i].key == key
    ensures History(RowsAbout(journal, signals), key) == History(journal, key)
  {
    if journal != [] {
      var init, last := journal[..|journal| - 1], journal[|journal| - 1];
      HistoryAbout(init, signals, key);
      HistorySnoc(RowsAbout(init, signals), last, key);
    }
  }

  lemma HistorySnoc(rows: seq<Row>, row: Row, key: nat)
    ensures History(rows + [row], key) == if row.signal == key then History(rows, key) + [row] else History(rows, key)
  {
    assert (rows + [row])[..|rows|] == rows;
  }

  lemma {:induction false} InHistory(rows: seq<Row>, i: nat)
    requires i < |rows|
    ensures rows[i] in History(rows, rows[i].signal)
  {
    if i < |rows| - 1 {
      InHistory(rows[..|rows| - 1], i);
    }
  }

  lemma {:induction false} AttemptsAreStaked(rows: seq<Row>, key: nat)
    ensures Attempts(History(rows, key)) == Staked(rows, key)
  {
    if rows != [] {
      var init := rows[..|rows| - 1];
      AttemptsAreStaked(init, key);
      var history := History(init, key);
      assert (history + [rows[|rows| - 1]])[..|history|] == history;
    }
  }

  lemma {:induction false} KeysAbout(journal: seq<Row>, signals: seq<Signal>, row: Row)
    requires row in journal && exists i | 0 <= i < |signals| :: signals[i].key == row.signal
    ensures row in RowsAbout(journal, signals)
  {
    var init, last := journal[..|journal| - 1], journal[|journal| - 1];
    assert journal == init + [last];
    if row in init {
      KeysAbout(init, signals, row);
    }
  }

  lemma RowKey(rows: seq<Row>, row: Row)
    requires row in rows
    ensures (row.signal, row.kind) in KeysOf(rows)
  {
    var i :| 0 <= i < |rows| && rows[i] == row;
    assert (rows[i].signal, rows[i].kind) in KeysOf(rows);
  }

  lemma {:induction false} StakedGrows(rows: seq<Row>, i: nat)
    requires i < |rows| && rows[i].stake.Some?
    ensures Staked(rows[..i], rows[i].signal) < Staked(rows, rows[i].signal)
  {
    var init := rows[..|rows| - 1];
    if i < |init| {
      StakedGrows(init, i);
      assert init[..i] == rows[..i];
    } else {
      assert init == rows[..i];
    }
  }

  lemma {:induction false} StakedConcat(first: seq<Row>, second: seq<Row>, key: nat)
    requires forall r | 0 <= r < |second| :: second[r].signal != key
    ensures Staked(first + second, key) == Staked(first, key)
  {
    if second == [] {
      assert first + second == first;
    } else {
      StakedConcat(first, second[..|second| - 1], key);
      assert (first + second)[..|first + second| - 1] == first + second[..|second| - 1];
    }
  }

  lemma {:induction false} DecidedIsKey(signals: seq<Signal>, key: nat)
    requires key in KeysDecided(signals)
    ensures exists i | 0 <= i < |signals| :: signals[i].key == key
  {
    var init, last := signals[..|signals| - 1], signals[|signals| - 1];
    if last.key != key {
      DecidedIsKey(init, key);
      var i :| 0 <= i < |init| && init[i].key == key;
      assert signals[i].key == key;
    } else {
      assert signals[|signals| - 1].key == key;
    }
  }

  /** What a planned row is to the updated journal, though it was planned from the stale one. */
  predicate FitsJournal(row: Row, journal: seq<Row>) {
    && RowOk(row) && row.status != RowCompleted
    && (row.stake.Some? ==> row.kind == OrderKind(Staked(journal, row.signal)))
    && (forall i | 0 <= i < |journal| && journal[i].signal == row.signal ::
          journal[i].kind != row.kind && !(IsActive(row) && IsActive(journal[i])))
  }

  lemma StaleRowFits(row: Row, journal: seq<Row>, advanced: seq<Row>, signals: seq<Signal>)
    requires NewOk(row, RowsAbout(journal, signals))
    requires exists i | 0 <= i < |signals| :: signals[i].key == row.signal
    requires Numbered(journal)
    requires forall i | 0 <= i < |journal| :: RowOk(journal[i])
    requires |advanced| == |journal| && forall i | 0 <= i < |journal| :: Improves(journal[i], advanced[i])
    ensures FitsJournal(row, advanced)
  {
    HistoryAbout(journal, signals, row.signal);
    AttemptsAreStaked(journal, row.signal);
    forall i | 0 <= i < |journal|
      ensures advanced[i].signal == journal[i].signal && advanced[i].stake == journal[i].stake
    {
      assert Improves(journal[i], advanced[i]);
    }
    SameStaked(journal, advanced, row.signal);
    forall i | 0 <= i < |advanced| && advanced[i].signal == row.signal
      ensures advanced[i].kind != row.kind && !(IsActive(row) && IsActive(advanced[i]))
    {
      assert Improves(journal[i], advanced[i]);
      InHistory(journal, i);
      KeysAbout(journal, signals, journal[i]);
      RowKey(RowsAbout(journal, signals), journal[i]);
      if journal[i].stake.Some? {
        StakedGrows(journal, i);
      }
    }
  }

  lemma {:induction false} InsertsAll(journal: seq<Row>, rows: seq<Row>)
    requires forall r | 0 <= r < |rows| :: FitsJournal(rows[r], journal)
    requires forall q, r | 0 <= q < r < |rows| :: rows[q].signal != rows[r].signal
    ensures InsertIgnore(journal, rows) == journal + rows
  {
    if rows != [] {
      var init, last := rows[..|rows| - 1], rows[|rows| - 1];
      InsertsAll(journal, init);
      assert FitsJournal(last, journal);
      forall i | 0 <= i < |journal + init|
        ensures ((journal + init)[i].signal, (journal + init)[i].kind) != (last.signal, last.kind)
      {
        assert i >= |journal| ==> (journal + init)[i] == rows[i - |journal|];
      }
      assert journal + rows == journal + init + [last];
    }
  }

  lemma NumberedAdds(journal: seq<Row>, rows: seq<Row>)
    requires Numbered(journal)
    requires forall r | 0 <= r < |rows| :: FitsJournal(rows[r], journal)
    requires forall q, r | 0 <= q < r < |rows| :: rows[q].signal != rows[r].signal
    ensures Numbered(journal + rows)
  {
    var longer := journal + rows;
    forall i | 0 <= i < |longer| && longer[i].stake.Some?
      ensures longer[i].kind == OrderKind(Staked(longer[..i], longer[i].signal))
    {
      if i < |journal| {
        assert longer[..i] == journal[..i];
      } else {
        var r := i - |journal|;
        assert longer[..i] == journal + rows[..r] && longer[i] == rows[r];
        assert FitsJournal(rows[r], journal);
        StakedConcat(journal, rows[..r], rows[r].signal);
      }
    }
  }

  lemma AddedKeepsInv(journal: seq<Row>, rows: seq<Row>, initial: int, risk: RiskSnapshot)
    requires JournalInv(journal, initial, risk)
    requires forall r | 0 <= r < |rows| :: FitsJournal(rows[r], journal)
    requires forall q, r | 0 <= q < r < |rows| :: rows[q].signal != rows[r].signal
    requires Solvent(JournalBankroll(initial, journal + rows), risk)
    ensures JournalInv(journal + rows, initial, risk)
  {
    hide JournalBankroll, Numbered;
    NumberedAdds(journal, rows);
    var longer := journal + rows;
    forall i | 0 <= i < |longer|
      ensures RowOk(longer[i])
    {
      if i >= |journal| {
        assert FitsJournal(rows[i - |journal|], journal);
      }
    }
    forall i, j | 0 <= i < j < |longer| && longer[i].signal == longer[j].signal
      ensures longer[i].kind != longer[j].kind && !(IsActive(longer[i]) && IsActive(longer[j]))
    {
      if j >= |journal| {
        assert FitsJournal(rows[j - |journal|], journal);
      }
    }
  }

  lemma CandidatesAreSane(candidates: seq<Quote>, maxQuoteAge: int, rank: Collation)
    ensures SaneQuotes(Selector(candidates, maxQuoteAge, rank))
  {
    forall target, at
      ensures Selector(candidates, maxQuoteAge, rank)(target, at).Some? ==>
        Selector(candidates, maxQuoteAge, rank)(target, at).value.odd > 1000
    {
      SelectsFreshest(candidates, QuoteQuery(target, at, maxQuoteAge), rank);
    }
  }

  /**
   * A tick keeps the journal's invariant although it plans from a stale history, and the
   * insert drops none of the planned rows.
   */
  lemma TickKeepsInv(journal: seq<Row>, initial: int, input: TickInput)
    requires JournalInv(journal, initial, input.risk)
    ensures JournalInv(Tick(journal, initial, input), initial, input.risk)
    ensures input.signals != [] ==>
      Tick(journal, initial, input)
      == Advanced(journal, TickSelector(journal, input), input.resolve, input.now) + Planned(journal, initial, input).rows
  {
    hide TickSelector, NewOk, FitsJournal, Improves, Solvent, Numbered, DistinctRows, OneActive;
    var select := TickSelector(journal, input);
    var advanced := Advanced(journal, select, input.resolve, input.now);
    TickQuotesAreSane(journal, input);
    RowsImprove(journal, initial, input);
    AdvancedKeepsInv(journal, advanced, initial, input.risk);
    if input.signals != [] {
      var planInput := PlanInput(input.strategy, input.risk, RowsAbout(journal, input.signals), select, input.now);
      var rows := Planned(journal, initial, input).rows;
      var considered := Considered(input.strategy, input.signals);
      PlanEachPlans(Start(JournalBankroll(initial, advanced), planInput.existing), considered, planInput);
      PlannedFit(journal, advanced, rows, considered, input);
      PlanMatchesJournal(input.signals, planInput, initial, advanced);
      InsertsAll(advanced, rows);
      AddedKeepsInv(advanced, rows, initial, input.risk);
    }
  }

  lemma TickQuotesAreSane(journal: seq<Row>, input: TickInput)
    ensures SaneQuotes(TickSelector(journal, input))
  {
    CandidatesAreSane(LoadCandidates(input.snapshots, WindowOf(journal, input), input.rank), input.maxQuoteAge, input.rank);
  }

  lemma RowsImprove(journal: seq<Row>, initial: int, input: TickInput)
    requires JournalInv(journal, initial, input.risk) && SaneQuotes(TickSelector(journal, input))
    ensures
      var advanced := Advanced(journal, TickSelector(journal, input), input.resolve, input.now);
      forall i | 0 <= i < |journal| :: Improves(journal[i], advanced[i])
  {
    hide Advance, TickSelector, Solvent, Improves;
    var select := TickSelector(journal, input);
    forall i | 0 <= i < |journal|
      ensures Improves(journal[i], Advanced(journal, select, input.resolve, input.now)[i])
    {
      AdvanceImproves(journal[i], select, input.resolve, input.now);
    }
  }

  lemma {:induction false} ConsideredAreSignals(strategy: Strategy, signals: seq<Signal>, i: nat)
    requires i < |Considered(strategy, signals)|
    ensures exists k | 0 <= k < |signals| :: signals[k] == Considered(strategy, signals)[i]
  {
    var signal := Considered(strategy, signals)[i];
    assert signal in multiset(Considered(strategy, signals));
    assert signal in multiset(EligibleOf(strategy, signals));
    assert signal in EligibleOf(strategy, signals);
  }

  lemma {:induction false} PlannedFit(journal: seq<Row>, advanced: seq<Row>, rows: seq<Row>, considered: seq<Signal>,
                                      input: TickInput)
    requires RowsPlanned(rows, considered, RowsAbout(journal, input.signals))
    requires considered == Considered(input.strategy, input.signals)
    requires Numbered(journal) && forall i | 0 <= i < |journal| :: RowOk(journal[i])
    requires |advanced| == |journal| && forall i | 0 <= i < |journal| :: Improves(journal[i], advanced[i])
    ensures forall r | 0 <= r < |rows| :: FitsJournal(rows[r], advanced)
  {
    hide NewOk, FitsJournal, Improves, Numbered, RowOk;
    forall r | 0 <= r < |rows|
      ensures FitsJournal(rows[r], advanced)
    {
      DecidedIsKey(considered, rows[r].signal);
      var i :| 0 <= i < |considered| && considered[i].key == rows[r].signal;
      ConsideredAreSignals(input.strategy, input.signals, i);
      StaleRowFits(rows[r], journal, advanced, input.signals);
    }
  }

  // ---- Runs of ticks ----

  /** The journal after some ticks. */
  function Journal(initial: int, ticks: seq<TickInput>): seq<Row> {
    if ticks == [] then [] else Tick(Journal(initial, ticks[..|ticks| - 1]), initial, ticks[|ticks| - 1])
  }

  /**
   * After any ticks of a run: the bankroll is never overdrawn and exposure stays within its
   * limit, a signal has at most one active row, no two rows share a key, and the staked rows
   * of a signal are numbered from zero in order.
   */
  lemma {:induction false} EveryJournal(initial: int, risk: RiskSnapshot, ticks: seq<TickInput>)
    requires initial >= 0 && (risk.maxOpenExposure.Some? ==> risk.maxOpenExposure.value >= 0)
    requires forall t | 0 <= t < |ticks| :: ticks[t].risk == risk
    ensures JournalInv(Journal(initial, ticks), initial, risk)
  {
    if ticks != [] {
      EveryJournal(initial, risk, ticks[..|ticks| - 1]);
      TickKeepsInv(Journal(initial, ticks[..|ticks| - 1]), initial, ticks[|ticks| - 1]);
    }
  }

  // ---- Loading a window is enough ----

  /** The two selectors agree wherever the tick asks. */
  ghost predicate Agree(journal: seq<Row>, input: TickInput, one: QuoteSelector, two: QuoteSelector) {
    forall target: Target, at: int
      | target.providerFixtureId in FixturesOf(journal, input.signals) && Earliest(journal, input.now) <= at <= input.now ::
      one(target, at) == two(target, at)
  }

  lemma WindowAgrees(journal: seq<Row>, input: TickInput)
    requires DistinctSnapshots(WholeTable(input.snapshots), input.rank)
    ensures Agree(journal, input, TickSelector(journal, input),
                  Selector(WholeTable(input.snapshots), input.maxQuoteAge, input.rank))
  {
    forall target: Target, at: int
      | target.providerFixtureId in FixturesOf(journal, input.signals) && Earliest(journal, input.now) <= at <= input.now
      ensures TickSelector(journal, input)(target, at)
        == Selector(WholeTable(input.snapshots), input.maxQuoteAge, input.rank)(target, at)
    {
      PrefilterIsExact(input.snapshots, WindowOf(journal, input), QuoteQuery(target, at, input.maxQuoteAge), input.rank);
    }
  }

  lemma AgreeingAdvances(journal: seq<Row>, input: TickInput, one: QuoteSelector, two: QuoteSelector)
    requires Agree(journal, input, one, two)
    ensures Advanced(journal, one, input.resolve, input.now) == Advanced(journal, two, input.resolve, input.now)
  {
    forall i | 0 <= i < |journal|
      ensures Advance(journal[i], one, input.resolve, input.now) == Advance(journal[i], two, input.resolve, input.now)
    {
      assert PlanExecution(journal[i], one, input.now) == PlanExecution(journal[i], two, input.now);
    }
  }

  lemma {:induction false} AgreeingPlans(start: PlanState, signals: seq<Signal>, one: PlanInput, two: PlanInput)
    requires one == two.(select := one.select)
    requires forall i | 0 <= i < |signals| :: QuoteFor(signals[i], one) == QuoteFor(signals[i], two)
    ensures PlanEach(start, signals, one) == PlanEach(start, signals, two)
  {
    hide QuoteFor, StakeFor;
    if signals != [] {
      AgreeingPlans(start, signals[..|signals| - 1], one, two);
    }
  }

  lemma {:induction false} AgreeingQuotes(journal: seq<Row>, input: TickInput, one: PlanInput, two: PlanInput)
    requires Agree(journal, input, one.select, two.select)
    requires one == two.(select := one.select) && one.now == input.now
    ensures
      var considered := Considered(input.strategy, input.signals);
      forall i | 0 <= i < |considered| :: QuoteFor(considered[i], one) == QuoteFor(considered[i], two)
  {
    var considered := Considered(input.strategy, input.signals);
    forall i | 0 <= i < |considered|
      ensures QuoteFor(considered[i], one) == QuoteFor(considered[i], two)
    {
      ConsideredAreSignals(input.strategy, input.signals, i);
    }
  }

  /** A tick does what it would do if it searched every quote ever stored. */
  lemma TickSeesWholeTable(journal: seq<Row>, initial: int, input: TickInput)
    requires DistinctSnapshots(WholeTable(input.snapshots), input.rank)
    ensures
      var select := Selector(WholeTable(input.snapshots), input.maxQuoteAge, input.rank);
      var advanced := Advanced(journal, select, input.resolve, input.now);
      var planInput := PlanInput(input.strategy, input.risk, RowsAbout(journal, input.signals), select, input.now);
      Tick(journal, initial, input) ==
        if input.signals == [] then advanced
        else InsertIgnore(advanced, Plan(input.signals, JournalBankroll(initial, advanced), planInput).rows)
  {
    hide TickSelector, Selector;
    var windowed := TickSelector(journal, input);
    var whole := Selector(WholeTable(input.snapshots), input.maxQuoteAge, input.rank);
    WindowAgrees(journal, input);
    AgreeingAdvances(journal, input, windowed, whole);
    var advanced := Advanced(journal, whole, input.resolve, input.now);
    var one := PlanInput(input.strategy, input.risk, RowsAbout(journal, input.signals), windowed, input.now);
    AgreeingQuotes(journal, input, one, one.(select := whole));
    AgreeingPlans(Start(JournalBankroll(initial, advanced), one.existing), Considered(input.strategy, input.signals),
                  one, one.(select := whole));
  }

  // ---- The run as an object ----

  class VirtualRun {
    const initial: int
    var journal: seq<Row>

    constructor (initial: int)
      ensures this.initial == initial && journal == []
    {
      this.initial, journal := initial, [];
    }

    /** Open orders executed, then settled, in place; then new signals decided. */
    method RunTick(input: TickInput)
      modifies this`journal
      ensures journal == Tick(old(journal), initial, input)
    {
      var history := RowsAbout(journal, input.signals);
      var select := TickSelector(journal, input);
      var rows := journal;
      for i := 0 to |rows|
        invariant |rows| == |journal|
        invariant forall j | 0 <= j < i :: rows[j] == Executed(journal[j], select, input.now)
        invariant forall j | i <= j < |rows| :: rows[j] == journal[j]
      {
        var execution := PlanExecution(rows[i], select, input.now);
        if execution.Some? {
          rows := rows[i := execution.value];
        }
      }
      ghost var executed := rows;
      for i := 0 to |rows|
        invariant |rows| == |journal|
        invariant forall j | 0 <= j < i :: rows[j] == Advance(journal[j], select, input.resolve, input.now)
        invariant forall j | i <= j < |rows| :: rows[j] == executed[j]
      {
        var settlement := PlanSettlement(rows[i], input.resolve(rows[i]), input.now);
        if settlement.Some? {
          rows := rows[i := settlement.value];
        }
      }
      assert rows == Advanced(journal, select, input.resolve, input.now);
      if input.signals != [] {
        var bankroll := BankrollFromJournal(initial, rows);
        var added, _ := PlanNewDecisions(
          input.signals, bankroll, PlanInput(input.strategy, input.risk, history, select, input.now));
        rows := InsertIgnore(rows, added);
      }
      journal := rows;
    }
  }
}
