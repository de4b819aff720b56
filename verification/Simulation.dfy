/**
 * The virtual planner: new decisions, executions and settlements of a simulation run, and the
 * bankroll its journal implies.
 */
module Simulation {
  import opened Wrappers
  import opened Risk
  import opened Quotes
  import opened Sorting
  import Money

  const NO_RESULT_AFTER_MS := 24 * 60 * 60 * 1000

  /** `key` is the digest of run, fixture, team and market, ordered as a number. */
  datatype Signal = Signal(
    key: nat,
    fixtureId: string,
    market: string,
    edge: real,
    confidence: Option<real>,
    quoteTarget: Target,
    minOdd: int)

  datatype Staking = Percent(amount: real) | Flat(amount: real)

  datatype Strategy = Strategy(markets: seq<string>, minEdge: real, minConfidence: real, staking: Staking)

  /** Limits in cents, absent when unlimited. */
  datatype RiskSnapshot = RiskSnapshot(
    bookmakerKey: Option<string>,
    maxStakePerBet: Option<int>,
    maxOpenExposure: Option<int>,
    latency: int)

  /** What the idempotency key of a row hashes beside the run and the signal. */
  datatype Kind = OrderKind(attempt: nat) | RejectedKind(code: RejectionCode)

  datatype RowStatus = RowRejected | RowReserved | RowCompleted

  datatype Outcome = Won | Lost | Void | NoResult

  datatype Row = Row(
    signal: nat,
    kind: Kind,
    status: RowStatus,
    code: Option<RejectionCode>,
    fixtureId: string,
    target: Target,
    minOdd: int,
    stake: Option<int>,
    decidedAt: int,
    quote: Option<Quote>,
    dueAt: Option<int>,
    executableOdd: Option<int>,
    outcome: Option<Outcome>,
    profit: Option<int>)

  datatype Bankroll = Bankroll(initial: int, realized: int, open: int, available: int)

  type QuoteSelector = (Target, int) -> Option<Quote>

  // ---- The bankroll of a journal ----

  function RealizedOf(row: Row): int {
    if row.status == RowCompleted && row.profit.Some? then row.profit.value else 0
  }

  function OpenOf(row: Row): int {
    if row.status == RowReserved && row.stake.Some? then row.stake.value else 0
  }

  function Realized(rows: seq<Row>): int {
    if rows == [] then 0 else Realized(rows[..|rows| - 1]) + RealizedOf(rows[|rows| - 1])
  }

  function Exposed(rows: seq<Row>): int {
    if rows == [] then 0 else Exposed(rows[..|rows| - 1]) + OpenOf(rows[|rows| - 1])
  }

  function JournalBankroll(initial: int, rows: seq<Row>): Bankroll {
    Bankroll(initial, Realized(rows), Exposed(rows), initial + Realized(rows) - Exposed(rows))
  }

  method BankrollFromJournal(initial: int, rows: seq<Row>) returns (bankroll: Bankroll)
    ensures bankroll == JournalBankroll(initial, rows)
  {
    var realized, open := 0, 0;
    for i := 0 to |rows|
      invariant realized == Realized(rows[..i]) && open == Exposed(rows[..i])
    {
      assert rows[..i + 1][..i] == rows[..i];
      var row := rows[i];
      if row.status == RowCompleted && row.profit.Some? {
        realized := realized + row.profit.value;
      }
      if row.status == RowReserved && row.stake.Some? {
        open := open + row.stake.value;
      }
    }
    assert rows[..|rows|] == rows;
    return Bankroll(initial, realized, open, initial + realized - open);
  }

  lemma JournalSnoc(initial: int, rows: seq<Row>, row: Row)
    ensures Realized(rows + [row]) == Realized(rows) + RealizedOf(row)
    ensures Exposed(rows + [row]) == Exposed(rows) + OpenOf(row)
  {
    assert (rows + [row])[..|rows|] == rows;
  }

  // ---- Planning ----

  /** To the nearest whole number, halves up. */
  function Round(x: real): int {
    (x + 0.5).Floor
  }

  function RequestedStake(strategy: Strategy, available: int): int {
    match strategy.staking
    case Percent(amount) => available * Round(amount * 100.0) / 10000
    case Flat(amount) => Round(amount * 100.0)
  }

  function Min(a: int, b: int): int {
    if b < a then b else a
  }

  function Capped(stake: int, cap: Option<int>): int {
    if cap.Some? then Min(stake, cap.value) else stake
  }

  function StakeFor(strategy: Strategy, risk: RiskSnapshot, bankroll: Bankroll): (stake: int)
    ensures stake <= bankroll.available
    ensures risk.maxStakePerBet.Some? ==> stake <= risk.maxStakePerBet.value
    ensures risk.maxOpenExposure.Some? ==> bankroll.open + stake <= risk.maxOpenExposure.value
  {
    var exposureLeft := if risk.maxOpenExposure.Some? then Some(risk.maxOpenExposure.value - bankroll.open) else None;
    Capped(
      Capped(Min(RequestedStake(strategy, bankroll.available), bankroll.available), risk.maxStakePerBet),
      exposureLeft)
  }

  predicate IsEligible(strategy: Strategy, signal: Signal) {
    && signal.market in strategy.markets
    && signal.edge >= strategy.minEdge
    && (strategy.minConfidence <= 0.0 || (signal.confidence.Some? && signal.confidence.value >= strategy.minConfidence))
  }

  function EligibleOf(strategy: Strategy, signals: seq<Signal>): (kept: seq<Signal>)
    ensures forall s | s in kept :: s in signals && IsEligible(strategy, s)
  {
    if signals == [] then []
    else
      var last, earlier := signals[|signals| - 1], EligibleOf(strategy, signals[..|signals| - 1]);
      if IsEligible(strategy, last) then earlier + [last] else earlier
  }

  function ByKey(): (Signal, Signal) -> bool {
    (left: Signal, right: Signal) => left.key < right.key
  }

  function Considered(strategy: Strategy, signals: seq<Signal>): seq<Signal> {
    StableSort(EligibleOf(strategy, signals), ByKey())
  }

  function History(rows: seq<Row>, key: nat): seq<Row> {
    if rows == [] then []
    else
      var last, earlier := rows[|rows| - 1], History(rows[..|rows| - 1], key);
      if last.signal == key then earlier + [last] else earlier
  }

  predicate IsActive(row: Row) {
    row.status == RowReserved || row.status == RowCompleted
  }

  predicate HasActive(rows: seq<Row>) {
    exists i | 0 <= i < |rows| :: IsActive(rows[i])
  }

  function Attempts(rows: seq<Row>): nat {
    if rows == [] then 0 else Attempts(rows[..|rows| - 1]) + if rows[|rows| - 1].stake.Some? then 1 else 0
  }

  function KeysOf(rows: seq<Row>): set<(nat, Kind)> {
    set i | 0 <= i < |rows| :: (rows[i].signal, rows[i].kind)
  }

  /** What a tick plans with. */
  datatype PlanInput = PlanInput(
    strategy: Strategy,
    risk: RiskSnapshot,
    existing: seq<Row>,
    select: QuoteSelector,
    now: int)

  datatype PlanState = PlanState(bankroll: Bankroll, known: set<(nat, Kind)>, decided: set<nat>, rows: seq<Row>)

  function QuoteFor(signal: Signal, input: PlanInput): Option<Quote> {
    var target := if input.risk.bookmakerKey.Some?
      then signal.quoteTarget.(bookmakerKey := input.risk.bookmakerKey) else signal.quoteTarget;
    input.select(target, input.now)
  }

  function BaseRow(signal: Signal, kind: Kind, quote: Option<Quote>, now: int): Row {
    Row(signal.key, kind, RowRejected, None, signal.fixtureId, signal.quoteTarget, signal.minOdd, None, now, quote,
        None, None, None, None)
  }

  function RejectedRow(signal: Signal, code: RejectionCode, quote: Option<Quote>, now: int): Row {
    BaseRow(signal, RejectedKind(code), quote, now).(code := Some(code))
  }

  function OrderRow(signal: Signal, attempt: nat, quote: Quote, stake: int, input: PlanInput): Row {
    BaseRow(signal, OrderKind(attempt), Some(quote), input.now).(
      status := RowReserved, stake := Some(stake), dueAt := Some(input.now + input.risk.latency))
  }

  /** One rejection per signal and cause, ever. */
  function Refusing(state: PlanState, signal: Signal, code: RejectionCode, quote: Option<Quote>, now: int): PlanState {
    var row := RejectedRow(signal, code, quote, now);
    if (row.signal, row.kind) in state.known then state
    else state.(known := state.known + {(row.signal, row.kind)}, rows := state.rows + [row])
  }

  function Ordering(state: PlanState, row: Row): PlanState
    requires row.stake.Some?
  {
    state.(
      bankroll := state.bankroll.(available := state.bankroll.available - row.stake.value,
                                  open := state.bankroll.open + row.stake.value),
      rows := state.rows + [row])
  }

  function PlanOne(state: PlanState, signal: Signal, input: PlanInput): PlanState {
    if signal.key in state.decided then state
    else
      var next := state.(decided := state.decided + {signal.key});
      var history := History(input.existing, signal.key);
      if HasActive(history) then next
      else
        var quote := QuoteFor(signal, input);
        if quote.None? then Refusing(next, signal, NoExecutableOdd, None, input.now)
        else if quote.value.odd < signal.minOdd then Refusing(next, signal, BelowMinOdd, quote, input.now)
        else
          var stake := StakeFor(input.strategy, input.risk, next.bankroll);
          if stake <= 0 then Refusing(next, signal, LimitExceeded, quote, input.now)
          else Ordering(next, OrderRow(signal, Attempts(history), quote.value, stake, input))
  }

  function PlanEach(start: PlanState, signals: seq<Signal>, input: PlanInput): PlanState {
    if signals == [] then start
    else PlanOne(PlanEach(start, signals[..|signals| - 1], input), signals[|signals| - 1], input)
  }

  function Start(bankroll: Bankroll, existing: seq<Row>): PlanState {
    PlanState(bankroll, KeysOf(existing), {}, [])
  }

  function Plan(signals: seq<Signal>, bankroll: Bankroll, input: PlanInput): PlanState {
    PlanEach(Start(bankroll, input.existing), Considered(input.strategy, signals), input)
  }

  /**
   * New decisions of a tick: rows collected, keys remembered and the bankroll drawn down as
   * the signals are taken in key order.
   */
  method PlanNewDecisions(signals: seq<Signal>, bankroll: Bankroll, input: PlanInput)
    returns (rows: seq<Row>, left: Bankroll)
    ensures rows == Plan(signals, bankroll, input).rows && left == Plan(signals, bankroll, input).bankroll
  {
    var known: set<(nat, Kind)> := KeysOf(input.existing);
    var rowsBySignal: map<nat, seq<Row>> := map[];
    for i := 0 to |input.existing|
      invariant forall key: nat ::
        (if key in rowsBySignal then rowsBySignal[key] else []) == History(input.existing[..i], key)
    {
      assert input.existing[..i + 1][..i] == input.existing[..i];
      var row := input.existing[i];
      var list := if row.signal in rowsBySignal then rowsBySignal[row.signal] else [];
      rowsBySignal := rowsBySignal[row.signal := list + [row]];
    }
    assert input.existing[..|input.existing|] == input.existing;
    var eligible := Considered(input.strategy, signals);
    var decided: set<nat> := {};
    rows, left := [], bankroll;
    for i := 0 to |eligible|
      invariant PlanState(left, known, decided, rows)
        == PlanEach(Start(bankroll, input.existing), eligible[..i], input)
    {
      assert eligible[..i + 1][..i] == eligible[..i];
      var signal := eligible[i];
      if signal.key in decided {
        continue;
      }
      decided := decided + {signal.key};
      var history := if signal.key in rowsBySignal then rowsBySignal[signal.key] else [];
      if HasActive(history) {
        continue;
      }
      var quote := QuoteFor(signal, input);
      var stake := StakeFor(input.strategy, input.risk, left);
      if quote.None? || quote.value.odd < signal.minOdd || stake <= 0 {
        var code := if quote.None? then NoExecutableOdd
          else if quote.value.odd < signal.minOdd then BelowMinOdd else LimitExceeded;
        var row := RejectedRow(signal, code, quote, input.now);
        if (row.signal, row.kind) !in known {
          known := known + {(row.signal, row.kind)};
          rows := rows + [row];
        }
        continue;
      }
      left := left.(available := left.available - stake, open := left.open + stake);
      rows := rows + [OrderRow(signal, Attempts(history), quote.value, stake, input)];
    }
    assert eligible[..|eligible|] == eligible;
  }

  // ---- Executing and settling ----

  /** The row after its latency has passed, if it has: executed, or rejected because the quote is gone or moved. */
  function PlanExecution(row: Row, select: QuoteSelector, now: int): Option<Row> {
    if row.status != RowReserved || row.executableOdd.Some? || row.dueAt.None? || row.dueAt.value > now then None
    else
      var target := row.target.(
        providerKey := if row.quote.Some? then Some(row.quote.value.providerKey) else None,
        bookmakerKey := if row.quote.Some? then Some(row.quote.value.bookmakerKey) else None);
      match select(target, row.dueAt.value)
      case None => Some(row.(status := RowRejected, code := Some(NoExecutableOdd)))
      case Some(quote) =>
        var executed := row.(executableOdd := Some(quote.odd));
        if quote.odd < row.minOdd then Some(executed.(status := RowRejected, code := Some(OddMoved))) else Some(executed)
  }

  /** The executed row once its match is resolved, or too old to be. */
  function PlanSettlement(row: Row, resolved: Option<Outcome>, now: int): Option<Row> {
    if row.status != RowReserved || row.executableOdd.None? || row.stake.None? then None
    else
      var outcome := if resolved.None? && now - row.decidedAt >= NO_RESULT_AFTER_MS then Some(NoResult) else resolved;
      match outcome
      case None => None
      case Some(known) =>
        var profit := match known
          case Won => Money.WinningProfit(row.stake.value, row.executableOdd.value)
          case Lost => -row.stake.value
          case _ => 0;
        Some(row.(status := RowCompleted, outcome := Some(known), profit := Some(profit)))
  }
}
