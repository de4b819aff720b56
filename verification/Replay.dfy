/**
 * The backtest replay: ticks rebuilt from stored statistics, signals followed to a bet or to the
 * reason there is none.
 */
module Replay {
  import opened Wrappers
  import opened Quotes
  import opened Sorting

  datatype StatRow = StatRow(
    id: string,
    fixture: string,
    at: int,
    team: Option<int>,
    elapsed: Option<int>,
    shots: Option<int>,
    onTarget: int,
    pressure: real)

  datatype Goal = Goal(fixture: string, team: int, minute: Option<int>)

  /** `final` is the final state of the match, read only to settle. */
  datatype Fixture = Fixture(id: string, providerId: string, home: Option<int>, away: Option<int>, final: string)

  datatype BetOutcome = Won | Lost | Void | NoResult

  /** One accumulator per statistic, over the match and over its first half. */
  datatype TeamStats = TeamStats(
    shots: map<int, int>,
    onTarget: map<int, int>,
    pressure: map<int, real>,
    htShots: map<int, int>,
    htOnTarget: map<int, int>,
    htPressure: map<int, real>)

  datatype RuleInput = RuleInput(fixture: string, home: int, away: int, elapsed: int, stats: TeamStats, score: (nat, nat))

  datatype RuleMatch = RuleMatch(
    team: int, market: string, isHome: bool, selection: string, edge: real, confidence: real, minOdd: int)

  /** What is not part of the replay itself: the rules, the market names, the settlement. */
  datatype Strategy = Strategy(
    rules: RuleInput -> seq<RuleMatch>,
    targetOf: (string, string, bool) -> Option<Target>,
    resolve: (string, bool, string) -> Option<BetOutcome>,
    markets: seq<string>,
    minEdge: real,
    minConfidence: real,
    latency: nat,
    maxQuoteAge: int,
    bookmakerKey: Option<string>)

  datatype Stage =
    | NoQuoteAtDecision
    | BelowMinOddAtDecision
    | NoQuoteAtExecution
    | BelowMinOddAtExecution
    | Placed

  datatype SignalKey = SignalKey(fixture: string, team: int, market: string)

  datatype SignalRecord = SignalRecord(fixture: string, market: string, firstAt: int, stage: Stage)

  datatype Bet = Bet(
    key: SignalKey,
    isHome: bool,
    selection: string,
    decidedAt: int,
    elapsed: int,
    odd: int,
    quotedOdd: int,
    edge: real,
    confidence: real,
    outcome: BetOutcome)

  /** The tables a replay reads. */
  datatype Dataset = Dataset(
    stats: seq<StatRow>,
    fixtures: map<string, Fixture>,
    goals: seq<Goal>,
    snapshots: seq<Snapshot>)

  datatype Period = Period(from: int, to: int)

  // ---- Reading ----

  function StageRank(stage: Stage): nat {
    match stage
    case NoQuoteAtDecision => 0
    case BelowMinOddAtDecision => 1
    case NoQuoteAtExecution => 2
    case BelowMinOddAtExecution => 3
    case Placed => 4
  }

  function InPeriod(stats: seq<StatRow>, period: Period): seq<StatRow> {
    if stats == [] then []
    else
      var last, earlier := stats[|stats| - 1], InPeriod(stats[..|stats| - 1], period);
      if period.from <= last.at <= period.to then earlier + [last] else earlier
  }

  /** By instant, then by identifier in collation order. */
  function ByInstant(rank: Collation): (StatRow, StatRow) -> bool {
    (left: StatRow, right: StatRow) =>
      if left.at != right.at then left.at < right.at else rank(left.id) < rank(right.id)
  }

  function Ordered(data: Dataset, period: Period, rank: Collation): seq<StatRow> {
    StableSort(InPeriod(data.stats, period), ByInstant(rank))
  }

  /** Fixtures in the order in which they first appear. */
  function FixtureOrder(rows: seq<StatRow>): seq<string> {
    if rows == [] then []
    else
      var last, earlier := rows[|rows| - 1], FixtureOrder(rows[..|rows| - 1]);
      if last.fixture in earlier then earlier else earlier + [last.fixture]
  }

  function RowsOf(rows: seq<StatRow>, fixture: string): seq<StatRow> {
    if rows == [] then []
    else
      var last, earlier := rows[|rows| - 1], RowsOf(rows[..|rows| - 1], fixture);
      if last.fixture == fixture then earlier + [last] else earlier
  }

  function Known(fixtures: map<string, Fixture>, ids: seq<string>): seq<string> {
    if ids == [] then []
    else
      var last, earlier := ids[|ids| - 1], Known(fixtures, ids[..|ids| - 1]);
      if last in fixtures then earlier + [fixtures[last].providerId] else earlier
  }

  function Candidates(data: Dataset, strategy: Strategy, period: Period, rank: Collation): seq<Quote> {
    LoadCandidates(
      data.snapshots,
      Window(Known(data.fixtures, FixtureOrder(Ordered(data, period, rank))),
             period.from - strategy.maxQuoteAge, period.to + strategy.latency),
      rank)
  }

  // ---- One fixture ----

  /** Goals of a team up to a minute, that minute included. */
  function GoalsBy(goals: seq<Goal>, fixture: string, team: int, elapsed: int): nat {
    if goals == [] then 0
    else
      var last := goals[|goals| - 1];
      GoalsBy(goals[..|goals| - 1], fixture, team, elapsed)
      + if last.fixture == fixture && last.team == team && last.minute.Some? && last.minute.value <= elapsed then 1 else 0
  }

  /** A goal of a team that plays itself counts for the home side only. */
  function ScoreAt(goals: seq<Goal>, fixture: Fixture, elapsed: int): (nat, nat)
    requires fixture.home.Some? && fixture.away.Some?
  {
    (GoalsBy(goals, fixture.id, fixture.home.value, elapsed),
     if fixture.home == fixture.away then 0 else GoalsBy(goals, fixture.id, fixture.away.value, elapsed))
  }

  /** What one call reads besides the statistics. */
  datatype Env = Env(strategy: Strategy, candidates: seq<Quote>, rank: Collation, goals: seq<Goal>)

  datatype Progress = Progress(placed: set<SignalKey>, signals: map<SignalKey, SignalRecord>, bets: seq<Bet>)

  datatype Tick = Tick(stats: TeamStats, at: Option<int>, elapsed: Option<int>)

  const NO_STATS := TeamStats(map[], map[], map[], map[], map[], map[])

  const NO_TICK := Tick(NO_STATS, None, None)

  function Recorded(signals: map<SignalKey, SignalRecord>, key: SignalKey, at: int,
                    stage: Stage): map<SignalKey, SignalRecord> {
    if key !in signals then signals[key := SignalRecord(key.fixture, key.market, at, stage)]
    else if StageRank(stage) > StageRank(signals[key].stage) then signals[key := signals[key].(stage := stage)]
    else signals
  }

  function Select(env: Env, target: Target, at: int): Option<Quote> {
    SelectLatest(env.candidates, QuoteQuery(target, at, env.strategy.maxQuoteAge), env.rank)
  }

  predicate Wanted(strategy: Strategy, found: RuleMatch) {
    found.market in strategy.markets && found.edge >= strategy.minEdge && found.confidence >= strategy.minConfidence
  }

  function TargetFor(strategy: Strategy, fixture: Fixture, found: RuleMatch): Option<Target> {
    match strategy.targetOf(fixture.providerId, found.market, found.isHome)
    case None => None
    case Some(target) =>
      Some(if strategy.bookmakerKey.Some? then target.(bookmakerKey := strategy.bookmakerKey) else target)
  }

  function BetOf(key: SignalKey, fixture: Fixture, found: RuleMatch, at: int, elapsed: int, decision: Quote,
                 execution: Quote, strategy: Strategy): Bet {
    var resolved := strategy.resolve(found.market, found.isHome, fixture.final);
    Bet(key, found.isHome, found.selection, at, elapsed, execution.odd, decision.odd, found.edge, found.confidence,
        if resolved.Some? then resolved.value else NoResult)
  }

  /** A triggered rule followed to a bet, or to the stage where it stopped. */
  function Follow(env: Env, fixture: Fixture, at: int, elapsed: int, progress: Progress, found: RuleMatch): Progress {
    var key := SignalKey(fixture.id, found.team, found.market);
    var target := TargetFor(env.strategy, fixture, found);
    if !Wanted(env.strategy, found) || key in progress.placed || target.None? then progress
    else
      var decision := Select(env, target.value, at);
      if decision.None? then
        progress.(signals := Recorded(progress.signals, key, at, NoQuoteAtDecision))
      else if decision.value.odd < found.minOdd then
        progress.(signals := Recorded(progress.signals, key, at, BelowMinOddAtDecision))
      else
        var same := target.value.(providerKey := Some(decision.value.providerKey),
                                  bookmakerKey := Some(decision.value.bookmakerKey));
        var execution := Select(env, same, at + env.strategy.latency);
        if execution.None? then
          progress.(signals := Recorded(progress.signals, key, at, NoQuoteAtExecution))
        else if execution.value.odd < found.minOdd then
          progress.(signals := Recorded(progress.signals, key, at, BelowMinOddAtExecution))
        else
          Progress(
            progress.placed + {key},
            Recorded(progress.signals, key, at, Placed),
            progress.bets + [BetOf(key, fixture, found, at, elapsed, decision.value, execution.value, env.strategy)])
  }

  function FollowAll(env: Env, fixture: Fixture, at: int, elapsed: int, progress: Progress,
                     found: seq<RuleMatch>): Progress {
    if found == [] then progress
    else Follow(env, fixture, at, elapsed, FollowAll(env, fixture, at, elapsed, progress, found[..|found| - 1]), found[|found| - 1])
  }

  predicate Playable(fixture: Fixture) {
    fixture.home.Some? && fixture.away.Some?
  }

  function RuleInputAt(env: Env, fixture: Fixture, stats: TeamStats, elapsed: int): RuleInput
    requires Playable(fixture)
  {
    RuleInput(fixture.id, fixture.home.value, fixture.away.value, elapsed, stats, ScoreAt(env.goals, fixture, elapsed))
  }

  /** Decide at the tick as it stands, if its minute is known. */
  function Evaluate(env: Env, fixture: Fixture, tick: Tick, progress: Progress): Progress
    requires Playable(fixture)
  {
    if tick.at.None? || tick.elapsed.None? then progress
    else
      FollowAll(env, fixture, tick.at.value, tick.elapsed.value, progress,
                env.strategy.rules(RuleInputAt(env, fixture, tick.stats, tick.elapsed.value)))
  }

  function Absorb(tick: Tick, row: StatRow): Tick {
    var elapsed := if row.elapsed.Some? then row.elapsed else tick.elapsed;
    if row.team.None? then Tick(tick.stats, Some(row.at), elapsed)
    else
      var team, firstHalf := row.team.value, row.elapsed.Some? && row.elapsed.value <= 45;
      var stats := tick.stats.(onTarget := tick.stats.onTarget[team := row.onTarget],
                               pressure := tick.stats.pressure[team := row.pressure]);
      var shot := if row.shots.Some? then stats.(shots := stats.shots[team := row.shots.value]) else stats;
      Tick(
        if !firstHalf then shot
        else
          var half := shot.(htOnTarget := shot.htOnTarget[team := row.onTarget],
                            htPressure := shot.htPressure[team := row.pressure]);
          if row.shots.Some? then half.(htShots := half.htShots[team := row.shots.value]) else half,
        Some(row.at), elapsed)
  }

  datatype Cursor = Cursor(tick: Tick, progress: Progress)

  /** A row of a new instant first closes the tick before it. */
  function Advance(env: Env, fixture: Fixture, cursor: Cursor, row: StatRow): Cursor
    requires Playable(fixture)
  {
    var closed := if cursor.tick.at.Some? && cursor.tick.at.value != row.at
      then Evaluate(env, fixture, cursor.tick, cursor.progress) else cursor.progress;
    Cursor(Absorb(cursor.tick, row), closed)
  }

  function AdvanceAll(env: Env, fixture: Fixture, start: Progress, rows: seq<StatRow>): Cursor
    requires Playable(fixture)
  {
    if rows == [] then Cursor(NO_TICK, start)
    else Advance(env, fixture, AdvanceAll(env, fixture, start, rows[..|rows| - 1]), rows[|rows| - 1])
  }

  /** Keys already placed belong to this fixture only: each fixture starts with none. */
  function ReplayFixture(env: Env, fixture: Fixture, before: Progress, rows: seq<StatRow>): Progress
    requires Playable(fixture)
  {
    var end := AdvanceAll(env, fixture, before.(placed := {}), rows);
    Evaluate(env, fixture, end.tick, end.progress)
  }

  function ReplayFixtures(env: Env, fixtures: map<string, Fixture>, ids: seq<string>, rows: seq<StatRow>): Progress {
    if ids == [] then Progress({}, map[], [])
    else
      var id, before := ids[|ids| - 1], ReplayFixtures(env, fixtures, ids[..|ids| - 1], rows);
      if id in fixtures && Playable(fixtures[id]) then ReplayFixture(env, fixtures[id], before, RowsOf(rows, id)) else before
  }

  function EnvOf(data: Dataset, strategy: Strategy, period: Period, rank: Collation): Env {
    Env(strategy, Candidates(data, strategy, period, rank), rank, data.goals)
  }

  function ReplayDetailed(data: Dataset, strategy: Strategy, period: Period, rank: Collation): Progress {
    var rows := Ordered(data, period, rank);
    ReplayFixtures(EnvOf(data, strategy, period, rank), data.fixtures, FixtureOrder(rows), rows)
  }

  // ---- The loops ----

  /** Rows grouped by fixture, fixtures in order of first appearance. */
  method GroupByFixture(rows: seq<StatRow>) returns (order: seq<string>, groups: map<string, seq<StatRow>>)
    ensures order == FixtureOrder(rows)
    ensures forall id :: id in groups <==> id in order
    ensures forall id | id in groups :: groups[id] == RowsOf(rows, id)
  {
    order, groups := [], map[];
    for i := 0 to |rows|
      invariant order == FixtureOrder(rows[..i])
      invariant forall id :: id in groups <==> id in order
      invariant forall id :: (if id in groups then groups[id] else []) == RowsOf(rows[..i], id)
    {
      assert rows[..i + 1][..i] == rows[..i];
      var row := rows[i];
      if row.fixture !in groups {
        order := order + [row.fixture];
        groups := groups[row.fixture := [row]];
      } else {
        groups := groups[row.fixture := groups[row.fixture] + [row]];
      }
    }
    assert rows[..|rows|] == rows;
  }

  /** The tick loop of one fixture. */
  method RunFixture(env: Env, fixture: Fixture, before: Progress, rows: seq<StatRow>) returns (after: Progress)
    requires Playable(fixture)
    ensures after == ReplayFixture(env, fixture, before, rows)
  {
    hide Evaluate;
    var tick := NO_TICK;
    after := before.(placed := {});
    for i := 0 to |rows|
      invariant Cursor(tick, after) == AdvanceAll(env, fixture, before.(placed := {}), rows[..i])
    {
      assert rows[..i + 1][..i] == rows[..i];
      var row := rows[i];
      if tick.at.Some? && tick.at.value != row.at {
        after := EvaluateTick(env, fixture, tick, after);
      }
      tick := Absorb(tick, row);
    }
    assert rows[..|rows|] == rows;
    after := EvaluateTick(env, fixture, tick, after);
  }

  /** The rules triggered by a tick, followed one after the other. */
  method EvaluateTick(env: Env, fixture: Fixture, tick: Tick, before: Progress) returns (after: Progress)
    requires Playable(fixture)
    ensures after == Evaluate(env, fixture, tick, before)
  {
    after := before;
    if tick.at.None? || tick.elapsed.None? {
      return;
    }
    var at, elapsed := tick.at.value, tick.elapsed.value;
    var found := env.strategy.rules(RuleInputAt(env, fixture, tick.stats, elapsed));
    for i := 0 to |found|
      invariant after == FollowAll(env, fixture, at, elapsed, before, found[..i])
    {
      assert found[..i + 1][..i] == found[..i];
      after := Follow(env, fixture, at, elapsed, after, found[i]);
    }
    assert found[..|found|] == found;
  }

  method Run(data: Dataset, strategy: Strategy, period: Period, rank: Collation) returns (result: Progress)
    ensures result == ReplayDetailed(data, strategy, period, rank)
  {
    hide ReplayFixture, Candidates;
    var rows := Ordered(data, period, rank);
    var env := EnvOf(data, strategy, period, rank);
    var order, groups := GroupByFixture(rows);
    result := Progress({}, map[], []);
    for i := 0 to |order|
      invariant result == ReplayFixtures(env, data.fixtures, order[..i], rows)
    {
      assert order[..i + 1][..i] == order[..i];
      var id := order[i];
      if id in data.fixtures && Playable(data.fixtures[id]) {
        result := RunFixture(env, data.fixtures[id], result, groups[id]);
      }
    }
    assert order[..|order|] == order;
  }
}
