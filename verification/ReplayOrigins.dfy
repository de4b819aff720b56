/**
 * Where every bet of a replay comes from, and what becomes of every triggered rule: ticks as
 * the statistics known at their instant, quotes as the freshest ones at the decision and,
 * from the same provider and bookmaker, once the latency has passed.
 */
module ReplayOrigins {
  import opened Wrappers
  import opened Quotes
  import opened Sorting
  import opened Replay
  import opened ReplayProofs

  // ---- What a tick knows ----

  /** Among the rows of a team that count, the last one says the value. */
  ghost predicate SaysLast<V(!new)>(m: map<int, V>, rows: seq<StatRow>, counts: StatRow -> bool, value: StatRow -> V) {
    && (forall i | 0 <= i < |rows| && rows[i].team.Some? && counts(rows[i]) :: rows[i].team.value in m)
    && forall team | team in m :: exists i | 0 <= i < |rows| ::
         && rows[i].team == Some(team) && counts(rows[i]) && m[team] == value(rows[i])
         && forall j | i < j < |rows| :: !(rows[j].team == Some(team) && counts(rows[j]))
  }

  predicate InFirstHalf(row: StatRow) {
    row.elapsed.Some? && row.elapsed.value <= 45
  }

  /** The tick after some rows of a fixture: their last instant, last known minute, and last statistics of each team. */
  ghost predicate TickSays(tick: Tick, rows: seq<StatRow>) {
    && (if rows == [] then tick.at.None? else tick.at == Some(rows[|rows| - 1].at))
    && (tick.elapsed.None? <==> forall i | 0 <= i < |rows| :: rows[i].elapsed.None?)
    && (tick.elapsed.Some? ==> exists i | 0 <= i < |rows| ::
          rows[i].elapsed == tick.elapsed && forall j | i < j < |rows| :: rows[j].elapsed.None?)
    && SaysLast(tick.stats.onTarget, rows, (row: StatRow) => true, (row: StatRow) => row.onTarget)
    && SaysLast(tick.stats.pressure, rows, (row: StatRow) => true, (row: StatRow) => row.pressure)
    && SaysLast(tick.stats.shots, rows, (row: StatRow) => row.shots.Some?, (row: StatRow) => ShotsOf(row))
    && SaysLast(tick.stats.htOnTarget, rows, (row: StatRow) => InFirstHalf(row), (row: StatRow) => row.onTarget)
    && SaysLast(tick.stats.htPressure, rows, (row: StatRow) => InFirstHalf(row), (row: StatRow) => row.pressure)
    && SaysLast(tick.stats.htShots, rows, (row: StatRow) => InFirstHalf(row) && row.shots.Some?, (row: StatRow) => ShotsOf(row))
  }

  function ShotsOf(row: StatRow): int {
    if row.shots.Some? then row.shots.value else 0
  }

  lemma SaysLastGrows<V(!new)>(m: map<int, V>, rows: seq<StatRow>, row: StatRow, counts: StatRow -> bool,
                        value: StatRow -> V)
    requires SaysLast(m, rows, counts, value)
    ensures SaysLast(if row.team.Some? && counts(row) then m[row.team.value := value(row)] else m, rows + [row], counts, value)
  {
    var longer := rows + [row];
    var after := if row.team.Some? && counts(row) then m[row.team.value := value(row)] else m;
    forall team | team in after
      ensures exists i | 0 <= i < |longer| ::
        && longer[i].team == Some(team) && counts(longer[i]) && after[team] == value(longer[i])
        && forall j | i < j < |longer| :: !(longer[j].team == Some(team) && counts(longer[j]))
    {
      if row.team == Some(team) && counts(row) {
        assert longer[|rows|] == row;
      } else {
        var i :| 0 <= i < |rows| && rows[i].team == Some(team) && counts(rows[i]) && m[team] == value(rows[i])
          && forall j | i < j < |rows| :: !(rows[j].team == Some(team) && counts(rows[j]));
        assert longer[i] == rows[i];
      }
    }
  }

  lemma AbsorbSays(tick: Tick, rows: seq<StatRow>, row: StatRow)
    requires TickSays(tick, rows)
    ensures TickSays(Absorb(tick, row), rows + [row])
  {
    hide SaysLast;
    var stats := tick.stats;
    SaysLastGrows(stats.onTarget, rows, row, (r: StatRow) => true, (r: StatRow) => r.onTarget);
    SaysLastGrows(stats.pressure, rows, row, (r: StatRow) => true, (r: StatRow) => r.pressure);
    SaysLastGrows(stats.shots, rows, row, (r: StatRow) => r.shots.Some?, (r: StatRow) => ShotsOf(r));
    SaysLastGrows(stats.htOnTarget, rows, row, (r: StatRow) => InFirstHalf(r), (r: StatRow) => r.onTarget);
    SaysLastGrows(stats.htPressure, rows, row, (r: StatRow) => InFirstHalf(r), (r: StatRow) => r.pressure);
    SaysLastGrows(stats.htShots, rows, row, (r: StatRow) => InFirstHalf(r) && r.shots.Some?, (r: StatRow) => ShotsOf(r));
    var longer := rows + [row];
    if row.elapsed.Some? {
      assert longer[|rows|].elapsed == Absorb(tick, row).elapsed;
    } else if tick.elapsed.Some? {
      var i :| 0 <= i < |rows| && rows[i].elapsed == tick.elapsed && forall j | i < j < |rows| :: rows[j].elapsed.None?;
      assert longer[i] == rows[i];
    }
  }

  lemma {:induction false} AdvancedSays(env: Env, fixture: Fixture, start: Progress, rows: seq<StatRow>)
    requires Playable(fixture)
    ensures TickSays(AdvanceAll(env, fixture, start, rows).tick, rows)
  {
    hide TickSays, Absorb, Evaluate;
    if rows == [] {
      NothingSaid();
    } else {
      var init := rows[..|rows| - 1];
      AdvancedSays(env, fixture, start, init);
      AbsorbSays(AdvanceAll(env, fixture, start, init).tick, init, rows[|rows| - 1]);
      assert init + [rows[|rows| - 1]] == rows;
    }
  }

  lemma NothingSaid()
    ensures TickSays(NO_TICK, [])
  {
  }

  /** The goals of a team on the score sheet by a minute, that minute included. */
  lemma {:induction false} GoalsAreCounted(goals: seq<Goal>, fixture: string, team: int, elapsed: int)
    ensures GoalsBy(goals, fixture, team, elapsed)
      == |set g | 0 <= g < |goals| && goals[g].fixture == fixture && goals[g].team == team
                  && goals[g].minute.Some? && goals[g].minute.value <= elapsed|
  {
    if goals != [] {
      var n := |goals| - 1;
      var init := goals[..n];
      GoalsAreCounted(init, fixture, team, elapsed);
      var before := set g | 0 <= g < n && init[g].fixture == fixture && init[g].team == team
                            && init[g].minute.Some? && init[g].minute.value <= elapsed;
      var after := set g | 0 <= g < |goals| && goals[g].fixture == fixture && goals[g].team == team
                           && goals[g].minute.Some? && goals[g].minute.value <= elapsed;
      if goals[n].fixture == fixture && goals[n].team == team && goals[n].minute.Some? && goals[n].minute.value <= elapsed {
        assert after == before + {n};
      } else {
        assert after == before;
      }
    }
  }

  // ---- What becomes of a triggered rule ----

  /** The strategy plays the market, and the rule is sure enough and sees enough value. */
  predicate IsPlayed(strategy: Strategy, found: RuleMatch) {
    found.market in strategy.markets && found.edge >= strategy.minEdge && found.confidence >= strategy.minConfidence
  }

  /** What the market's name aims at, at the strategy's own bookmaker if it has one. */
  predicate AimsAt(strategy: Strategy, fixture: Fixture, found: RuleMatch, target: Target) {
    var named := strategy.targetOf(fixture.providerId, found.market, found.isHome);
    && named.Some?
    && target == named.value.(bookmakerKey :=
         if strategy.bookmakerKey.Some? then strategy.bookmakerKey else named.value.bookmakerKey)
  }

  /** The freshest quote at the decision and, from its provider and bookmaker, the freshest one after the latency. */
  ghost predicate QuotedAs(env: Env, target: Target, at: int, decision: Option<Quote>, execution: Option<Quote>) {
    && IsFreshest(env.candidates, env.rank, target, at, env.strategy.maxQuoteAge, decision)
    && (decision.Some? ==>
          IsFreshest(env.candidates, env.rank,
                     target.(providerKey := Some(decision.value.providerKey), bookmakerKey := Some(decision.value.bookmakerKey)),
                     at + env.strategy.latency, env.strategy.maxQuoteAge, execution))
  }

  /** How far a signal gets with these quotes. */
  function StageReached(decision: Option<Quote>, execution: Option<Quote>, minOdd: int): Stage {
    if decision.None? then NoQuoteAtDecision
    else if decision.value.odd < minOdd then BelowMinOddAtDecision
    else if execution.None? then NoQuoteAtExecution
    else if execution.value.odd < minOdd then BelowMinOddAtExecution
    else Placed
  }

  /** The bet is on the rule's call, at the two odds quoted, with the outcome of the match. */
  predicate BetSays(bet: Bet, strategy: Strategy, fixture: Fixture, found: RuleMatch, at: int, elapsed: int,
                    decision: Quote, execution: Quote)
  {
    && bet.key == SignalKey(fixture.id, found.team, found.market)
    && bet.isHome == found.isHome && bet.selection == found.selection
    && bet.edge == found.edge && bet.confidence == found.confidence
    && bet.decidedAt == at && bet.elapsed == elapsed
    && bet.quotedOdd == decision.odd && bet.odd == execution.odd
    && bet.outcome == match strategy.resolve(found.market, found.isHome, fixture.final)
                      case Some(outcome) => outcome
                      case None => NoResult
  }

  /** Later stages replace earlier ones of the same signal; the first instant stays. */
  ghost predicate Notes(before: map<SignalKey, SignalRecord>, after: map<SignalKey, SignalRecord>, key: SignalKey,
                        at: int, stage: Stage) {
    && after.Keys == before.Keys + {key}
    && (forall other | other in before && other != key :: after[other] == before[other])
    && after[key].fixture == (if key in before then before[key].fixture else key.fixture)
    && after[key].market == (if key in before then before[key].market else key.market)
    && after[key].firstAt == (if key in before then before[key].firstAt else at)
    && after[key].stage ==
         if key !in before then stage
         else if Further(stage, before[key].stage) then stage else before[key].stage
  }

  predicate Further(stage: Stage, than: Stage) {
    match than
    case NoQuoteAtDecision => stage != NoQuoteAtDecision
    case BelowMinOddAtDecision => stage in {NoQuoteAtExecution, BelowMinOddAtExecution, Placed}
    case NoQuoteAtExecution => stage in {BelowMinOddAtExecution, Placed}
    case BelowMinOddAtExecution => stage == Placed
    case Placed => false
  }

  /** What following a rule does, with the quotes there are. */
  ghost predicate Leads(env: Env, fixture: Fixture, at: int, elapsed: int, before: Progress, after: Progress,
                        found: RuleMatch,
                        target: Target, decision: Option<Quote>, execution: Option<Quote>)
  {
    var key, stage := SignalKey(fixture.id, found.team, found.market), StageReached(decision, execution, found.minOdd);
    && AimsAt(env.strategy, fixture, found, target)
    && QuotedAs(env, target, at, decision, execution)
    && Notes(before.signals, after.signals, key, at, stage)
    && if stage != Placed then after.bets == before.bets && after.placed == before.placed
       else
         && after.placed == before.placed + {key}
         && |after.bets| == |before.bets| + 1 && after.bets[..|before.bets|] == before.bets
         && BetSays(after.bets[|before.bets|], env.strategy, fixture, found, at, elapsed, decision.value, execution.value)
  }

  lemma TargetAims(strategy: Strategy, fixture: Fixture, found: RuleMatch)
    ensures TargetFor(strategy, fixture, found).Some? <==> exists target :: AimsAt(strategy, fixture, found, target)
    ensures TargetFor(strategy, fixture, found).Some? ==> AimsAt(strategy, fixture, found, TargetFor(strategy, fixture, found).value)
  {
    if strategy.targetOf(fixture.providerId, found.market, found.isHome).Some? {
      assert AimsAt(strategy, fixture, found, TargetFor(strategy, fixture, found).value);
    }
  }

  lemma RecordedNotes(signals: map<SignalKey, SignalRecord>, key: SignalKey, at: int, stage: Stage)
    ensures Notes(signals, Recorded(signals, key, at, stage), key, at, stage)
  {
  }

  /**
   * A triggered rule that is played, aims at something and has no bet yet leads as far as its
   * quotes allow, to a bet exactly when both are there at its minimum odd or better; any
   * other changes nothing.
   */
  lemma FollowedExactly(env: Env, fixture: Fixture, at: int, elapsed: int, progress: Progress, found: RuleMatch)
    ensures
      var after, key := Follow(env, fixture, at, elapsed, progress, found), SignalKey(fixture.id, found.team, found.market);
      if IsPlayed(env.strategy, found) && key !in progress.placed && (exists target :: AimsAt(env.strategy, fixture, found, target))
      then exists target, decision, execution :: Leads(env, fixture, at, elapsed, progress, after, found, target, decision, execution)
      else after == progress
  {
    hide AimsAt, SelectLatest, IsFreshest, Recorded, Notes, TargetFor;
    TargetAims(env.strategy, fixture, found);
    var after, key := Follow(env, fixture, at, elapsed, progress, found), SignalKey(fixture.id, found.team, found.market);
    if IsPlayed(env.strategy, found) && key !in progress.placed && TargetFor(env.strategy, fixture, found).Some? {
      var target := TargetFor(env.strategy, fixture, found).value;
      SelectsFreshest(env.candidates, QuoteQuery(target, at, env.strategy.maxQuoteAge), env.rank);
      var decision := Select(env, target, at);
      var execution: Option<Quote> := None;
      if decision.Some? {
        var same := target.(providerKey := Some(decision.value.providerKey), bookmakerKey := Some(decision.value.bookmakerKey));
        SelectsFreshest(env.candidates, QuoteQuery(same, at + env.strategy.latency, env.strategy.maxQuoteAge), env.rank);
        execution := Select(env, same, at + env.strategy.latency);
      }
      RecordedNotes(progress.signals, key, at, StageReached(decision, execution, found.minOdd));
      assert Leads(env, fixture, at, elapsed, progress, after, found, target, decision, execution);
    }
  }

  // ---- Where the bets of a replay come from ----

  ghost function CountGoals(goals: seq<Goal>, fixture: string, team: int, elapsed: int): nat {
    |set g | 0 <= g < |goals| && goals[g].fixture == fixture && goals[g].team == team
             && goals[g].minute.Some? && goals[g].minute.value <= elapsed|
  }

  /** A row of another instant follows the first `n`, or none does. */
  predicate Closes(rows: seq<StatRow>, n: nat) {
    0 < n <= |rows| && (n < |rows| ==> rows[n].at != rows[n - 1].at)
  }

  /** The rules, asked about the tick after the first `n` rows and the score then, call for this. */
  ghost predicate Calls(env: Env, fixture: Fixture, rows: seq<StatRow>, n: nat, tick: Tick, found: RuleMatch)
    requires Playable(fixture)
  {
    && Closes(rows, n) && TickSays(tick, rows[..n]) && tick.elapsed.Some?
    && found in env.strategy.rules(RuleInput(
         fixture.id, fixture.home.value, fixture.away.value, tick.elapsed.value, tick.stats,
         (CountGoals(env.goals, fixture.id, fixture.home.value, tick.elapsed.value),
          if fixture.home == fixture.away then 0
          else CountGoals(env.goals, fixture.id, fixture.away.value, tick.elapsed.value))))
  }

  /** The bet follows a played call at two quotes of its minimum odd or better. */
  ghost predicate Backs(bet: Bet, env: Env, fixture: Fixture, at: int, elapsed: int, found: RuleMatch, target: Target,
                        decision: Quote, execution: Quote)
  {
    && IsPlayed(env.strategy, found) && AimsAt(env.strategy, fixture, found, target)
    && QuotedAs(env, target, at, Some(decision), Some(execution))
    && decision.odd >= found.minOdd && execution.odd >= found.minOdd
    && BetSays(bet, env.strategy, fixture, found, at, elapsed, decision, execution)
  }

  ghost predicate Follows(bet: Bet, env: Env, fixture: Fixture, at: int, elapsed: int, found: seq<RuleMatch>) {
    exists call, target, decision, execution ::
      call in found && Backs(bet, env, fixture, at, elapsed, call, target, decision, execution)
  }

  lemma FollowOrigin(env: Env, fixture: Fixture, at: int, elapsed: int, progress: Progress, found: RuleMatch)
    ensures
      var after := Follow(env, fixture, at, elapsed, progress, found);
      && |progress.bets| <= |after.bets| && after.bets[..|progress.bets|] == progress.bets
      && forall i | |progress.bets| <= i < |after.bets| :: Follows(after.bets[i], env, fixture, at, elapsed, [found])
  {
    hide Follow, IsPlayed, AimsAt, QuotedAs, Notes, BetSays;
    FollowedExactly(env, fixture, at, elapsed, progress, found);
    var after, key := Follow(env, fixture, at, elapsed, progress, found), SignalKey(fixture.id, found.team, found.market);
    if IsPlayed(env.strategy, found) && key !in progress.placed && (exists target :: AimsAt(env.strategy, fixture, found, target)) {
      var target, decision, execution :| Leads(env, fixture, at, elapsed, progress, after, found, target, decision, execution);
      if StageReached(decision, execution, found.minOdd) == Placed {
        assert Backs(after.bets[|progress.bets|], env, fixture, at, elapsed, found, target, decision.value, execution.value);
        assert found in [found];
      }
    }
  }

  lemma FollowsMore(bet: Bet, env: Env, fixture: Fixture, at: int, elapsed: int, found: seq<RuleMatch>,
                    more: seq<RuleMatch>)
    requires Follows(bet, env, fixture, at, elapsed, found) && forall call | call in found :: call in more
    ensures Follows(bet, env, fixture, at, elapsed, more)
  {
    hide Backs;
    var call, target, decision, execution :|
      call in found && Backs(bet, env, fixture, at, elapsed, call, target, decision, execution);
    assert call in more;
  }

  lemma {:induction false} FollowAllOrigin(env: Env, fixture: Fixture, at: int, elapsed: int, progress: Progress,
                                           found: seq<RuleMatch>)
    ensures
      var after := FollowAll(env, fixture, at, elapsed, progress, found);
      && |progress.bets| <= |after.bets| && after.bets[..|progress.bets|] == progress.bets
      && forall i | |progress.bets| <= i < |after.bets| :: Follows(after.bets[i], env, fixture, at, elapsed, found)
  {
    hide Follow, Follows;
    if found != [] {
      var init, last := found[..|found| - 1], found[|found| - 1];
      FollowAllOrigin(env, fixture, at, elapsed, progress, init);
      var mid := FollowAll(env, fixture, at, elapsed, progress, init);
      FollowOrigin(env, fixture, at, elapsed, mid, last);
      var after := Follow(env, fixture, at, elapsed, mid, last);
      assert after.bets[..|progress.bets|] == after.bets[..|mid.bets|][..|progress.bets|];
      forall i | |progress.bets| <= i < |after.bets|
        ensures Follows(after.bets[i], env, fixture, at, elapsed, found)
      {
        if i < |mid.bets| {
          assert after.bets[i] == after.bets[..|mid.bets|][i];
          FollowsMore(after.bets[i], env, fixture, at, elapsed, init, found);
        } else {
          FollowsMore(after.bets[i], env, fixture, at, elapsed, [last], found);
        }
      }
    }
  }

  /** The bet follows a call of some tick of the fixture's rows. */
  ghost predicate ComesFrom(bet: Bet, env: Env, fixture: Fixture, rows: seq<StatRow>)
    requires Playable(fixture)
  {
    exists n: nat, tick, found, target, decision, execution ::
      && Calls(env, fixture, rows, n, tick, found) && tick.at == Some(bet.decidedAt)
      && Backs(bet, env, fixture, bet.decidedAt, tick.elapsed.value, found, target, decision, execution)
  }

  lemma ScoreIsCounted(env: Env, fixture: Fixture, stats: TeamStats, elapsed: int)
    requires Playable(fixture)
    ensures RuleInputAt(env, fixture, stats, elapsed) == RuleInput(
      fixture.id, fixture.home.value, fixture.away.value, elapsed, stats,
      (CountGoals(env.goals, fixture.id, fixture.home.value, elapsed),
       if fixture.home == fixture.away then 0 else CountGoals(env.goals, fixture.id, fixture.away.value, elapsed)))
  {
    GoalsAreCounted(env.goals, fixture.id, fixture.home.value, elapsed);
    GoalsAreCounted(env.goals, fixture.id, fixture.away.value, elapsed);
  }

  lemma TickOrigin(env: Env, fixture: Fixture, rows: seq<StatRow>, n: nat, tick: Tick, progress: Progress)
    requires Playable(fixture) && Closes(rows, n) && TickSays(tick, rows[..n])
    ensures
      var after := Evaluate(env, fixture, tick, progress);
      && |progress.bets| <= |after.bets| && after.bets[..|progress.bets|] == progress.bets
      && forall i | |progress.bets| <= i < |after.bets| :: ComesFrom(after.bets[i], env, fixture, rows)
  {
    hide FollowAll, TickSays, RuleInputAt, CountGoals, IsPlayed, AimsAt, QuotedAs;
    if tick.at.Some? && tick.elapsed.Some? {
      var at, elapsed := tick.at.value, tick.elapsed.value;
      var found := env.strategy.rules(RuleInputAt(env, fixture, tick.stats, elapsed));
      ScoreIsCounted(env, fixture, tick.stats, elapsed);
      FollowAllOrigin(env, fixture, at, elapsed, progress, found);
      var after := Evaluate(env, fixture, tick, progress);
      forall i | |progress.bets| <= i < |after.bets|
        ensures ComesFrom(after.bets[i], env, fixture, rows)
      {
        assert Follows(after.bets[i], env, fixture, at, elapsed, found);
        var call, target, decision, execution :|
          call in found && Backs(after.bets[i], env, fixture, at, elapsed, call, target, decision, execution);
        assert Calls(env, fixture, rows, n, tick, call);
      }
    }
  }

  lemma {:induction false} AdvanceOrigin(env: Env, fixture: Fixture, start: Progress, rows: seq<StatRow>, m: nat)
    requires Playable(fixture) && m <= |rows|
    ensures
      var after := AdvanceAll(env, fixture, start, rows[..m]).progress.bets;
      && |start.bets| <= |after| && after[..|start.bets|] == start.bets
      && forall i | |start.bets| <= i < |after| :: ComesFrom(after[i], env, fixture, rows)
  {
    hide Evaluate, Absorb, ComesFrom, TickSays;
    if m > 0 {
      AdvanceOrigin(env, fixture, start, rows, m - 1);
      AdvancedSays(env, fixture, start, rows[..m - 1]);
      assert rows[..m][..m - 1] == rows[..m - 1];
      var cursor := AdvanceAll(env, fixture, start, rows[..m - 1]);
      TickIsDated(cursor.tick, rows[..m - 1]);
      if cursor.tick.at.Some? && cursor.tick.at.value != rows[m - 1].at {
        TickOrigin(env, fixture, rows, m - 1, cursor.tick, cursor.progress);
        BetsAppend(start.bets, cursor.progress.bets, Evaluate(env, fixture, cursor.tick, cursor.progress).bets);
      }
    }
  }

  lemma TickIsDated(tick: Tick, rows: seq<StatRow>)
    requires TickSays(tick, rows)
    ensures tick.at == if rows == [] then None else Some(rows[|rows| - 1].at)
  {
  }

  lemma BetsAppend(a: seq<Bet>, b: seq<Bet>, c: seq<Bet>)
    requires |a| <= |b| <= |c| && b[..|a|] == a && c[..|b|] == b
    ensures c[..|a|] == a
    ensures forall i | 0 <= i < |b| :: c[i] == b[i]
  {
    assert c[..|a|] == c[..|b|][..|a|];
    forall i | 0 <= i < |b|
      ensures c[i] == b[i]
    {
      assert c[i] == c[..|b|][i];
    }
  }

  lemma FixtureOrigin(env: Env, fixture: Fixture, before: Progress, rows: seq<StatRow>)
    requires Playable(fixture)
    ensures
      var after := ReplayFixture(env, fixture, before, rows).bets;
      && |before.bets| <= |after| && after[..|before.bets|] == before.bets
      && forall i | |before.bets| <= i < |after| :: ComesFrom(after[i], env, fixture, rows)
  {
    hide Evaluate, AdvanceAll, ComesFrom, TickSays;
    var start := before.(placed := {});
    assert rows[..|rows|] == rows;
    AdvanceOrigin(env, fixture, start, rows, |rows|);
    AdvancedSays(env, fixture, start, rows);
    var end := AdvanceAll(env, fixture, start, rows);
    TickIsDated(end.tick, rows);
    if rows == [] {
      EvaluateDated(env, fixture, end.tick, end.progress);
    } else {
      TickOrigin(env, fixture, rows, |rows|, end.tick, end.progress);
      BetsAppend(before.bets, end.progress.bets, Evaluate(env, fixture, end.tick, end.progress).bets);
    }
  }

  ghost predicate ComesFromOne(bet: Bet, env: Env, fixtures: map<string, Fixture>, ids: seq<string>, rows: seq<StatRow>) {
    exists id :: id in ids && id in fixtures && Playable(fixtures[id]) && ComesFrom(bet, env, fixtures[id], RowsOf(rows, id))
  }

  lemma OneOf(bet: Bet, env: Env, fixtures: map<string, Fixture>, ids: seq<string>, id: string, rows: seq<StatRow>)
    requires id in ids && id in fixtures && Playable(fixtures[id]) && ComesFrom(bet, env, fixtures[id], RowsOf(rows, id))
    ensures ComesFromOne(bet, env, fixtures, ids, rows)
  {
  }

  lemma OneOfMore(bet: Bet, env: Env, fixtures: map<string, Fixture>, ids: seq<string>, more: seq<string>,
                  rows: seq<StatRow>)
    requires ComesFromOne(bet, env, fixtures, ids, rows) && forall id | id in ids :: id in more
    ensures ComesFromOne(bet, env, fixtures, more, rows)
  {
    hide ComesFrom;
    var id :| id in ids && id in fixtures && Playable(fixtures[id]) && ComesFrom(bet, env, fixtures[id], RowsOf(rows, id));
    assert id in more;
  }

  ghost predicate AllComeFrom(bets: seq<Bet>, env: Env, fixtures: map<string, Fixture>, ids: seq<string>,
                              rows: seq<StatRow>) {
    forall i | 0 <= i < |bets| :: ComesFromOne(bets[i], env, fixtures, ids, rows)
  }

  lemma {:induction false} FixturesOrigin(env: Env, fixtures: map<string, Fixture>, ids: seq<string>, rows: seq<StatRow>)
    ensures AllComeFrom(ReplayFixtures(env, fixtures, ids, rows).bets, env, fixtures, ids, rows)
  {
    hide ReplayFixture, ComesFrom, ComesFromOne;
    if ids != [] {
      var init, id := ids[..|ids| - 1], ids[|ids| - 1];
      var before, after := ReplayFixtures(env, fixtures, init, rows), ReplayFixtures(env, fixtures, ids, rows);
      FixturesOrigin(env, fixtures, init, rows);
      if id in fixtures && Playable(fixtures[id]) {
        FixtureOrigin(env, fixtures[id], before, RowsOf(rows, id));
      }
      forall i | 0 <= i < |after.bets|
        ensures ComesFromOne(after.bets[i], env, fixtures, ids, rows)
      {
        if i < |before.bets| {
          assert after.bets[..|before.bets|] == before.bets;
          assert after.bets[i] == after.bets[..|before.bets|][i] == before.bets[i];
          OneOfMore(before.bets[i], env, fixtures, init, ids, rows);
        } else {
          OneOf(after.bets[i], env, fixtures, ids, id, rows);
        }
      }
    }
  }

  /**
   * Every bet of a replay follows a call of its rules at some tick of one fixture: it was
   * quoted at the odd of the freshest candidate at the decision, taken at the odd of the
   * freshest one of the same provider and bookmaker once the latency had passed, both at the
   * rule's minimum or better, and carries the outcome of the match.
   */
  lemma BetsComeFromQuotes(data: Dataset, strategy: Strategy, period: Period, rank: Collation)
    ensures
      var rows := Ordered(data, period, rank);
      AllComeFrom(ReplayDetailed(data, strategy, period, rank).bets, EnvOf(data, strategy, period, rank), data.fixtures,
                  FixtureOrder(rows), rows)
  {
    hide AllComeFrom;
    var rows := Ordered(data, period, rank);
    FixturesOrigin(EnvOf(data, strategy, period, rank), data.fixtures, FixtureOrder(rows), rows);
  }

  // ---- No call is lost ----

  /** The signal got at least this far. */
  predicate Reached(signals: map<SignalKey, SignalRecord>, key: SignalKey, stage: Stage) {
    key in signals && !Further(stage, signals[key].stage)
  }

  lemma NotesReach(before: map<SignalKey, SignalRecord>, after: map<SignalKey, SignalRecord>, key: SignalKey, at: int,
                   stage: Stage)
    requires Notes(before, after, key, at, stage)
    ensures Reached(after, key, stage)
    ensures forall other, least | Reached(before, other, least) :: Reached(after, other, least)
  {
  }

  lemma FollowKeeps(env: Env, fixture: Fixture, at: int, elapsed: int, progress: Progress, found: RuleMatch,
                    key: SignalKey, stage: Stage)
    requires Reached(progress.signals, key, stage)
    ensures Reached(Follow(env, fixture, at, elapsed, progress, found).signals, key, stage)
  {
    hide Follow, IsPlayed, AimsAt, QuotedAs, Notes, BetSays, Reached;
    FollowedExactly(env, fixture, at, elapsed, progress, found);
    var after, own := Follow(env, fixture, at, elapsed, progress, found), SignalKey(fixture.id, found.team, found.market);
    if IsPlayed(env.strategy, found) && own !in progress.placed && (exists target :: AimsAt(env.strategy, fixture, found, target)) {
      var target, decision, execution :| Leads(env, fixture, at, elapsed, progress, after, found, target, decision, execution);
      NotesReach(progress.signals, after.signals, own, at, StageReached(decision, execution, found.minOdd));
    }
  }

  lemma FreshestIsOne(candidates: seq<Quote>, rank: Collation, target: Target, at: int, maxAge: int, a: Option<Quote>,
                      b: Option<Quote>)
    requires DistinctSnapshots(candidates, rank)
    requires IsFreshest(candidates, rank, target, at, maxAge, a) && IsFreshest(candidates, rank, target, at, maxAge, b)
    ensures a == b
  {
    hide Serves;
    if a.Some? && b.Some? {
      assert AtLeastAsFresh(rank, a.value, b.value) && AtLeastAsFresh(rank, b.value, a.value);
    }
  }

  /** A played call at a tick, with these quotes. */
  ghost predicate Offers(env: Env, fixture: Fixture, at: int, found: RuleMatch, target: Target,
                         decision: Option<Quote>, execution: Option<Quote>)
  {
    && IsPlayed(env.strategy, found) && AimsAt(env.strategy, fixture, found, target)
    && QuotedAs(env, target, at, decision, execution)
  }

  lemma FollowReaches(env: Env, fixture: Fixture, at: int, elapsed: int, progress: Progress, found: RuleMatch,
                      target: Target,
                      decision: Option<Quote>, execution: Option<Quote>)
    requires DistinctSnapshots(env.candidates, env.rank) && Accounted(progress, fixture.id)
    requires Offers(env, fixture, at, found, target, decision, execution)
    ensures
      Reached(Follow(env, fixture, at, elapsed, progress, found).signals, SignalKey(fixture.id, found.team, found.market),
              StageReached(decision, execution, found.minOdd))
  {
    hide Follow, IsPlayed, IsFreshest, Notes, BetSays, Reached;
    FollowedExactly(env, fixture, at, elapsed, progress, found);
    var after, own := Follow(env, fixture, at, elapsed, progress, found), SignalKey(fixture.id, found.team, found.market);
    var stage := StageReached(decision, execution, found.minOdd);
    if own in progress.placed {
      PlacedIsFurthest(progress, own, stage);
    } else {
      var aim, d, e :| Leads(env, fixture, at, elapsed, progress, after, found, aim, d, e);
      FreshestIsOne(env.candidates, env.rank, target, at, env.strategy.maxQuoteAge, d, decision);
      if decision.Some? {
        FreshestIsOne(env.candidates, env.rank,
                      target.(providerKey := Some(decision.value.providerKey), bookmakerKey := Some(decision.value.bookmakerKey)),
                      at + env.strategy.latency, env.strategy.maxQuoteAge, e, execution);
      }
      NotesReach(progress.signals, after.signals, own, at, StageReached(d, e, found.minOdd));
    }
  }

  lemma PlacedIsFurthest(progress: Progress, key: SignalKey, stage: Stage)
    requires Accounted(progress, key.fixture) && key in progress.placed
    ensures Reached(progress.signals, key, stage)
  {
    assert key in PlacedSignals(progress.signals);
  }

  lemma {:induction false} FollowAllKeeps(env: Env, fixture: Fixture, at: int, elapsed: int, progress: Progress,
                                          found: seq<RuleMatch>,
                                          key: SignalKey, stage: Stage)
    requires Reached(progress.signals, key, stage)
    ensures Reached(FollowAll(env, fixture, at, elapsed, progress, found).signals, key, stage)
  {
    hide Follow, Reached;
    if found != [] {
      FollowAllKeeps(env, fixture, at, elapsed, progress, found[..|found| - 1], key, stage);
      FollowKeeps(env, fixture, at, elapsed, FollowAll(env, fixture, at, elapsed, progress, found[..|found| - 1]),
                  found[|found| - 1], key, stage);
    }
  }

  lemma {:induction false} FollowAllReaches(env: Env, fixture: Fixture, at: int, elapsed: int, progress: Progress,
                                            found: seq<RuleMatch>,
                                            call: RuleMatch, target: Target, decision: Option<Quote>, execution: Option<Quote>)
    requires DistinctSnapshots(env.candidates, env.rank) && Accounted(progress, fixture.id)
    requires call in found && Offers(env, fixture, at, call, target, decision, execution)
    ensures
      Reached(FollowAll(env, fixture, at, elapsed, progress, found).signals, SignalKey(fixture.id, call.team, call.market),
              StageReached(decision, execution, call.minOdd))
  {
    hide Follow, Reached, Accounted, Offers;
    var init, last := found[..|found| - 1], found[|found| - 1];
    assert found == init + [last];
    var mid := FollowAll(env, fixture, at, elapsed, progress, init);
    if call in init {
      FollowAllReaches(env, fixture, at, elapsed, progress, init, call, target, decision, execution);
      FollowKeeps(env, fixture, at, elapsed, mid, last, SignalKey(fixture.id, call.team, call.market),
                  StageReached(decision, execution, call.minOdd));
    } else {
      FollowAllAccounts(env, fixture, at, elapsed, progress, init);
      FollowReaches(env, fixture, at, elapsed, mid, last, target, decision, execution);
    }
  }

  lemma EvaluateKeeps(env: Env, fixture: Fixture, tick: Tick, progress: Progress, key: SignalKey, stage: Stage)
    requires Playable(fixture) && Reached(progress.signals, key, stage)
    ensures Reached(Evaluate(env, fixture, tick, progress).signals, key, stage)
  {
    hide FollowAll, Reached;
    if tick.at.Some? && tick.elapsed.Some? {
      FollowAllKeeps(env, fixture, tick.at.value, tick.elapsed.value, progress,
                     env.strategy.rules(RuleInputAt(env, fixture, tick.stats, tick.elapsed.value)), key, stage);
    }
  }

  /** A called and played rule, with the quotes there are at its tick. */
  ghost predicate Called(env: Env, fixture: Fixture, rows: seq<StatRow>, n: nat, tick: Tick, call: RuleMatch,
                         target: Target,
                         decision: Option<Quote>, execution: Option<Quote>)
    requires Playable(fixture)
  {
    && Calls(env, fixture, rows, n, tick, call) && tick.at.Some?
    && Offers(env, fixture, tick.at.value, call, target, decision, execution)
  }

  lemma EvaluateReaches(env: Env, fixture: Fixture, progress: Progress, rows: seq<StatRow>, n: nat, tick: Tick,
                        call: RuleMatch,
                        target: Target, decision: Option<Quote>, execution: Option<Quote>)
    requires Playable(fixture) && DistinctSnapshots(env.candidates, env.rank) && Accounted(progress, fixture.id)
    requires Called(env, fixture, rows, n, tick, call, target, decision, execution)
    ensures
      Reached(Evaluate(env, fixture, tick, progress).signals, SignalKey(fixture.id, call.team, call.market),
              StageReached(decision, execution, call.minOdd))
  {
    hide FollowAll, Reached, Accounted, Offers, TickSays, CountGoals, RuleInputAt;
    ScoreIsCounted(env, fixture, tick.stats, tick.elapsed.value);
    FollowAllReaches(env, fixture, tick.at.value, tick.elapsed.value, progress,
                     env.strategy.rules(RuleInputAt(env, fixture, tick.stats, tick.elapsed.value)), call, target, decision, execution);
  }

  lemma SaysOneThing<V(!new)>(m: map<int, V>, other: map<int, V>, rows: seq<StatRow>, counts: StatRow -> bool,
                       value: StatRow -> V)
    requires SaysLast(m, rows, counts, value) && SaysLast(other, rows, counts, value)
    ensures m == other
  {
    forall team | team in m
      ensures team in other && m[team] == other[team]
    {
      var i :| 0 <= i < |rows| && rows[i].team == Some(team) && counts(rows[i]) && m[team] == value(rows[i])
        && forall j | i < j < |rows| :: !(rows[j].team == Some(team) && counts(rows[j]));
      assert team in other;
      var k :| 0 <= k < |rows| && rows[k].team == Some(team) && counts(rows[k]) && other[team] == value(rows[k])
        && forall j | k < j < |rows| :: !(rows[j].team == Some(team) && counts(rows[j]));
      assert i == k;
    }
    forall team | team in other
      ensures team in m
    {
      var i :| 0 <= i < |rows| && rows[i].team == Some(team) && counts(rows[i]) && other[team] == value(rows[i])
        && forall j | i < j < |rows| :: !(rows[j].team == Some(team) && counts(rows[j]));
    }
  }

  /** The rows determine the tick. */
  lemma TicksAgree(a: Tick, b: Tick, rows: seq<StatRow>)
    requires TickSays(a, rows) && TickSays(b, rows)
    ensures a == b
  {
    hide SaysLast;
    SaysOneThing(a.stats.onTarget, b.stats.onTarget, rows, (r: StatRow) => true, (r: StatRow) => r.onTarget);
    SaysOneThing(a.stats.pressure, b.stats.pressure, rows, (r: StatRow) => true, (r: StatRow) => r.pressure);
    SaysOneThing(a.stats.shots, b.stats.shots, rows, (r: StatRow) => r.shots.Some?, (r: StatRow) => ShotsOf(r));
    SaysOneThing(a.stats.htOnTarget, b.stats.htOnTarget, rows, (r: StatRow) => InFirstHalf(r), (r: StatRow) => r.onTarget);
    SaysOneThing(a.stats.htPressure, b.stats.htPressure, rows, (r: StatRow) => InFirstHalf(r), (r: StatRow) => r.pressure);
    SaysOneThing(a.stats.htShots, b.stats.htShots, rows, (r: StatRow) => InFirstHalf(r) && r.shots.Some?, (r: StatRow) => ShotsOf(r));
    if a.elapsed.Some? {
      var i :| 0 <= i < |rows| && rows[i].elapsed == a.elapsed && forall j | i < j < |rows| :: rows[j].elapsed.None?;
      var k :| 0 <= k < |rows| && rows[k].elapsed == b.elapsed && forall j | k < j < |rows| :: rows[j].elapsed.None?;
      assert i == k;
    }
  }

  /** Once some rows are read, every call of an earlier closed tick has got as far as its quotes allow. */
  lemma {:induction false} AdvanceReaches(env: Env, fixture: Fixture, start: Progress, rows: seq<StatRow>, m: nat,
                                          n: nat, tick: Tick,
                                          call: RuleMatch, target: Target, decision: Option<Quote>, execution: Option<Quote>)
    requires Playable(fixture) && DistinctSnapshots(env.candidates, env.rank) && Accounted(start, fixture.id)
    requires n < m <= |rows| && Called(env, fixture, rows, n, tick, call, target, decision, execution)
    ensures
      Reached(AdvanceAll(env, fixture, start, rows[..m]).progress.signals, SignalKey(fixture.id, call.team, call.market),
              StageReached(decision, execution, call.minOdd))
  {
    hide Evaluate, Absorb, Reached, Accounted, Offers, TickSays, CountGoals, StageReached;
    assert rows[..m][..m - 1] == rows[..m - 1];
    var cursor := AdvanceAll(env, fixture, start, rows[..m - 1]);
    AdvancedSays(env, fixture, start, rows[..m - 1]);
    TickIsDated(cursor.tick, rows[..m - 1]);
    if n == m - 1 {
      TicksAgree(cursor.tick, tick, rows[..n]);
      AdvanceAllAccounts(env, fixture, start, rows[..n]);
      EvaluateReaches(env, fixture, cursor.progress, rows, n, tick, call, target, decision, execution);
    } else {
      AdvanceReaches(env, fixture, start, rows, m - 1, n, tick, call, target, decision, execution);
      EvaluateKeeps(env, fixture, cursor.tick, cursor.progress, SignalKey(fixture.id, call.team, call.market),
                    StageReached(decision, execution, call.minOdd));
    }
  }

  lemma FixtureReaches(env: Env, fixture: Fixture, before: Progress, rows: seq<StatRow>, n: nat, tick: Tick,
                       call: RuleMatch,
                       target: Target, decision: Option<Quote>, execution: Option<Quote>)
    requires Playable(fixture) && DistinctSnapshots(env.candidates, env.rank) && Accounted(before.(placed := {}), fixture.id)
    requires Called(env, fixture, rows, n, tick, call, target, decision, execution)
    ensures
      Reached(ReplayFixture(env, fixture, before, rows).signals, SignalKey(fixture.id, call.team, call.market),
              StageReached(decision, execution, call.minOdd))
  {
    hide Evaluate, AdvanceAll, Reached, Accounted, Offers, TickSays, CountGoals, StageReached;
    var start := before.(placed := {});
    assert rows[..|rows|] == rows;
    var end := AdvanceAll(env, fixture, start, rows);
    if n < |rows| {
      AdvanceReaches(env, fixture, start, rows, |rows|, n, tick, call, target, decision, execution);
      EvaluateKeeps(env, fixture, end.tick, end.progress, SignalKey(fixture.id, call.team, call.market),
                    StageReached(decision, execution, call.minOdd));
    } else {
      AdvancedSays(env, fixture, start, rows);
      TicksAgree(end.tick, tick, rows);
      AdvanceAllAccounts(env, fixture, start, rows);
      EvaluateReaches(env, fixture, end.progress, rows, n, tick, call, target, decision, execution);
    }
  }

  lemma {:induction false} AdvanceKeeps(env: Env, fixture: Fixture, start: Progress, rows: seq<StatRow>,
                                        key: SignalKey, stage: Stage)
    requires Playable(fixture) && Reached(start.signals, key, stage)
    ensures Reached(AdvanceAll(env, fixture, start, rows).progress.signals, key, stage)
  {
    hide Evaluate, Absorb, Reached;
    if rows != [] {
      AdvanceKeeps(env, fixture, start, rows[..|rows| - 1], key, stage);
      var cursor := AdvanceAll(env, fixture, start, rows[..|rows| - 1]);
      EvaluateKeeps(env, fixture, cursor.tick, cursor.progress, key, stage);
    }
  }

  lemma {:induction false} FixturesReach(env: Env, fixtures: map<string, Fixture>, ids: seq<string>,
                                         rows: seq<StatRow>, id: string,
                                         n: nat, tick: Tick, call: RuleMatch, target: Target,
                                         decision: Option<Quote>, execution: Option<Quote>)
    requires Keyed(fixtures) && (forall i, j | 0 <= i < j < |ids| :: ids[i] != ids[j])
    requires DistinctSnapshots(env.candidates, env.rank)
    requires id in ids && id in fixtures && Playable(fixtures[id])
    requires Called(env, fixtures[id], RowsOf(rows, id), n, tick, call, target, decision, execution)
    ensures
      Reached(ReplayFixtures(env, fixtures, ids, rows).signals, SignalKey(id, call.team, call.market),
              StageReached(decision, execution, call.minOdd))
  {
    hide Evaluate, AdvanceAll, Reached, Called, StageReached;
    var init, last := ids[..|ids| - 1], ids[|ids| - 1];
    assert ids == init + [last];
    var before := ReplayFixtures(env, fixtures, init, rows);
    if last == id {
      FixturesAccount(env, fixtures, init, rows);
      assert id !in init;
      FixtureReaches(env, fixtures[id], before, RowsOf(rows, id), n, tick, call, target, decision, execution);
    } else {
      FixturesReach(env, fixtures, init, rows, id, n, tick, call, target, decision, execution);
      if last in fixtures && Playable(fixtures[last]) {
        var start, key, stage := before.(placed := {}), SignalKey(id, call.team, call.market), StageReached(decision, execution, call.minOdd);
        AdvanceKeeps(env, fixtures[last], start, RowsOf(rows, last), key, stage);
        var end := AdvanceAll(env, fixtures[last], start, RowsOf(rows, last));
        EvaluateKeeps(env, fixtures[last], end.tick, end.progress, key, stage);
      }
    }
  }

  /**
   * No call is lost: a played rule called at any tick of any fixture gets in the end at least
   * as far as its quotes allow, so to a bet if both are at its minimum odd or better.
   */
  lemma EveryCallGetsThere(data: Dataset, strategy: Strategy, period: Period, rank: Collation, id: string, n: nat,
                           tick: Tick,
                           call: RuleMatch, target: Target, decision: Option<Quote>, execution: Option<Quote>)
    requires Keyed(data.fixtures) && DistinctSnapshots(Candidates(data, strategy, period, rank), rank)
    requires id in FixtureOrder(Ordered(data, period, rank)) && id in data.fixtures && Playable(data.fixtures[id])
    requires Called(EnvOf(data, strategy, period, rank), data.fixtures[id], RowsOf(Ordered(data, period, rank), id), n, tick, call,
                    target, decision, execution)
    ensures
      var result, key := ReplayDetailed(data, strategy, period, rank), SignalKey(id, call.team, call.market);
      && Reached(result.signals, key, StageReached(decision, execution, call.minOdd))
      && (decision.Some? && decision.value.odd >= call.minOdd && execution.Some? && execution.value.odd >= call.minOdd ==>
            key in PlacedSignals(result.signals))
  {
    hide Called, ReplayFixtures, Candidates, Ordered;
    var rows := Ordered(data, period, rank);
    OrderIsDistinct(rows);
    FixturesReach(EnvOf(data, strategy, period, rank), data.fixtures, FixtureOrder(rows), rows, id, n, tick, call, target,
                  decision, execution);
  }

  // ---- The rows a replay reads ----

  lemma {:induction false} PeriodRows(stats: seq<StatRow>, period: Period, row: StatRow)
    ensures multiset(InPeriod(stats, period))[row] == if period.from <= row.at <= period.to then multiset(stats)[row] else 0
  {
    if stats != [] {
      PeriodRows(stats[..|stats| - 1], period, row);
      assert stats == stats[..|stats| - 1] + [stats[|stats| - 1]];
    }
  }

  /** The statistics of the period, each as often as it is stored, by instant and then by identifier. */
  lemma RowsAreThePeriods(data: Dataset, period: Period, rank: Collation)
    ensures
      var rows := Ordered(data, period, rank);
      && (forall row: StatRow :: multiset(rows)[row] == if period.from <= row.at <= period.to then multiset(data.stats)[row] else 0)
      && forall i, j | 0 <= i < j < |rows| ::
           rows[i].at < rows[j].at || (rows[i].at == rows[j].at && rank(rows[i].id) <= rank(rows[j].id))
  {
    var rows := Ordered(data, period, rank);
    forall row: StatRow
      ensures multiset(rows)[row] == if period.from <= row.at <= period.to then multiset(data.stats)[row] else 0
    {
      PeriodRows(data.stats, period, row);
    }
    SortSorts(InPeriod(data.stats, period), ByInstant(rank));
    forall i, j | 0 <= i < j < |rows|
      ensures rows[i].at < rows[j].at || (rows[i].at == rows[j].at && rank(rows[i].id) <= rank(rows[j].id))
    {
      assert !ByInstant(rank)(rows[j], rows[i]);
    }
  }

  // ---- The order of the fixtures ----

  /** Some row of the fixture comes before this one. */
  predicate SeenBefore(rows: seq<StatRow>, k: nat, fixture: string)
    requires k <= |rows|
  {
    exists m | 0 <= m < k :: rows[m].fixture == fixture
  }

  /** Fixtures are replayed once each, in the order of their first rows. */
  lemma {:induction false} FixturesAsTheyAppear(rows: seq<StatRow>)
    ensures
      var order := FixtureOrder(rows);
      && (forall fixture: string :: fixture in order <==> SeenBefore(rows, |rows|, fixture))
      && (forall i, j | 0 <= i < j < |order| :: order[i] != order[j])
      && forall i, j, k | 0 <= i < j < |order| && 0 <= k < |rows| && rows[k].fixture == order[j] ::
           SeenBefore(rows, k, order[i])
  {
    if rows != [] {
      var n := |rows| - 1;
      var init, last := rows[..n], rows[n];
      FixturesAsTheyAppear(init);
      var order, earlier := FixtureOrder(rows), FixtureOrder(init);
      forall fixture: string
        ensures fixture in order <==> SeenBefore(rows, |rows|, fixture)
      {
        SeenUpTo(rows, n, fixture);
      }
      forall i, j, k | 0 <= i < j < |order| && 0 <= k < |rows| && rows[k].fixture == order[j]
        ensures SeenBefore(rows, k, order[i])
      {
        assert order[i] == earlier[i] && SeenBefore(init, n, order[i]);
        if k < n {
          SeenUpTo(rows, n, order[j]);
          SeenInPrefix(rows, n, k, order[i]);
          assert init[k].fixture == order[j];
          assert j < |earlier|;
        } else {
          SeenInPrefix(rows, n, n, order[i]);
        }
      }
    }
  }

  lemma SeenUpTo(rows: seq<StatRow>, n: nat, fixture: string)
    requires n + 1 == |rows|
    ensures SeenBefore(rows, |rows|, fixture) <==> SeenBefore(rows[..n], n, fixture) || rows[n].fixture == fixture
  {
    if m :| 0 <= m < n && rows[..n][m].fixture == fixture {
      assert rows[m].fixture == fixture;
    }
    if m :| 0 <= m < |rows| && rows[m].fixture == fixture {
      if m < n {
        assert rows[..n][m].fixture == fixture;
      }
    }
  }

  lemma SeenInPrefix(rows: seq<StatRow>, n: nat, k: nat, fixture: string)
    requires k <= n <= |rows|
    ensures SeenBefore(rows[..n], k, fixture) <==> SeenBefore(rows, k, fixture)
  {
    if m :| 0 <= m < k && rows[..n][m].fixture == fixture {
      assert rows[m].fixture == fixture;
    }
    if m :| 0 <= m < k && rows[m].fixture == fixture {
      assert rows[..n][m].fixture == fixture;
    }
  }
}
