/** What a replay guarantees: one bet per signal, as many bets as placed signals, and no look-ahead. */
module ReplayProofs {
  import opened Wrappers
  import opened Quotes
  import opened Sorting
  import opened Replay

  // ---- One bet per signal ----

  function PlacedSignals(signals: map<SignalKey, SignalRecord>): set<SignalKey> {
    set key | key in signals && signals[key].stage == Placed
  }

  ghost predicate DistinctBets(bets: seq<Bet>) {
    forall i, j | 0 <= i < j < |bets| :: bets[i].key != bets[j].key
  }

  /** Bets and placed signals are the same, one for one; `placed` holds those of the fixture at hand. */
  ghost predicate Accounted(progress: Progress, fixture: string) {
    && DistinctBets(progress.bets)
    && (forall i | 0 <= i < |progress.bets| :: progress.bets[i].key in PlacedSignals(progress.signals))
    && |progress.bets| == |PlacedSignals(progress.signals)|
    && (forall key: SignalKey | key.fixture == fixture :: key in progress.placed <==> key in PlacedSignals(progress.signals))
  }

  lemma RecordedPlaced(signals: map<SignalKey, SignalRecord>, key: SignalKey, at: int, stage: Stage)
    requires key !in PlacedSignals(signals)
    ensures PlacedSignals(Recorded(signals, key, at, stage))
      == if stage == Placed then PlacedSignals(signals) + {key} else PlacedSignals(signals)
    ensures Recorded(signals, key, at, stage).Keys == signals.Keys + {key}
  {
  }

  lemma RecordingAccounts(progress: Progress, key: SignalKey, at: int, stage: Stage)
    requires Accounted(progress, key.fixture) && key !in progress.placed && stage != Placed
    ensures Accounted(progress.(signals := Recorded(progress.signals, key, at, stage)), key.fixture)
  {
    hide Recorded, PlacedSignals;
    RecordedPlaced(progress.signals, key, at, stage);
  }

  lemma PlacingAccounts(progress: Progress, bet: Bet, at: int)
    requires Accounted(progress, bet.key.fixture) && bet.key !in progress.placed
    ensures Accounted(
      Progress(progress.placed + {bet.key}, Recorded(progress.signals, bet.key, at, Placed), progress.bets + [bet]),
      bet.key.fixture)
  {
    hide Recorded, PlacedSignals;
    RecordedPlaced(progress.signals, bet.key, at, Placed);
  }

  lemma FollowAccounts(env: Env, fixture: Fixture, at: int, elapsed: int, progress: Progress, found: RuleMatch)
    requires Accounted(progress, fixture.id)
    ensures Accounted(Follow(env, fixture, at, elapsed, progress, found), fixture.id)
    ensures forall key | key in Follow(env, fixture, at, elapsed, progress, found).signals ::
      key in progress.signals || key.fixture == fixture.id
  {
    hide Select, TargetFor, Wanted, Recorded, Accounted;
    var key := SignalKey(fixture.id, found.team, found.market);
    var after := Follow(env, fixture, at, elapsed, progress, found);
    if after != progress {
      NotPlacedYet(progress, key);
      if after.bets != progress.bets {
        RecordedPlaced(progress.signals, key, at, Placed);
        PlacingAccounts(progress, after.bets[|progress.bets|], at);
      } else {
        var stage :| stage != Placed
          && after == progress.(signals := Recorded(progress.signals, key, at, stage));
        RecordedPlaced(progress.signals, key, at, stage);
        RecordingAccounts(progress, key, at, stage);
      }
    }
  }

  lemma NotPlacedYet(progress: Progress, key: SignalKey)
    requires Accounted(progress, key.fixture) && key !in progress.placed
    ensures key !in PlacedSignals(progress.signals)
  {
  }

  lemma {:induction false} FollowAllAccounts(env: Env, fixture: Fixture, at: int, elapsed: int, progress: Progress,
                                             found: seq<RuleMatch>)
    requires Accounted(progress, fixture.id)
    ensures Accounted(FollowAll(env, fixture, at, elapsed, progress, found), fixture.id)
    ensures forall key | key in FollowAll(env, fixture, at, elapsed, progress, found).signals ::
      key in progress.signals || key.fixture == fixture.id
  {
    hide Follow, Accounted;
    if found != [] {
      var init := found[..|found| - 1];
      FollowAllAccounts(env, fixture, at, elapsed, progress, init);
      FollowAccounts(env, fixture, at, elapsed, FollowAll(env, fixture, at, elapsed, progress, init), found[|found| - 1]);
    }
  }

  lemma EvaluateAccounts(env: Env, fixture: Fixture, tick: Tick, progress: Progress)
    requires Playable(fixture) && Accounted(progress, fixture.id)
    ensures Accounted(Evaluate(env, fixture, tick, progress), fixture.id)
    ensures forall key | key in Evaluate(env, fixture, tick, progress).signals ::
      key in progress.signals || key.fixture == fixture.id
  {
    hide FollowAll, Accounted;
    if tick.at.Some? && tick.elapsed.Some? {
      FollowAllAccounts(env, fixture, tick.at.value, tick.elapsed.value, progress,
                        env.strategy.rules(RuleInputAt(env, fixture, tick.stats, tick.elapsed.value)));
    }
  }

  lemma {:induction false} AdvanceAllAccounts(env: Env, fixture: Fixture, start: Progress, rows: seq<StatRow>)
    requires Playable(fixture) && Accounted(start, fixture.id)
    ensures Accounted(AdvanceAll(env, fixture, start, rows).progress, fixture.id)
    ensures forall key | key in AdvanceAll(env, fixture, start, rows).progress.signals ::
      key in start.signals || key.fixture == fixture.id
  {
    hide Evaluate, Accounted, Absorb;
    if rows != [] {
      AdvanceAllAccounts(env, fixture, start, rows[..|rows| - 1]);
      var cursor := AdvanceAll(env, fixture, start, rows[..|rows| - 1]);
      EvaluateAccounts(env, fixture, cursor.tick, cursor.progress);
    }
  }

  lemma {:induction false} OrderIsDistinct(rows: seq<StatRow>)
    ensures forall i, j | 0 <= i < j < |FixtureOrder(rows)| :: FixtureOrder(rows)[i] != FixtureOrder(rows)[j]
    ensures forall i | 0 <= i < |rows| :: rows[i].fixture in FixtureOrder(rows)
  {
    if rows != [] {
      OrderIsDistinct(rows[..|rows| - 1]);
    }
  }

  /** The map of fixtures is built from their identifiers. */
  ghost predicate Keyed(fixtures: map<string, Fixture>) {
    forall id | id in fixtures :: fixtures[id].id == id
  }

  ghost predicate Settled(progress: Progress, ids: seq<string>) {
    && (forall fixture: string | fixture !in ids :: Accounted(progress.(placed := {}), fixture))
    && (forall key | key in progress.signals :: key.fixture in ids)
    && DistinctBets(progress.bets)
    && |progress.bets| == |PlacedSignals(progress.signals)|
  }

  lemma FixtureAccounts(env: Env, fixture: Fixture, before: Progress, ids: seq<string>, rows: seq<StatRow>)
    requires Playable(fixture) && fixture.id !in ids && Settled(before, ids)
    ensures Settled(ReplayFixture(env, fixture, before, rows), ids + [fixture.id])
  {
    hide AdvanceAll, Evaluate;
    var start := before.(placed := {});
    assert Accounted(start, fixture.id);
    AdvanceAllAccounts(env, fixture, start, rows);
    var end := AdvanceAll(env, fixture, start, rows);
    EvaluateAccounts(env, fixture, end.tick, end.progress);
  }

  lemma SettledGrows(progress: Progress, ids: seq<string>, id: string)
    requires Settled(progress, ids)
    ensures Settled(progress, ids + [id])
  {
  }

  lemma {:induction false} FixturesAccount(env: Env, fixtures: map<string, Fixture>, ids: seq<string>, rows: seq<StatRow>)
    requires Keyed(fixtures)
    requires forall i, j | 0 <= i < j < |ids| :: ids[i] != ids[j]
    ensures Settled(ReplayFixtures(env, fixtures, ids, rows), ids)
  {
    hide ReplayFixture;
    if ids == [] {
      assert PlacedSignals(map[]) == {};
    } else {
      var init, id := ids[..|ids| - 1], ids[|ids| - 1];
      FixturesAccount(env, fixtures, init, rows);
      var before := ReplayFixtures(env, fixtures, init, rows);
      assert ids == init + [id];
      if id in fixtures && Playable(fixtures[id]) {
        FixtureAccounts(env, fixtures[id], before, init, RowsOf(rows, id));
      } else {
        SettledGrows(before, init, id);
      }
    }
  }

  /** At most one bet per fixture, team and market, and as many bets as signals that reached a placement. */
  lemma BetsArePlacedSignals(data: Dataset, strategy: Strategy, period: Period, rank: Collation)
    requires Keyed(data.fixtures)
    ensures
      var result := ReplayDetailed(data, strategy, period, rank);
      && DistinctBets(result.bets)
      && |result.bets| == |PlacedSignals(result.signals)|
  {
    var rows := Ordered(data, period, rank);
    OrderIsDistinct(rows);
    FixturesAccount(EnvOf(data, strategy, period, rank), data.fixtures, FixtureOrder(rows), rows);
  }

  // ---- Odds of bets ----

  predicate AbovePar(bets: seq<Bet>) {
    forall i | 0 <= i < |bets| :: bets[i].odd > 1000 && bets[i].quotedOdd > 1000
  }

  lemma FollowAbovePar(env: Env, fixture: Fixture, at: int, elapsed: int, progress: Progress, found: RuleMatch)
    requires AbovePar(progress.bets)
    ensures AbovePar(Follow(env, fixture, at, elapsed, progress, found).bets)
  {
    hide SelectLatest, Recorded, Wanted;
    var target := TargetFor(env.strategy, fixture, found);
    if target.Some? {
      SelectsFreshest(env.candidates, QuoteQuery(target.value, at, env.strategy.maxQuoteAge), env.rank);
      var decision := Select(env, target.value, at);
      if decision.Some? {
        var same := target.value.(providerKey := Some(decision.value.providerKey),
                                  bookmakerKey := Some(decision.value.bookmakerKey));
        SelectsFreshest(env.candidates, QuoteQuery(same, at + env.strategy.latency, env.strategy.maxQuoteAge), env.rank);
      }
    }
  }

  lemma {:induction false} FollowAllAbovePar(env: Env, fixture: Fixture, at: int, elapsed: int, progress: Progress,
                                             found: seq<RuleMatch>)
    requires AbovePar(progress.bets)
    ensures AbovePar(FollowAll(env, fixture, at, elapsed, progress, found).bets)
  {
    hide Follow, AbovePar;
    if found != [] {
      FollowAllAbovePar(env, fixture, at, elapsed, progress, found[..|found| - 1]);
      FollowAbovePar(env, fixture, at, elapsed, FollowAll(env, fixture, at, elapsed, progress, found[..|found| - 1]),
                     found[|found| - 1]);
    }
  }

  lemma EvaluateAbovePar(env: Env, fixture: Fixture, tick: Tick, progress: Progress)
    requires Playable(fixture) && AbovePar(progress.bets)
    ensures AbovePar(Evaluate(env, fixture, tick, progress).bets)
  {
    hide FollowAll, AbovePar;
    if tick.at.Some? && tick.elapsed.Some? {
      FollowAllAbovePar(env, fixture, tick.at.value, tick.elapsed.value, progress,
                        env.strategy.rules(RuleInputAt(env, fixture, tick.stats, tick.elapsed.value)));
    }
  }

  lemma {:induction false} AdvanceAllAbovePar(env: Env, fixture: Fixture, start: Progress, rows: seq<StatRow>)
    requires Playable(fixture) && AbovePar(start.bets)
    ensures AbovePar(AdvanceAll(env, fixture, start, rows).progress.bets)
  {
    hide Evaluate, AbovePar, Absorb;
    if rows != [] {
      AdvanceAllAbovePar(env, fixture, start, rows[..|rows| - 1]);
      var cursor := AdvanceAll(env, fixture, start, rows[..|rows| - 1]);
      EvaluateAbovePar(env, fixture, cursor.tick, cursor.progress);
    }
  }

  /** Every bet of a replay was quoted and taken above even money returned. */
  lemma {:induction false} BetsAreAbovePar(env: Env, fixtures: map<string, Fixture>, ids: seq<string>, rows: seq<StatRow>)
    ensures AbovePar(ReplayFixtures(env, fixtures, ids, rows).bets)
  {
    hide Evaluate, AdvanceAll;
    if ids != [] {
      var id, before := ids[|ids| - 1], ReplayFixtures(env, fixtures, ids[..|ids| - 1], rows);
      BetsAreAbovePar(env, fixtures, ids[..|ids| - 1], rows);
      if id in fixtures && Playable(fixtures[id]) {
        var start := before.(placed := {});
        AdvanceAllAbovePar(env, fixtures[id], start, RowsOf(rows, id));
        var end := AdvanceAll(env, fixtures[id], start, RowsOf(rows, id));
        EvaluateAbovePar(env, fixtures[id], end.tick, end.progress);
      }
    }
  }

  // ---- Bets, fixture by fixture ----

  const NOTHING := Progress({}, map[], [])

  function FixtureBets(env: Env, fixture: Fixture, rows: seq<StatRow>): seq<Bet>
    requires Playable(fixture)
  {
    ReplayFixture(env, fixture, NOTHING, rows).bets
  }

  function AllBets(env: Env, fixtures: map<string, Fixture>, ids: seq<string>, rows: seq<StatRow>): seq<Bet> {
    if ids == [] then []
    else
      var id := ids[|ids| - 1];
      AllBets(env, fixtures, ids[..|ids| - 1], rows)
      + if id in fixtures && Playable(fixtures[id]) then FixtureBets(env, fixtures[id], RowsOf(rows, id)) else []
  }

  /** Bets only depend on what was placed: signals and earlier bets ride along. */
  predicate Shifted(p: Progress, q: Progress, base: seq<Bet>) {
    p.placed == q.placed && p.bets == base + q.bets
  }

  lemma {:induction false} FollowAllShifts(env: Env, fixture: Fixture, at: int, elapsed: int, p: Progress, q: Progress,
                                           base: seq<Bet>, found: seq<RuleMatch>)
    requires Shifted(p, q, base)
    ensures Shifted(FollowAll(env, fixture, at, elapsed, p, found), FollowAll(env, fixture, at, elapsed, q, found), base)
  {
    hide Select, TargetFor, Wanted, Recorded, BetOf;
    if found != [] {
      FollowAllShifts(env, fixture, at, elapsed, p, q, base, found[..|found| - 1]);
    }
  }

  lemma EvaluateShifts(env: Env, fixture: Fixture, tick: Tick, p: Progress, q: Progress, base: seq<Bet>)
    requires Playable(fixture) && Shifted(p, q, base)
    ensures Shifted(Evaluate(env, fixture, tick, p), Evaluate(env, fixture, tick, q), base)
  {
    hide FollowAll;
    if tick.at.Some? && tick.elapsed.Some? {
      FollowAllShifts(env, fixture, tick.at.value, tick.elapsed.value, p, q, base,
                      env.strategy.rules(RuleInputAt(env, fixture, tick.stats, tick.elapsed.value)));
    }
  }

  lemma {:induction false} AdvanceAllShifts(env: Env, fixture: Fixture, p: Progress, q: Progress, base: seq<Bet>,
                                            rows: seq<StatRow>)
    requires Playable(fixture) && Shifted(p, q, base)
    ensures AdvanceAll(env, fixture, p, rows).tick == AdvanceAll(env, fixture, q, rows).tick
    ensures Shifted(AdvanceAll(env, fixture, p, rows).progress, AdvanceAll(env, fixture, q, rows).progress, base)
  {
    hide Evaluate, Absorb;
    if rows != [] {
      AdvanceAllShifts(env, fixture, p, q, base, rows[..|rows| - 1]);
      var one, two := AdvanceAll(env, fixture, p, rows[..|rows| - 1]), AdvanceAll(env, fixture, q, rows[..|rows| - 1]);
      EvaluateShifts(env, fixture, one.tick, one.progress, two.progress, base);
    }
  }

  lemma FixtureShifts(env: Env, fixture: Fixture, before: Progress, rows: seq<StatRow>)
    requires Playable(fixture)
    ensures ReplayFixture(env, fixture, before, rows).bets == before.bets + FixtureBets(env, fixture, rows)
  {
    hide Evaluate, AdvanceAll;
    var p, q := before.(placed := {}), NOTHING;
    assert p.bets == before.bets + q.bets;
    AdvanceAllShifts(env, fixture, p, q, before.bets, rows);
    EvaluateShifts(env, fixture, AdvanceAll(env, fixture, p, rows).tick, AdvanceAll(env, fixture, p, rows).progress,
                   AdvanceAll(env, fixture, q, rows).progress, before.bets);
    assert q.(placed := {}) == q;
  }

  lemma {:induction false} BetsAdd(env: Env, fixtures: map<string, Fixture>, ids: seq<string>, rows: seq<StatRow>)
    ensures ReplayFixtures(env, fixtures, ids, rows).bets == AllBets(env, fixtures, ids, rows)
  {
    hide ReplayFixture, FixtureBets;
    if ids != [] {
      var init, id := ids[..|ids| - 1], ids[|ids| - 1];
      BetsAdd(env, fixtures, init, rows);
      if id in fixtures && Playable(fixtures[id]) {
        FixtureShifts(env, fixtures[id], ReplayFixtures(env, fixtures, init, rows), RowsOf(rows, id));
      }
    }
  }

  // ---- Cutting at an instant ----

  function DecidedBy(bets: seq<Bet>, until: int): seq<Bet> {
    if bets == [] then []
    else
      var last, earlier := bets[|bets| - 1], DecidedBy(bets[..|bets| - 1], until);
      if last.decidedAt <= until then earlier + [last] else earlier
  }

  lemma {:induction false} DecidedConcat(first: seq<Bet>, second: seq<Bet>, until: int)
    ensures DecidedBy(first + second, until) == DecidedBy(first, until) + DecidedBy(second, until)
  {
    if second == [] {
      assert first + second == first;
    } else {
      DecidedConcat(first, second[..|second| - 1], until);
      assert (first + second)[..|first + second| - 1] == first + second[..|second| - 1];
    }
  }

  lemma {:induction false} AllDecided(bets: seq<Bet>, until: int)
    ensures (forall i | 0 <= i < |bets| :: bets[i].decidedAt <= until) ==> DecidedBy(bets, until) == bets
    ensures (forall i | 0 <= i < |bets| :: bets[i].decidedAt > until) ==> DecidedBy(bets, until) == []
  {
    if bets != [] {
      AllDecided(bets[..|bets| - 1], until);
    }
  }

  /** Every bet of a tick is dated by it. */
  lemma {:induction false} FollowAllDated(env: Env, fixture: Fixture, at: int, elapsed: int, progress: Progress,
                                          found: seq<RuleMatch>)
    ensures var after := FollowAll(env, fixture, at, elapsed, progress, found);
      && |progress.bets| <= |after.bets| && after.bets[..|progress.bets|] == progress.bets
      && forall i | |progress.bets| <= i < |after.bets| :: after.bets[i].decidedAt == at
  {
    hide Select, TargetFor, Wanted, Recorded;
    if found != [] {
      FollowAllDated(env, fixture, at, elapsed, progress, found[..|found| - 1]);
    }
  }

  lemma EvaluateDated(env: Env, fixture: Fixture, tick: Tick, progress: Progress)
    requires Playable(fixture)
    ensures var after := Evaluate(env, fixture, tick, progress);
      && |progress.bets| <= |after.bets| && after.bets[..|progress.bets|] == progress.bets
      && (tick.at.None? ==> after == progress)
      && forall i | |progress.bets| <= i < |after.bets| :: tick.at == Some(after.bets[i].decidedAt)
  {
    hide FollowAll;
    if tick.at.Some? && tick.elapsed.Some? {
      FollowAllDated(env, fixture, tick.at.value, tick.elapsed.value, progress,
                     env.strategy.rules(RuleInputAt(env, fixture, tick.stats, tick.elapsed.value)));
    }
  }

  lemma EvaluateLate(env: Env, fixture: Fixture, tick: Tick, progress: Progress, until: int)
    requires Playable(fixture) && (tick.at.Some? ==> tick.at.value > until)
    ensures DecidedBy(Evaluate(env, fixture, tick, progress).bets, until) == DecidedBy(progress.bets, until)
  {
    hide Evaluate;
    EvaluateDated(env, fixture, tick, progress);
    var after := Evaluate(env, fixture, tick, progress).bets;
    var added := after[|progress.bets|..];
    assert after == progress.bets + added;
    DecidedConcat(progress.bets, added, until);
    AllDecided(added, until);
  }

  predicate Chronological(rows: seq<StatRow>) {
    forall i, j | 0 <= i < j < |rows| :: rows[i].at <= rows[j].at
  }

  lemma {:induction false} TickIsLast(env: Env, fixture: Fixture, rows: seq<StatRow>)
    requires Playable(fixture)
    ensures AdvanceAll(env, fixture, NOTHING, rows).tick.at == if rows == [] then None else Some(rows[|rows| - 1].at)
  {
    hide Evaluate;
  }

  lemma {:induction false} BetsBefore(env: Env, fixture: Fixture, rows: seq<StatRow>, until: int)
    requires Playable(fixture) && forall i | 0 <= i < |rows| :: rows[i].at <= until
    ensures forall i | 0 <= i < |AdvanceAll(env, fixture, NOTHING, rows).progress.bets| ::
      AdvanceAll(env, fixture, NOTHING, rows).progress.bets[i].decidedAt <= until
  {
    hide Evaluate, Absorb;
    if rows != [] {
      var init := rows[..|rows| - 1];
      BetsBefore(env, fixture, init, until);
      TickIsLast(env, fixture, init);
      var cursor := AdvanceAll(env, fixture, NOTHING, init);
      EvaluateDated(env, fixture, cursor.tick, cursor.progress);
      var after := Evaluate(env, fixture, cursor.tick, cursor.progress).bets;
      forall i | 0 <= i < |after|
        ensures after[i].decidedAt <= until
      {
        assert i < |cursor.progress.bets| ==> after[i] == after[..|cursor.progress.bets|][i];
      }
    }
  }

  /** The rows up to an instant decide the bets up to it: what comes later adds none. */
  lemma {:induction false} LaterRowsAddNothing(env: Env, fixture: Fixture, rows: seq<StatRow>, n: nat, until: int)
    requires Playable(fixture) && n < |rows| && Chronological(rows)
    requires (forall i | 0 <= i < n :: rows[i].at <= until) && (forall i | n <= i < |rows| :: rows[i].at > until)
    ensures DecidedBy(AdvanceAll(env, fixture, NOTHING, rows).progress.bets, until)
      == DecidedBy(FixtureBets(env, fixture, rows[..n]), until)
  {
    hide Evaluate, Absorb;
    var init := rows[..|rows| - 1];
    var cursor := AdvanceAll(env, fixture, NOTHING, init);
    TickIsLast(env, fixture, init);
    if n < |init| {
      assert init[..n] == rows[..n];
      LaterRowsAddNothing(env, fixture, init, n, until);
      EvaluateLate(env, fixture, cursor.tick, cursor.progress, until);
    } else {
      assert init == rows[..n];
      assert NOTHING.(placed := {}) == NOTHING;
      EvaluateDated(env, fixture, cursor.tick, cursor.progress);
    }
  }

  lemma FixtureCut(env: Env, fixture: Fixture, rows: seq<StatRow>, n: nat, until: int)
    requires Playable(fixture) && n <= |rows| && Chronological(rows)
    requires (forall i | 0 <= i < n :: rows[i].at <= until) && (forall i | n <= i < |rows| :: rows[i].at > until)
    ensures DecidedBy(FixtureBets(env, fixture, rows), until) == FixtureBets(env, fixture, rows[..n])
  {
    hide Evaluate, AdvanceAll;
    assert NOTHING.(placed := {}) == NOTHING;
    FixtureBetsBefore(env, fixture, rows[..n], until);
    AllDecided(FixtureBets(env, fixture, rows[..n]), until);
    if n == |rows| {
      assert rows[..n] == rows;
    } else {
      LaterRowsAddNothing(env, fixture, rows, n, until);
      TickIsLast(env, fixture, rows);
      var end := AdvanceAll(env, fixture, NOTHING, rows);
      EvaluateLate(env, fixture, end.tick, end.progress, until);
    }
  }

  lemma FixtureBetsBefore(env: Env, fixture: Fixture, rows: seq<StatRow>, until: int)
    requires Playable(fixture) && forall i | 0 <= i < |rows| :: rows[i].at <= until
    ensures forall i | 0 <= i < |FixtureBets(env, fixture, rows)| :: FixtureBets(env, fixture, rows)[i].decidedAt <= until
  {
    hide Evaluate, AdvanceAll;
    assert NOTHING.(placed := {}) == NOTHING;
    BetsBefore(env, fixture, rows, until);
    TickIsLast(env, fixture, rows);
    var end := AdvanceAll(env, fixture, NOTHING, rows);
    EvaluateDated(env, fixture, end.tick, end.progress);
    var after := FixtureBets(env, fixture, rows);
    forall i | 0 <= i < |after|
      ensures after[i].decidedAt <= until
    {
      assert i < |end.progress.bets| ==> after[i] == after[..|end.progress.bets|][i];
    }
  }
}
