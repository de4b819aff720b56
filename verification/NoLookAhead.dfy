/** Two datasets that agree up to an instant give the same bets up to it, their outcomes apart. */
module NoLookAhead {
  import opened Wrappers
  import opened Quotes
  import opened Sorting
  import opened Replay
  import opened ReplayProofs

  // ---- Cutting the rows ----

  lemma {:induction false} RowsOfConcat(first: seq<StatRow>, second: seq<StatRow>, fixture: string)
    ensures RowsOf(first + second, fixture) == RowsOf(first, fixture) + RowsOf(second, fixture)
  {
    if second == [] {
      assert first + second == first;
    } else {
      RowsOfConcat(first, second[..|second| - 1], fixture);
      assert (first + second)[..|first + second| - 1] == first + second[..|second| - 1];
    }
  }

  predicate HasRow(rows: seq<StatRow>, fixture: string) {
    exists r | 0 <= r < |rows| :: rows[r].fixture == fixture
  }

  /** The rows of a fixture are among the rows, in their order. */
  lemma {:induction false} RowsOfThese(rows: seq<StatRow>, fixture: string)
    ensures forall i | 0 <= i < |RowsOf(rows, fixture)| ::
      RowsOf(rows, fixture)[i] in rows && RowsOf(rows, fixture)[i].fixture == fixture
    ensures Chronological(rows) ==> Chronological(RowsOf(rows, fixture))
  {
    if rows != [] {
      var init, last := rows[..|rows| - 1], rows[|rows| - 1];
      RowsOfThese(init, fixture);
      assert rows == init + [last];
      if Chronological(rows) {
        assert forall r | r in init :: r.at <= last.at;
      }
    }
  }

  lemma {:induction false} OrderPrefix(rows: seq<StatRow>, n: nat)
    requires n <= |rows|
    ensures FixtureOrder(rows[..n]) <= FixtureOrder(rows)
  {
    if n == |rows| {
      assert rows[..n] == rows;
    } else {
      var init := rows[..|rows| - 1];
      assert init[..n] == rows[..n];
      OrderPrefix(init, n);
    }
  }

  lemma {:induction false} AbsentHasNoRows(rows: seq<StatRow>, fixture: string)
    requires fixture !in FixtureOrder(rows)
    ensures RowsOf(rows, fixture) == []
  {
    if rows != [] {
      AbsentHasNoRows(rows[..|rows| - 1], fixture);
    }
  }

  lemma NoRowsNoBets(env: Env, fixture: Fixture)
    requires Playable(fixture)
    ensures FixtureBets(env, fixture, []) == []
  {
    assert NOTHING.(placed := {}) == NOTHING;
  }

  lemma OneFixtureCut(env: Env, fixture: Fixture, rows: seq<StatRow>, n: nat, id: string, until: int)
    requires Playable(fixture) && n <= |rows| && Chronological(rows)
    requires (forall i | 0 <= i < n :: rows[i].at <= until) && (forall i | n <= i < |rows| :: rows[i].at > until)
    ensures DecidedBy(FixtureBets(env, fixture, RowsOf(rows, id)), until) == FixtureBets(env, fixture, RowsOf(rows[..n], id))
  {
    hide FixtureBets, RowsOf, DecidedBy;
    var early, late := rows[..n], rows[n..];
    assert rows == early + late;
    RowsOfConcat(early, late, id);
    RowsOfThese(rows, id);
    RowsOfThese(early, id);
    RowsOfThese(late, id);
    var mine, m := RowsOf(rows, id), |RowsOf(early, id)|;
    assert mine[..m] == RowsOf(early, id);
    forall i | m <= i < |mine|
      ensures mine[i].at > until
    {
      assert mine[i] == RowsOf(late, id)[i - m];
    }
    forall i | 0 <= i < m
      ensures mine[i].at <= until
    {
      assert mine[i] == RowsOf(early, id)[i];
    }
    FixtureCut(env, fixture, mine, m, until);
  }

  lemma {:induction false} AllCut(env: Env, fixtures: map<string, Fixture>, ids: seq<string>, m: nat, rows: seq<StatRow>,
                                  n: nat, until: int)
    requires n <= |rows| && Chronological(rows) && m <= |ids|
    requires (forall i | 0 <= i < n :: rows[i].at <= until) && (forall i | n <= i < |rows| :: rows[i].at > until)
    requires forall i | m <= i < |ids| :: RowsOf(rows[..n], ids[i]) == []
    ensures DecidedBy(AllBets(env, fixtures, ids, rows), until) == AllBets(env, fixtures, ids[..m], rows[..n])
  {
    hide FixtureBets, RowsOf;
    if ids != [] {
      var init, id := ids[..|ids| - 1], ids[|ids| - 1];
      if id in fixtures && Playable(fixtures[id]) {
        OneFixtureCut(env, fixtures[id], rows, n, id, until);
        NoRowsNoBets(env, fixtures[id]);
        DecidedConcat(AllBets(env, fixtures, init, rows), FixtureBets(env, fixtures[id], RowsOf(rows, id)), until);
      }
      assert forall bets: seq<Bet> :: bets + [] == bets;
      if m == |ids| {
        AllCut(env, fixtures, init, m - 1, rows, n, until);
        assert ids[..m] == ids && init[..m - 1] == init;
      } else {
        AllCut(env, fixtures, init, m, rows, n, until);
        assert init[..m] == ids[..m];
        assert RowsOf(rows[..n], id) == [];
      }
    }
  }

  /** The bets decided by an instant are those of a replay of the rows up to it. */
  lemma ReplayCut(env: Env, fixtures: map<string, Fixture>, rows: seq<StatRow>, n: nat, until: int)
    requires n <= |rows| && Chronological(rows)
    requires (forall i | 0 <= i < n :: rows[i].at <= until) && (forall i | n <= i < |rows| :: rows[i].at > until)
    ensures DecidedBy(ReplayFixtures(env, fixtures, FixtureOrder(rows), rows).bets, until)
      == AllBets(env, fixtures, FixtureOrder(rows[..n]), rows[..n])
  {
    hide AllBets, ReplayFixtures, RowsOf;
    var order, early := FixtureOrder(rows), FixtureOrder(rows[..n]);
    BetsAdd(env, fixtures, order, rows);
    OrderPrefix(rows, n);
    OrderIsDistinct(rows);
    forall i | |early| <= i < |order|
      ensures RowsOf(rows[..n], order[i]) == []
    {
      assert forall j | 0 <= j < |early| :: early[j] == order[j];
      AbsentHasNoRows(rows[..n], order[i]);
    }
    AllCut(env, fixtures, order, |early|, rows, n, until);
    assert order[..|early|] == early;
  }

  // ---- Runs that cannot be told apart ----

  function Forget(bets: seq<Bet>): seq<Bet> {
    seq(|bets|, i requires 0 <= i < |bets| => bets[i].(outcome := NoResult))
  }

  predicate Alike(p: Progress, q: Progress) {
    p.placed == q.placed && Forget(p.bets) == Forget(q.bets)
  }

  /** The same match as far as a decision can see. */
  predicate SameFixture(f: Fixture, g: Fixture) {
    f.(final := "") == g.(final := "")
  }

  /** The same quote answers a decision or an execution about this fixture at this tick. */
  ghost predicate SameQuotes(one: Env, two: Env, fixture: Fixture, at: int) {
    forall target: Target | target.providerFixtureId == fixture.providerId ::
      && Select(one, target, at) == Select(two, target, at)
      && Select(one, target, at + one.strategy.latency) == Select(two, target, at + one.strategy.latency)
  }

  /** Targets name the fixture they are made for. */
  ghost predicate WellTargeted(strategy: Strategy) {
    forall provider: string, market: string, home: bool :: strategy.targetOf(provider, market, home).Some? ==>
      strategy.targetOf(provider, market, home).value.providerFixtureId == provider
  }

  lemma FollowAlike(one: Env, two: Env, f: Fixture, g: Fixture, at: int, elapsed: int, p: Progress, q: Progress,
                    found: RuleMatch)
    requires one.strategy == two.strategy && SameFixture(f, g) && Alike(p, q)
    requires WellTargeted(one.strategy) && SameQuotes(one, two, f, at)
    ensures Alike(Follow(one, f, at, elapsed, p, found), Follow(two, g, at, elapsed, q, found))
  {
    hide Select, Recorded, Wanted, Forget;
    ForgetKeepsLength(p.bets, q.bets);
    var target := TargetFor(one.strategy, f, found);
    assert TargetFor(two.strategy, g, found) == target;
    if target.Some? {
      assert target.value.providerFixtureId == f.providerId;
      assert Select(one, target.value, at) == Select(two, target.value, at);
      var a, b := Follow(one, f, at, elapsed, p, found).bets, Follow(two, g, at, elapsed, q, found).bets;
      if a != p.bets {
        ForgetAppends(p.bets, q.bets, a[|p.bets|], b[|q.bets|]);
      }
    }
  }

  lemma ForgetKeepsLength(a: seq<Bet>, b: seq<Bet>)
    requires Forget(a) == Forget(b)
    ensures |a| == |b|
  {
    assert |Forget(a)| == |a| && |Forget(b)| == |b|;
  }

  lemma ForgetAppends(a: seq<Bet>, b: seq<Bet>, x: Bet, y: Bet)
    requires Forget(a) == Forget(b) && x.(outcome := NoResult) == y.(outcome := NoResult)
    ensures Forget(a + [x]) == Forget(b + [y])
  {
    assert Forget(a + [x]) == Forget(a) + [x.(outcome := NoResult)];
    assert Forget(b + [y]) == Forget(b) + [y.(outcome := NoResult)];
  }

  lemma {:induction false} FollowAllAlike(one: Env, two: Env, f: Fixture, g: Fixture, at: int, elapsed: int, p: Progress,
                                          q: Progress, found: seq<RuleMatch>)
    requires one.strategy == two.strategy && SameFixture(f, g) && Alike(p, q)
    requires WellTargeted(one.strategy) && SameQuotes(one, two, f, at)
    ensures Alike(FollowAll(one, f, at, elapsed, p, found), FollowAll(two, g, at, elapsed, q, found))
  {
    hide Follow, Alike, SameQuotes, WellTargeted;
    if found != [] {
      var init := found[..|found| - 1];
      FollowAllAlike(one, two, f, g, at, elapsed, p, q, init);
      FollowAlike(one, two, f, g, at, elapsed, FollowAll(one, f, at, elapsed, p, init),
                  FollowAll(two, g, at, elapsed, q, init), found[|found| - 1]);
    }
  }

  /** What two runs must share about a row for the tick it belongs to. */
  ghost predicate SameTick(one: Env, two: Env, f: Fixture, row: StatRow)
    requires Playable(f)
  {
    && SameQuotes(one, two, f, row.at)
    && (row.elapsed.Some? ==> ScoreAt(one.goals, f, row.elapsed.value) == ScoreAt(two.goals, f, row.elapsed.value))
  }

  /** A tick is that of a row already absorbed: its instant is one's, its minute another's. */
  ghost predicate TickOf(tick: Tick, rows: seq<StatRow>) {
    && (tick.at.Some? ==> exists i | 0 <= i < |rows| :: tick.at == Some(rows[i].at))
    && (tick.elapsed.Some? ==> exists i | 0 <= i < |rows| :: rows[i].elapsed == tick.elapsed)
  }

  lemma EvaluateAlike(one: Env, two: Env, f: Fixture, g: Fixture, tick: Tick, p: Progress, q: Progress, rows: seq<StatRow>)
    requires Playable(f) && SameFixture(f, g) && one.strategy == two.strategy && Alike(p, q)
    requires WellTargeted(one.strategy) && TickOf(tick, rows)
    requires forall i | 0 <= i < |rows| :: SameTick(one, two, f, rows[i])
    ensures Alike(Evaluate(one, f, tick, p), Evaluate(two, g, tick, q))
  {
    hide Alike, FollowAll, SameQuotes, WellTargeted, ScoreAt;
    if tick.at.Some? && tick.elapsed.Some? {
      var i :| 0 <= i < |rows| && tick.at == Some(rows[i].at);
      var j :| 0 <= j < |rows| && rows[j].elapsed == tick.elapsed;
      assert SameTick(one, two, f, rows[i]) && SameTick(one, two, f, rows[j]);
      SameScore(two.goals, f, g, tick.elapsed.value);
      FollowAllAlike(one, two, f, g, tick.at.value, tick.elapsed.value, p, q,
                     one.strategy.rules(RuleInputAt(one, f, tick.stats, tick.elapsed.value)));
    }
  }

  lemma SameScore(goals: seq<Goal>, f: Fixture, g: Fixture, elapsed: int)
    requires Playable(f) && SameFixture(f, g)
    ensures ScoreAt(goals, g, elapsed) == ScoreAt(goals, f, elapsed)
  {
  }

  lemma {:induction false} AdvanceAllAlike(one: Env, two: Env, f: Fixture, g: Fixture, rows: seq<StatRow>)
    requires Playable(f) && SameFixture(f, g) && one.strategy == two.strategy && WellTargeted(one.strategy)
    requires forall i | 0 <= i < |rows| :: SameTick(one, two, f, rows[i])
    ensures var a, b := AdvanceAll(one, f, NOTHING, rows), AdvanceAll(two, g, NOTHING, rows);
      a.tick == b.tick && Alike(a.progress, b.progress) && TickOf(a.tick, rows)
  {
    hide Evaluate, SameTick, WellTargeted, Alike;
    if rows == [] {
      AlikeItself();
    } else {
      var init, last := rows[..|rows| - 1], rows[|rows| - 1];
      AdvanceAllAlike(one, two, f, g, init);
      var a, b := AdvanceAll(one, f, NOTHING, init), AdvanceAll(two, g, NOTHING, init);
      EvaluateAlike(one, two, f, g, a.tick, a.progress, b.progress, init);
      TickGrows(a.tick, init, last);
    }
  }

  lemma AlikeItself()
    ensures Alike(NOTHING, NOTHING)
  {
  }

  lemma TickGrows(tick: Tick, rows: seq<StatRow>, row: StatRow)
    requires TickOf(tick, rows)
    ensures TickOf(Absorb(tick, row), rows + [row])
  {
    var longer := rows + [row];
    assert longer[|rows|] == row;
    if row.elapsed.None? && tick.elapsed.Some? {
      var i :| 0 <= i < |rows| && rows[i].elapsed == tick.elapsed;
      assert longer[i].elapsed == tick.elapsed;
    }
  }

  lemma FixtureAlike(one: Env, two: Env, f: Fixture, g: Fixture, rows: seq<StatRow>)
    requires Playable(f) && SameFixture(f, g) && one.strategy == two.strategy && WellTargeted(one.strategy)
    requires forall i | 0 <= i < |rows| :: SameTick(one, two, f, rows[i])
    ensures Forget(FixtureBets(one, f, rows)) == Forget(FixtureBets(two, g, rows))
  {
    hide Evaluate, AdvanceAll, SameTick, WellTargeted;
    assert NOTHING.(placed := {}) == NOTHING;
    AdvanceAllAlike(one, two, f, g, rows);
    var a, b := AdvanceAll(one, f, NOTHING, rows), AdvanceAll(two, g, NOTHING, rows);
    EvaluateAlike(one, two, f, g, a.tick, a.progress, b.progress, rows);
  }

  lemma ForgetConcat(a: seq<Bet>, b: seq<Bet>)
    ensures Forget(a + b) == Forget(a) + Forget(b)
  {
  }

  /** What the two datasets' fixtures and environments share about the given rows. */
  ghost predicate SameRows(one: Env, two: Env, fs: map<string, Fixture>, gs: map<string, Fixture>, rows: seq<StatRow>) {
    forall i | 0 <= i < |rows| ::
      var id := rows[i].fixture;
      && (id in fs <==> id in gs)
      && (id in fs ==> SameFixture(fs[id], gs[id]) && (Playable(fs[id]) ==> SameTick(one, two, fs[id], rows[i])))
  }

  lemma {:induction false} AllAlike(one: Env, two: Env, fs: map<string, Fixture>, gs: map<string, Fixture>,
                                    ids: seq<string>,
                                    rows: seq<StatRow>)
    requires one.strategy == two.strategy && WellTargeted(one.strategy) && SameRows(one, two, fs, gs, rows)
    requires forall i | 0 <= i < |ids| :: HasRow(rows, ids[i])
    ensures Forget(AllBets(one, fs, ids, rows)) == Forget(AllBets(two, gs, ids, rows))
  {
    hide FixtureBets, SameTick, WellTargeted, Forget;
    if ids != [] {
      var init, id := ids[..|ids| - 1], ids[|ids| - 1];
      AllAlike(one, two, fs, gs, init, rows);
      assert HasRow(rows, id);
      assert forall bets: seq<Bet> :: bets + [] == bets;
      var r :| 0 <= r < |rows| && rows[r].fixture == id;
      assert id in fs <==> id in gs;
      if id in fs && Playable(fs[id]) {
        var mine := RowsOf(rows, id);
        RowsOfThese(rows, id);
        forall i | 0 <= i < |mine|
          ensures SameTick(one, two, fs[id], mine[i])
        {
          var k :| 0 <= k < |rows| && rows[k] == mine[i];
        }
        FixtureAlike(one, two, fs[id], gs[id], mine);
        ForgetConcat(AllBets(one, fs, init, rows), FixtureBets(one, fs[id], mine));
        ForgetConcat(AllBets(two, gs, init, rows), FixtureBets(two, gs[id], mine));
      }
    }
  }

  lemma {:induction false} OrderHasRows(rows: seq<StatRow>)
    ensures forall id | id in FixtureOrder(rows) :: HasRow(rows, id)
  {
    if rows != [] {
      var init, last := rows[..|rows| - 1], rows[|rows| - 1];
      OrderHasRows(init);
      forall id | id in FixtureOrder(rows)
        ensures HasRow(rows, id)
      {
        if id in FixtureOrder(init) {
          assert HasRow(init, id);
          var r :| 0 <= r < |init| && init[r].fixture == id;
          assert rows[r].fixture == id;
        } else {
          assert rows[|rows| - 1].fixture == id;
        }
      }
    }
  }

  // ---- Two datasets ----

  function UpTo(rows: seq<StatRow>, until: int): seq<StatRow> {
    if rows == [] then []
    else
      var last, earlier := rows[|rows| - 1], UpTo(rows[..|rows| - 1], until);
      if last.at <= until then earlier + [last] else earlier
  }

  /** Identifiers are primary keys and the locale tells them apart. */
  ghost predicate ToldApart(rows: seq<StatRow>, rank: Collation) {
    forall a, b | a in rows && b in rows && rank(a.id) == rank(b.id) :: a == b
  }

  /**
   * The datasets hold the same statistics up to `until`, the same quotes received up to
   * `until` plus the latency, and for each of those statistics the same fixture, its final
   * state apart, and the same goals up to its minute.
   */
  ghost predicate AgreeUpTo(one: Dataset, two: Dataset, strategy: Strategy, period: Period, until: int) {
    && multiset(UpTo(InPeriod(one.stats, period), until)) == multiset(UpTo(InPeriod(two.stats, period), until))
    && (forall q: Quote | q.receivedAt <= until + strategy.latency ::
          q in WholeTable(one.snapshots) <==> q in WholeTable(two.snapshots))
    && forall row | row in UpTo(InPeriod(one.stats, period), until) ::
         && (row.fixture in one.fixtures <==> row.fixture in two.fixtures)
         && (row.fixture in one.fixtures ==>
               && SameFixture(one.fixtures[row.fixture], two.fixtures[row.fixture])
               && forall team | row.elapsed.Some? ::
                    GoalsBy(one.goals, row.fixture, team, row.elapsed.value)
                    == GoalsBy(two.goals, row.fixture, team, row.elapsed.value))
  }

  ghost predicate Usable(data: Dataset, period: Period, rank: Collation) {
    && Keyed(data.fixtures)
    && ToldApart(InPeriod(data.stats, period), rank)
    && DistinctSnapshots(WholeTable(data.snapshots), rank)
  }

  lemma {:induction false} InPeriodBounds(stats: seq<StatRow>, period: Period)
    ensures forall r | r in InPeriod(stats, period) :: period.from <= r.at <= period.to
  {
    if stats != [] {
      InPeriodBounds(stats[..|stats| - 1], period);
    }
  }

  lemma {:induction false} UpToCounts(rows: seq<StatRow>, until: int, row: StatRow)
    ensures multiset(UpTo(rows, until))[row] == if row.at <= until then multiset(rows)[row] else 0
  {
    if rows != [] {
      var init, last := rows[..|rows| - 1], rows[|rows| - 1];
      UpToCounts(init, until, row);
      assert rows == init + [last];
    }
  }

  lemma UpToPermutes(a: seq<StatRow>, b: seq<StatRow>, until: int)
    requires multiset(a) == multiset(b)
    ensures multiset(UpTo(a, until)) == multiset(UpTo(b, until))
  {
    forall row
      ensures multiset(UpTo(a, until))[row] == multiset(UpTo(b, until))[row]
    {
      UpToCounts(a, until, row);
      UpToCounts(b, until, row);
    }
  }

  lemma {:induction false} AllUpTo(rows: seq<StatRow>, until: int)
    requires forall i | 0 <= i < |rows| :: rows[i].at <= until
    ensures UpTo(rows, until) == rows
  {
    if rows != [] {
      AllUpTo(rows[..|rows| - 1], until);
    }
  }

  /** In chronological order, the rows up to an instant come first. */
  lemma {:induction false} UpToIsPrefix(rows: seq<StatRow>, until: int)
    requires Chronological(rows)
    ensures var n := |UpTo(rows, until)|;
      && n <= |rows| && UpTo(rows, until) == rows[..n]
      && (forall i | 0 <= i < n :: rows[i].at <= until)
      && (forall i | n <= i < |rows| :: rows[i].at > until)
  {
    if rows == [] || rows[|rows| - 1].at <= until {
      AllUpTo(rows, until);
    } else {
      var init := rows[..|rows| - 1];
      UpToIsPrefix(init, until);
      var n := |UpTo(init, until)|;
      assert UpTo(rows, until) == UpTo(init, until) && init[..n] == rows[..n];
      assert forall i | 0 <= i < |init| :: init[i] == rows[i];
    }
  }

  lemma OrderedRows(data: Dataset, period: Period, rank: Collation)
    ensures var rows := Ordered(data, period, rank);
      && Sorted(rows, ByInstant(rank)) && Chronological(rows)
      && multiset(rows) == multiset(InPeriod(data.stats, period))
      && (forall i | 0 <= i < |rows| :: period.from <= rows[i].at <= period.to)
  {
    var rows, stored := Ordered(data, period, rank), InPeriod(data.stats, period);
    SortSorts(stored, ByInstant(rank));
    InPeriodBounds(data.stats, period);
    forall i | 0 <= i < |rows|
      ensures period.from <= rows[i].at <= period.to
    {
      assert rows[i] in multiset(stored);
    }
    forall i, j | 0 <= i < j < |rows|
      ensures rows[i].at <= rows[j].at
    {
      assert !ByInstant(rank)(rows[j], rows[i]);
    }
  }

  lemma PrefixSorted(rows: seq<StatRow>, n: nat, rank: Collation)
    requires n <= |rows| && Sorted(rows, ByInstant(rank))
    ensures Sorted(rows[..n], ByInstant(rank))
  {
  }

  /** Both replays see the same rows, in the same order, up to the instant. */
  lemma SameEarlyRows(one: Dataset, two: Dataset, strategy: Strategy, period: Period, rank: Collation, until: int)
    requires AgreeUpTo(one, two, strategy, period, until) && Usable(one, period, rank)
    ensures UpTo(Ordered(one, period, rank), until) == UpTo(Ordered(two, period, rank), until)
  {
    hide Ordered, UpTo, InPeriod;
    var a, b := Ordered(one, period, rank), Ordered(two, period, rank);
    OrderedRows(one, period, rank);
    OrderedRows(two, period, rank);
    UpToPermutes(a, InPeriod(one.stats, period), until);
    UpToPermutes(b, InPeriod(two.stats, period), until);
    UpToIsPrefix(a, until);
    UpToIsPrefix(b, until);
    var early, other := UpTo(a, until), UpTo(b, until);
    PrefixSorted(a, |early|, rank);
    PrefixSorted(b, |other|, rank);
    forall i, j | 0 <= i < |early| && 0 <= j < |early| && early[i] != early[j]
      ensures ByInstant(rank)(early[i], early[j]) || ByInstant(rank)(early[j], early[i])
    {
      assert a[i] in multiset(InPeriod(one.stats, period)) && a[j] in multiset(InPeriod(one.stats, period));
    }
    SortedIsUnique(early, other, ByInstant(rank));
  }

  lemma {:induction false} KnownHas(fixtures: map<string, Fixture>, ids: seq<string>, id: string)
    requires id in ids && id in fixtures
    ensures fixtures[id].providerId in Known(fixtures, ids)
  {
    var init, last := ids[..|ids| - 1], ids[|ids| - 1];
    assert ids == init + [last];
    if last != id {
      KnownHas(fixtures, init, id);
    }
  }

  /** A query of the replay is answered as if every stored quote were searched. */
  lemma SelectSeesWholeTable(data: Dataset, strategy: Strategy, period: Period, rank: Collation, target: Target,
                             at: int, id: string)
    requires DistinctSnapshots(WholeTable(data.snapshots), rank)
    requires id in FixtureOrder(Ordered(data, period, rank)) && id in data.fixtures
    requires target.providerFixtureId == data.fixtures[id].providerId
    requires period.from <= at <= period.to + strategy.latency
    ensures Select(EnvOf(data, strategy, period, rank), target, at)
      == SelectLatest(WholeTable(data.snapshots), QuoteQuery(target, at, strategy.maxQuoteAge), rank)
  {
    hide SelectLatest, Ordered, LoadCandidates, WholeTable, Known;
    var order := FixtureOrder(Ordered(data, period, rank));
    KnownHas(data.fixtures, order, id);
    PrefilterIsExact(
      data.snapshots,
      Window(Known(data.fixtures, order), period.from - strategy.maxQuoteAge, period.to + strategy.latency),
      QuoteQuery(target, at, strategy.maxQuoteAge), rank);
  }

  lemma SameAnswers(one: Dataset, two: Dataset, strategy: Strategy, period: Period, rank: Collation, until: int,
                    target: Target, at: int, id: string)
    requires AgreeUpTo(one, two, strategy, period, until) && Usable(one, period, rank) && Usable(two, period, rank)
    requires id in FixtureOrder(Ordered(one, period, rank)) && id in FixtureOrder(Ordered(two, period, rank))
    requires id in one.fixtures && id in two.fixtures
    requires target.providerFixtureId == one.fixtures[id].providerId == two.fixtures[id].providerId
    requires period.from <= at <= period.to + strategy.latency && at <= until + strategy.latency
    ensures Select(EnvOf(one, strategy, period, rank), target, at) == Select(EnvOf(two, strategy, period, rank), target, at)
  {
    hide SelectLatest, Ordered, WholeTable, Select, FixtureOrder;
    SelectSeesWholeTable(one, strategy, period, rank, target, at, id);
    SelectSeesWholeTable(two, strategy, period, rank, target, at, id);
    SameMatchesSameAnswer(WholeTable(one.snapshots), WholeTable(two.snapshots),
                          QuoteQuery(target, at, strategy.maxQuoteAge), rank);
  }

  lemma PrefixOrder(rows: seq<StatRow>, n: nat, i: nat)
    requires i < n <= |rows|
    ensures rows[i].fixture in FixtureOrder(rows)
  {
    OrderIsDistinct(rows);
  }

  lemma EarlyRowsAreSame(one: Dataset, two: Dataset, strategy: Strategy, period: Period, rank: Collation, until: int)
    requires AgreeUpTo(one, two, strategy, period, until) && Usable(one, period, rank) && Usable(two, period, rank)
    ensures SameRows(EnvOf(one, strategy, period, rank), EnvOf(two, strategy, period, rank), one.fixtures, two.fixtures,
                     UpTo(Ordered(one, period, rank), until))
  {
    hide Ordered, UpTo, InPeriod, Select, GoalsBy, FixtureOrder, WholeTable;
    var a, b := Ordered(one, period, rank), Ordered(two, period, rank);
    var rows := UpTo(a, until);
    SameEarlyRows(one, two, strategy, period, rank, until);
    OrderedRows(one, period, rank);
    OrderedRows(two, period, rank);
    UpToIsPrefix(a, until);
    UpToIsPrefix(b, until);
    UpToPermutes(a, InPeriod(one.stats, period), until);
    forall i | 0 <= i < |rows|
      ensures
        var id := rows[i].fixture;
        && (id in one.fixtures <==> id in two.fixtures)
        && (id in one.fixtures ==>
              && SameFixture(one.fixtures[id], two.fixtures[id])
              && (Playable(one.fixtures[id]) ==>
                    SameTick(EnvOf(one, strategy, period, rank), EnvOf(two, strategy, period, rank), one.fixtures[id], rows[i])))
    {
      var row := rows[i];
      assert row in multiset(UpTo(InPeriod(one.stats, period), until));
      PrefixOrder(a, |rows|, i);
      PrefixOrder(b, |rows|, i);
      if row.fixture in one.fixtures && Playable(one.fixtures[row.fixture]) {
        QuotesOfRow(one, two, strategy, period, rank, until, row);
      }
    }
  }

  lemma QuotesOfRow(one: Dataset, two: Dataset, strategy: Strategy, period: Period, rank: Collation, until: int,
                    row: StatRow)
    requires AgreeUpTo(one, two, strategy, period, until) && Usable(one, period, rank) && Usable(two, period, rank)
    requires row.fixture in FixtureOrder(Ordered(one, period, rank)) && row.fixture in FixtureOrder(Ordered(two, period, rank))
    requires row.fixture in one.fixtures && row.fixture in two.fixtures
    requires SameFixture(one.fixtures[row.fixture], two.fixtures[row.fixture])
    requires period.from <= row.at <= period.to && row.at <= until
    ensures SameQuotes(EnvOf(one, strategy, period, rank), EnvOf(two, strategy, period, rank), one.fixtures[row.fixture], row.at)
  {
    hide Ordered, Select, FixtureOrder, AgreeUpTo, Usable, EnvOf;
    EnvStrategy(one, strategy, period, rank);
    var envs := (EnvOf(one, strategy, period, rank), EnvOf(two, strategy, period, rank));
    forall target: Target | target.providerFixtureId == one.fixtures[row.fixture].providerId
      ensures Select(envs.0, target, row.at) == Select(envs.1, target, row.at)
      ensures Select(envs.0, target, row.at + strategy.latency) == Select(envs.1, target, row.at + strategy.latency)
    {
      SameAnswers(one, two, strategy, period, rank, until, target, row.at, row.fixture);
      SameAnswers(one, two, strategy, period, rank, until, target, row.at + strategy.latency, row.fixture);
    }
  }

  lemma EnvStrategy(data: Dataset, strategy: Strategy, period: Period, rank: Collation)
    ensures EnvOf(data, strategy, period, rank).strategy == strategy
  {
  }

  /** No look-ahead: what happens after an instant cannot change the bets decided by it, except how they turned out. */
  lemma NoLookAhead(one: Dataset, two: Dataset, strategy: Strategy, period: Period, rank: Collation, until: int)
    requires WellTargeted(strategy)
    requires Usable(one, period, rank) && Usable(two, period, rank)
    requires AgreeUpTo(one, two, strategy, period, until)
    ensures Forget(DecidedBy(ReplayDetailed(one, strategy, period, rank).bets, until))
      == Forget(DecidedBy(ReplayDetailed(two, strategy, period, rank).bets, until))
  {
    hide Ordered, UpTo, AgreeUpTo, Usable, AllBets, DecidedBy, SameRows, WellTargeted, ReplayFixtures, Candidates;
    var a, b := Ordered(one, period, rank), Ordered(two, period, rank);
    OrderedRows(one, period, rank);
    OrderedRows(two, period, rank);
    UpToIsPrefix(a, until);
    UpToIsPrefix(b, until);
    SameEarlyRows(one, two, strategy, period, rank, until);
    var rows := UpTo(a, until);
    var first, second := EnvOf(one, strategy, period, rank), EnvOf(two, strategy, period, rank);
    ReplayCut(first, one.fixtures, a, |rows|, until);
    ReplayCut(second, two.fixtures, b, |rows|, until);
    EarlyRowsAreSame(one, two, strategy, period, rank, until);
    OrderHasRows(rows);
    AllAlike(first, second, one.fixtures, two.fixtures, FixtureOrder(rows), rows);
  }
}
