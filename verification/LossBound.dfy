/**
 * The real loss bound: whatever is reserved, released, settled or carried over midnight, an
 * account never risks more in a day than its policies allow.
 */
module LossBound {
  import opened Wrappers
  import opened Keys
  import opened Control
  import opened Ledger
  import opened Risk
  import opened Orders
  import opened OrderInvariant
  import opened OrderSteps
  import opened Pipeline
  import opened PipelineInvariant
  import opened Sums
  import opened DayTotals

  /** The largest limits of the policies ever created. */
  datatype Limits = Limits(loss: int, exposure: int, staked: int)

  predicate Covers(limits: Limits, policies: seq<RiskPolicy>) {
    && limits.loss > 0 && limits.exposure >= 0 && limits.staked >= 0
    && forall p | 0 <= p < |policies| ::
         && policies[p].maxDailyLoss <= limits.loss
         && policies[p].maxOpenExposure <= limits.exposure
         && policies[p].maxDailyStake <= limits.staked
  }

  /** What one account risks: reserved, staked since the day began, lost since the day began. */
  predicate AccountBounded(entries: seq<Entry>, account: nat, day: int, limits: Limits) {
    var reserved := Total(Deltas, entries, account);
    && reserved <= limits.exposure
    && Total(StakedSince(day), entries, account) <= limits.staked
    && DayLoss(Total(PnlSince(day), entries, account)) + reserved <= limits.loss - 1 + limits.exposure
  }

  ghost predicate Bounded(entries: seq<Entry>, day: int, limits: Limits) {
    forall account: nat :: AccountBounded(entries, account, day, limits)
  }

  /** Releases, settlements and openings only lower what is at risk. */
  lemma OneMoreBounded(entries: seq<Entry>, entry: Entry, day: int, limits: Limits)
    requires Bounded(entries, day, limits)
    requires ShapeOk(entry) && !entry.entryType.Reserve?
    ensures Bounded(entries + [entry], day, limits)
  {
    TotalAppend(Deltas, entries, entry);
    TotalAppend(StakedSince(day), entries, entry);
    TotalAppend(PnlSince(day), entries, entry);
    forall account: nat
      ensures AccountBounded(entries + [entry], account, day, limits)
    {
      assert AccountBounded(entries, account, day, limits);
    }
  }

  lemma {:induction false} MoreBounded(entries: seq<Entry>, after: seq<Entry>, day: int, limits: Limits)
    requires Bounded(entries, day, limits)
    requires |entries| <= |after| && after[..|entries|] == entries
    requires forall e | |entries| <= e < |after| :: ShapeOk(after[e]) && !after[e].entryType.Reserve?
    ensures Bounded(after, day, limits)
  {
    if |after| == |entries| {
      assert after == entries;
    } else {
      var init := after[..|after| - 1];
      assert init[..|entries|] == entries;
      MoreBounded(entries, init, day, limits);
      OneMoreBounded(init, after[|after| - 1], day, limits);
      assert init + [after[|after| - 1]] == after;
    }
  }

  /** The stake passed the risk check on the ledger as it stood. */
  predicate PassedRisk(tables: Tables, entry: Entry, now: int) {
    && entry.entryType.Reserve? && entry.account < |tables.book.accounts|
    && ActivePolicy(tables.control).Some?
    && var policy, day := ActivePolicy(tables.control).value, UtcDayStart(now);
    && DayLoss(Total(PnlSince(day), tables.book.entries, entry.account)) < policy.maxDailyLoss
    && Total(StakedSince(day), tables.book.entries, entry.account) + entry.effect.reservedDelta <= policy.maxDailyStake
    && tables.book.accounts[entry.account].balances.reserved + entry.effect.reservedDelta <= policy.maxOpenExposure
  }

  lemma ReservationPassedRisk(tables: Tables, ports: map<Mode, string>, decision: nat, account: nat, now: int,
                              interlockOpen: bool, clockOk: bool)
    ensures
      var after := ReserveOrder(tables, ports, decision, account, now, interlockOpen, clockOk).tables.book.entries;
      || after == tables.book.entries
      || (&& |after| == |tables.book.entries| + 1
          && after == tables.book.entries + [after[|tables.book.entries|]]
          && PassedRisk(tables, after[|tables.book.entries|], now))
  {
  }

  lemma PassedStaysBounded(tables: Tables, entry: Entry, now: int, limits: Limits)
    requires Inv(tables) && PassedRisk(tables, entry, now)
    requires Covers(limits, tables.control.policies)
    requires Bounded(tables.book.entries, UtcDayStart(now), limits)
    ensures Bounded(tables.book.entries + [entry], UtcDayStart(now), limits)
  {
    var entries, day := tables.book.entries, UtcDayStart(now);
    TotalAppend(Deltas, entries, entry);
    TotalAppend(StakedSince(day), entries, entry);
    TotalAppend(PnlSince(day), entries, entry);
    assert Journaled(tables.book.accounts[entry.account], Journal(entries, entry.account));
    ChainTelescopes(entries, entry.account);
    forall account: nat
      ensures AccountBounded(entries + [entry], account, day, limits)
    {
      assert AccountBounded(entries, account, day, limits);
    }
  }

  lemma {:induction false} NothingYet(entries: seq<Entry>, account: nat, day: int)
    requires forall e | 0 <= e < |entries| :: entries[e].createdAt < day
    ensures Total(StakedSince(day), entries, account) == 0
    ensures Total(PnlSince(day), entries, account) == 0
  {
    if entries != [] {
      NothingYet(entries[..|entries| - 1], account, day);
    }
  }

  /** Midnight clears the day's totals and keeps what is reserved. */
  lemma DayTurns(entries: seq<Entry>, before: int, after: int, limits: Limits)
    requires before <= after && limits.loss > 0 && limits.staked >= 0
    requires forall e | 0 <= e < |entries| :: entries[e].createdAt <= before
    requires Bounded(entries, UtcDayStart(before), limits)
    ensures Bounded(entries, UtcDayStart(after), limits)
  {
    if UtcDayStart(before) != UtcDayStart(after) {
      SameDayOrLater(before, after);
      forall account: nat
        ensures AccountBounded(entries, account, UtcDayStart(after), limits)
      {
        assert AccountBounded(entries, account, UtcDayStart(before), limits);
        NothingYet(entries, account, UtcDayStart(after));
      }
    }
  }

  lemma SameDayOrLater(before: int, after: int)
    requires before <= after && UtcDayStart(before) != UtcDayStart(after)
    ensures before < UtcDayStart(after)
  {
    var a, b := before / DAY_MS, after / DAY_MS;
    assert UtcDayStart(before) == a * DAY_MS && UtcDayStart(after) == b * DAY_MS;
    assert a != b;
  }

  lemma StepStaysBounded(a: State, step: Step, limits: Limits)
    requires StateInv(a) && Covers(limits, a.tables.control.policies)
    requires Bounded(a.tables.book.entries, UtcDayStart(a.clock), limits)
    ensures Bounded(Next(a, step).tables.book.entries, UtcDayStart(Next(a, step).clock), limits)
  {
    hide Next, Inv, SessionOk, ReserveOrder, UtcDayStart;
    var b := Next(a, step);
    StepContinues(a, step);
    StepKeepsStateInv(a, step);
    ClockGrows(a, step);
    var entries, after := a.tables.book.entries, b.tables.book.entries;
    if step.ReserveStep? {
      ReservationPassedRisk(a.tables, a.ports, step.decision, step.account, a.clock, step.interlockOpen, step.clockOk);
      ReservationIsNext(a, step);
      if after != entries {
        PassedStaysBounded(a.tables, after[|entries|], a.clock, limits);
      }
    } else {
      ShapesOf(b.tables);
      MoreBounded(entries, after, UtcDayStart(a.clock), limits);
      if step.Wait? {
        WaitBooksNothing(a, step);
        DayTurns(entries, a.clock, b.clock, limits);
      }
    }
  }

  lemma ReservationIsNext(a: State, step: Step)
    requires step.ReserveStep?
    ensures Next(a, step).tables
      == ReserveOrder(a.tables, a.ports, step.decision, step.account, a.clock, step.interlockOpen, step.clockOk).tables
  {
  }

  lemma WaitBooksNothing(a: State, step: Step)
    requires step.Wait?
    ensures Next(a, step).tables == a.tables
  {
  }

  lemma ShapesOf(tables: Tables)
    requires Inv(tables)
    ensures forall e | 0 <= e < |tables.book.entries| :: ShapeOk(tables.book.entries[e])
  {
  }

  lemma {:induction false} EveryRunBounded(setup: Setup, steps: seq<Step>, limits: Limits)
    requires Covers(limits, Run(setup, steps).tables.control.policies)
    ensures Bounded(Run(setup, steps).tables.book.entries, UtcDayStart(Run(setup, steps).clock), limits)
  {
    hide Next, StateInv, UtcDayStart, Bounded;
    if steps == [] {
      NothingAtRisk(limits, UtcDayStart(setup.clock));
    } else {
      var a := Run(setup, steps[..|steps| - 1]);
      EveryRun(setup, steps[..|steps| - 1]);
      StepKeepsStateInv(a, steps[|steps| - 1]);
      CoversEarlier(a.tables, Run(setup, steps).tables, limits);
      EveryRunBounded(setup, steps[..|steps| - 1], limits);
      StepStaysBounded(a, steps[|steps| - 1], limits);
    }
  }

  lemma NothingAtRisk(limits: Limits, day: int)
    requires Covers(limits, [])
    ensures Bounded([], day, limits)
  {
  }

  lemma CoversEarlier(a: Tables, b: Tables, limits: Limits)
    requires TablesEvolve(a, b) && Covers(limits, b.control.policies)
    ensures Covers(limits, a.control.policies)
  {
    forall p | 0 <= p < |a.control.policies|
      ensures a.control.policies[p] == b.control.policies[p]
    {
      assert a.control.policies[p] == b.control.policies[..|a.control.policies|][p];
    }
  }

  /**
   * At every moment of every run and on every account, with limits no policy exceeds: open
   * exposure stays within its limit, the stakes of the orders reserved in the day within
   * theirs, and what the orders settled in the day lost, plus everything still at stake, is at
   * most one cent under the loss limit plus the exposure.
   */
  lemma DailyRiskIsBounded(s: State, account: nat, limits: Limits)
    requires Reachable(s) && account < |s.tables.book.accounts|
    requires Covers(limits, s.tables.control.policies)
    ensures
      var reserved, day := s.tables.book.accounts[account].balances.reserved, UtcDayStart(s.clock);
      && reserved <= limits.exposure
      && Sum(StakesOn(s.tables, account, day)) <= limits.staked
      && reserved - Sum(ResultsOn(s.tables, account, day)) <= limits.loss - 1 + limits.exposure
  {
    var setup, steps :| s == Run(setup, steps);
    EveryRun(setup, steps);
    EveryRunBounded(setup, steps, limits);
    assert AccountBounded(s.tables.book.entries, account, UtcDayStart(s.clock), limits);
    assert Journaled(s.tables.book.accounts[account], Journal(s.tables.book.entries, account));
    ChainTelescopes(s.tables.book.entries, account);
    StakesAreOfOrders(s.tables, account, UtcDayStart(s.clock));
    ResultsAreOfOrders(s.tables, account, UtcDayStart(s.clock));
  }
}
