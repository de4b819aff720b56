/** Staking a sequence of decided bets and the totals read off it, in exact arithmetic before any rounding. */
module Kpis {
  import opened Quotes
  import opened Replay
  import opened ReplayProofs
  import opened Sorting
  import Simulation

  /** Percent of the bankroll, or a flat amount. */
  type Staking = Simulation.Staking

  datatype StakedBet = StakedBet(bet: Bet, stake: real, profit: real, placed: bool)

  datatype MarketTotals = MarketTotals(bets: nat, won: nat, lost: nat, staked: real, profit: real)

  /** `markets` is the order in which markets first appear. */
  datatype Books = Books(
    bankroll: real,
    peak: real,
    drawdown: real,
    totalStaked: real,
    net: real,
    markets: seq<string>,
    byMarket: map<string, MarketTotals>,
    staked: seq<StakedBet>)

  const NO_TOTALS := MarketTotals(0, 0, 0, 0.0, 0.0)

  function MaxOf(a: real, b: real): real {
    if a < b then b else a
  }

  function MinOf(a: real, b: real): real {
    if b < a then b else a
  }

  function Requested(staking: Staking, bankroll: real): real {
    match staking
    case Percent(amount) => bankroll * amount / 100.0
    case Flat(amount) => amount
  }

  /** Never negative, never more than what is left. */
  function StakeOf(staking: Staking, bankroll: real): real {
    MaxOf(0.0, MinOf(Requested(staking, bankroll), bankroll))
  }

  /** Odds in thousandths, less the stake itself. */
  function NetOdds(bet: Bet): real {
    (bet.odd as real - 1000.0) / 1000.0
  }

  function ProfitOf(bet: Bet, stake: real): real {
    if stake <= 0.0 then 0.0
    else
      match bet.outcome
      case Won => NetOdds(bet) * stake
      case Lost => -stake
      case _ => 0.0
  }

  predicate AtRisk(outcome: BetOutcome) {
    outcome == Won || outcome == Lost
  }

  function Drawdown(peak: real, bankroll: real): real {
    if peak > 0.0 then (peak - bankroll) / peak * 100.0 else 0.0
  }

  function Counted(totals: MarketTotals, bet: Bet, stake: real, profit: real): MarketTotals {
    MarketTotals(
      totals.bets + 1,
      totals.won + if bet.outcome == Won then 1 else 0,
      totals.lost + if bet.outcome == Lost then 1 else 0,
      totals.staked + if AtRisk(bet.outcome) then stake else 0.0,
      totals.profit + if AtRisk(bet.outcome) then profit else 0.0)
  }

  /** One bet: staked on what is left, settled, and counted under its market. */
  function StakeOne(books: Books, bet: Bet, staking: Staking): Books {
    var stake := StakeOf(staking, books.bankroll);
    var profit := ProfitOf(bet, stake);
    var row := StakedBet(bet, stake, profit, stake > 0.0);
    var logged := books.(staked := books.staked + [row]);
    if stake <= 0.0 then logged
    else
      var market := bet.key.market;
      var known := market in books.byMarket;
      var totals := if known then books.byMarket[market] else NO_TOTALS;
      var counted := logged.(
        markets := if known then books.markets else books.markets + [market],
        byMarket := books.byMarket[market := Counted(totals, bet, stake, profit)]);
      if !AtRisk(bet.outcome) then counted
      else
        var bankroll := books.bankroll + profit;
        var peak := MaxOf(books.peak, bankroll);
        counted.(bankroll := bankroll, peak := peak, drawdown := MaxOf(books.drawdown, Drawdown(peak, bankroll)),
                 totalStaked := books.totalStaked + stake, net := books.net + profit)
  }

  function Opened(start: real): Books {
    Books(MaxOf(0.0, start), MaxOf(0.0, start), 0.0, 0.0, 0.0, [], map[], [])
  }

  function StakeAll(start: real, bets: seq<Bet>, staking: Staking): Books {
    if bets == [] then Opened(start) else StakeOne(StakeAll(start, bets[..|bets| - 1], staking), bets[|bets| - 1], staking)
  }

  function ByDecision(): (Bet, Bet) -> bool {
    (left: Bet, right: Bet) => left.decidedAt < right.decidedAt
  }

  lemma FieldByField(books: Books, bet: Bet, staking: Staking)
    ensures
      var stake := StakeOf(staking, books.bankroll);
      var profit := if stake > 0.0 && bet.outcome == Won then NetOdds(bet) * stake
        else if stake > 0.0 && bet.outcome == Lost then -stake else 0.0;
      var market := bet.key.market;
      var after := StakeOne(books, bet, staking);
      && after.staked == books.staked + [StakedBet(bet, stake, profit, stake > 0.0)]
      && (if stake > 0.0 then
            && after.markets == (if market in books.byMarket then books.markets else books.markets + [market])
            && after.byMarket == books.byMarket[market :=
                 Counted(if market in books.byMarket then books.byMarket[market] else NO_TOTALS, bet, stake, profit)]
          else after.markets == books.markets && after.byMarket == books.byMarket)
      && (if stake > 0.0 && AtRisk(bet.outcome) then
            && after.bankroll == books.bankroll + profit
            && after.peak == MaxOf(books.peak, after.bankroll)
            && after.drawdown == MaxOf(books.drawdown, Drawdown(after.peak, after.bankroll))
            && after.totalStaked == books.totalStaked + stake
            && after.net == books.net + profit
          else
            && after.bankroll == books.bankroll && after.peak == books.peak && after.drawdown == books.drawdown
            && after.totalStaked == books.totalStaked && after.net == books.net)
  {
    hide StakeOf, Drawdown, NetOdds, Counted, MaxOf;
  }

  /** Bets are staked in the order in which they were decided. */
  method ApplyStaking(bets: seq<Bet>, start: real, staking: Staking) returns (books: Books)
    ensures books == StakeAll(start, StableSort(bets, ByDecision()), staking)
  {
    hide StakeOf, Drawdown, NetOdds, Counted, StakeOne, MaxOf;
    var ordered := StableSort(bets, ByDecision());
    var bankroll := MaxOf(0.0, start);
    var peak, drawdown, totalStaked, net := bankroll, 0.0, 0.0, 0.0;
    var markets: seq<string> := [];
    var byMarket: map<string, MarketTotals> := map[];
    var staked: seq<StakedBet> := [];
    for i := 0 to |ordered|
      invariant Books(bankroll, peak, drawdown, totalStaked, net, markets, byMarket, staked)
        == StakeAll(start, ordered[..i], staking)
    {
      assert ordered[..i + 1][..i] == ordered[..i];
      ghost var before := Books(bankroll, peak, drawdown, totalStaked, net, markets, byMarket, staked);
      var bet := ordered[i];
      var stake := StakeOf(staking, bankroll);
      var profit := 0.0;
      if stake > 0.0 && bet.outcome == Won {
        profit := NetOdds(bet) * stake;
      } else if stake > 0.0 && bet.outcome == Lost {
        profit := -stake;
      }
      if stake > 0.0 && AtRisk(bet.outcome) {
        totalStaked := totalStaked + stake;
        net := net + profit;
        bankroll := bankroll + profit;
        peak := MaxOf(peak, bankroll);
        drawdown := MaxOf(drawdown, Drawdown(peak, bankroll));
      }
      if stake > 0.0 {
        var market := bet.key.market;
        var totals := NO_TOTALS;
        if market in byMarket {
          totals := byMarket[market];
        } else {
          markets := markets + [market];
        }
        byMarket := byMarket[market := Counted(totals, bet, stake, profit)];
      }
      staked := staked + [StakedBet(bet, stake, profit, stake > 0.0)];
      FieldByField(before, bet, staking);
      assert StakeAll(start, ordered[..i + 1], staking) == StakeOne(before, bet, staking);
    }
    assert ordered[..|ordered|] == ordered;
    return Books(bankroll, peak, drawdown, totalStaked, net, markets, byMarket, staked);
  }

  // ---- What the totals mean ----

  predicate Sensible(bets: seq<Bet>) {
    forall i | 0 <= i < |bets| :: bets[i].odd >= 1000
  }

  lemma DrawdownIsPercentage(peak: real, bankroll: real)
    requires 0.0 <= bankroll <= peak
    ensures 0.0 <= Drawdown(peak, bankroll) <= 100.0
  {
    if peak > 0.0 {
      var ratio := (peak - bankroll) / peak;
      assert ratio * peak == peak - bankroll;
      assert 0.0 <= ratio <= 1.0;
    }
  }

  lemma WinningsAreNotLosses(bet: Bet, stake: real)
    requires bet.odd >= 1000 && stake >= 0.0
    ensures NetOdds(bet) * stake >= 0.0
  {
  }

  /** The bankroll is never overdrawn and moves only by what is won and lost; drawdown is a percentage. */
  ghost predicate Solvent(books: Books, start: real) {
    && 0.0 <= books.bankroll <= books.peak
    && books.bankroll == MaxOf(0.0, start) + books.net
    && books.totalStaked >= 0.0
    && 0.0 <= books.drawdown <= 100.0
  }

  lemma StakeOneSolvent(books: Books, bet: Bet, staking: Staking, start: real)
    requires Solvent(books, start) && bet.odd >= 1000
    ensures Solvent(StakeOne(books, bet, staking), start)
  {
    hide Drawdown, Requested, NetOdds, Counted;
    var stake := StakeOf(staking, books.bankroll);
    WinningsAreNotLosses(bet, stake);
    var after := StakeOne(books, bet, staking);
    if after.bankroll >= 0.0 {
      DrawdownIsPercentage(MaxOf(books.peak, after.bankroll), after.bankroll);
    }
  }

  lemma {:induction false} NeverOverdrawn(start: real, bets: seq<Bet>, staking: Staking)
    requires Sensible(bets)
    ensures var books := StakeAll(start, bets, staking);
      && 0.0 <= books.bankroll == MaxOf(0.0, start) + books.net
      && 0.0 <= books.drawdown <= 100.0
      && Solvent(books, start)
  {
    hide StakeOne;
    if bets != [] {
      NeverOverdrawn(start, bets[..|bets| - 1], staking);
      StakeOneSolvent(StakeAll(start, bets[..|bets| - 1], staking), bets[|bets| - 1], staking, start);
    }
  }

  /** Staking the bets of any replay never overdraws the bankroll. */
  lemma ReplayNeverOverdraws(data: Dataset, strategy: Strategy, period: Period, rank: Collation, start: real,
                             staking: Staking)
    ensures
      var books := StakeAll(start, StableSort(ReplayDetailed(data, strategy, period, rank).bets, ByDecision()), staking);
      0.0 <= books.bankroll == MaxOf(0.0, start) + books.net && 0.0 <= books.drawdown <= 100.0
  {
    hide StakeAll, Ordered;
    var bets := ReplayDetailed(data, strategy, period, rank).bets;
    var rows := Ordered(data, period, rank);
    BetsAreAbovePar(EnvOf(data, strategy, period, rank), data.fixtures, FixtureOrder(rows), rows);
    var ordered := StableSort(bets, ByDecision());
    forall i | 0 <= i < |ordered|
      ensures ordered[i].odd >= 1000
    {
      assert ordered[i] in multiset(bets);
    }
    NeverOverdrawn(start, ordered, staking);
  }

  // ---- What each bet does ----

  predicate IsAsked(asked: real, staking: Staking, left: real) {
    match staking
    case Percent(amount) => 100.0 * asked == left * amount
    case Flat(amount) => asked == amount
  }

  /**
   * What is asked, a percentage of what is left or a flat amount, but no more than what is left
   * and nothing below zero.
   */
  ghost predicate IsStake(stake: real, staking: Staking, left: real) {
    exists asked: real | IsAsked(asked, staking, left) ::
      stake == if asked <= 0.0 || left <= 0.0 then 0.0 else if asked <= left then asked else left
  }

  /** A win pays the odd less one, a loss costs the stake, anything else nothing. */
  predicate IsProfit(profit: real, bet: Bet, stake: real) {
    match bet.outcome
    case Won => 1000.0 * profit == stake * (bet.odd - 1000) as real
    case Lost => profit == -stake
    case Void => profit == 0.0
    case NoResult => profit == 0.0
  }

  lemma StakeOfIsStake(staking: Staking, left: real)
    ensures IsStake(StakeOf(staking, left), staking, left)
  {
    var asked := Requested(staking, left);
    if staking.Percent? {
      assert 100.0 * (left * staking.amount / 100.0) == left * staking.amount;
    }
    assert IsAsked(asked, staking, left);
    assert StakeOf(staking, left) == if asked <= 0.0 || left <= 0.0 then 0.0 else if asked <= left then asked else left;
  }

  lemma WinIsProfit(bet: Bet, stake: real)
    requires bet.outcome == Won
    ensures IsProfit(NetOdds(bet) * stake, bet, stake)
  {
    var over := (bet.odd - 1000) as real;
    assert NetOdds(bet) == over / 1000.0;
    assert 1000.0 * (over / 1000.0) == over;
    assert 1000.0 * (NetOdds(bet) * stake) == 1000.0 * NetOdds(bet) * stake;
  }

  /** The row of one bet, and what it adds to the books. */
  ghost predicate Settles(before: Books, after: Books, bet: Bet, staking: Staking) {
    && after.staked != [] && after.staked[..|after.staked| - 1] == before.staked
    && var row := after.staked[|before.staked|];
    && row.bet == bet && IsStake(row.stake, staking, before.bankroll) && IsProfit(row.profit, bet, row.stake)
    && (row.placed <==> row.stake > 0.0)
    && after.bankroll == before.bankroll + row.profit && after.net == before.net + row.profit
    && after.totalStaked == before.totalStaked + if bet.outcome == Won || bet.outcome == Lost then row.stake else 0.0
  }

  lemma StakeOneSettles(books: Books, bet: Bet, staking: Staking)
    ensures Settles(books, StakeOne(books, bet, staking), bet, staking)
  {
    hide Drawdown, Counted, Requested, IsStake;
    var stake := StakeOf(staking, books.bankroll);
    StakeOfIsStake(staking, books.bankroll);
    if bet.outcome == Won {
      WinIsProfit(bet, stake);
    }
  }

  function DecidedAt(at: int): Bet -> bool {
    (bet: Bet) => bet.decidedAt == at
  }

  /** Bets are settled one by one, in the order of their decisions and, at the same instant, in the order given. */
  lemma SettledInOrder(bets: seq<Bet>, start: real, staking: Staking)
    ensures
      var ordered := StableSort(bets, ByDecision());
      && multiset(ordered) == multiset(bets)
      && (forall i, j | 0 <= i < j < |ordered| :: ordered[i].decidedAt <= ordered[j].decidedAt)
      && (forall at: int :: Among(ordered, DecidedAt(at)) == Among(bets, DecidedAt(at)))
      && StakeAll(start, [], staking).bankroll == (if start >= 0.0 then start else 0.0)
      && forall i | 0 <= i < |ordered| ::
           Settles(StakeAll(start, ordered[..i], staking), StakeAll(start, ordered[..i + 1], staking), ordered[i], staking)
  {
    hide Settles, StakeOne, StableSort;
    var ordered := StableSort(bets, ByDecision());
    SortSorts(bets, ByDecision());
    forall i, j | 0 <= i < j < |ordered|
      ensures ordered[i].decidedAt <= ordered[j].decidedAt
    {
      assert !ByDecision()(ordered[j], ordered[i]);
    }
    forall at: int
      ensures Among(ordered, DecidedAt(at)) == Among(bets, DecidedAt(at))
    {
      SortIsStable(bets, ByDecision(), DecidedAt(at));
    }
    forall i | 0 <= i < |ordered|
      ensures Settles(StakeAll(start, ordered[..i], staking), StakeAll(start, ordered[..i + 1], staking), ordered[i], staking)
    {
      assert ordered[..i + 1][..i] == ordered[..i];
      StakeOneSettles(StakeAll(start, ordered[..i], staking), ordered[i], staking);
    }
  }

  // ---- The worst fall ----

  /** What is left after the first k bets. */
  function LeftAfter(start: real, bets: seq<Bet>, staking: Staking, k: nat): real
    requires k <= |bets|
  {
    StakeAll(start, bets[..k], staking).bankroll
  }

  ghost predicate IsPeak(peak: real, start: real, bets: seq<Bet>, staking: Staking) {
    && (forall k: nat | k <= |bets| :: LeftAfter(start, bets, staking, k) <= peak)
    && exists k: nat | k <= |bets| :: LeftAfter(start, bets, staking, k) == peak
  }

  /** Falling from one amount to the other loses at most this percentage of it. */
  predicate FallsWithin(from: real, left: real, percent: real) {
    100.0 * (from - left) <= percent * from
  }

  predicate FallsBy(from: real, left: real, percent: real) {
    100.0 * (from - left) == percent * from
  }

  /** From one instant to a later one, at most this percentage of what was left is lost. */
  ghost predicate BoundsFalls(percent: real, start: real, bets: seq<Bet>, staking: Staking) {
    forall j: nat, k: nat | j <= k <= |bets| && LeftAfter(start, bets, staking, j) > 0.0 ::
      FallsWithin(LeftAfter(start, bets, staking, j), LeftAfter(start, bets, staking, k), percent)
  }

  /** Such a fall happened. */
  ghost predicate Fell(percent: real, start: real, bets: seq<Bet>, staking: Staking) {
    exists j: nat, k: nat | j <= k <= |bets| && LeftAfter(start, bets, staking, j) > 0.0 ::
      FallsBy(LeftAfter(start, bets, staking, j), LeftAfter(start, bets, staking, k), percent)
  }

  lemma StakeOnePeaks(books: Books, bet: Bet, staking: Staking)
    requires books.bankroll <= books.peak
    ensures
      var after := StakeOne(books, bet, staking);
      && after.peak == MaxOf(books.peak, after.bankroll)
      && ((after.bankroll == books.bankroll && after.drawdown == books.drawdown)
          || after.drawdown == MaxOf(books.drawdown, Drawdown(after.peak, after.bankroll)))
  {
    hide Drawdown, Requested, NetOdds, Counted;
  }

  /** A fall from below the peak loses no larger a share than one from the peak. */
  lemma FallFromPeak(peak: real, from: real, left: real)
    requires 0.0 < from <= peak && 0.0 <= left
    ensures FallsWithin(from, left, Drawdown(peak, left))
    ensures FallsBy(peak, left, Drawdown(peak, left))
  {
    var lost := (peak - left) / peak;
    assert lost * peak == peak - left;
    assert (1.0 - lost) * peak == left;
    if lost > 1.0 {
      assert lost * peak > peak;
    }
    assert (1.0 - lost) * from <= (1.0 - lost) * peak;
  }

  lemma FallsWithinMore(from: real, left: real, less: real, more: real)
    requires from > 0.0 && less <= more && FallsWithin(from, left, less)
    ensures FallsWithin(from, left, more)
  {
  }

  /**
   * The peak is the most ever left, and the drawdown the largest share of it, or of any other
   * bankroll, lost later on.
   */
  lemma {:induction false} DrawdownIsWorstFall(start: real, bets: seq<Bet>, staking: Staking)
    requires Sensible(bets)
    ensures
      var books := StakeAll(start, bets, staking);
      && IsPeak(books.peak, start, bets, staking)
      && BoundsFalls(books.drawdown, start, bets, staking)
      && (books.drawdown == 0.0 || Fell(books.drawdown, start, bets, staking))
  {
    hide StakeOne, Drawdown;
    var n := |bets|;
    assert bets[..n] == bets;
    if n == 0 {
      assert LeftAfter(start, bets, staking, 0) == Opened(start).peak;
    } else {
      var init, bet := bets[..n - 1], bets[n - 1];
      assert forall k: nat | k < n :: init[..k] == bets[..k];
      DrawdownIsWorstFall(start, init, staking);
      NeverOverdrawn(start, init, staking);
      NeverOverdrawn(start, bets, staking);
      var before, after := StakeAll(start, init, staking), StakeAll(start, bets, staking);
      StakeOnePeaks(before, bet, staking);
      PeakStays(start, bets, staking, before.peak, after.peak);
      FallsStayBounded(start, bets, staking, before, after);
      WorstFallHappened(start, bets, staking, before, after);
    }
  }

  lemma PeakStays(start: real, bets: seq<Bet>, staking: Staking, before: real, after: real)
    requires bets != [] && IsPeak(before, start, bets[..|bets| - 1], staking)
    requires after == MaxOf(before, StakeAll(start, bets, staking).bankroll)
    ensures IsPeak(after, start, bets, staking)
  {
    var n := |bets|;
    var init := bets[..n - 1];
    forall k: nat | k <= n
      ensures LeftAfter(start, bets, staking, k)
        == if k < n then LeftAfter(start, init, staking, k) else StakeAll(start, bets, staking).bankroll
    {
      SameLeft(start, bets, staking, k);
    }
    hide StakeAll, LeftAfter;
    forall k: nat | k <= n
      ensures LeftAfter(start, bets, staking, k) <= after
    {
      assert k < n ==> LeftAfter(start, init, staking, k) <= before;
    }
    if after == before {
      var k: nat :| k <= n - 1 && LeftAfter(start, init, staking, k) == before;
      assert LeftAfter(start, bets, staking, k) == after;
    } else {
      assert LeftAfter(start, bets, staking, n) == after;
    }
  }

  lemma SameLeft(start: real, bets: seq<Bet>, staking: Staking, k: nat)
    requires bets != [] && k <= |bets|
    ensures LeftAfter(start, bets, staking, k)
      == if k < |bets| then LeftAfter(start, bets[..|bets| - 1], staking, k) else StakeAll(start, bets, staking).bankroll
  {
    hide StakeAll;
    if k < |bets| {
      assert bets[..|bets| - 1][..k] == bets[..k];
    } else {
      assert bets[..k] == bets;
    }
  }

  lemma FallsStayBounded(start: real, bets: seq<Bet>, staking: Staking, before: Books, after: Books)
    requires bets != [] && after == StakeAll(start, bets, staking) && before == StakeAll(start, bets[..|bets| - 1], staking)
    requires BoundsFalls(before.drawdown, start, bets[..|bets| - 1], staking) && IsPeak(after.peak, start, bets, staking)
    requires after.bankroll >= 0.0 && before.drawdown >= 0.0
    requires (after.bankroll == before.bankroll && after.drawdown == before.drawdown)
      || after.drawdown == MaxOf(before.drawdown, Drawdown(after.peak, after.bankroll))
    ensures BoundsFalls(after.drawdown, start, bets, staking)
  {
    hide StakeAll, Drawdown, FallsWithin;
    var n := |bets|;
    var init := bets[..n - 1];
    assert bets[..n] == bets && init[..n - 1] == init;
    forall j: nat, k: nat | j <= k <= n && LeftAfter(start, bets, staking, j) > 0.0
      ensures FallsWithin(LeftAfter(start, bets, staking, j), LeftAfter(start, bets, staking, k), after.drawdown)
    {
      var from := LeftAfter(start, bets, staking, j);
      if k < n {
        assert init[..j] == bets[..j] && init[..k] == bets[..k];
        assert LeftAfter(start, init, staking, j) == from && LeftAfter(start, init, staking, k) == LeftAfter(start, bets, staking, k);
        FallsWithinMore(from, LeftAfter(start, bets, staking, k), before.drawdown, after.drawdown);
      } else if j == n {
        NoFall(from, after.drawdown);
      } else if after.drawdown == before.drawdown && after.bankroll == before.bankroll {
        assert init[..j] == bets[..j];
        assert LeftAfter(start, init, staking, j) == from && LeftAfter(start, init, staking, n - 1) == after.bankroll;
      } else {
        FallFromPeak(after.peak, from, after.bankroll);
        FallsWithinMore(from, after.bankroll, Drawdown(after.peak, after.bankroll), after.drawdown);
      }
    }
  }

  lemma NoFall(from: real, percent: real)
    requires from > 0.0 && percent >= 0.0
    ensures FallsWithin(from, from, percent)
  {
  }

  lemma WorstFallHappened(start: real, bets: seq<Bet>, staking: Staking, before: Books, after: Books)
    requires bets != [] && after == StakeAll(start, bets, staking)
    requires before.drawdown == 0.0 || Fell(before.drawdown, start, bets[..|bets| - 1], staking)
    requires IsPeak(after.peak, start, bets, staking) && after.bankroll >= 0.0
    requires after.drawdown == before.drawdown || after.drawdown == Drawdown(after.peak, after.bankroll)
    ensures after.drawdown == 0.0 || Fell(after.drawdown, start, bets, staking)
  {
    hide StakeAll, FallsBy;
    var n := |bets|;
    var init := bets[..n - 1];
    assert bets[..n] == bets;
    if after.drawdown == before.drawdown {
      if before.drawdown != 0.0 {
        var j: nat, k: nat :| j <= k <= n - 1 && LeftAfter(start, init, staking, j) > 0.0
          && FallsBy(LeftAfter(start, init, staking, j), LeftAfter(start, init, staking, k), before.drawdown);
        assert init[..j] == bets[..j] && init[..k] == bets[..k];
        assert FallsBy(LeftAfter(start, bets, staking, j), LeftAfter(start, bets, staking, k), after.drawdown);
      }
    } else if after.peak > 0.0 {
      var j: nat :| j <= n && LeftAfter(start, bets, staking, j) == after.peak;
      FallFromPeak(after.peak, after.peak, after.bankroll);
      assert FallsBy(LeftAfter(start, bets, staking, j), LeftAfter(start, bets, staking, n), after.drawdown);
    }
  }

  // ---- Markets and counts ----

  function StakedIn(markets: seq<string>, byMarket: map<string, MarketTotals>): real {
    if markets == [] then 0.0
    else
      var last := markets[|markets| - 1];
      StakedIn(markets[..|markets| - 1], byMarket) + if last in byMarket then byMarket[last].staked else 0.0
  }

  function ProfitIn(markets: seq<string>, byMarket: map<string, MarketTotals>): real {
    if markets == [] then 0.0
    else
      var last := markets[|markets| - 1];
      ProfitIn(markets[..|markets| - 1], byMarket) + if last in byMarket then byMarket[last].profit else 0.0
  }

  function BetsIn(markets: seq<string>, byMarket: map<string, MarketTotals>): nat {
    if markets == [] then 0
    else
      var last := markets[|markets| - 1];
      BetsIn(markets[..|markets| - 1], byMarket) + if last in byMarket then byMarket[last].bets else 0
  }

  function CountPlaced(staked: seq<StakedBet>): nat {
    if staked == [] then 0
    else CountPlaced(staked[..|staked| - 1]) + if staked[|staked| - 1].placed then 1 else 0
  }

  function CountOutcome(staked: seq<StakedBet>, outcome: BetOutcome): nat {
    if staked == [] then 0
    else
      CountOutcome(staked[..|staked| - 1], outcome)
      + if staked[|staked| - 1].placed && staked[|staked| - 1].bet.outcome == outcome then 1 else 0
  }

  /** Every placed bet was won, lost, refunded or left without result. */
  lemma {:induction false} OutcomesPartition(staked: seq<StakedBet>)
    ensures CountOutcome(staked, Won) + CountOutcome(staked, Lost) + CountOutcome(staked, Void) + CountOutcome(staked, NoResult)
      == CountPlaced(staked)
  {
    if staked != [] {
      OutcomesPartition(staked[..|staked| - 1]);
    }
  }

  ghost predicate DistinctMarkets(markets: seq<string>) {
    forall i, j | 0 <= i < j < |markets| :: markets[i] != markets[j]
  }

  /** Writing one market's totals changes the sums by what changed. */
  lemma {:induction false} MarketWritten(markets: seq<string>, byMarket: map<string, MarketTotals>, market: string,
                                         totals: MarketTotals)
    requires DistinctMarkets(markets) && market in markets && market in byMarket
    ensures var after := byMarket[market := totals];
      && StakedIn(markets, after) == StakedIn(markets, byMarket) - byMarket[market].staked + totals.staked
      && ProfitIn(markets, after) == ProfitIn(markets, byMarket) - byMarket[market].profit + totals.profit
      && BetsIn(markets, after) == BetsIn(markets, byMarket) - byMarket[market].bets + totals.bets
  {
    var init, last := markets[..|markets| - 1], markets[|markets| - 1];
    assert markets == init + [last];
    if last == market {
      OtherMarkets(init, byMarket, market, totals);
    } else {
      MarketWritten(init, byMarket, market, totals);
    }
  }

  lemma {:induction false} OtherMarkets(markets: seq<string>, byMarket: map<string, MarketTotals>, market: string,
                                        totals: MarketTotals)
    requires forall i | 0 <= i < |markets| :: markets[i] != market
    ensures var after := byMarket[market := totals];
      && StakedIn(markets, after) == StakedIn(markets, byMarket)
      && ProfitIn(markets, after) == ProfitIn(markets, byMarket)
      && BetsIn(markets, after) == BetsIn(markets, byMarket)
  {
    if markets != [] {
      OtherMarkets(markets[..|markets| - 1], byMarket, market, totals);
    }
  }

  /** Markets add up to the totals. */
  ghost predicate Balanced(books: Books) {
    && DistinctMarkets(books.markets)
    && (forall market :: market in books.byMarket <==> market in books.markets)
    && StakedIn(books.markets, books.byMarket) == books.totalStaked
    && ProfitIn(books.markets, books.byMarket) == books.net
    && BetsIn(books.markets, books.byMarket) == CountPlaced(books.staked)
  }

  lemma MarketOpened(markets: seq<string>, byMarket: map<string, MarketTotals>, market: string, totals: MarketTotals)
    requires market !in markets
    ensures var after := byMarket[market := totals];
      && StakedIn(markets + [market], after) == StakedIn(markets, byMarket) + totals.staked
      && ProfitIn(markets + [market], after) == ProfitIn(markets, byMarket) + totals.profit
      && BetsIn(markets + [market], after) == BetsIn(markets, byMarket) + totals.bets
  {
    OtherMarkets(markets, byMarket, market, totals);
    assert (markets + [market])[..|markets|] == markets;
  }

  lemma StakeOneBalanced(books: Books, bet: Bet, staking: Staking)
    requires Balanced(books)
    ensures Balanced(StakeOne(books, bet, staking))
  {
    hide StakeOf, ProfitOf, Drawdown, StakedIn, ProfitIn, BetsIn;
    var after := StakeOne(books, bet, staking);
    assert after.staked[..|books.staked|] == books.staked;
    var stake := StakeOf(staking, books.bankroll);
    if stake > 0.0 {
      var market := bet.key.market;
      var totals := after.byMarket[market];
      if market in books.byMarket {
        MarketWritten(books.markets, books.byMarket, market, totals);
      } else {
        MarketOpened(books.markets, books.byMarket, market, totals);
      }
    }
  }

  /** Per-market stakes, profits and counts sum to the totals, and every placed bet is counted once. */
  lemma {:induction false} MarketsAddUp(start: real, bets: seq<Bet>, staking: Staking)
    ensures var books := StakeAll(start, bets, staking);
      && Balanced(books)
      && |books.staked| == |bets|
      && CountOutcome(books.staked, Won) + CountOutcome(books.staked, Lost) + CountOutcome(books.staked, Void)
         + CountOutcome(books.staked, NoResult) == BetsIn(books.markets, books.byMarket)
  {
    hide StakeOne, Balanced;
    if bets == [] {
      NothingBalanced(start);
    } else {
      var books := StakeAll(start, bets[..|bets| - 1], staking);
      MarketsAddUp(start, bets[..|bets| - 1], staking);
      StakeOneBalanced(books, bets[|bets| - 1], staking);
      StakeOneLogs(books, bets[|bets| - 1], staking);
    }
    OutcomesPartition(StakeAll(start, bets, staking).staked);
    BalancedCounts(StakeAll(start, bets, staking));
  }

  lemma NothingBalanced(start: real)
    ensures Balanced(Opened(start))
  {
  }

  lemma StakeOneLogs(books: Books, bet: Bet, staking: Staking)
    ensures |StakeOne(books, bet, staking).staked| == |books.staked| + 1
  {
  }

  lemma BalancedCounts(books: Books)
    requires Balanced(books)
    ensures BetsIn(books.markets, books.byMarket) == CountPlaced(books.staked)
  {
  }

  /** One placed bet of the market after another; only won and lost ones count their stake and profit. */
  function TotalsOf(staked: seq<StakedBet>, market: string): MarketTotals {
    if staked == [] then MarketTotals(0, 0, 0, 0.0, 0.0)
    else
      var row, earlier := staked[|staked| - 1], TotalsOf(staked[..|staked| - 1], market);
      if !row.placed || row.bet.key.market != market then earlier
      else
        match row.bet.outcome
        case Won =>
          MarketTotals(earlier.bets + 1, earlier.won + 1, earlier.lost, earlier.staked + row.stake, earlier.profit + row.profit)
        case Lost =>
          MarketTotals(earlier.bets + 1, earlier.won, earlier.lost + 1, earlier.staked + row.stake, earlier.profit + row.profit)
        case Void => earlier.(bets := earlier.bets + 1)
        case NoResult => earlier.(bets := earlier.bets + 1)
  }

  ghost predicate Itemised(books: Books, market: string) {
    && (if market in books.byMarket then books.byMarket[market] else NO_TOTALS) == TotalsOf(books.staked, market)
    && (market in books.byMarket <==> TotalsOf(books.staked, market).bets > 0)
  }

  lemma StakeOneItemised(books: Books, bet: Bet, staking: Staking, market: string)
    requires Itemised(books, market)
    ensures Itemised(StakeOne(books, bet, staking), market)
  {
    hide StakeOf, ProfitOf, Drawdown, MaxOf;
    var after := StakeOne(books, bet, staking);
    assert after.staked[..|after.staked| - 1] == books.staked;
  }

  /** The totals of a market are those of its own bets, and a market is listed exactly when it has some. */
  lemma {:induction false} MarketsAreOfTheirBets(start: real, bets: seq<Bet>, staking: Staking, market: string)
    ensures Itemised(StakeAll(start, bets, staking), market)
  {
    if bets != [] {
      MarketsAreOfTheirBets(start, bets[..|bets| - 1], staking, market);
      StakeOneItemised(StakeAll(start, bets[..|bets| - 1], staking), bets[|bets| - 1], staking, market);
    }
  }
}
