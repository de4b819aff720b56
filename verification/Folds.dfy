/** Walk-forward folds: how a range is cut, which folds count, and why no bet or signal counts twice. */
module Folds {
  import opened Wrappers
  import opened Replay
  import opened Sorting

  const DAY_MS := 86400000
  const MAX_FOLDS := 200

  datatype FoldParams = FoldParams(
    from: int, to: int, trainDays: int, validationDays: int, testDays: int, stepDays: int)

  datatype FoldWindow = FoldWindow(
    index: nat,
    trainFrom: int,
    trainTo: int,
    validationFrom: int,
    validationTo: int,
    testFrom: int,
    testTo: int,
    complete: bool)

  datatype FoldError = BadRange | Overlapping | TooMany

  /** Where the validation of a fold would end, whether or not the fold exists. */
  function ValidationEnd(params: FoldParams, index: nat): int {
    params.from + (index * params.stepDays + params.trainDays + params.validationDays) * DAY_MS
  }

  function FoldAt(params: FoldParams, index: nat): FoldWindow {
    var trainFrom := params.from + index * params.stepDays * DAY_MS;
    var trainTo := trainFrom + params.trainDays * DAY_MS;
    var validationTo := trainTo + params.validationDays * DAY_MS;
    var testTo := validationTo + params.testDays * DAY_MS;
    FoldWindow(index, trainFrom, trainTo, trainTo, validationTo, validationTo, testTo, testTo <= params.to)
  }

  lemma FoldEnds(params: FoldParams, index: nat)
    ensures FoldAt(params, index).validationTo == ValidationEnd(params, index)
    ensures ValidationEnd(params, index + 1) == ValidationEnd(params, index) + params.stepDays * DAY_MS
  {
  }

  /**
   * Training, validation and test follow each other without gap or overlap, and each fold is the
   * one before moved by a step.
   */
  lemma WindowsAreAdjacent(params: FoldParams, index: nat)
    ensures
      var day, fold, next := 24 * 60 * 60 * 1000, FoldAt(params, index), FoldAt(params, index + 1);
      && fold.index == index
      && (index == 0 ==> fold.trainFrom == params.from)
      && fold.trainTo == fold.validationFrom == fold.trainFrom + day * params.trainDays
      && fold.validationTo == fold.testFrom == fold.validationFrom + day * params.validationDays
      && fold.testTo == fold.testFrom + day * params.testDays
      && (fold.complete <==> fold.testTo <= params.to)
      && next.trainFrom == fold.trainFrom + day * params.stepDays
  {
    assert (index + 1) * params.stepDays == index * params.stepDays + params.stepDays;
  }

  /** Some fold before the limit ends the list by itself. */
  ghost predicate EndsInTime(params: FoldParams) {
    exists n | 0 <= n <= 200 :: ValidationEnd(params, n) >= params.to
  }

  /**
   * The folds of a range. The list stops at the first fold whose test window overruns the
   * range, kept as incomplete, or whose validation would; it is refused exactly when it
   * would hold more folds than allowed.
   */
  method BuildFolds(params: FoldParams) returns (result: Result<seq<FoldWindow>, FoldError>)
    ensures result == Err(BadRange) <==> params.from >= params.to
    ensures result == Err(Overlapping) <==> params.from < params.to && params.stepDays < params.testDays
    ensures result == Err(TooMany) <==>
      params.from < params.to && params.stepDays >= params.testDays && !EndsInTime(params)
    ensures result.Ok? ==>
      && |result.value| <= 200
      && (forall i | 0 <= i < |result.value| :: result.value[i] == FoldAt(params, i) && result.value[i].validationTo < params.to)
      && (forall i | 0 <= i < |result.value| - 1 :: result.value[i].complete)
      && ValidationEnd(params, |result.value|) >= params.to
  {
    if params.from >= params.to {
      return Err(BadRange);
    }
    if params.stepDays < params.testDays {
      return Err(Overlapping);
    }
    var folds: seq<FoldWindow> := [];
    while true
      invariant |folds| <= MAX_FOLDS
      invariant forall i | 0 <= i < |folds| ::
        folds[i] == FoldAt(params, i) && folds[i].complete && folds[i].validationTo < params.to
      invariant forall i | 0 <= i < |folds| :: ValidationEnd(params, i) < params.to
      decreases MAX_FOLDS + 1 - |folds|
    {
      var index := |folds|;
      var fold := FoldAt(params, index);
      FoldEnds(params, index);
      if fold.validationTo >= params.to {
        break;
      }
      if |folds| >= MAX_FOLDS {
        return Err(TooMany);
      }
      folds := folds + [fold];
      if !fold.complete {
        StepCoversTest(params, index);
        break;
      }
    }
    return Ok(folds);
  }

  /** With steps no shorter than tests, the fold after one that overruns the range has nothing to validate. */
  lemma StepCoversTest(params: FoldParams, index: nat)
    requires params.stepDays >= params.testDays
    ensures ValidationEnd(params, index + 1) >= FoldAt(params, index).testTo
  {
    FoldEnds(params, index);
    assert params.stepDays * DAY_MS >= params.testDays * DAY_MS;
  }

  predicate Within(at: int, from: int, to: int) {
    from <= at < to
  }

  /** No instant falls in the test windows of two folds. */
  lemma TestWindowsAreDisjoint(params: FoldParams, i: nat, j: nat, at: int)
    requires params.stepDays >= params.testDays && i < j
    ensures !(Within(at, FoldAt(params, i).testFrom, FoldAt(params, i).testTo)
              && Within(at, FoldAt(params, j).testFrom, FoldAt(params, j).testTo))
  {
    FoldEnds(params, i);
    FoldEnds(params, j);
    if params.stepDays >= 0 {
      StepsAdd(params, i, j);
    } else {
      assert params.testDays * DAY_MS <= 0;
    }
  }

  lemma StepsAdd(params: FoldParams, i: nat, j: nat)
    requires params.stepDays >= 0 && i < j
    ensures ValidationEnd(params, j) >= ValidationEnd(params, i) + params.stepDays * DAY_MS
  {
    assert j * params.stepDays >= (i + 1) * params.stepDays;
    assert (j * params.stepDays) * DAY_MS >= ((i + 1) * params.stepDays) * DAY_MS;
  }

  // ---- Signals by stage ----

  /** Coverage in hundredths of a percent, absent without signals. */
  datatype Accounting = Accounting(
    signals: nat,
    noQuoteAtDecision: nat,
    belowMinOddAtDecision: nat,
    noQuoteAtExecution: nat,
    belowMinOddAtExecution: nat,
    placed: nat,
    coverage: Option<int>)

  function CountStage(signals: seq<SignalRecord>, stage: Stage): nat {
    if signals == [] then 0
    else CountStage(signals[..|signals| - 1], stage) + if signals[|signals| - 1].stage == stage then 1 else 0
  }

  /** To the nearest hundredth of a percent, halves up. */
  function Coverage(covered: nat, total: nat): int
    requires total > 0
  {
    (20000 * covered + total) / (2 * total)
  }

  function AtStage(signals: seq<SignalRecord>, stage: Stage): seq<SignalRecord> {
    Among(signals, (signal: SignalRecord) => signal.stage == stage)
  }

  /** The whole number of hundredths of a percent nearest to the share, halves up. */
  predicate IsNearestShare(coverage: int, covered: int, total: int) {
    0 < 2 * (coverage * total - 10000 * covered) + total <= 2 * total
  }

  /** The share of the signals that were placed or refused for their odd. */
  predicate IsCoverage(coverage: int, signals: seq<SignalRecord>) {
    IsNearestShare(
      coverage,
      |AtStage(signals, BelowMinOddAtDecision)| + |AtStage(signals, BelowMinOddAtExecution)| + |AtStage(signals, Placed)|,
      |signals|)
  }

  function Summarize(signals: seq<SignalRecord>): Accounting {
    StagesPartition(signals);
    var atDecision, atExecution := CountStage(signals, NoQuoteAtDecision), CountStage(signals, NoQuoteAtExecution);
    Accounting(
      |signals|, atDecision, CountStage(signals, BelowMinOddAtDecision), atExecution,
      CountStage(signals, BelowMinOddAtExecution), CountStage(signals, Placed),
      if signals == [] then None else Some(Coverage(|signals| - atDecision - atExecution, |signals|)))
  }

  /** Every signal is counted at exactly one stage. */
  lemma {:induction false} StagesPartition(signals: seq<SignalRecord>)
    ensures CountStage(signals, NoQuoteAtDecision) + CountStage(signals, BelowMinOddAtDecision)
      + CountStage(signals, NoQuoteAtExecution) + CountStage(signals, BelowMinOddAtExecution)
      + CountStage(signals, Placed) == |signals|
  {
    if signals != [] {
      StagesPartition(signals[..|signals| - 1]);
    }
  }

  lemma {:induction false} CountIsAmong(signals: seq<SignalRecord>, stage: Stage)
    ensures CountStage(signals, stage) == |AtStage(signals, stage)|
  {
    if signals != [] {
      var n := |signals| - 1;
      CountIsAmong(signals[..n], stage);
      AmongConcat(signals[..n], [signals[n]], (signal: SignalRecord) => signal.stage == stage);
      assert signals == signals[..n] + [signals[n]];
    }
  }

  /**
   * Each count is of the signals that stopped at its stage; coverage is the share that had a quote
   * whenever one was asked for.
   */
  lemma SummarizeCounts(signals: seq<SignalRecord>)
    ensures
      var accounting := Summarize(signals);
      && accounting.signals == |signals|
      && accounting.noQuoteAtDecision == |AtStage(signals, NoQuoteAtDecision)|
      && accounting.belowMinOddAtDecision == |AtStage(signals, BelowMinOddAtDecision)|
      && accounting.noQuoteAtExecution == |AtStage(signals, NoQuoteAtExecution)|
      && accounting.belowMinOddAtExecution == |AtStage(signals, BelowMinOddAtExecution)|
      && accounting.placed == |AtStage(signals, Placed)|
      && (accounting.coverage.None? <==> signals == [])
      && (signals != [] ==> IsCoverage(accounting.coverage.value, signals))
  {
    hide CountStage, Coverage, IsNearestShare;
    CountIsAmong(signals, NoQuoteAtDecision);
    CountIsAmong(signals, BelowMinOddAtDecision);
    CountIsAmong(signals, NoQuoteAtExecution);
    CountIsAmong(signals, BelowMinOddAtExecution);
    CountIsAmong(signals, Placed);
    StagesPartition(signals);
    if signals != [] {
      CoverageIsNearest(|signals| - |AtStage(signals, NoQuoteAtDecision)| - |AtStage(signals, NoQuoteAtExecution)|, |signals|);
    }
  }

  lemma {:induction false} CountConcat(first: seq<SignalRecord>, second: seq<SignalRecord>, stage: Stage)
    ensures CountStage(first + second, stage) == CountStage(first, stage) + CountStage(second, stage)
  {
    if second == [] {
      assert first + second == first;
    } else {
      CountConcat(first, second[..|second| - 1], stage);
      assert (first + second)[..|first + second| - 1] == first + second[..|second| - 1];
    }
  }

  /** Coverage is a percentage: full when every signal had both quotes, nil when none had. */
  lemma CoverageBounds(covered: nat, total: nat)
    requires 0 < total && covered <= total
    ensures 0 <= Coverage(covered, total) <= 10000
    ensures covered == total ==> Coverage(covered, total) == 10000
    ensures covered == 0 ==> Coverage(covered, total) == 0
  {
    assert 20000 * covered + total < 10001 * (2 * total);
    QuotientBelow(20000 * covered + total, 2 * total, 10001);
    if covered == total {
      assert 20000 * covered + total >= 10000 * (2 * total);
      QuotientAtLeast(20000 * covered + total, 2 * total, 10000);
    }
  }

  /** It is the nearest hundredth of a percent, halves up. */
  lemma CoverageIsNearest(covered: nat, total: nat)
    requires total > 0
    ensures IsNearestShare(Coverage(covered, total), covered, total)
  {
    var quotient := Coverage(covered, total);
    var n := 20000 * covered + total;
    assert n == 2 * total * quotient + n % (2 * total);
    assert 2 * total * quotient == 2 * (quotient * total);
  }

  lemma QuotientBelow(n: nat, d: nat, k: nat)
    requires d > 0 && n < k * d
    ensures n / d < k
  {
    var quotient := n / d;
    assert n == d * quotient + n % d;
    assert quotient >= k ==> d * quotient >= d * k;
  }

  lemma QuotientAtLeast(n: nat, d: nat, k: nat)
    requires d > 0 && n >= k * d
    ensures n / d >= k
  {
    var quotient := n / d;
    assert n == d * quotient + n % d;
    assert quotient < k ==> d * quotient <= d * (k - 1);
  }

  // ---- The fold loop ----

  datatype Ineligibility = IncompleteWindow | NoSignal | InsufficientCoverage

  function WindowBets(bets: seq<Bet>, from: int, to: int): seq<Bet> {
    if bets == [] then []
    else
      var last, earlier := bets[|bets| - 1], WindowBets(bets[..|bets| - 1], from, to);
      if Within(last.decidedAt, from, to) then earlier + [last] else earlier
  }

  function WindowSignals(signals: seq<SignalRecord>, from: int, to: int): seq<SignalRecord> {
    if signals == [] then []
    else
      var last, earlier := signals[|signals| - 1], WindowSignals(signals[..|signals| - 1], from, to);
      if Within(last.firstAt, from, to) then earlier + [last] else earlier
  }

  function Reason(complete: bool, signals: Accounting, minCoverage: int): Option<Ineligibility> {
    if !complete then Some(IncompleteWindow)
    else if signals.signals == 0 || signals.coverage.None? then Some(NoSignal)
    else if signals.coverage.value < minCoverage then Some(InsufficientCoverage)
    else None
  }

  function ReasonOf(fold: FoldWindow, signals: seq<SignalRecord>, minCoverage: int): Option<Ineligibility> {
    Reason(fold.complete, Summarize(WindowSignals(signals, fold.testFrom, fold.testTo)), minCoverage)
  }

  function EligibleBets(folds: seq<FoldWindow>, bets: seq<Bet>, signals: seq<SignalRecord>, minCoverage: int): seq<Bet> {
    if folds == [] then []
    else
      var last := folds[|folds| - 1];
      EligibleBets(folds[..|folds| - 1], bets, signals, minCoverage)
      + if ReasonOf(last, signals, minCoverage).None? then WindowBets(bets, last.testFrom, last.testTo) else []
  }

  function EligibleSignals(folds: seq<FoldWindow>, signals: seq<SignalRecord>, minCoverage: int): seq<SignalRecord> {
    if folds == [] then []
    else
      var last := folds[|folds| - 1];
      EligibleSignals(folds[..|folds| - 1], signals, minCoverage)
      + if ReasonOf(last, signals, minCoverage).None? then WindowSignals(signals, last.testFrom, last.testTo) else []
  }

  function IneligibleCount(folds: seq<FoldWindow>, signals: seq<SignalRecord>, minCoverage: int,
                           reason: Ineligibility): nat {
    if folds == [] then 0
    else
      IneligibleCount(folds[..|folds| - 1], signals, minCoverage, reason)
      + if ReasonOf(folds[|folds| - 1], signals, minCoverage) == Some(reason) then 1 else 0
  }

  datatype Summary = Summary(
    folds: nat, eligible: nat, byReason: map<Ineligibility, nat>, bets: seq<Bet>, signals: Accounting)

  function TimesOf(byReason: map<Ineligibility, nat>, reason: Ineligibility): nat {
    if reason in byReason then byReason[reason] else 0
  }

  lemma NoneYet()
    ensures forall reason :: TimesOf(map[], reason) == 0
  {
  }

  lemma OneMore(before: map<Ineligibility, nat>, after: map<Ineligibility, nat>, reason: Ineligibility)
    requires after == before[reason := TimesOf(before, reason) + 1]
    ensures forall other :: TimesOf(after, other) == TimesOf(before, other) + if other == reason then 1 else 0
  {
  }

  /** The fold loop: rejected folds counted by reason, the others' test windows chained. */
  method Summarise(folds: seq<FoldWindow>, bets: seq<Bet>, signals: seq<SignalRecord>, minCoverage: int)
    returns (summary: Summary)
    ensures summary.folds == |folds|
    ensures summary.eligible + TimesOf(summary.byReason, IncompleteWindow) + TimesOf(summary.byReason, NoSignal)
      + TimesOf(summary.byReason, InsufficientCoverage) == summary.folds
    ensures forall reason :: TimesOf(summary.byReason, reason) == IneligibleCount(folds, signals, minCoverage, reason)
    ensures summary.bets == EligibleBets(folds, bets, signals, minCoverage)
    ensures summary.signals == Summarize(EligibleSignals(folds, signals, minCoverage))
  {
    hide WindowSignals, WindowBets, Summarize, Reason, TimesOf;
    NoneYet();
    var eligible := 0;
    var byReason: map<Ineligibility, nat> := map[];
    var testBets: seq<Bet> := [];
    var testSignals: seq<SignalRecord> := [];
    for i := 0 to |folds|
      invariant eligible + TimesOf(byReason, IncompleteWindow) + TimesOf(byReason, NoSignal)
        + TimesOf(byReason, InsufficientCoverage) == i
      invariant forall reason :: TimesOf(byReason, reason) == IneligibleCount(folds[..i], signals, minCoverage, reason)
      invariant testBets == EligibleBets(folds[..i], bets, signals, minCoverage)
      invariant testSignals == EligibleSignals(folds[..i], signals, minCoverage)
    {
      assert folds[..i + 1][..i] == folds[..i];
      var fold := folds[i];
      var window := WindowSignals(signals, fold.testFrom, fold.testTo);
      var reason := Reason(fold.complete, Summarize(window), minCoverage);
      if reason.Some? {
        ghost var before := byReason;
        byReason := byReason[reason.value := TimesOf(byReason, reason.value) + 1];
        OneMore(before, byReason, reason.value);
      } else {
        eligible := eligible + 1;
        testBets := testBets + WindowBets(bets, fold.testFrom, fold.testTo);
        testSignals := testSignals + window;
      }
    }
    assert folds[..|folds|] == folds;
    return Summary(|folds|, eligible, byReason, testBets, Summarize(testSignals));
  }

  // ---- Nothing counts twice ----

  /** The folds are those of one cutting, in order. */
  ghost predicate FoldsOf(folds: seq<FoldWindow>, params: FoldParams) {
    params.stepDays >= params.testDays && forall i | 0 <= i < |folds| :: folds[i] == FoldAt(params, i)
  }

  predicate InSome(folds: seq<FoldWindow>, at: int) {
    exists i | 0 <= i < |folds| :: Within(at, folds[i].testFrom, folds[i].testTo)
  }

  lemma LastWindowIsNew(folds: seq<FoldWindow>, params: FoldParams, at: int)
    requires folds != [] && FoldsOf(folds, params)
    requires Within(at, folds[|folds| - 1].testFrom, folds[|folds| - 1].testTo)
    ensures !InSome(folds[..|folds| - 1], at)
  {
    var n := |folds| - 1;
    forall i | 0 <= i < n
      ensures !Within(at, folds[..n][i].testFrom, folds[..n][i].testTo)
    {
      TestWindowsAreDisjoint(params, i, n, at);
    }
  }

  lemma {:induction false} WindowBetCount(bets: seq<Bet>, from: int, to: int, bet: Bet)
    ensures multiset(WindowBets(bets, from, to))[bet] == if Within(bet.decidedAt, from, to) then multiset(bets)[bet] else 0
  {
    if bets != [] {
      WindowBetCount(bets[..|bets| - 1], from, to, bet);
      assert bets == bets[..|bets| - 1] + [bets[|bets| - 1]];
    }
  }

  lemma {:induction false} WindowSignalCount(signals: seq<SignalRecord>, from: int, to: int, signal: SignalRecord)
    ensures multiset(WindowSignals(signals, from, to))[signal]
      == if Within(signal.firstAt, from, to) then multiset(signals)[signal] else 0
  {
    if signals != [] {
      WindowSignalCount(signals[..|signals| - 1], from, to, signal);
      assert signals == signals[..|signals| - 1] + [signals[|signals| - 1]];
    }
  }

  /** A fold counts when its test window fits the range and its signals have enough coverage. */
  ghost predicate IsCounted(fold: FoldWindow, signals: seq<SignalRecord>, minCoverage: int) {
    var window := WindowSignals(signals, fold.testFrom, fold.testTo);
    fold.complete && window != [] && exists coverage | IsCoverage(coverage, window) :: coverage >= minCoverage
  }

  lemma OneCoverage(one: int, two: int, signals: seq<SignalRecord>)
    requires signals != [] && IsCoverage(one, signals) && IsCoverage(two, signals)
    ensures one == two
  {
    var total := |signals|;
    assert (one - two) * total == one * total - two * total;
    ZeroOrFar(one - two, total);
  }

  lemma ZeroOrFar(n: int, total: nat)
    ensures n == 0 || n * total >= total || n * total + total <= 0
  {
    if n > 0 {
      var above: nat := n - 1;
      assert above * total >= 0;
      assert n * total == above * total + total;
    } else if n < 0 {
      var below: nat := -1 - n;
      assert below * total >= 0;
      assert n * total == -(below * total) - total;
    }
  }

  /**
   * A fold is left out for the first of: an incomplete window, no signal, too little coverage; for
   * none exactly when it counts.
   */
  lemma ReasonExactly(fold: FoldWindow, signals: seq<SignalRecord>, minCoverage: int)
    ensures
      var reason, window := ReasonOf(fold, signals, minCoverage), WindowSignals(signals, fold.testFrom, fold.testTo);
      && (reason.None? <==> IsCounted(fold, signals, minCoverage))
      && (reason == Some(IncompleteWindow) <==> !fold.complete)
      && (reason == Some(NoSignal) <==> fold.complete && window == [])
  {
    hide Summarize, WindowSignals, IsCoverage;
    var window := WindowSignals(signals, fold.testFrom, fold.testTo);
    SummarizeCounts(window);
    if window != [] {
      var coverage := Summarize(window).coverage.value;
      forall other | IsCoverage(other, window)
        ensures other == coverage
      {
        OneCoverage(other, coverage, window);
      }
    }
  }

  /** Some fold that counts has the instant in its test window. */
  ghost predicate InCounted(folds: seq<FoldWindow>, signals: seq<SignalRecord>, minCoverage: int, at: int) {
    exists i | 0 <= i < |folds| :: IsCounted(folds[i], signals, minCoverage) && Within(at, folds[i].testFrom, folds[i].testTo)
  }

  lemma CountedSnoc(folds: seq<FoldWindow>, params: FoldParams, signals: seq<SignalRecord>, minCoverage: int, at: int)
    requires folds != [] && FoldsOf(folds, params)
    ensures
      var n := |folds| - 1;
      var here := IsCounted(folds[n], signals, minCoverage) && Within(at, folds[n].testFrom, folds[n].testTo);
      && (InCounted(folds, signals, minCoverage, at) <==> InCounted(folds[..n], signals, minCoverage, at) || here)
      && !(InCounted(folds[..n], signals, minCoverage, at) && here)
  {
    hide IsCounted, Within;
    var n := |folds| - 1;
    var init := folds[..n];
    assert forall i | 0 <= i < n :: init[i] == folds[i];
    if Within(at, folds[n].testFrom, folds[n].testTo) {
      LastWindowIsNew(folds, params, at);
    }
  }

  lemma {:induction false} EligibleBetCount(folds: seq<FoldWindow>, params: FoldParams, bets: seq<Bet>,
                                            signals: seq<SignalRecord>, minCoverage: int, bet: Bet)
    requires FoldsOf(folds, params)
    ensures multiset(EligibleBets(folds, bets, signals, minCoverage))[bet]
      == if InCounted(folds, signals, minCoverage, bet.decidedAt) then multiset(bets)[bet] else 0
  {
    hide IsCounted, ReasonOf, FoldAt;
    if folds != [] {
      var n := |folds| - 1;
      EligibleBetCount(folds[..n], params, bets, signals, minCoverage, bet);
      WindowBetCount(bets, folds[n].testFrom, folds[n].testTo, bet);
      ReasonExactly(folds[n], signals, minCoverage);
      CountedSnoc(folds, params, signals, minCoverage, bet.decidedAt);
    }
  }

  lemma {:induction false} EligibleSignalCount(folds: seq<FoldWindow>, params: FoldParams, signals: seq<SignalRecord>,
                                               minCoverage: int, signal: SignalRecord)
    requires FoldsOf(folds, params)
    ensures multiset(EligibleSignals(folds, signals, minCoverage))[signal]
      == if InCounted(folds, signals, minCoverage, signal.firstAt) then multiset(signals)[signal] else 0
  {
    hide IsCounted, ReasonOf, FoldAt;
    if folds != [] {
      var n := |folds| - 1;
      EligibleSignalCount(folds[..n], params, signals, minCoverage, signal);
      WindowSignalCount(signals, folds[n].testFrom, folds[n].testTo, signal);
      ReasonExactly(folds[n], signals, minCoverage);
      CountedSnoc(folds, params, signals, minCoverage, signal.firstAt);
    }
  }

  /**
   * Chained are exactly the bets and the signals of the test windows that count, each as often as
   * in the replay: none twice, none left out.
   */
  lemma NothingCountsTwice(folds: seq<FoldWindow>, params: FoldParams, bets: seq<Bet>, signals: seq<SignalRecord>,
                           minCoverage: int)
    requires FoldsOf(folds, params)
    ensures forall bet ::
      multiset(EligibleBets(folds, bets, signals, minCoverage))[bet]
      == if InCounted(folds, signals, minCoverage, bet.decidedAt) then multiset(bets)[bet] else 0
    ensures forall signal ::
      multiset(EligibleSignals(folds, signals, minCoverage))[signal]
      == if InCounted(folds, signals, minCoverage, signal.firstAt) then multiset(signals)[signal] else 0
  {
    hide InCounted;
    forall bet
      ensures multiset(EligibleBets(folds, bets, signals, minCoverage))[bet]
        == if InCounted(folds, signals, minCoverage, bet.decidedAt) then multiset(bets)[bet] else 0
    {
      EligibleBetCount(folds, params, bets, signals, minCoverage, bet);
    }
    forall signal
      ensures multiset(EligibleSignals(folds, signals, minCoverage))[signal]
        == if InCounted(folds, signals, minCoverage, signal.firstAt) then multiset(signals)[signal] else 0
    {
      EligibleSignalCount(folds, params, signals, minCoverage, signal);
    }
  }

  /** The count of a stage over the test windows of the eligible folds, one by one. */
  function StageOverFolds(folds: seq<FoldWindow>, signals: seq<SignalRecord>, minCoverage: int, stage: Stage): nat {
    if folds == [] then 0
    else
      var last := folds[|folds| - 1];
      StageOverFolds(folds[..|folds| - 1], signals, minCoverage, stage)
      + if ReasonOf(last, signals, minCoverage).None?
        then CountStage(WindowSignals(signals, last.testFrom, last.testTo), stage) else 0
  }

  /** The summary's counts are the sums of the eligible folds' counts. */
  lemma {:induction false} CountsAddUp(folds: seq<FoldWindow>, signals: seq<SignalRecord>, minCoverage: int, stage: Stage)
    ensures CountStage(EligibleSignals(folds, signals, minCoverage), stage) == StageOverFolds(folds, signals, minCoverage, stage)
  {
    if folds != [] {
      var init, last := folds[..|folds| - 1], folds[|folds| - 1];
      CountsAddUp(init, signals, minCoverage, stage);
      CountConcat(EligibleSignals(init, signals, minCoverage), WindowSignals(signals, last.testFrom, last.testTo), stage);
      assert EligibleSignals(init, signals, minCoverage) + [] == EligibleSignals(init, signals, minCoverage);
    }
  }
}
