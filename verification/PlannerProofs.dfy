/**
 * What planning guarantees: the bankroll it leaves, that planning again adds nothing, and that the
 * order of the signals does not matter.
 */
module PlannerProofs {
  import opened Wrappers
  import opened Risk
  import opened Quotes
  import opened Sorting
  import opened Simulation

  // ---- The bankroll ----

  /** Nothing overdrawn, nothing over the exposure limit. */
  predicate Solvent(bankroll: Bankroll, risk: RiskSnapshot) {
    bankroll.available >= 0 && (risk.maxOpenExposure.Some? ==> bankroll.open <= risk.maxOpenExposure.value)
  }

  /** A planned order takes its stake from what is available, within the exposure left. */
  predicate Draws(before: Bankroll, after: Bankroll, row: Row, risk: RiskSnapshot) {
    && row.status == RowReserved && row.stake.Some? && 0 < row.stake.value <= before.available
    && after == before.(available := before.available - row.stake.value, open := before.open + row.stake.value)
    && (risk.maxOpenExposure.Some? ==> after.open <= risk.maxOpenExposure.value)
  }

  lemma PlanOneShape(state: PlanState, signal: Signal, input: PlanInput)
    ensures var next := PlanOne(state, signal, input);
      || (next.rows == state.rows && next.bankroll == state.bankroll)
      || (&& next.rows == state.rows + [next.rows[|state.rows|]]
          && ((next.bankroll == state.bankroll && next.rows[|state.rows|].status == RowRejected)
              || Draws(state.bankroll, next.bankroll, next.rows[|state.rows|], input.risk)))
  {
    hide StakeFor, HasActive, History, Attempts, QuoteFor;
  }

  lemma PlanOneDrawsDown(state: PlanState, signal: Signal, input: PlanInput, initial: int, journal: seq<Row>)
    requires state.bankroll == JournalBankroll(initial, journal + state.rows)
    ensures var next := PlanOne(state, signal, input);
      && next.bankroll == JournalBankroll(initial, journal + next.rows)
      && next.bankroll.available <= state.bankroll.available && next.bankroll.open >= state.bankroll.open
      && (Solvent(state.bankroll, input.risk) ==> Solvent(next.bankroll, input.risk))
      && |state.rows| <= |next.rows| && next.rows[..|state.rows|] == state.rows
  {
    hide PlanOne, Realized, Exposed;
    PlanOneShape(state, signal, input);
    var next := PlanOne(state, signal, input);
    if next.rows != state.rows {
      var added := next.rows[|state.rows|];
      assert journal + next.rows == journal + state.rows + [added];
      JournalSnoc(initial, journal + state.rows, added);
    }
  }

  lemma {:induction false} PlanEachDrawsDown(start: PlanState, signals: seq<Signal>, input: PlanInput, initial: int,
                                             journal: seq<Row>)
    requires start.bankroll == JournalBankroll(initial, journal + start.rows)
    ensures var next := PlanEach(start, signals, input);
      && next.bankroll == JournalBankroll(initial, journal + next.rows)
      && next.bankroll.available <= start.bankroll.available && next.bankroll.open >= start.bankroll.open
      && (Solvent(start.bankroll, input.risk) ==> Solvent(next.bankroll, input.risk))
      && |start.rows| <= |next.rows| && next.rows[..|start.rows|] == start.rows
  {
    if signals != [] {
      var init := PlanEach(start, signals[..|signals| - 1], input);
      PlanEachDrawsDown(start, signals[..|signals| - 1], input, initial, journal);
      PlanOneDrawsDown(init, signals[|signals| - 1], input, initial, journal);
      var next := PlanEach(start, signals, input);
      assert next.rows[..|start.rows|] == next.rows[..|init.rows|][..|start.rows|];
    }
  }

  /** The bankroll a plan leaves is the one its journal implies, and stays solvent. */
  lemma PlanMatchesJournal(signals: seq<Signal>, input: PlanInput, initial: int, journal: seq<Row>)
    ensures var plan := Plan(signals, JournalBankroll(initial, journal), input);
      && plan.bankroll == JournalBankroll(initial, journal + plan.rows)
      && (Solvent(JournalBankroll(initial, journal), input.risk) ==> Solvent(plan.bankroll, input.risk))
  {
    assert journal + [] == journal;
    PlanEachDrawsDown(Start(JournalBankroll(initial, journal), input.existing), Considered(input.strategy, signals),
                      input, initial, journal);
  }

  // ---- Planning again ----

  /** Why a signal would be refused at this bankroll, if it would. */
  function Refusal(signal: Signal, input: PlanInput, bankroll: Bankroll): Option<RejectionCode> {
    var quote := QuoteFor(signal, input);
    if quote.None? then Some(NoExecutableOdd)
    else if quote.value.odd < signal.minOdd then Some(BelowMinOdd)
    else if StakeFor(input.strategy, input.risk, bankroll) <= 0 then Some(LimitExceeded)
    else None
  }

  /** The signal has nothing more to say: it is active, or its refusal is on record. */
  predicate Silent(signal: Signal, input: PlanInput, rows: seq<Row>, bankroll: Bankroll) {
    || HasActive(History(rows, signal.key))
    || (&& Refusal(signal, input, bankroll).Some?
        && (signal.key, RejectedKind(Refusal(signal, input, bankroll).value)) in KeysOf(rows))
  }

  lemma LowerStakesNoHigher(strategy: Strategy, risk: RiskSnapshot, before: Bankroll, after: Bankroll)
    requires after.available <= before.available && after.open >= before.open
    requires StakeFor(strategy, risk, before) <= 0
    ensures StakeFor(strategy, risk, after) <= 0
  {
    if strategy.staking.Percent? && after.available > 0 {
      var points := Round(strategy.staking.amount * 100.0);
      if points >= 0 {
        ScaleMonotone(after.available, before.available, points);
      } else {
        assert after.available * points <= 0;
      }
    }
  }

  lemma ScaleMonotone(a: int, b: int, points: int)
    requires a <= b && points >= 0
    ensures a * points / 10000 <= b * points / 10000
  {
    assert a * points <= b * points;
  }

  lemma {:induction false} HistoryConcat(first: seq<Row>, second: seq<Row>, key: nat)
    ensures History(first + second, key) == History(first, key) + History(second, key)
  {
    if second == [] {
      assert first + second == first;
    } else {
      var init := second[..|second| - 1];
      assert (first + second)[..|first + second| - 1] == first + init;
      HistoryConcat(first, init, key);
    }
  }

  lemma ActiveConcat(first: seq<Row>, second: seq<Row>, key: nat)
    ensures HasActive(History(first + second, key)) <==>
      HasActive(History(first, key)) || HasActive(History(second, key))
  {
    HistoryConcat(first, second, key);
    var a, b := History(first, key), History(second, key);
    assert forall i | 0 <= i < |a| :: (a + b)[i] == a[i];
    assert forall i | 0 <= i < |b| :: (a + b)[|a| + i] == b[i];
  }

  lemma KeysConcat(first: seq<Row>, second: seq<Row>)
    ensures KeysOf(first + second) == KeysOf(first) + KeysOf(second)
  {
    var both := first + second;
    assert forall i | 0 <= i < |first| :: both[i] == first[i];
    assert forall i | 0 <= i < |second| :: both[|first| + i] == second[i];
    forall key
      ensures key in KeysOf(both) <==> key in KeysOf(first) + KeysOf(second)
    {
      if key in KeysOf(second) {
        var i :| 0 <= i < |second| && (second[i].signal, second[i].kind) == key;
        assert (both[|first| + i].signal, both[|first| + i].kind) == key;
      }
    }
  }

  lemma SilentStays(signal: Signal, input: PlanInput, rows: seq<Row>, more: seq<Row>, before: Bankroll, after: Bankroll)
    requires Silent(signal, input, rows, before)
    requires after.available <= before.available && after.open >= before.open
    ensures Silent(signal, input, rows + more, after)
  {
    ActiveConcat(rows, more, signal.key);
    KeysConcat(rows, more);
    if StakeFor(input.strategy, input.risk, before) <= 0 {
      LowerStakesNoHigher(input.strategy, input.risk, before, after);
    }
  }

  lemma RowAdded(rows: seq<Row>, row: Row)
    ensures KeysOf(rows + [row]) == KeysOf(rows) + {(row.signal, row.kind)}
    ensures IsActive(row) ==> HasActive(History(rows + [row], row.signal))
    ensures HasActive(History(rows, row.signal)) ==> HasActive(History(rows + [row], row.signal))
  {
    KeysConcat(rows, [row]);
    assert KeysOf([row]) == {(row.signal, row.kind)} by {
      assert (row.signal, row.kind) == ([row][0].signal, [row][0].kind);
    }
    ActiveConcat(rows, [row], row.signal);
    assert [row][..0] == [];
    assert History([row], row.signal) == [row];
    assert [row][0] == row;
  }

  lemma PlanOneSilences(state: PlanState, signal: Signal, input: PlanInput)
    requires signal.key !in state.decided
    requires state.known <= KeysOf(input.existing + state.rows)
    ensures var next := PlanOne(state, signal, input);
      && Silent(signal, input, input.existing + next.rows, next.bankroll)
      && next.known <= KeysOf(input.existing + next.rows)
  {
    hide StakeFor, HasActive, History, KeysOf;
    var next := PlanOne(state, signal, input);
    ActiveConcat(input.existing, next.rows, signal.key);
    if next.rows != state.rows {
      var added := next.rows[|state.rows|];
      assert input.existing + next.rows == input.existing + state.rows + [added];
      RowAdded(input.existing + state.rows, added);
    }
  }

  function KeysDecided(signals: seq<Signal>): set<nat> {
    if signals == [] then {} else KeysDecided(signals[..|signals| - 1]) + {signals[|signals| - 1].key}
  }

  predicate IsFirst(signals: seq<Signal>, i: nat)
    requires i < |signals|
  {
    signals[i].key !in KeysDecided(signals[..i])
  }

  /** Every signal is silent, repeats of a key aside. */
  ghost predicate AllSilent(signals: seq<Signal>, input: PlanInput, rows: seq<Row>, bankroll: Bankroll) {
    forall i | 0 <= i < |signals| && IsFirst(signals, i) :: Silent(signals[i], input, rows, bankroll)
  }

  lemma AllSilentSnoc(signals: seq<Signal>, input: PlanInput, rows: seq<Row>, bankroll: Bankroll)
    requires signals != []
    requires AllSilent(signals[..|signals| - 1], input, rows, bankroll)
    requires signals[|signals| - 1].key !in KeysDecided(signals[..|signals| - 1]) ==>
      Silent(signals[|signals| - 1], input, rows, bankroll)
    ensures AllSilent(signals, input, rows, bankroll)
  {
    hide Silent;
    var init := signals[..|signals| - 1];
    forall i | 0 <= i < |signals| && IsFirst(signals, i)
      ensures Silent(signals[i], input, rows, bankroll)
    {
      if i < |init| {
        assert init[..i] == signals[..i] && init[i] == signals[i];
        assert IsFirst(init, i);
      }
    }
  }

  lemma AllSilentInit(signals: seq<Signal>, input: PlanInput, rows: seq<Row>, bankroll: Bankroll)
    requires signals != [] && AllSilent(signals, input, rows, bankroll)
    ensures AllSilent(signals[..|signals| - 1], input, rows, bankroll)
    ensures signals[|signals| - 1].key !in KeysDecided(signals[..|signals| - 1]) ==>
      Silent(signals[|signals| - 1], input, rows, bankroll)
  {
    hide Silent;
    var init := signals[..|signals| - 1];
    forall i | 0 <= i < |init| && IsFirst(init, i)
      ensures Silent(init[i], input, rows, bankroll)
    {
      assert init[..i] == signals[..i] && init[i] == signals[i];
      assert IsFirst(signals, i);
    }
    assert signals[|signals| - 1].key !in KeysDecided(init) ==> IsFirst(signals, |signals| - 1);
  }

  lemma AllSilentStays(signals: seq<Signal>, input: PlanInput, rows: seq<Row>, more: seq<Row>, before: Bankroll,
                       after: Bankroll)
    requires AllSilent(signals, input, rows, before)
    requires after.available <= before.available && after.open >= before.open
    ensures AllSilent(signals, input, rows + more, after)
  {
    hide Silent;
    forall i | 0 <= i < |signals| && IsFirst(signals, i)
      ensures Silent(signals[i], input, rows + more, after)
    {
      SilentStays(signals[i], input, rows, more, before, after);
    }
  }

  lemma {:induction false} PlanEachSilences(start: PlanState, signals: seq<Signal>, input: PlanInput, initial: int,
                                            journal: seq<Row>)
    requires start.decided == {} && start.known <= KeysOf(input.existing + start.rows)
    requires start.bankroll == JournalBankroll(initial, journal + start.rows)
    ensures var next := PlanEach(start, signals, input);
      && next.known <= KeysOf(input.existing + next.rows)
      && next.decided == KeysDecided(signals)
      && AllSilent(signals, input, input.existing + next.rows, next.bankroll)
  {
    hide PlanOne, KeysOf, JournalBankroll, AllSilent, Silent;
    if signals == [] {
      NothingToSilence(input, input.existing + start.rows, start.bankroll);
    } else {
      var init, last := signals[..|signals| - 1], signals[|signals| - 1];
      var state, next := PlanEach(start, init, input), PlanEach(start, signals, input);
      PlanEachSilences(start, init, input, initial, journal);
      PlanEachDrawsDown(start, init, input, initial, journal);
      PlanOneDrawsDown(state, last, input, initial, journal);
      var more := next.rows[|state.rows|..];
      assert next.rows == state.rows + more;
      assert input.existing + next.rows == input.existing + state.rows + more;
      AllSilentStays(init, input, input.existing + state.rows, more, state.bankroll, next.bankroll);
      if last.key !in state.decided {
        PlanOneSilences(state, last, input);
        PlanOneDecides(state, last, input);
      } else {
        PlanOneRepeats(state, last, input);
      }
      AllSilentSnoc(signals, input, input.existing + next.rows, next.bankroll);
    }
  }

  lemma NothingToSilence(input: PlanInput, rows: seq<Row>, bankroll: Bankroll)
    ensures AllSilent([], input, rows, bankroll)
  {
  }

  lemma PlanOneDecides(state: PlanState, signal: Signal, input: PlanInput)
    ensures PlanOne(state, signal, input).decided == state.decided + {signal.key}
  {
  }

  lemma PlanOneRepeats(state: PlanState, signal: Signal, input: PlanInput)
    requires signal.key in state.decided
    ensures PlanOne(state, signal, input) == state
  {
  }

  lemma PlanOneOfSilent(state: PlanState, signal: Signal, input: PlanInput)
    requires state.known == KeysOf(input.existing) && Silent(signal, input, input.existing, state.bankroll)
    ensures PlanOne(state, signal, input) == state.(decided := state.decided + {signal.key})
  {
    if signal.key in state.decided {
      assert state.decided + {signal.key} == state.decided;
    }
  }

  /** Each signal either repeats an earlier one or is silent: nothing is added. */
  lemma {:induction false} SilentAddsNothing(start: PlanState, signals: seq<Signal>, input: PlanInput)
    requires start.rows == [] && start.known == KeysOf(input.existing) && start.decided == {}
    requires AllSilent(signals, input, input.existing, start.bankroll)
    ensures PlanEach(start, signals, input) == start.(decided := KeysDecided(signals))
  {
    hide PlanOne, KeysOf, AllSilent, Silent;
    if signals != [] {
      var init, last := signals[..|signals| - 1], signals[|signals| - 1];
      AllSilentInit(signals, input, input.existing, start.bankroll);
      SilentAddsNothing(start, init, input);
      var state := PlanEach(start, init, input);
      if last.key in state.decided {
        PlanOneRepeats(state, last, input);
        assert KeysDecided(signals) == KeysDecided(init);
      } else {
        PlanOneOfSilent(state, last, input);
      }
    }
  }

  /** Planning again on the journal the first plan leaves adds no row and moves no money. */
  lemma ReplanAddsNothing(signals: seq<Signal>, input: PlanInput, initial: int, journal: seq<Row>)
    ensures
      var plan := Plan(signals, JournalBankroll(initial, journal), input);
      var again := Plan(signals, plan.bankroll, input.(existing := input.existing + plan.rows));
      again.rows == [] && again.bankroll == plan.bankroll
  {
    var considered := Considered(input.strategy, signals);
    var start := Start(JournalBankroll(initial, journal), input.existing);
    var plan := Plan(signals, JournalBankroll(initial, journal), input);
    var second := input.(existing := input.existing + plan.rows);
    assert journal + [] == journal && input.existing + [] == input.existing;
    PlanEachSilences(start, considered, input, initial, journal);
    SameQuotesStaySilent(considered, input, second, input.existing + plan.rows, plan.bankroll);
    SilentAddsNothing(Start(plan.bankroll, second.existing), considered, second);
  }

  lemma SameQuotesStaySilent(signals: seq<Signal>, input: PlanInput, second: PlanInput, rows: seq<Row>, bankroll: Bankroll)
    requires second == input.(existing := second.existing) && AllSilent(signals, input, rows, bankroll)
    ensures AllSilent(signals, second, rows, bankroll)
  {
    forall i | 0 <= i < |signals| && IsFirst(signals, i)
      ensures Silent(signals[i], second, rows, bankroll)
    {
      assert Silent(signals[i], input, rows, bankroll);
      assert QuoteFor(signals[i], second) == QuoteFor(signals[i], input);
    }
  }

  // ---- The order of the signals ----

  lemma {:induction false} EligibleCount(strategy: Strategy, signals: seq<Signal>, signal: Signal)
    ensures multiset(EligibleOf(strategy, signals))[signal]
      == if IsEligible(strategy, signal) then multiset(signals)[signal] else 0
  {
    if signals != [] {
      var n := |signals| - 1;
      EligibleCount(strategy, signals[..n], signal);
      assert signals == signals[..n] + [signals[n]];
    }
  }

  /** With distinct keys, the plan does not depend on the order in which the signals arrive. */
  lemma SignalOrderDoesNotMatter(first: seq<Signal>, second: seq<Signal>, bankroll: Bankroll, input: PlanInput)
    requires multiset(first) == multiset(second)
    requires forall s, t | s in first && t in first && s.key == t.key :: s == t
    ensures Plan(first, bankroll, input) == Plan(second, bankroll, input)
  {
    var a, b := EligibleOf(input.strategy, first), EligibleOf(input.strategy, second);
    EligiblePermutes(input.strategy, first, second);
    SortSorts(a, ByKey());
    SortSorts(b, ByKey());
    KeysTellApart(first, a, StableSort(a, ByKey()));
    SortedIsUnique(StableSort(a, ByKey()), StableSort(b, ByKey()), ByKey());
  }

  lemma EligiblePermutes(strategy: Strategy, first: seq<Signal>, second: seq<Signal>)
    requires multiset(first) == multiset(second)
    ensures multiset(EligibleOf(strategy, first)) == multiset(EligibleOf(strategy, second))
  {
    forall signal
      ensures multiset(EligibleOf(strategy, first))[signal] == multiset(EligibleOf(strategy, second))[signal]
    {
      EligibleCount(strategy, first, signal);
      EligibleCount(strategy, second, signal);
    }
  }

  lemma KeysTellApart(signals: seq<Signal>, eligible: seq<Signal>, sorted: seq<Signal>)
    requires forall s, t | s in signals && t in signals && s.key == t.key :: s == t
    requires forall s | s in eligible :: s in signals
    requires multiset(sorted) == multiset(eligible)
    ensures forall i, j | 0 <= i < |sorted| && 0 <= j < |sorted| && sorted[i] != sorted[j] ::
      ByKey()(sorted[i], sorted[j]) || ByKey()(sorted[j], sorted[i])
  {
    forall i | 0 <= i < |sorted|
      ensures sorted[i] in signals
    {
      assert sorted[i] in multiset(eligible);
    }
  }
}
