/**
 * The quote a decision or an execution uses: the freshest one known at an instant, and why loading
 * a window of the table is enough.
 */
module Quotes {
  import opened Wrappers
  import opened Sorting

  /** A quote as loaded: odds in thousandths, instants in milliseconds. */
  datatype Quote = Quote(
    snapshotId: string,
    providerKey: string,
    fixtureId: string,
    providerFixtureId: string,
    bookmakerKey: string,
    marketKey: string,
    selectionKey: string,
    odd: int,
    observedAt: int,
    receivedAt: int,
    available: bool)

  datatype Target = Target(
    providerFixtureId: string,
    marketKey: string,
    selectionKey: string,
    providerKey: Option<string>,
    bookmakerKey: Option<string>)

  datatype QuoteQuery = QuoteQuery(target: Target, at: int, maxAge: int)

  /** How the runtime's locale orders texts, as a rank. */
  type Collation = string -> int

  predicate Matches(quote: Quote, query: QuoteQuery) {
    && quote.providerFixtureId == query.target.providerFixtureId
    && quote.marketKey == query.target.marketKey
    && quote.selectionKey == query.target.selectionKey
    && (query.target.providerKey.Some? ==> quote.providerKey == query.target.providerKey.value)
    && (query.target.bookmakerKey.Some? ==> quote.bookmakerKey == query.target.bookmakerKey.value)
    && quote.available
    && quote.odd > 1000
    && quote.observedAt <= quote.receivedAt <= query.at
    && 0 <= query.at - quote.observedAt <= query.maxAge
  }

  function MatchesOf(candidates: seq<Quote>, query: QuoteQuery): (matches: seq<Quote>)
    ensures forall q :: q in matches <==> q in candidates && Matches(q, query)
  {
    if candidates == [] then []
    else
      var last, earlier := candidates[|candidates| - 1], MatchesOf(candidates[..|candidates| - 1], query);
      assert candidates == candidates[..|candidates| - 1] + [last];
      if Matches(last, query) then earlier + [last] else earlier
  }

  /** Latest observed, then latest received, then provider, bookmaker and snapshot in collation order. */
  predicate Before(rank: Collation, left: Quote, right: Quote) {
    if left.observedAt != right.observedAt then left.observedAt > right.observedAt
    else if left.receivedAt != right.receivedAt then left.receivedAt > right.receivedAt
    else if rank(left.providerKey) != rank(right.providerKey) then rank(left.providerKey) < rank(right.providerKey)
    else if rank(left.bookmakerKey) != rank(right.bookmakerKey) then rank(left.bookmakerKey) < rank(right.bookmakerKey)
    else rank(left.snapshotId) < rank(right.snapshotId)
  }

  function Comparator(rank: Collation): (Quote, Quote) -> bool {
    (left, right) => Before(rank, left, right)
  }

  function SelectLatest(candidates: seq<Quote>, query: QuoteQuery, rank: Collation): Option<Quote> {
    var sorted := StableSort(MatchesOf(candidates, query), Comparator(rank));
    if sorted == [] then None else Some(sorted[0])
  }

  // ---- What the answer is ----

  /**
   * The quote is about the target, from its provider and bookmaker if it names them, open, above
   * par, received by then and not too old.
   */
  predicate Serves(quote: Quote, target: Target, at: int, maxAge: int) {
    && (quote.providerFixtureId, quote.marketKey, quote.selectionKey)
       == (target.providerFixtureId, target.marketKey, target.selectionKey)
    && target.providerKey in {None, Some(quote.providerKey)} && target.bookmakerKey in {None, Some(quote.bookmakerKey)}
    && quote.available && quote.odd > 1000
    && at - maxAge <= quote.observedAt <= quote.receivedAt <= at
  }

  /**
   * Nothing speaks for `other` over `best`: not observed later, nor received later at the same,
   * nor earlier by name.
   */
  predicate AtLeastAsFresh(rank: Collation, best: Quote, other: Quote) {
    && other.observedAt <= best.observedAt
    && (other.observedAt == best.observedAt ==>
          && other.receivedAt <= best.receivedAt
          && (other.receivedAt == best.receivedAt ==>
                && rank(best.providerKey) <= rank(other.providerKey)
                && (rank(best.providerKey) == rank(other.providerKey) ==>
                      && rank(best.bookmakerKey) <= rank(other.bookmakerKey)
                      && (rank(best.bookmakerKey) == rank(other.bookmakerKey) ==>
                            rank(best.snapshotId) <= rank(other.snapshotId)))))
  }

  /** The freshest candidate that serves, if any does. */
  ghost predicate IsFreshest(candidates: seq<Quote>, rank: Collation, target: Target, at: int, maxAge: int,
                             answer: Option<Quote>) {
    match answer
    case None => forall q | q in candidates :: !Serves(q, target, at, maxAge)
    case Some(best) =>
      && best in candidates && Serves(best, target, at, maxAge)
      && forall q | q in candidates && Serves(q, target, at, maxAge) :: AtLeastAsFresh(rank, best, q)
  }

  lemma MatchingServes(quote: Quote, query: QuoteQuery)
    ensures Matches(quote, query) <==> Serves(quote, query.target, query.at, query.maxAge)
  {
  }

  lemma FirstIsFresher(rank: Collation, best: Quote, other: Quote)
    ensures AtLeastAsFresh(rank, best, other) <==> !Before(rank, other, best)
  {
  }

  lemma FirstMatchAnswers(candidates: seq<Quote>, query: QuoteQuery, rank: Collation)
    ensures
      match SelectLatest(candidates, query, rank)
      case None => forall q | q in candidates :: !Matches(q, query)
      case Some(best) =>
        && best in candidates && Matches(best, query)
        && forall q | q in candidates && Matches(q, query) :: !Before(rank, q, best)
  {
    hide Matches, Before;
    var matches := MatchesOf(candidates, query);
    var sorted := StableSort(matches, Comparator(rank));
    BeforeIsStrict(rank);
    SortSorts(matches, Comparator(rank));
    forall q | q in candidates && Matches(q, query)
      ensures sorted != [] && !Before(rank, q, sorted[0])
    {
      assert q in multiset(sorted);
      var k :| 0 <= k < |sorted| && sorted[k] == q;
      assert k > 0 ==> !Comparator(rank)(sorted[k], sorted[0]);
    }
    if sorted != [] {
      assert sorted[0] in multiset(matches);
    }
  }

  lemma BeforeIsStrict(rank: Collation)
    ensures StrictWeak(Comparator(rank))
    ensures forall quote :: !Before(rank, quote, quote)
  {
  }

  /** The answer serves and nothing that serves is fresher; there is none exactly when nothing serves. */
  lemma SelectsFreshest(candidates: seq<Quote>, query: QuoteQuery, rank: Collation)
    ensures IsFreshest(candidates, rank, query.target, query.at, query.maxAge, SelectLatest(candidates, query, rank))
  {
    hide SelectLatest, Matches, Serves, Before, AtLeastAsFresh;
    FirstMatchAnswers(candidates, query, rank);
    var answer := SelectLatest(candidates, query, rank);
    forall q | q in candidates
      ensures Matches(q, query) <==> Serves(q, query.target, query.at, query.maxAge)
      ensures answer.Some? ==> (AtLeastAsFresh(rank, answer.value, q) <==> !Before(rank, q, answer.value))
    {
      MatchingServes(q, query);
      if answer.Some? {
        FirstIsFresher(rank, answer.value, q);
      }
    }
  }

  /** Snapshot identifiers are primary keys and the locale tells them apart. */
  ghost predicate DistinctSnapshots(candidates: seq<Quote>, rank: Collation) {
    forall p, q | p in candidates && q in candidates && rank(p.snapshotId) == rank(q.snapshotId) :: p == q
  }

  /** Two lists with the same matching quotes, in whatever order and however often, give the same answer. */
  lemma SameMatchesSameAnswer(first: seq<Quote>, second: seq<Quote>, query: QuoteQuery, rank: Collation)
    requires DistinctSnapshots(first, rank)
    requires forall q | Matches(q, query) :: q in first <==> q in second
    ensures SelectLatest(first, query, rank) == SelectLatest(second, query, rank)
  {
    SelectsFreshest(first, query, rank);
    SelectsFreshest(second, query, rank);
  }

  /** The answer does not depend on the order of the candidates. */
  lemma OrderDoesNotMatter(first: seq<Quote>, second: seq<Quote>, query: QuoteQuery, rank: Collation)
    requires DistinctSnapshots(first, rank) && multiset(first) == multiset(second)
    ensures SelectLatest(first, query, rank) == SelectLatest(second, query, rank)
  {
    forall q
      ensures q in first <==> q in second
    {
      assert q in multiset(first) <==> q in multiset(second);
    }
    SameMatchesSameAnswer(first, second, query, rank);
  }

  // ---- The table behind the candidates ----

  /** A row of the table: columns added later are empty on old rows. */
  datatype Snapshot = Snapshot(
    id: string,
    providerKey: Option<string>,
    fixtureId: string,
    providerFixtureId: string,
    bookmakerKey: Option<string>,
    marketKey: Option<string>,
    selectionKey: Option<string>,
    odd: int,
    observedAt: Option<int>,
    receivedAt: int,
    available: bool)

  predicate Complete(row: Snapshot) {
    && row.providerKey.Some? && row.bookmakerKey.Some? && row.marketKey.Some? && row.selectionKey.Some?
    && row.observedAt.Some?
  }

  function ToQuote(row: Snapshot): Quote
    requires Complete(row)
  {
    Quote(row.id, row.providerKey.value, row.fixtureId, row.providerFixtureId, row.bookmakerKey.value,
          row.marketKey.value, row.selectionKey.value, row.odd, row.observedAt.value, row.receivedAt, row.available)
  }

  datatype Window = Window(fixtures: seq<string>, from: int, to: int)

  predicate Loads(row: Snapshot, window: Window) {
    && row.providerFixtureId in window.fixtures
    && window.from <= row.receivedAt <= window.to
    && Complete(row)
    && row.available
    && row.odd > 1000
    && row.observedAt.value <= row.receivedAt
  }

  /** Every complete row as a quote: what would be searched without a window. */
  function WholeTable(rows: seq<Snapshot>): (quotes: seq<Quote>)
    ensures forall i | 0 <= i < |rows| && Complete(rows[i]) :: ToQuote(rows[i]) in quotes
    ensures forall q | q in quotes :: exists i | 0 <= i < |rows| :: Complete(rows[i]) && ToQuote(rows[i]) == q
  {
    if rows == [] then []
    else
      var init, last := rows[..|rows| - 1], rows[|rows| - 1];
      assert forall i | 0 <= i < |init| :: init[i] == rows[i];
      if Complete(last) then WholeTable(init) + [ToQuote(last)] else WholeTable(init)
  }

  function Loaded(rows: seq<Snapshot>, window: Window): (quotes: seq<Quote>)
    ensures forall i | 0 <= i < |rows| && Loads(rows[i], window) :: ToQuote(rows[i]) in quotes
    ensures forall q | q in quotes :: exists i | 0 <= i < |rows| :: Loads(rows[i], window) && ToQuote(rows[i]) == q
  {
    if rows == [] then []
    else
      var init, last := rows[..|rows| - 1], rows[|rows| - 1];
      assert forall i | 0 <= i < |init| :: init[i] == rows[i];
      if Loads(last, window) then Loaded(init, window) + [ToQuote(last)] else Loaded(init, window)
  }

  /** What `loadCandidates` returns: the loaded rows, latest observed and received first, then by identifier. */
  function LoadCandidates(rows: seq<Snapshot>, window: Window, rank: Collation): seq<Quote> {
    if window.fixtures == [] then []
    else
      StableSort(Loaded(rows, window), (left: Quote, right: Quote) =>
        if left.observedAt != right.observedAt then left.observedAt > right.observedAt
        else if left.receivedAt != right.receivedAt then left.receivedAt > right.receivedAt
        else rank(left.snapshotId) < rank(right.snapshotId))
  }

  /** The window contains every instant that can matter to the query. */
  predicate Covered(query: QuoteQuery, window: Window) {
    && query.target.providerFixtureId in window.fixtures
    && window.from <= query.at - query.maxAge
    && query.at <= window.to
  }

  /** Loading the window first is exact: the answer is that of a search over the whole table. */
  lemma PrefilterIsExact(rows: seq<Snapshot>, window: Window, query: QuoteQuery, rank: Collation)
    requires Covered(query, window)
    requires DistinctSnapshots(WholeTable(rows), rank)
    ensures SelectLatest(LoadCandidates(rows, window, rank), query, rank) == SelectLatest(WholeTable(rows), query, rank)
  {
    var loaded, whole := LoadCandidates(rows, window, rank), WholeTable(rows);
    forall q | Matches(q, query)
      ensures q in whole <==> q in loaded
    {
      assert q in loaded <==> q in multiset(loaded);
      assert q in Loaded(rows, window) <==> q in multiset(Loaded(rows, window));
      if q in whole {
        var i :| 0 <= i < |rows| && Complete(rows[i]) && ToQuote(rows[i]) == q;
        assert Loads(rows[i], window);
      }
      if q in Loaded(rows, window) {
        var i :| 0 <= i < |rows| && Loads(rows[i], window) && ToQuote(rows[i]) == q;
        assert ToQuote(rows[i]) in whole;
      }
    }
    SameMatchesSameAnswer(whole, loaded, query, rank);
  }
}
