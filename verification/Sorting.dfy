/** A stable sort by a comparator, as `Array.prototype.sort` does it. */
module Sorting {
  /** A strict weak order: what the comparator must be for sorting to mean anything. */
  ghost predicate StrictWeak<T(!new)>(before: (T, T) -> bool) {
    && (forall x, y :: before(x, y) ==> !before(y, x))
    && (forall x, y, z :: before(x, z) ==> before(x, y) || before(y, z))
  }

  /** Before the first element that must come after it. */
  function Insert<T>(sorted: seq<T>, x: T, before: (T, T) -> bool): (r: seq<T>)
    ensures |r| == |sorted| + 1
    ensures multiset(r) == multiset(sorted) + multiset{x}
  {
    if sorted == [] || before(x, sorted[0]) then [x] + sorted
    else
      assert sorted == [sorted[0]] + sorted[1..];
      [sorted[0]] + Insert(sorted[1..], x, before)
  }

  function StableSort<T>(xs: seq<T>, before: (T, T) -> bool): (r: seq<T>)
    ensures |r| == |xs|
    ensures multiset(r) == multiset(xs)
  {
    if xs == [] then []
    else
      assert xs == xs[..|xs| - 1] + [xs[|xs| - 1]];
      Insert(StableSort(xs[..|xs| - 1], before), xs[|xs| - 1], before)
  }

  /** No element comes after one it should precede. */
  predicate Sorted<T>(xs: seq<T>, before: (T, T) -> bool) {
    forall i, j | 0 <= i < j < |xs| :: !before(xs[j], xs[i])
  }

  lemma {:induction false} InsertSorts<T(!new)>(sorted: seq<T>, x: T, before: (T, T) -> bool)
    requires StrictWeak(before) && Sorted(sorted, before)
    ensures Sorted(Insert(sorted, x, before), before)
  {
    if sorted == [] {
    } else if before(x, sorted[0]) {
      var r := [x] + sorted;
      forall j | 0 < j < |r|
        ensures !before(r[j], x)
      {
        assert r[j] == sorted[j - 1];
        NoTwoWays(x, r[j], sorted[0], before);
      }
    } else {
      InsertSorts(sorted[1..], x, before);
      var rest := Insert(sorted[1..], x, before);
      forall j | 0 <= j < |rest|
        ensures !before(rest[j], sorted[0])
      {
        assert rest[j] in multiset(rest);
        assert rest[j] == x || rest[j] in multiset(sorted[1..]);
        if rest[j] != x {
          var k :| 0 <= k < |sorted[1..]| && sorted[1..][k] == rest[j];
          assert sorted[k + 1] == rest[j];
        }
      }
    }
  }

  /** x before z and y not before z: y is not before x. */
  lemma NoTwoWays<T(!new)>(x: T, y: T, z: T, before: (T, T) -> bool)
    requires StrictWeak(before) && before(x, z) && !before(y, z)
    ensures !before(y, x)
  {
    assert before(y, x) ==> before(y, z) || before(z, x);
  }

  lemma {:induction false} SortSorts<T(!new)>(xs: seq<T>, before: (T, T) -> bool)
    requires StrictWeak(before)
    ensures Sorted(StableSort(xs, before), before)
  {
    if xs != [] {
      SortSorts(xs[..|xs| - 1], before);
      InsertSorts(StableSort(xs[..|xs| - 1], before), xs[|xs| - 1], before);
    }
  }

  /** When no two different elements tie, there is only one sorted arrangement. */
  lemma {:induction false} SortedIsUnique<T(!new)>(a: seq<T>, b: seq<T>, before: (T, T) -> bool)
    requires StrictWeak(before) && Sorted(a, before) && Sorted(b, before) && multiset(a) == multiset(b)
    requires forall i, j | 0 <= i < |a| && 0 <= j < |a| && a[i] != a[j] :: before(a[i], a[j]) || before(a[j], a[i])
    ensures a == b
  {
    assert |multiset(a)| == |a| && |multiset(b)| == |b|;
    if a != [] {
      SameHead(a, b, before);
      SameTails(a, b);
      SortedIsUnique(a[1..], b[1..], before);
    }
  }

  lemma {:induction false} SameHead<T(!new)>(a: seq<T>, b: seq<T>, before: (T, T) -> bool)
    requires a != [] && b != [] && Sorted(a, before) && Sorted(b, before) && multiset(a) == multiset(b)
    requires forall i, j | 0 <= i < |a| && 0 <= j < |a| && a[i] != a[j] :: before(a[i], a[j]) || before(a[j], a[i])
    ensures a[0] == b[0]
  {
    assert a[0] in multiset(b) && b[0] in multiset(a);
    var k :| 0 <= k < |b| && b[k] == a[0];
    var m :| 0 <= m < |a| && a[m] == b[0];
  }

  lemma {:induction false} SameTails<T>(a: seq<T>, b: seq<T>)
    requires a != [] && b != [] && a[0] == b[0] && multiset(a) == multiset(b)
    ensures multiset(a[1..]) == multiset(b[1..])
  {
    assert a == [a[0]] + a[1..] && b == [b[0]] + b[1..];
    assert multiset(a[1..]) == multiset(a) - multiset{a[0]};
    assert multiset(b[1..]) == multiset(b) - multiset{b[0]};
  }

  // ---- Ties stay in order ----

  function Among<T>(xs: seq<T>, kept: T -> bool): seq<T> {
    if xs == [] then [] else (if kept(xs[0]) then [xs[0]] else []) + Among(xs[1..], kept)
  }

  lemma {:induction false} AmongConcat<T>(first: seq<T>, second: seq<T>, kept: T -> bool)
    ensures Among(first + second, kept) == Among(first, kept) + Among(second, kept)
  {
    if first == [] {
      assert first + second == second;
    } else {
      AmongConcat(first[1..], second, kept);
      assert (first + second)[1..] == first[1..] + second && (first + second)[0] == first[0];
      var head, rest, tail := if kept(first[0]) then [first[0]] else [], Among(first[1..], kept), Among(second, kept);
      assert head + (rest + tail) == head + rest + tail;
    }
  }

  lemma {:induction false} NoneAmong<T>(xs: seq<T>, kept: T -> bool)
    requires forall i | 0 <= i < |xs| :: !kept(xs[i])
    ensures Among(xs, kept) == []
  {
    if xs != [] {
      NoneAmong(xs[1..], kept);
    }
  }

  /** Nothing that ties with x can come at or after an element x precedes. */
  lemma NoTieAhead<T(!new)>(sorted: seq<T>, x: T, j: nat, before: (T, T) -> bool, kept: T -> bool)
    requires StrictWeak(before) && Sorted(sorted, before) && j < |sorted| && before(x, sorted[0])
    requires kept(x) && forall y, z | kept(y) && kept(z) :: !before(y, z)
    ensures !kept(sorted[j])
  {
    var first, y := sorted[0], sorted[j];
    assert before(x, y) || before(y, first);
    assert !before(y, first);
  }

  lemma NoneKeptAhead<T(!new)>(sorted: seq<T>, x: T, before: (T, T) -> bool, kept: T -> bool)
    requires StrictWeak(before) && Sorted(sorted, before) && sorted != [] && before(x, sorted[0])
    requires kept(x) && forall y, z | kept(y) && kept(z) :: !before(y, z)
    ensures Among(sorted, kept) == []
  {
    forall j | 0 <= j < |sorted|
      ensures !kept(sorted[j])
    {
      NoTieAhead(sorted, x, j, before, kept);
    }
    NoneAmong(sorted, kept);
  }

  lemma SortedTail<T>(sorted: seq<T>, before: (T, T) -> bool)
    requires sorted != [] && Sorted(sorted, before)
    ensures Sorted(sorted[1..], before)
  {
  }

  lemma InsertStep<T>(sorted: seq<T>, x: T, before: (T, T) -> bool)
    ensures Insert(sorted, x, before) ==
      if sorted == [] || before(x, sorted[0]) then [x] + sorted else [sorted[0]] + Insert(sorted[1..], x, before)
  {
  }

  lemma AmongOne<T>(x: T, kept: T -> bool)
    ensures Among([x], kept) == if kept(x) then [x] else []
  {
  }

  lemma {:induction false} InsertIsStable<T(!new)>(sorted: seq<T>, x: T, before: (T, T) -> bool, kept: T -> bool)
    requires StrictWeak(before) && Sorted(sorted, before)
    requires forall y, z | kept(y) && kept(z) :: !before(y, z)
    ensures Among(Insert(sorted, x, before), kept) == Among(sorted, kept) + if kept(x) then [x] else []
    decreases |sorted|
  {
    hide StrictWeak, Sorted, Insert, Among;
    InsertStep(sorted, x, before);
    AmongOne(x, kept);
    if sorted == [] || before(x, sorted[0]) {
      AmongConcat([x], sorted, kept);
      if sorted == [] {
        NoneAmong(sorted, kept);
      } else if kept(x) {
        NoneKeptAhead(sorted, x, before, kept);
      }
    } else {
      var rest := sorted[1..];
      SortedTail(sorted, before);
      InsertIsStable(rest, x, before, kept);
      AmongConcat([sorted[0]], Insert(rest, x, before), kept);
      AmongConcat([sorted[0]], rest, kept);
      assert [sorted[0]] + rest == sorted;
    }
  }

  /** Elements that tie keep the order they came in. */
  lemma {:induction false} SortIsStable<T(!new)>(xs: seq<T>, before: (T, T) -> bool, kept: T -> bool)
    requires StrictWeak(before)
    requires forall y, z | kept(y) && kept(z) :: !before(y, z)
    ensures Among(StableSort(xs, before), kept) == Among(xs, kept)
  {
    hide StrictWeak, Sorted, Insert;
    if xs != [] {
      var init, last := xs[..|xs| - 1], xs[|xs| - 1];
      SortIsStable(init, before, kept);
      SortSorts(init, before);
      InsertIsStable(StableSort(init, before), last, before, kept);
      AmongConcat(init, [last], kept);
      assert Among([last], kept) == if kept(last) then [last] else [];
      assert xs == init + [last];
    }
  }
}
