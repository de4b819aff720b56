/** Cancelling abandoned reservations in one batch does what cancelling them one by one does. */
module Abandoned {
  import opened Wrappers
  import opened Keys
  import opened Control
  import opened Ledger
  import opened Risk
  import opened Orders
  import opened OrderInvariant
  import opened OrderSteps

  /** The same rows, linked to the same rows. */
  predicate SameLinks(a: Tables, b: Tables) {
    && |b.orders| == |a.orders|
    && |b.decisions| == |a.decisions|
    && |b.book.accounts| == |a.book.accounts|
    && (forall i | 0 <= i < |a.orders| ::
          b.orders[i].decision == a.orders[i].decision && b.orders[i].account == a.orders[i].account)
  }

  /** The orders cancelled one after the other, stopping at the first refusal. */
  function CancelEach(tables: Tables, rows: seq<nat>, now: int): (r: Result<Tables, LedgerError>)
    requires RowsStored(tables, rows)
    ensures r.Ok? ==> SameLinks(tables, r.value)
  {
    if rows == [] then Ok(tables)
    else
      assert InTables(tables, rows[|rows| - 1]);
      match CancelEach(tables, rows[..|rows| - 1], now)
      case Err(e) => Err(e)
      case Ok(done) => Cancel(done, rows[|rows| - 1], {Reserved}, OperatorUnavailable, now)
  }

  lemma {:induction false} AppendAllStaysWritten(book: Book, account: nat, inputs: seq<AppendInput>, key: EntryKey,
                                                 now: int)
    requires account < |book.accounts| && AppendAll(book, account, inputs, now).Ok?
    requires Lookup(book.entries, key).Some?
    ensures Lookup(AppendAll(book, account, inputs, now).value.book.entries, key) == Lookup(book.entries, key)
  {
    if inputs != [] {
      var init := inputs[..|inputs| - 1];
      AppendAllStaysWritten(book, account, init, key, now);
      var done := AppendAll(book, account, init, now).value;
      var outcome := Append(done.book, account, inputs[|inputs| - 1], now).value;
      if !outcome.replayed {
        LookupAppend(done.book.entries, outcome.entry);
      }
    }
  }

  lemma {:induction false} UnmarkedStays(tables: Tables, rows: seq<nat>, code: RejectionCode, i: nat)
    requires RowsStored(tables, rows) && i < |tables.orders|
    requires forall r | 0 <= r < |rows| :: rows[r] != i
    ensures MarkAllRejected(tables, rows, code).orders[i] == tables.orders[i]
  {
    if rows != [] {
      UnmarkedStays(tables, rows[..|rows| - 1], code, i);
    }
  }

  lemma CancelOne(marked: Tables, book: Book, id: nat, now: int)
    requires InTables(marked, id) && |book.accounts| == |marked.book.accounts|
    requires marked.orders[id].status == Reserved
    requires Lookup(book.entries, ReserveKey(marked.orders[id].key)).Some?
    ensures Cancel(marked.(book := book), id, {Reserved}, OperatorUnavailable, now) ==
      match Append(book, marked.orders[id].account, ReleaseInput(marked.orders[id], id), now)
      case Err(e) => Err(e)
      case Ok(outcome) => Ok(MarkRejected(marked, id, OperatorUnavailable).(book := outcome.book))
  {
  }

  predicate Cancellable(a: Tables, rows: seq<nat>, account: nat) {
    && RowsStored(a, rows) && Ascending(rows)
    && AreOrders(rows, a.orders)
    && (forall r | 0 <= r < |rows| ::
          a.orders[rows[r]].account == account && a.orders[rows[r]].status == Reserved && StakeBooked(a, rows[r]))
  }

  lemma {:induction false} BatchMatches(a: Tables, rows: seq<nat>, account: nat, now: int)
    requires Cancellable(a, rows, account) && account < |a.book.accounts|
    ensures CancelEach(a, rows, now) ==
      match AppendAll(a.book, account, ReleaseInputs(a.orders, rows), now)
      case Err(e) => Err(e)
      case Ok(done) => Ok(MarkAllRejected(a, rows, OperatorUnavailable).(book := done.book))
  {
    if rows != [] {
      var init, id := rows[..|rows| - 1], rows[|rows| - 1];
      BatchMatches(a, init, account, now);
      assert InTables(a, id) && StakeBooked(a, id);
      var inputs := ReleaseInputs(a.orders, rows);
      assert inputs[..|inputs| - 1] == ReleaseInputs(a.orders, init);
      var earlier := AppendAll(a.book, account, ReleaseInputs(a.orders, init), now);
      if earlier.Ok? {
        var marked := MarkAllRejected(a, init, OperatorUnavailable);
        UnmarkedStays(a, init, OperatorUnavailable, id);
        AppendAllStaysWritten(a.book, account, ReleaseInputs(a.orders, init), ReserveKey(a.orders[id].key), now);
        CancelOne(marked, earlier.value.book, id, now);
      }
    } else {
      assert a == a.(book := a.book);
    }
  }

  /**
   * The batch goes through exactly when the cancellations one by one do, and leaves the same
   * tables. Every reservation in a reachable state is releasable.
   */
  lemma BatchIsOneByOne(a: Tables, ids: set<nat>, now: int)
    requires Inv(a) && OneAccount(a.orders, ReservedAmong(a.orders, ids))
    ensures forall id | id in ids && id < |a.orders| :: InTables(a, id)
    ensures RowsStored(a, ReservedAmong(a.orders, ids))
    ensures CancelEach(a, ReservedAmong(a.orders, ids), now) ==
      match CancelAbandoned(a, ids, now)
      case Err(e) => Err(e)
      case Ok((after, _)) => Ok(after)
    ensures CancelAbandoned(a, ids, now).Ok? ==> CancelAbandoned(a, ids, now).value.1 == ReservedAmong(a.orders, ids)
  {
    var rows := ReservedAmong(a.orders, ids);
    AllInTables(a);
    ReservedIsBooked(a, rows);
    AllReleasable(a, rows);
    if rows != [] {
      hide Inv, InTables;
      assert InTables(a, rows[0]);
      RowsCancellable(a, rows);
      BatchMatches(a, rows, a.orders[rows[0]].account, now);
    }
  }

  lemma AllInTables(a: Tables)
    requires Inv(a)
    ensures forall id: nat | id < |a.orders| :: InTables(a, id)
  {
  }

  lemma RowsCancellable(a: Tables, rows: seq<nat>)
    requires rows != [] && RowsStored(a, rows) && Ascending(rows) && AreOrders(rows, a.orders) && OneAccount(a.orders, rows)
    requires forall r | 0 <= r < |rows| :: a.orders[rows[r]].status == Reserved
    requires forall r | 0 <= r < |rows| :: StakeBooked(a, rows[r])
    ensures Cancellable(a, rows, a.orders[rows[0]].account)
    ensures a.orders[rows[0]].account < |a.book.accounts|
  {
    assert InTables(a, rows[0]);
  }

  lemma ReservedIsBooked(a: Tables, rows: seq<nat>)
    requires Inv(a) && AreOrders(rows, a.orders)
    requires forall r | 0 <= r < |rows| :: a.orders[rows[r]].status == Reserved
    ensures RowsStored(a, rows)
    ensures forall r | 0 <= r < |rows| :: StakeBooked(a, rows[r])
  {
    forall r | 0 <= r < |rows|
      ensures InTables(a, rows[r]) && StakeBooked(a, rows[r])
    {
      assert InTables(a, rows[r]) && OrderOk(a, rows[r]);
    }
  }

  lemma {:induction false} AllReleasable(a: Tables, rows: seq<nat>)
    requires AreOrders(rows, a.orders) && Ascending(rows)
    requires forall r | 0 <= r < |rows| :: StakeBooked(a, rows[r])
    ensures Releasable(a, rows) == rows
  {
    if rows != [] {
      AllReleasable(a, rows[..|rows| - 1]);
    }
  }

  lemma {:induction false} CancelEachKeepsInv(a: Tables, rows: seq<nat>, now: int)
    requires Inv(a) && RowsStored(a, rows)
    requires CancelEach(a, rows, now).Ok?
    ensures Inv(CancelEach(a, rows, now).value) && TablesEvolve(a, CancelEach(a, rows, now).value)
  {
    hide Inv, TablesEvolve;
    if rows == [] {
      TablesEvolveReflexive(a);
    } else {
      var init := rows[..|rows| - 1];
      CancelEachKeepsInv(a, init, now);
      var done := CancelEach(a, init, now).value;
      assert InTables(a, rows[|rows| - 1]);
      CancelKeepsInv(done, rows[|rows| - 1], {Reserved}, OperatorUnavailable, now);
      EvolvesTransitive(a, done, CancelEach(a, rows, now).value);
    }
  }

  lemma CancelAbandonedKeepsInv(a: Tables, ids: set<nat>, now: int)
    requires Inv(a)
    ensures forall id | id in ids && id < |a.orders| :: InTables(a, id)
    ensures CancelAbandoned(a, ids, now).Ok? ==>
      var b := CancelAbandoned(a, ids, now).value.0;
      Inv(b) && TablesEvolve(a, b)
  {
    forall id | id in ids && id < |a.orders|
      ensures InTables(a, id)
    {
    }
    if CancelAbandoned(a, ids, now).Ok? {
      BatchIsOneByOne(a, ids, now);
      CancelEachKeepsInv(a, ReservedAmong(a.orders, ids), now);
    }
  }
}
