/** The ledger as written: rows inserted and account rows updated, one movement or a batch at a time. */
module LedgerService {
  import opened Wrappers
  import opened Keys
  import opened Ledger
  import opened Database

  predicate DistinctInputs(inputs: seq<AppendInput>) {
    forall i, j | 0 <= i < j < |inputs| :: inputs[i].key != inputs[j].key
  }

  /** The batch in its own terms: balances and version carried along, rows collected, nothing written yet. */
  datatype Draft = Draft(balances: Balances, version: nat, rows: seq<Entry>, results: seq<(Entry, bool)>)

  /** What a draft leaves once its rows are inserted and the account updated. */
  function Flushed(book: Book, account: nat, draft: Draft): (after: Book)
    requires account < |book.accounts|
    ensures |after.accounts| == |book.accounts|
  {
    if draft.rows == [] then book
    else Book(
      book.accounts[account := book.accounts[account].(balances := draft.balances, version := draft.version)],
      book.entries + draft.rows)
  }

  predicate AllInColumn(rows: seq<Entry>) {
    forall r | 0 <= r < |rows| :: InColumn(rows[r].after)
  }

  /** The draft holds what appending the inputs one by one gives, as far as the column carries it. */
  ghost predicate Mirrors(book: Book, account: nat, inputs: seq<AppendInput>, now: int, draft: Draft)
    requires account < |book.accounts|
  {
    var done := AppendAll(book, account, inputs, now);
    && (done.Ok? <==> AllInColumn(draft.rows))
    && (done.Ok? ==>
          && done.value.book == Flushed(book, account, draft)
          && done.value.results == draft.results
          && draft.balances == done.value.book.accounts[account].balances
          && draft.version == done.value.book.accounts[account].version)
  }

  predicate KeyAmong(key: EntryKey, inputs: seq<AppendInput>, n: nat)
    requires n <= |inputs|
  {
    exists j | 0 <= j < n :: inputs[j].key == key
  }

  ghost predicate RowsOf(rows: seq<Entry>, inputs: seq<AppendInput>, n: nat)
    requires n <= |inputs|
  {
    forall r | 0 <= r < |rows| :: KeyAmong(rows[r].key, inputs, n)
  }

  lemma MirrorsStart(book: Book, account: nat, inputs: seq<AppendInput>, now: int)
    requires account < |book.accounts|
    ensures Mirrors(book, account, inputs[..0], now,
                    Draft(book.accounts[account].balances, book.accounts[account].version, [], []))
  {
  }

  lemma KeyIsNew(rows: seq<Entry>, inputs: seq<AppendInput>, i: nat)
    requires DistinctInputs(inputs) && i < |inputs| && RowsOf(rows, inputs, i)
    ensures forall r | 0 <= r < |rows| :: rows[r].key != inputs[i].key
  {
  }

  /** The input's key is in the ledger already. */
  lemma ReplayStep(book: Book, account: nat, inputs: seq<AppendInput>, i: nat, now: int, draft: Draft)
    requires account < |book.accounts| && i < |inputs|
    requires Mirrors(book, account, inputs[..i], now, draft)
    requires forall r | 0 <= r < |draft.rows| :: draft.rows[r].key != inputs[i].key
    requires Lookup(book.entries, inputs[i].key).Some?
    ensures
      var existing, expected := Lookup(book.entries, inputs[i].key).value, MovementEffect(inputs[i].entryType, inputs[i].movement);
      if expected.Ok? && SameMovement(existing, account, inputs[i].entryType, expected.value)
      then Mirrors(book, account, inputs[..i + 1], now, draft.(results := draft.results + [(existing, true)]))
      else AppendAll(book, account, inputs[..i + 1], now).Err?
  {
    assert inputs[..i + 1][..i] == inputs[..i];
    LookupConcat(book.entries, draft.rows, inputs[i].key);
  }

  function Row(draft: Draft, account: nat, input: AppendInput, effect: Effect, after: Balances, now: int): Entry {
    Entry(account, input.order, input.key, input.entryType, effect, after, draft.version + 1, now)
  }

  /** The input is a new movement. */
  lemma PlanStep(book: Book, account: nat, inputs: seq<AppendInput>, i: nat, now: int, draft: Draft)
    requires account < |book.accounts| && i < |inputs|
    requires Mirrors(book, account, inputs[..i], now, draft)
    requires forall r | 0 <= r < |draft.rows| :: draft.rows[r].key != inputs[i].key
    requires Lookup(book.entries, inputs[i].key).None?
    ensures
      var planned := PlanEntry(inputs[i].entryType, draft.balances, inputs[i].movement);
      if planned.Err? then AppendAll(book, account, inputs[..i + 1], now).Err?
      else
        var row := Row(draft, account, inputs[i], planned.value.0, planned.value.1, now);
        Mirrors(book, account, inputs[..i + 1], now,
                Draft(planned.value.1, draft.version + 1, draft.rows + [row], draft.results + [(row, false)]))
  {
    hide Flushed, Written, PlanEntry, AllInColumn;
    var before, input := inputs[..i], inputs[i];
    assert inputs[..i + 1] == before + [input];
    var done := AppendAll(book, account, before, now);
    AppendAllSnoc(book, account, before, input, now);
    var planned := PlanEntry(input.entryType, draft.balances, input.movement);
    if planned.Ok? {
      var row := Row(draft, account, input, planned.value.0, planned.value.1, now);
      ColumnStep(draft.rows, row);
      FlushedStep(book, account, draft, row, draft.results + [(row, false)]);
      WrittenRow(Flushed(book, account, draft), row);
    }
    if done.Ok? {
      AppendToFlushed(book, account, draft, input, now);
    }
  }

  lemma AppendAllSnoc(book: Book, account: nat, inputs: seq<AppendInput>, input: AppendInput, now: int)
    requires account < |book.accounts|
    ensures
      var before, after := AppendAll(book, account, inputs, now), AppendAll(book, account, inputs + [input], now);
      if before.Err? then after.Err?
      else
        var appended := Ledger.Append(before.value.book, account, input, now);
        if appended.Err? then after.Err?
        else after == Ok(BatchOutcome(appended.value.book,
                                      before.value.results + [(appended.value.entry, appended.value.replayed)]))
  {
    assert (inputs + [input])[..|inputs|] == inputs;
  }

  /** A new movement on the flushed draft is refused or written as a single append would. */
  lemma AppendToFlushed(book: Book, account: nat, draft: Draft, input: AppendInput, now: int)
    requires account < |book.accounts|
    requires forall r | 0 <= r < |draft.rows| :: draft.rows[r].key != input.key
    requires Lookup(book.entries, input.key).None?
    requires Flushed(book, account, draft).accounts[account].balances == draft.balances
    requires Flushed(book, account, draft).accounts[account].version == draft.version
    ensures
      var flushed := Flushed(book, account, draft);
      var planned := PlanEntry(input.entryType, draft.balances, input.movement);
      var appended := Ledger.Append(flushed, account, input, now);
      if planned.Err? then appended.Err?
      else
        var row := Row(draft, account, input, planned.value.0, planned.value.1, now);
        if InColumn(row.after) then appended == Ok(AppendOutcome(Written(flushed, row), row, false)) else appended.Err?
  {
    LookupConcat(book.entries, draft.rows, input.key);
  }

  lemma WrittenRow(book: Book, row: Entry)
    requires row.account < |book.accounts|
    ensures Written(book, row).accounts[row.account].balances == row.after
    ensures Written(book, row).accounts[row.account].version == row.version
  {
  }

  lemma ColumnStep(rows: seq<Entry>, row: Entry)
    ensures AllInColumn(rows + [row]) <==> AllInColumn(rows) && InColumn(row.after)
  {
    assert forall r | 0 <= r < |rows| :: (rows + [row])[r] == rows[r];
    assert (rows + [row])[|rows|] == row;
  }

  lemma FlushedStep(book: Book, account: nat, draft: Draft, row: Entry, results: seq<(Entry, bool)>)
    requires account < |book.accounts| && row.account == account
    ensures Written(Flushed(book, account, draft), row)
      == Flushed(book, account, Draft(row.after, row.version, draft.rows + [row], results))
  {
    assert book.entries + (draft.rows + [row]) == book.entries + draft.rows + [row];
  }

  lemma {:induction false} LookupConcat(entries: seq<Entry>, rows: seq<Entry>, key: EntryKey)
    requires forall r | 0 <= r < |rows| :: rows[r].key != key
    ensures Lookup(entries + rows, key) == Lookup(entries, key)
  {
    if rows == [] {
      assert entries + rows == entries;
    } else {
      LookupConcat(entries, rows[..|rows| - 1], key);
      assert (entries + rows)[..|entries + rows| - 1] == entries + rows[..|rows| - 1];
    }
  }

  class LedgerService {
    const db: Database

    constructor (db: Database)
      ensures this.db == db
    {
      this.db := db;
    }

    /** The account is locked by the caller's transaction. */
    method Append(account: nat, input: AppendInput, now: int) returns (result: Result<(Entry, bool), LedgerError>)
      requires account < |db.accounts|
      modifies db`accounts, db`entries
      ensures
        match Ledger.Append(old(db.LedgerState()), account, input, now)
        case Err(e) => result == Err(e) && db.LedgerState() == old(db.LedgerState())
        case Ok(outcome) => result == Ok((outcome.entry, outcome.replayed)) && db.LedgerState() == outcome.book
    {
      var existing := Lookup(db.entries, input.key);
      if existing.Some? {
        var expected := MovementEffect(input.entryType, input.movement);
        if expected.Err? {
          return Err(expected.error);
        }
        if !SameMovement(existing.value, account, input.entryType, expected.value) {
          return Err(Conflict);
        }
        return Ok((existing.value, true));
      }
      var row := db.accounts[account];
      var planned := PlanEntry(input.entryType, row.balances, input.movement);
      if planned.Err? {
        return Err(planned.error);
      }
      var (effect, after) := planned.value;
      if !InColumn(after) {
        return Err(OutOfRange);
      }
      var entry := Entry(account, input.order, input.key, input.entryType, effect, after, row.version + 1, now);
      db.entries := db.entries + [entry];
      db.accounts := db.accounts[account := row.(balances := after, version := row.version + 1)];
      return Ok((entry, false));
    }

    /**
     * Several movements on one account, planned in memory and written at once. With distinct
     * keys it goes through exactly when appending them one by one does, and leaves the same
     * entries, balances, version and replay flags; otherwise it changes nothing.
     */
    method AppendBatch(account: nat, inputs: seq<AppendInput>, now: int)
      returns (result: Result<seq<(Entry, bool)>, LedgerError>)
      requires account < |db.accounts|
      modifies db`accounts, db`entries
      ensures result.Ok? <==>
        DistinctInputs(inputs) && AppendAll(old(db.LedgerState()), account, inputs, now).Ok?
      ensures result.Ok? ==>
        var done := AppendAll(old(db.LedgerState()), account, inputs, now).value;
        db.LedgerState() == done.book && result.value == done.results
      ensures result.Err? ==> db.LedgerState() == old(db.LedgerState())
    {
      if inputs == [] {
        return Ok([]);
      }
      if !DistinctInputs(inputs) {
        return Err(Conflict);
      }
      hide Mirrors, AppendAll, RowsOf;
      ghost var book := db.LedgerState();
      var balances, nextVersion := db.accounts[account].balances, db.accounts[account].version;
      var rows: seq<Entry> := [];
      var results: seq<(Entry, bool)> := [];
      MirrorsStart(book, account, inputs, now);
      NoRowsYet(inputs);
      for i := 0 to |inputs|
        invariant db.LedgerState() == book
        invariant Mirrors(book, account, inputs[..i], now, Draft(balances, nextVersion, rows, results))
        invariant RowsOf(rows, inputs, i)
      {
        var input := inputs[i];
        KeyIsNew(rows, inputs, i);
        RowsStay(rows, inputs, i);
        var existing := Lookup(db.entries, input.key);
        if existing.Some? {
          ReplayStep(book, account, inputs, i, now, Draft(balances, nextVersion, rows, results));
          var expected := MovementEffect(input.entryType, input.movement);
          if expected.Err? || !SameMovement(existing.value, account, input.entryType, expected.value) {
            AppendAllStops(book, account, inputs, i + 1, now);
            return Err(Conflict);
          }
          results := results + [(existing.value, true)];
        } else {
          PlanStep(book, account, inputs, i, now, Draft(balances, nextVersion, rows, results));
          var planned := PlanEntry(input.entryType, balances, input.movement);
          if planned.Err? {
            AppendAllStops(book, account, inputs, i + 1, now);
            return Err(planned.error);
          }
          var (effect, after) := planned.value;
          nextVersion := nextVersion + 1;
          var row := Entry(account, input.order, input.key, input.entryType, effect, after, nextVersion, now);
          RowsGrow(rows, row, inputs, i);
          rows := rows + [row];
          results := results + [(row, false)];
          balances := after;
        }
      }
      assert inputs[..|inputs|] == inputs;
      MirrorsEnd(book, account, inputs, now, Draft(balances, nextVersion, rows, results));
      if !AllInColumn(rows) {
        return Err(OutOfRange);
      }
      if rows != [] {
        db.entries := db.entries + rows;
        db.accounts := db.accounts[account := db.accounts[account].(balances := balances, version := nextVersion)];
      }
      return Ok(results);
    }
  }

  lemma NoRowsYet(inputs: seq<AppendInput>)
    ensures RowsOf([], inputs, 0)
  {
  }

  lemma RowsStay(rows: seq<Entry>, inputs: seq<AppendInput>, i: nat)
    requires i < |inputs| && RowsOf(rows, inputs, i)
    ensures RowsOf(rows, inputs, i + 1)
  {
    forall r | 0 <= r < |rows|
      ensures KeyAmong(rows[r].key, inputs, i + 1)
    {
      assert KeyAmong(rows[r].key, inputs, i);
    }
  }

  /** What the draft of a whole batch says about appending its inputs. */
  lemma MirrorsEnd(book: Book, account: nat, inputs: seq<AppendInput>, now: int, draft: Draft)
    requires account < |book.accounts| && Mirrors(book, account, inputs, now, draft)
    ensures
      var done := AppendAll(book, account, inputs, now);
      && (done.Ok? <==> AllInColumn(draft.rows))
      && (done.Ok? ==> done.value == BatchOutcome(Flushed(book, account, draft), draft.results))
  {
  }

  lemma RowsGrow(rows: seq<Entry>, row: Entry, inputs: seq<AppendInput>, i: nat)
    requires i < |inputs| && RowsOf(rows, inputs, i) && row.key == inputs[i].key
    ensures RowsOf(rows + [row], inputs, i + 1)
  {
    RowsStay(rows, inputs, i);
    assert KeyAmong(row.key, inputs, i + 1);
  }
}
