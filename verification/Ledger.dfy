/**
 * The append-only bankroll ledger: what one movement does to an account, when it is
 * refused, and what every sequence of movements keeps.
 */
module Ledger {
  import opened Wrappers
  import opened Keys

  const MAX_SAFE_INTEGER := 9007199254740991
  /** Largest amount a decimal(14,2) column holds, in cents. */
  const MAX_COLUMN_CENTS := 99999999999999
  const DAY_MS := 86400000

  datatype EntryType = Reserve | Release | Settle | Adjustment

  /** An accounting rule broken, a key used for something else, a column too small, a batch over several accounts. */
  datatype LedgerError = Rule | Conflict | OutOfRange | MixedAccounts

  datatype Movement = Movement(stake: Option<int>, payout: Option<int>, adjustment: Option<int>)

  datatype Effect = Effect(amount: int, reservedDelta: int)

  datatype Balances = Balances(available: int, reserved: int)

  datatype Account = Account(
    mode: Mode,
    operatorKey: string,
    currency: string,
    balances: Balances,
    version: nat)

  datatype Entry = Entry(
    account: nat,
    order: Option<nat>,
    key: EntryKey,
    entryType: EntryType,
    effect: Effect,
    after: Balances,
    version: nat,
    createdAt: int)

  /** The two tables. Accounts are numbered by their position. */
  datatype Book = Book(accounts: seq<Account>, entries: seq<Entry>)

  datatype AppendInput = AppendInput(
    entryType: EntryType,
    key: EntryKey,
    movement: Movement,
    order: Option<nat>)

  datatype AppendOutcome = AppendOutcome(book: Book, entry: Entry, replayed: bool)

  predicate IsPositiveInteger(value: Option<int>) {
    value.Some? && 0 < value.value <= MAX_SAFE_INTEGER
  }

  function MovementEffect(entryType: EntryType, movement: Movement): Result<Effect, LedgerError> {
    if entryType.Adjustment? then
      if movement.adjustment.None? || movement.adjustment.value == 0
         || !(-MAX_SAFE_INTEGER <= movement.adjustment.value <= MAX_SAFE_INTEGER)
      then Err(Rule)
      else Ok(Effect(movement.adjustment.value, 0))
    else if !IsPositiveInteger(movement.stake) then Err(Rule)
    else if entryType.Reserve? then Ok(Effect(-movement.stake.value, movement.stake.value))
    else if entryType.Release? then Ok(Effect(movement.stake.value, -movement.stake.value))
    else if movement.payout.None? || !(0 <= movement.payout.value <= MAX_SAFE_INTEGER) then Err(Rule)
    else Ok(Effect(movement.payout.value, -movement.stake.value))
  }

  /** The effect of a movement and the balances after it, unless a balance would not carry it. */
  function PlanEntry(entryType: EntryType, balances: Balances, movement: Movement)
    : Result<(Effect, Balances), LedgerError>
  {
    match MovementEffect(entryType, movement)
    case Err(e) => Err(e)
    case Ok(effect) =>
      if entryType.Reserve? && balances.available < -effect.amount then Err(Rule)
      else if (entryType.Release? || entryType.Settle?) && balances.reserved < -effect.reservedDelta then Err(Rule)
      else
        var after := Balances(balances.available + effect.amount, balances.reserved + effect.reservedDelta);
        if after.available < 0 || after.reserved < 0 then Err(Rule) else Ok((effect, after))
  }

  predicate InColumn(balances: Balances) {
    balances.available <= MAX_COLUMN_CENTS && balances.reserved <= MAX_COLUMN_CENTS
  }

  /** Search by the unique key. */
  function Lookup(entries: seq<Entry>, key: EntryKey): Option<Entry> {
    if entries == [] then None
    else if entries[|entries| - 1].key == key then Some(entries[|entries| - 1])
    else Lookup(entries[..|entries| - 1], key)
  }

  predicate SameMovement(entry: Entry, account: nat, entryType: EntryType, effect: Effect) {
    entry.account == account && entry.entryType == entryType && entry.effect == effect
  }

  /** One movement: written once, replayed without effect, refused if the key means something else. */
  function Append(book: Book, account: nat, input: AppendInput, now: int): Result<AppendOutcome, LedgerError>
    requires account < |book.accounts|
  {
    match Lookup(book.entries, input.key)
    case Some(existing) =>
      (match MovementEffect(input.entryType, input.movement)
       case Err(e) => Err(e)
       case Ok(effect) =>
         if SameMovement(existing, account, input.entryType, effect)
         then Ok(AppendOutcome(book, existing, true))
         else Err(Conflict))
    case None =>
      match PlanEntry(input.entryType, book.accounts[account].balances, input.movement)
      case Err(e) => Err(e)
      case Ok((effect, after)) =>
        if !InColumn(after) then Err(OutOfRange)
        else
          var entry := NewEntry(book, account, input, effect, after, now);
          Ok(AppendOutcome(Written(book, entry), entry, false))
  }

  function NewEntry(book: Book, account: nat, input: AppendInput, effect: Effect, after: Balances, now: int): Entry
    requires account < |book.accounts|
  {
    Entry(account, input.order, input.key, input.entryType, effect, after, book.accounts[account].version + 1, now)
  }

  function Written(book: Book, entry: Entry): Book
    requires entry.account < |book.accounts|
  {
    Book(
      book.accounts[entry.account :=
        book.accounts[entry.account].(balances := entry.after, version := entry.version)],
      book.entries + [entry])
  }

  // ---- Opening an account ----

  predicate AccountExists(accounts: seq<Account>, mode: Mode, operatorKey: string, currency: string) {
    exists a | 0 <= a < |accounts| ::
      accounts[a].mode == mode && accounts[a].operatorKey == operatorKey && accounts[a].currency == currency
  }

  function Opening(book: Book, mode: Mode, operatorKey: string, currency: string): Book {
    book.(accounts := book.accounts + [Account(mode, operatorKey, currency, Balances(0, 0), 1)])
  }

  function OpeningInput(account: nat, initial: int): AppendInput {
    AppendInput(Adjustment, OpenKey(account), Movement(None, None, Some(initial)), None)
  }

  function OpenAccount(book: Book, mode: Mode, operatorKey: string, currency: string, initial: int, now: int)
    : Result<Book, LedgerError>
  {
    if initial <= 0 then Err(Rule)
    else if AccountExists(book.accounts, mode, operatorKey, currency) then Err(Conflict)
    else
      match Append(Opening(book, mode, operatorKey, currency), |book.accounts|,
                   OpeningInput(|book.accounts|, initial), now)
      case Err(e) => Err(e)
      case Ok(outcome) => Ok(outcome.book)
  }

  // ---- The journal of one account ----

  function Journal(entries: seq<Entry>, account: nat): seq<Entry> {
    if entries == [] then []
    else
      var last, earlier := entries[|entries| - 1], Journal(entries[..|entries| - 1], account);
      if last.account == account then earlier + [last] else earlier
  }

  function BalancesBefore(journal: seq<Entry>, i: nat): Balances
    requires i <= |journal|
  {
    if i == 0 then Balances(0, 0) else journal[i - 1].after
  }

  predicate LinkOk(journal: seq<Entry>, i: nat)
    requires i < |journal|
  {
    var entry, before := journal[i], BalancesBefore(journal, i);
    && entry.version == i + 2
    && entry.after == Balances(before.available + entry.effect.amount, before.reserved + entry.effect.reservedDelta)
    && entry.after.available >= 0
    && entry.after.reserved >= 0
    && InColumn(entry.after)
  }

  /** Versions 2, 3, ... and each entry starting from the balances the previous one left. */
  predicate Chained(journal: seq<Entry>) {
    forall i | 0 <= i < |journal| :: LinkOk(journal, i)
  }

  predicate Journaled(account: Account, journal: seq<Entry>) {
    && Chained(journal)
    && account.version == |journal| + 1
    && account.balances == BalancesBefore(journal, |journal|)
  }

  /** What the entry's type says about its effect. */
  predicate ShapeOk(entry: Entry) {
    match entry.entryType
    case Reserve => entry.effect.reservedDelta > 0 && entry.effect.amount == -entry.effect.reservedDelta
    case Release => entry.effect.amount > 0 && entry.effect.reservedDelta == -entry.effect.amount
    case Settle => entry.effect.amount >= 0 && entry.effect.reservedDelta < 0
    case Adjustment => entry.effect.reservedDelta == 0
  }

  predicate DistinctKeys(entries: seq<Entry>) {
    forall i, j | 0 <= i < j < |entries| :: entries[i].key != entries[j].key
  }

  ghost predicate WellFormed(book: Book) {
    && (forall i | 0 <= i < |book.entries| :: book.entries[i].account < |book.accounts| && ShapeOk(book.entries[i]))
    && DistinctKeys(book.entries)
    && (forall a | 0 <= a < |book.accounts| :: Journaled(book.accounts[a], Journal(book.entries, a)))
  }

  lemma LookupAppend(entries: seq<Entry>, entry: Entry)
    ensures forall key :: Lookup(entries + [entry], key) == if entry.key == key then Some(entry) else Lookup(entries, key)
  {
    assert (entries + [entry])[..|entries|] == entries;
  }

  lemma JournalAppend(entries: seq<Entry>, entry: Entry)
    ensures forall a: nat ::
      Journal(entries + [entry], a) == if entry.account == a then Journal(entries, a) + [entry] else Journal(entries, a)
  {
    assert (entries + [entry])[..|entries|] == entries;
  }

  lemma {:induction false} LookupFinds(entries: seq<Entry>, key: EntryKey)
    ensures Lookup(entries, key).None? <==> forall i | 0 <= i < |entries| :: entries[i].key != key
    ensures Lookup(entries, key).Some? ==>
      exists i | 0 <= i < |entries| :: entries[i] == Lookup(entries, key).value && entries[i].key == key
  {
    if entries != [] {
      var init := entries[..|entries| - 1];
      LookupFinds(init, key);
      if entries[|entries| - 1].key != key && Lookup(init, key).Some? {
        var i :| 0 <= i < |init| && init[i] == Lookup(init, key).value && init[i].key == key;
        assert entries[i] == init[i];
      }
    }
  }

  lemma {:induction false} LookupIs(entries: seq<Entry>, i: nat)
    requires i < |entries| && DistinctKeys(entries)
    ensures Lookup(entries, entries[i].key) == Some(entries[i])
  {
    if i < |entries| - 1 {
      var init := entries[..|entries| - 1];
      LookupIs(init, i);
      assert entries[|entries| - 1].key != entries[i].key;
    }
  }

  // ---- What one movement keeps ----

  lemma ChainExtends(journal: seq<Entry>, entry: Entry)
    requires Chained(journal)
    requires entry.version == |journal| + 2
    requires LinkOk(journal + [entry], |journal|)
    ensures Chained(journal + [entry])
  {
    var longer := journal + [entry];
    forall i | 0 <= i < |longer|
      ensures LinkOk(longer, i)
    {
      if i < |journal| {
        assert LinkOk(journal, i);
        assert BalancesBefore(longer, i) == BalancesBefore(journal, i);
      }
    }
  }

  lemma WriteLinks(book: Book, account: nat, input: AppendInput, effect: Effect, after: Balances, now: int)
    requires WellFormed(book) && account < |book.accounts|
    requires PlanEntry(input.entryType, book.accounts[account].balances, input.movement) == Ok((effect, after))
    requires InColumn(after)
    ensures
      var entry := NewEntry(book, account, input, effect, after, now);
      var journal := Journal(book.entries, account);
      && ShapeOk(entry)
      && Journaled(book.accounts[account].(balances := entry.after, version := entry.version), journal + [entry])
  {
    var journal := Journal(book.entries, account);
    assert Journaled(book.accounts[account], journal);
    ChainExtends(journal, NewEntry(book, account, input, effect, after, now));
  }

  lemma WriteKeepsWellFormed(book: Book, account: nat, input: AppendInput, effect: Effect, after: Balances, now: int)
    requires WellFormed(book) && account < |book.accounts|
    requires Lookup(book.entries, input.key).None?
    requires PlanEntry(input.entryType, book.accounts[account].balances, input.movement) == Ok((effect, after))
    requires InColumn(after)
    ensures WellFormed(Written(book, NewEntry(book, account, input, effect, after, now)))
  {
    hide Journaled, PlanEntry, Lookup;
    var entry := NewEntry(book, account, input, effect, after, now);
    var book' := Written(book, entry);
    LookupFinds(book.entries, input.key);
    JournalAppend(book.entries, entry);
    WriteLinks(book, account, input, effect, after, now);
    forall a | 0 <= a < |book'.accounts|
      ensures Journaled(book'.accounts[a], Journal(book'.entries, a))
    {
      assert Journaled(book.accounts[a], Journal(book.entries, a));
    }
  }

  lemma AppendKeepsWellFormed(book: Book, account: nat, input: AppendInput, now: int)
    requires WellFormed(book) && account < |book.accounts|
    requires Append(book, account, input, now).Ok?
    ensures WellFormed(Append(book, account, input, now).value.book)
  {
    if Lookup(book.entries, input.key).None? {
      var (effect, after) := PlanEntry(input.entryType, book.accounts[account].balances, input.movement).value;
      WriteKeepsWellFormed(book, account, input, effect, after, now);
    }
  }

  lemma {:induction false} JournalOfAbsent(entries: seq<Entry>, account: nat)
    requires forall i | 0 <= i < |entries| :: entries[i].account != account
    ensures Journal(entries, account) == []
  {
    if entries != [] {
      JournalOfAbsent(entries[..|entries| - 1], account);
    }
  }

  lemma OpeningKeepsWellFormed(book: Book, mode: Mode, operatorKey: string, currency: string)
    requires WellFormed(book)
    ensures WellFormed(Opening(book, mode, operatorKey, currency))
  {
    var book' := Opening(book, mode, operatorKey, currency);
    forall a | 0 <= a < |book'.accounts|
      ensures Journaled(book'.accounts[a], Journal(book'.entries, a))
    {
      var journal := Journal(book.entries, a);
      if a < |book.accounts| {
        assert Journaled(book.accounts[a], journal);
      } else {
        JournalOfAbsent(book.entries, a);
      }
      assert Journaled(book'.accounts[a], journal);
    }
  }

  lemma OpenAccountKeepsWellFormed(book: Book, mode: Mode, operatorKey: string, currency: string, initial: int, now: int)
    requires WellFormed(book)
    requires OpenAccount(book, mode, operatorKey, currency, initial, now).Ok?
    ensures WellFormed(OpenAccount(book, mode, operatorKey, currency, initial, now).value)
  {
    OpeningKeepsWellFormed(book, mode, operatorKey, currency);
    AppendKeepsWellFormed(
      Opening(book, mode, operatorKey, currency), |book.accounts|, OpeningInput(|book.accounts|, initial), now);
  }

  // ---- What each movement does ----

  /** The amounts the movement carries are there and safe. */
  predicate IsWhole(entryType: EntryType, movement: Movement) {
    match entryType
    case Adjustment =>
      && movement.adjustment.Some? && movement.adjustment.value != 0
      && -MAX_SAFE_INTEGER <= movement.adjustment.value <= MAX_SAFE_INTEGER
    case Settle =>
      && movement.stake.Some? && 1 <= movement.stake.value <= MAX_SAFE_INTEGER
      && movement.payout.Some? && 0 <= movement.payout.value <= MAX_SAFE_INTEGER
    case _ => movement.stake.Some? && 1 <= movement.stake.value <= MAX_SAFE_INTEGER
  }

  /**
   * A stake moves from available to reserved and back; a settlement takes it away and pays out; an
   * adjustment is a deposit or a withdrawal.
   */
  function Moved(entryType: EntryType, movement: Movement, balances: Balances): Balances
    requires IsWhole(entryType, movement)
  {
    match entryType
    case Reserve => Balances(balances.available - movement.stake.value, balances.reserved + movement.stake.value)
    case Release => Balances(balances.available + movement.stake.value, balances.reserved - movement.stake.value)
    case Settle => Balances(balances.available + movement.payout.value, balances.reserved - movement.stake.value)
    case Adjustment => Balances(balances.available + movement.adjustment.value, balances.reserved)
  }

  /**
   * A movement under a new key goes through exactly when its amounts are whole and it overdraws
   * neither balance nor column; the account then has the balances moved, one entry more and no
   * other account is touched.
   */
  lemma MovesExactly(book: Book, account: nat, input: AppendInput, now: int)
    requires WellFormed(book) && account < |book.accounts| && Lookup(book.entries, input.key).None?
    ensures
      var outcome, before := Append(book, account, input, now), book.accounts[account];
      if !IsWhole(input.entryType, input.movement) then outcome == Err(Rule)
      else
        var moved := Moved(input.entryType, input.movement, before.balances);
        if moved.available < 0 || moved.reserved < 0 then outcome == Err(Rule)
        else if moved.available > MAX_COLUMN_CENTS || moved.reserved > MAX_COLUMN_CENTS then outcome == Err(OutOfRange)
        else
          && outcome.Ok? && !outcome.value.replayed
          && outcome.value.book.accounts == book.accounts[account := before.(balances := moved, version := before.version + 1)]
          && outcome.value.book.entries == book.entries + [outcome.value.entry]
          && outcome.value.entry.key == input.key && outcome.value.entry.createdAt == now && outcome.value.entry.after == moved
  {
    BalancesAreKept(book, account);
  }

  lemma BalancesAreKept(book: Book, account: nat)
    requires WellFormed(book) && account < |book.accounts|
    ensures book.accounts[account].balances.available >= 0 && book.accounts[account].balances.reserved >= 0
  {
    var journal := Journal(book.entries, account);
    assert Journaled(book.accounts[account], journal);
    if journal != [] {
      assert LinkOk(journal, |journal| - 1);
    }
  }

  /**
   * A key used again is a replay exactly when it names the same movement of the same account, and
   * a conflict otherwise.
   */
  lemma RepeatsExactly(book: Book, account: nat, input: AppendInput, now: int)
    requires account < |book.accounts| && Lookup(book.entries, input.key).Some?
    ensures
      var outcome, entry := Append(book, account, input, now), Lookup(book.entries, input.key).value;
      if !IsWhole(input.entryType, input.movement) then outcome == Err(Rule)
      else
        var none := Balances(0, 0);
        var moved := Moved(input.entryType, input.movement, none);
        if entry.account == account && entry.entryType == input.entryType
           && entry.effect == Effect(moved.available, moved.reserved)
        then outcome == Ok(AppendOutcome(book, entry, true))
        else outcome == Err(Conflict)
  {
  }

  /** An account is opened once per mode, operator and currency, with a positive deposit its column holds. */
  lemma OpensExactly(book: Book, mode: Mode, operatorKey: string, currency: string, initial: int, now: int)
    requires WellFormed(book) && Lookup(book.entries, OpenKey(|book.accounts|)).None?
    ensures
      var outcome, n := OpenAccount(book, mode, operatorKey, currency, initial, now), |book.accounts|;
      && (outcome.Ok? <==>
            && 0 < initial <= MAX_COLUMN_CENTS
            && forall a | 0 <= a < n ::
                 (book.accounts[a].mode, book.accounts[a].operatorKey, book.accounts[a].currency) != (mode, operatorKey, currency))
      && (outcome.Ok? ==>
            && outcome.value.accounts == book.accounts + [Account(mode, operatorKey, currency, Balances(initial, 0), 2)]
            && |outcome.value.entries| == |book.entries| + 1 && outcome.value.entries[..|book.entries|] == book.entries
            && outcome.value.entries[|book.entries|].key == OpenKey(n))
  {
    OpeningKeepsWellFormed(book, mode, operatorKey, currency);
    MovesExactly(Opening(book, mode, operatorKey, currency), |book.accounts|, OpeningInput(|book.accounts|, initial), now);
  }

  // ---- Sums over entries ----

  /** The columns the source sums, with the condition it sums them under. */
  datatype Measure =
    | Amounts
    | Deltas
    | StakedSince(day: int)
    | PnlSince(day: int)
    | Openings
    | SettledResults

  function Value(measure: Measure, entry: Entry): int {
    match measure
    case Amounts => entry.effect.amount
    case Deltas => entry.effect.reservedDelta
    case StakedSince(day) => if entry.createdAt >= day && entry.entryType.Reserve? then entry.effect.reservedDelta else 0
    case PnlSince(day) =>
      if entry.createdAt >= day && entry.entryType.Settle? then entry.effect.amount + entry.effect.reservedDelta else 0
    case Openings => if entry.entryType.Adjustment? then entry.effect.amount else 0
    case SettledResults => if entry.entryType.Settle? then entry.effect.amount + entry.effect.reservedDelta else 0
  }

  /** Sum of a measure over the entries of one account. */
  function Total(measure: Measure, entries: seq<Entry>, account: nat): int {
    if entries == [] then 0
    else
      var last := entries[|entries| - 1];
      Total(measure, entries[..|entries| - 1], account) + if last.account == account then Value(measure, last) else 0
  }

  lemma TotalAppend(measure: Measure, entries: seq<Entry>, entry: Entry)
    ensures forall a: nat ::
      Total(measure, entries + [entry], a)
      == Total(measure, entries, a) + if entry.account == a then Value(measure, entry) else 0
  {
    assert (entries + [entry])[..|entries|] == entries;
  }

  /** Every chained journal telescopes: the last balances are the sums of the columns. */
  lemma {:induction false} ChainTelescopes(entries: seq<Entry>, account: nat)
    requires Chained(Journal(entries, account))
    ensures BalancesBefore(Journal(entries, account), |Journal(entries, account)|)
      == Balances(Total(Amounts, entries, account), Total(Deltas, entries, account))
  {
    if entries != [] {
      var init, last := entries[..|entries| - 1], entries[|entries| - 1];
      var journal, shorter := Journal(entries, account), Journal(init, account);
      forall i | 0 <= i < |shorter|
        ensures LinkOk(shorter, i)
      {
        assert LinkOk(journal, i);
        assert BalancesBefore(shorter, i) == BalancesBefore(journal, i);
      }
      ChainTelescopes(init, account);
      if last.account == account {
        assert LinkOk(journal, |shorter|);
        assert BalancesBefore(journal, |shorter|) == BalancesBefore(shorter, |shorter|);
      }
    }
  }

  /** Money is conserved: balances are what was put in plus the net result of settled stakes. */
  lemma {:induction false} TotalsBalance(entries: seq<Entry>, account: nat)
    requires forall i | 0 <= i < |entries| :: ShapeOk(entries[i])
    ensures Total(Amounts, entries, account) + Total(Deltas, entries, account)
      == Total(Openings, entries, account) + Total(SettledResults, entries, account)
  {
    if entries != [] {
      TotalsBalance(entries[..|entries| - 1], account);
    }
  }

  lemma MoneyConserved(book: Book, account: nat)
    requires WellFormed(book) && account < |book.accounts|
    ensures book.accounts[account].balances.available + book.accounts[account].balances.reserved
      == Total(Openings, book.entries, account) + Total(SettledResults, book.entries, account)
  {
    ChainTelescopes(book.entries, account);
    TotalsBalance(book.entries, account);
  }

  // ---- The invariant check ----

  /** The entry with the highest version of the account. */
  function Latest(entries: seq<Entry>, account: nat): Option<Entry> {
    if entries == [] then None
    else
      var last, best := entries[|entries| - 1], Latest(entries[..|entries| - 1], account);
      if last.account == account && (best.None? || last.version > best.value.version) then Some(last) else best
  }

  function VerifyInvariant(book: Book, account: nat): bool
    requires account < |book.accounts|
  {
    var row, latest := book.accounts[account], Latest(book.entries, account);
    && row.balances == Balances(Total(Amounts, book.entries, account), Total(Deltas, book.entries, account))
    && (latest.None? || (row.balances == latest.value.after && latest.value.version == row.version))
  }

  lemma {:induction false} LatestIsLast(entries: seq<Entry>, account: nat)
    requires Chained(Journal(entries, account))
    ensures Latest(entries, account) ==
      if Journal(entries, account) == [] then None
      else Some(Journal(entries, account)[|Journal(entries, account)| - 1])
  {
    if entries != [] {
      var init, last := entries[..|entries| - 1], entries[|entries| - 1];
      var journal, shorter := Journal(entries, account), Journal(init, account);
      forall i | 0 <= i < |shorter|
        ensures LinkOk(shorter, i)
      {
        assert LinkOk(journal, i);
        assert BalancesBefore(shorter, i) == BalancesBefore(journal, i);
      }
      LatestIsLast(init, account);
      if last.account == account {
        assert LinkOk(journal, |shorter|);
        if |shorter| > 0 {
          assert LinkOk(journal, |shorter| - 1);
        }
      }
    }
  }

  /** On a well-formed book the check answers yes exactly when the account row was not tampered with. */
  lemma VerifyInvariantExact(book: Book, account: nat, row: Account)
    requires WellFormed(book) && account < |book.accounts|
    ensures VerifyInvariant(book.(accounts := book.accounts[account := row]), account)
      <==> row.balances == book.accounts[account].balances
           && (row.version == book.accounts[account].version || Journal(book.entries, account) == [])
  {
    ChainTelescopes(book.entries, account);
    LatestIsLast(book.entries, account);
    var journal := Journal(book.entries, account);
    assert Journaled(book.accounts[account], journal);
    if journal != [] {
      assert LinkOk(journal, |journal| - 1);
    }
  }

  // ---- Batches and replays ----

  datatype BatchOutcome = BatchOutcome(book: Book, results: seq<(Entry, bool)>)

  /** The inputs appended one by one in one transaction: the first refusal undoes them all. */
  function AppendAll(book: Book, account: nat, inputs: seq<AppendInput>, now: int): (r: Result<BatchOutcome, LedgerError>)
    requires account < |book.accounts|
    ensures r.Ok? ==> |r.value.book.accounts| == |book.accounts|
  {
    if inputs == [] then Ok(BatchOutcome(book, []))
    else
      match AppendAll(book, account, inputs[..|inputs| - 1], now)
      case Err(e) => Err(e)
      case Ok(done) =>
        match Append(done.book, account, inputs[|inputs| - 1], now)
        case Err(e) => Err(e)
        case Ok(outcome) => Ok(BatchOutcome(outcome.book, done.results + [(outcome.entry, outcome.replayed)]))
  }

  lemma {:induction false} AppendAllStops(book: Book, account: nat, inputs: seq<AppendInput>, n: nat, now: int)
    requires account < |book.accounts| && n <= |inputs|
    requires AppendAll(book, account, inputs[..n], now).Err?
    ensures AppendAll(book, account, inputs, now) == AppendAll(book, account, inputs[..n], now)
  {
    if n < |inputs| {
      var init := inputs[..|inputs| - 1];
      assert init[..n] == inputs[..n];
      AppendAllStops(book, account, init, n, now);
    } else {
      assert inputs[..n] == inputs;
    }
  }

  lemma {:induction false} AppendAllKeepsWellFormed(book: Book, account: nat, inputs: seq<AppendInput>, now: int)
    requires WellFormed(book) && account < |book.accounts|
    requires AppendAll(book, account, inputs, now).Ok?
    ensures WellFormed(AppendAll(book, account, inputs, now).value.book)
  {
    if inputs != [] {
      var init := inputs[..|inputs| - 1];
      AppendAllKeepsWellFormed(book, account, init, now);
      AppendKeepsWellFormed(
        AppendAll(book, account, init, now).value.book, account, inputs[|inputs| - 1], now);
    }
  }

  /** One transaction per request; a refused request changes nothing. */
  datatype Request = Request(account: nat, input: AppendInput, at: int)

  function Perform(book: Book, request: Request): (after: Book)
    ensures |after.accounts| == |book.accounts|
  {
    if request.account >= |book.accounts| then book
    else
      match Append(book, request.account, request.input, request.at)
      case Err(_) => book
      case Ok(outcome) => outcome.book
  }

  function PerformAll(book: Book, requests: seq<Request>): (after: Book)
    ensures |after.accounts| == |book.accounts|
  {
    if requests == [] then book
    else Perform(PerformAll(book, requests[..|requests| - 1]), requests[|requests| - 1])
  }

  lemma {:induction false} PerformAllSplits(book: Book, first: seq<Request>, second: seq<Request>)
    ensures PerformAll(book, first + second) == PerformAll(PerformAll(book, first), second)
  {
    if second == [] {
      assert first + second == first;
    } else {
      var init := second[..|second| - 1];
      PerformAllSplits(book, first, init);
      assert (first + second)[..|first + second| - 1] == first + init;
    }
  }

  lemma OneMoreRequest(book: Book, requests: seq<Request>, request: Request)
    ensures PerformAll(book, requests + [request]) == Perform(PerformAll(book, requests), request)
  {
    hide Perform;
    assert (requests + [request])[..|requests|] == requests;
  }

  lemma {:induction false} WrittenStaysWritten(book: Book, requests: seq<Request>, key: EntryKey)
    requires Lookup(book.entries, key).Some?
    ensures Lookup(PerformAll(book, requests).entries, key) == Lookup(book.entries, key)
  {
    if requests != [] {
      var before := PerformAll(book, requests[..|requests| - 1]);
      WrittenStaysWritten(book, requests[..|requests| - 1], key);
      var after := PerformAll(book, requests);
      if after != before {
        LookupAppend(before.entries, after.entries[|before.entries|]);
      }
    }
  }

  /** After an accepted request, its key is in the ledger with the effect it asked for. */
  lemma AcceptedIsWritten(book: Book, account: nat, input: AppendInput, now: int)
    requires account < |book.accounts|
    requires Append(book, account, input, now).Ok?
    ensures
      var outcome := Append(book, account, input, now).value;
      && Lookup(outcome.book.entries, input.key) == Some(outcome.entry)
      && MovementEffect(input.entryType, input.movement).Ok?
      && SameMovement(outcome.entry, account, input.entryType, MovementEffect(input.entryType, input.movement).value)
  {
    var outcome := Append(book, account, input, now).value;
    if Lookup(book.entries, input.key).None? {
      LookupAppend(book.entries, outcome.entry);
    }
  }

  predicate SameRequest(repeat: Request, request: Request) {
    && repeat.account == request.account
    && repeat.input.entryType == request.input.entryType
    && MovementEffect(repeat.input.entryType, repeat.input.movement)
       == MovementEffect(request.input.entryType, request.input.movement)
  }

  /**
   * Once a request has gone through, any later request under its key changes nothing, and goes
   * through only if it asks for the same movement.
   */
  lemma RepeatChangesNothing(book: Book, request: Request, between: seq<Request>, repeat: Request)
    requires request.account < |book.accounts| && repeat.account < |book.accounts|
    requires Append(book, request.account, request.input, request.at).Ok?
    requires repeat.input.key == request.input.key
    ensures
      var current := PerformAll(Perform(book, request), between);
      && Perform(current, repeat) == current
      && (Append(current, repeat.account, repeat.input, repeat.at).Ok? <==> SameRequest(repeat, request))
  {
    AcceptedIsWritten(book, request.account, request.input, request.at);
    WrittenStaysWritten(Perform(book, request), between, request.input.key);
  }

  /** In any sequence, repeats of an accepted request can be dropped. */
  lemma ReplaysCanBeDropped(book: Book, before: seq<Request>, request: Request, between: seq<Request>,
                            repeat: Request, rest: seq<Request>)
    requires request.account < |book.accounts| && repeat.account < |book.accounts|
    requires Append(PerformAll(book, before), request.account, request.input, request.at).Ok?
    requires repeat.input.key == request.input.key
    ensures PerformAll(book, (before + [request]) + between + [repeat] + rest)
         == PerformAll(book, (before + [request]) + between + rest)
  {
    hide Append, Perform, PerformAll;
    var upTo := (before + [request]) + between;
    RepeatChangesNothing(PerformAll(book, before), request, between, repeat);
    OneMoreRequest(book, before, request);
    PerformAllSplits(book, before + [request], between);
    OneMoreRequest(book, upTo, repeat);
    PerformAllSplits(book, upTo + [repeat], rest);
    PerformAllSplits(book, upTo, rest);
  }
}
