/**
 * What each transaction of an order comes to: exactly when a stake is reserved, an order
 * submitted, accepted, refused, set aside, lost from sight, swept or closed, and what moves
 * in the ledger when it is.
 */
module OrderOutcomes {
  import opened Wrappers
  import opened Keys
  import opened Sums
  import opened Control
  import opened Ledger
  import opened Risk
  import opened Orders
  import opened OrderInvariant
  import opened OrderSteps
  import opened OrderCreation
  import opened DayTotals

  // ---- What changes and what does not ----

  /** Money moves on one account only: so much more available, so much more reserved. */
  predicate Moves(a: Book, b: Book, account: nat, available: int, reserved: int)
    requires account < |a.accounts|
  {
    && |b.accounts| == |a.accounts|
    && b.accounts[account].balances.available == a.accounts[account].balances.available + available
    && b.accounts[account].balances.reserved == a.accounts[account].balances.reserved + reserved
    && forall i | 0 <= i < |a.accounts| && i != account :: b.accounts[i] == a.accounts[i]
  }

  /** The other orders, the other decisions and the control are as they were. */
  predicate OnlyAbout(a: Tables, b: Tables, id: nat)
    requires InTables(a, id)
  {
    && |b.orders| == |a.orders| && |b.decisions| == |a.decisions|
    && (forall i | 0 <= i < |a.orders| && i != id :: b.orders[i] == a.orders[i])
    && (forall d | 0 <= d < |a.decisions| && d != a.orders[id].decision :: b.decisions[d] == a.decisions[d])
    && b.control == a.control
  }

  /** Rejected with its decision, the whole stake back on the account in one entry. */
  predicate GivenBack(a: Tables, b: Tables, id: nat, code: RejectionCode)
    requires InTables(a, id)
  {
    var order, stake := a.orders[id], a.orders[id].requestedStake;
    && OnlyAbout(a, b, id)
    && b.orders[id].status == Rejected && b.orders[id].rejectionCode == Some(code)
    && b.orders[id].key == order.key && b.orders[id].requestedStake == stake
    && b.decisions[order.decision].status == DecisionRejected && b.decisions[order.decision].rejectionCode == Some(code)
    && b.receipts == a.receipts
    && |b.book.entries| == |a.book.entries| + 1 && b.book.entries[..|a.book.entries|] == a.book.entries
    && var entry := b.book.entries[|a.book.entries|];
    && entry.key == ReleaseKey(order.key) && entry.entryType.Release?
    && entry.account == order.account && entry.order == Some(id) && entry.effect == Effect(stake, -stake)
    && Moves(a.book, b.book, order.account, stake, -stake)
  }

  /** A fresh movement is one entry and its effect on the balances. */
  lemma AppendMoves(book: Book, account: nat, input: AppendInput, now: int)
    requires WellFormed(book) && account < |book.accounts|
    requires Lookup(book.entries, input.key).None? && Append(book, account, input, now).Ok?
    ensures
      var after := Append(book, account, input, now).value.book;
      && |after.entries| == |book.entries| + 1 && after.entries[..|book.entries|] == book.entries
      && var entry := after.entries[|book.entries|];
      && entry.key == input.key && entry.entryType == input.entryType && entry.account == account
      && entry.order == input.order && entry.createdAt == now
      && MovementEffect(input.entryType, input.movement) == Ok(entry.effect)
      && Moves(book, after, account, entry.effect.amount, entry.effect.reservedDelta)
  {
    hide WellFormed, Lookup;
  }

  lemma ReleaseGivesBack(a: Tables, id: nat, code: RejectionCode, now: int)
    requires Inv(a) && InTables(a, id) && HoldsStake(a.orders[id].status)
    requires Append(a.book, a.orders[id].account, ReleaseInput(a.orders[id], id), now).Ok?
    ensures
      var book := Append(a.book, a.orders[id].account, ReleaseInput(a.orders[id], id), now).value.book;
      GivenBack(a, MarkRejected(a.(book := book), id, code), id, code)
  {
    hide Inv, WellFormed, Append, Lookup;
    OrderOkOf(a, id);
    BookOf(a);
    AppendMoves(a.book, a.orders[id].account, ReleaseInput(a.orders[id], id), now);
  }

  lemma CancelGivesBack(a: Tables, id: nat, from: set<OrderStatus>, code: RejectionCode, now: int)
    requires Inv(a) && InTables(a, id) && from <= {Reserved, Submitting, Unknown}
    ensures a.orders[id].status !in from ==> Cancel(a, id, from, code, now) == Ok(a)
    ensures a.orders[id].status in from && HasRoom(a, id) ==>
      && Cancel(a, id, from, code, now).Ok?
      && GivenBack(a, Cancel(a, id, from, code, now).value, id, code)
    ensures a.orders[id].status in from && !HasRoom(a, id) ==> Cancel(a, id, from, code, now) == Err(OutOfRange)
  {
    hide Inv, Append, GivenBack, MarkRejected, Lookup;
    OrderOkOf(a, id);
    if a.orders[id].status in from {
      ReleaseNeverRefused(a, id, now);
      if HasRoom(a, id) {
        ReleaseGivesBack(a, id, code, now);
      }
    }
  }

  // ---- The operator's answer to a placement ----

  /**
   * A refusal of an order SUBMITTING rejects it with its decision and gives the whole stake
   * back; it fails exactly when the account's column has no room for it.
   */
  lemma RefusalReleases(a: Tables, id: nat, code: RejectionCode, now: int)
    requires Inv(a) && InTables(a, id) && a.orders[id].status == Submitting
    ensures
      var outcome := ApplyPlacement(a, id, PlaceRejected(code), now);
      var room := a.book.accounts[a.orders[id].account].balances.available + a.orders[id].requestedStake <= MAX_COLUMN_CENTS;
      && (outcome.Ok? <==> room)
      && (outcome.Err? ==> outcome.error == OutOfRange)
      && (room ==> GivenBack(a, outcome.value.0, id, code) && outcome.value.1.None?)
  {
    hide Inv, Cancel, GivenBack;
    CancelGivesBack(a, id, {Submitting, Reserved}, code, now);
  }

  /** An acceptance that can be read: identifier, odd, stake, date and receipt are of the right form. */
  predicate Readable(result: PlaceResult) {
    && result.PlaceAccepted?
    && 0 < |result.externalId| <= 128
    && result.odd.Some? && result.odd.value > 1000
    && result.stake.Some?
    && result.dated
    && |result.receiptHash| == 64
    && forall i | 0 <= i < 64 :: result.receiptHash[i] in "0123456789abcdef"
  }

  lemma ReadableIsWellFormed(result: PlaceResult)
    requires result.PlaceAccepted?
    ensures Readable(result) <==> WellFormedAcceptance(result)
  {
    if |result.receiptHash| == 64 {
      forall i | 0 <= i < 64
        ensures result.receiptHash[i] in "0123456789abcdef"
          <==> '0' <= result.receiptHash[i] <= '9' || 'a' <= result.receiptHash[i] <= 'f'
      {
        HexDigit(result.receiptHash[i]);
      }
    }
  }

  lemma HexDigit(c: char)
    ensures c in "0123456789abcdef" <==> '0' <= c <= '9' || 'a' <= c <= 'f'
  {
    var digits := "0123456789abcdef";
    if '0' <= c <= '9' {
      assert digits[c as int - '0' as int] == c;
    }
    if 'a' <= c <= 'f' {
      assert digits[10 + c as int - 'a' as int] == c;
    }
  }

  /** Only an answer that is missing or cannot be read makes the order UNKNOWN, with no money moved. */
  lemma UnknownOnlyUnread(a: Tables, id: nat, result: PlaceResult, now: int)
    requires Inv(a) && InTables(a, id) && a.orders[id].status == Submitting
    ensures
      var outcome := ApplyPlacement(a, id, result, now);
      var unread := result.PlaceUnknown? || (result.PlaceAccepted? && !Readable(result));
      && (unread <==> outcome.Ok? && id < |outcome.value.0.orders| && outcome.value.0.orders[id].status == Unknown)
      && (unread ==>
            && OnlyAbout(a, outcome.value.0, id) && outcome.value.0.book == a.book
            && outcome.value.0.orders[id].unknownSince == Some(now) && outcome.value.1.None?)
  {
    hide Inv, ApplyAcceptance, Cancel, WellFormedAcceptance, Readable, GivenBack;
    if result.PlaceAccepted? {
      ReadableIsWellFormed(result);
      AcceptanceIsDecided(a, id, AcceptanceOf(result), now);
    } else if result.PlaceRejected? {
      RefusalReleases(a, id, result.code, now);
      GivenBackIsRejected(a, id, result.code, now);
    }
  }

  lemma GivenBackIsRejected(a: Tables, id: nat, code: RejectionCode, now: int)
    requires InTables(a, id)
    ensures
      var outcome := ApplyPlacement(a, id, PlaceRejected(code), now);
      outcome.Ok? && GivenBack(a, outcome.value.0, id, code) ==> outcome.value.0.orders[id].status == Rejected
  {
  }

  // ---- Acceptances ----

  /**
   * What the operator accepted is what was asked for, or less of it, at the minimum odd or better,
   * under a new identifier and receipt.
   */
  predicate KeepsContract(a: Tables, id: nat, accepted: OperatorOrder)
    requires id < |a.orders|
  {
    var order := a.orders[id];
    && accepted.externalId.Some? && accepted.externalId.value != ""
    && accepted.acceptedOdd.Some? && accepted.acceptedOdd.value >= order.minimumOdd
    && accepted.acceptedStake.Some? && 0 < accepted.acceptedStake.value <= order.requestedStake
    && accepted.receiptHash.Some? && |accepted.receiptHash.value| == 64
    && (forall i | 0 <= i < 64 :: accepted.receiptHash.value[i] in "0123456789abcdef")
    && (forall r | 0 <= r < |a.receipts| :: a.receipts[r].hash != accepted.receiptHash.value)
    && (forall i | 0 <= i < |a.orders| && a.orders[i].operatorKey == order.operatorKey ::
          a.orders[i].externalId != accepted.externalId)
  }

  lemma ContractIsNotRefused(a: Tables, id: nat, accepted: OperatorOrder)
    requires id < |a.orders|
    ensures KeepsContract(a, id, accepted) <==> !AcceptanceRefused(a, a.orders[id], accepted)
  {
    if accepted.receiptHash.Some? && |accepted.receiptHash.value| == 64 {
      forall i | 0 <= i < 64
        ensures accepted.receiptHash.value[i] in "0123456789abcdef"
          <==> '0' <= accepted.receiptHash.value[i] <= '9' || 'a' <= accepted.receiptHash.value[i] <= 'f'
      {
        HexDigit(accepted.receiptHash.value[i]);
      }
    }
  }

  /** Accepted with the operator's terms and a receipt, the decision at the accepted odd, the unused stake back. */
  predicate TakenOn(a: Tables, b: Tables, id: nat, accepted: OperatorOrder)
    requires InTables(a, id) && accepted.acceptedStake.Some? && accepted.receiptHash.Some?
  {
    var order, unused := a.orders[id], a.orders[id].requestedStake - accepted.acceptedStake.value;
    && OnlyAbout(a, b, id)
    && b.orders[id].status == Accepted
    && b.orders[id].externalId == accepted.externalId
    && b.orders[id].acceptedOdd == accepted.acceptedOdd
    && b.orders[id].acceptedStake == accepted.acceptedStake
    && b.receipts == a.receipts + [Receipt(id, accepted.receiptHash.value)]
    && b.decisions[order.decision] == a.decisions[order.decision].(executableOdd := accepted.acceptedOdd)
    && Moves(a.book, b.book, order.account, unused, -unused)
    && (unused == 0 ==> b.book == a.book)
    && (unused > 0 ==>
          && |b.book.entries| == |a.book.entries| + 1
          && b.book.entries[|a.book.entries|].key == PartialKey(order.key))
  }

  /** Set aside for somebody to look at: stake kept, nothing booked, execution to be stopped. */
  predicate PutAside(a: Tables, b: Tables, id: nat, now: int)
    requires InTables(a, id)
  {
    && OnlyAbout(a, b, id)
    && b.orders[id].status == ReconciliationRequired
    && b.orders[id].unknownSince == (if a.orders[id].unknownSince.Some? then a.orders[id].unknownSince else Some(now))
    && b.book == a.book && b.receipts == a.receipts && b.decisions == a.decisions
  }

  /**
   * An acceptance of an order still open is taken on exactly when it keeps the contract and
   * the account has room for the unused stake, and puts the order aside exactly when it breaks
   * the contract, with a cause to stop for: the receipt if that is missing or known already.
   */
  lemma AcceptanceIsDecided(a: Tables, id: nat, accepted: OperatorOrder, now: int)
    requires Inv(a) && InTables(a, id) && a.orders[id].status in {Reserved, Submitting, Unknown}
    ensures
      var outcome := ApplyAcceptance(a, id, accepted, now);
      if !KeepsContract(a, id, accepted) then
        && outcome.Ok? && PutAside(a, outcome.value.0, id, now)
        && outcome.value.1 == Some(
             if accepted.receiptHash.None? || accepted.receiptHash.value == ""
                || (exists r | 0 <= r < |a.receipts| :: a.receipts[r].hash == accepted.receiptHash.value)
             then ReceiptInvalid else OperatorContractViolation)
      else if a.book.accounts[a.orders[id].account].balances.available
              + a.orders[id].requestedStake - accepted.acceptedStake.value <= MAX_COLUMN_CENTS then
        outcome.Ok? && TakenOn(a, outcome.value.0, id, accepted) && outcome.value.1.None?
      else outcome == Err(OutOfRange)
  {
    hide Inv, KeepsContract, AcceptanceViolation, MovementEffect, Lookup;
    ContractIsNotRefused(a, id, accepted);
    OrderOkOf(a, id);
    if KeepsContract(a, id, accepted) {
      AcceptanceBooks(a, id, accepted, now);
    }
  }

  lemma AcceptanceBooks(a: Tables, id: nat, accepted: OperatorOrder, now: int)
    requires Inv(a) && InTables(a, id) && a.orders[id].status in {Reserved, Submitting, Unknown}
    requires KeepsContract(a, id, accepted)
    ensures
      var outcome := ApplyAcceptance(a, id, accepted, now);
      if a.book.accounts[a.orders[id].account].balances.available
         + a.orders[id].requestedStake - accepted.acceptedStake.value <= MAX_COLUMN_CENTS
      then outcome.Ok? && TakenOn(a, outcome.value.0, id, accepted) && outcome.value.1.None?
      else outcome == Err(OutOfRange)
  {
    hide Inv, WellFormed, Append, Lookup, AcceptanceViolation;
    ContractIsNotRefused(a, id, accepted);
    OrderOkOf(a, id);
    BookOf(a);
    RoomBelow(a, id);
    var order := a.orders[id];
    var unused := order.requestedStake - accepted.acceptedStake.value;
    if unused > 0 {
      UnusedIsBooked(a, id, unused, now);
      if Append(a.book, order.account, PartialInput(order, id, unused), now).Ok? {
        AppendMoves(a.book, order.account, PartialInput(order, id, unused), now);
      }
    }
  }

  lemma UnusedIsBooked(a: Tables, id: nat, unused: int, now: int)
    requires Inv(a) && InTables(a, id) && a.orders[id].status in {Reserved, Submitting, Unknown}
    requires 0 < unused < a.orders[id].requestedStake
    ensures Lookup(a.book.entries, PartialKey(a.orders[id].key)).None?
    ensures
      var booked := Append(a.book, a.orders[id].account, PartialInput(a.orders[id], id, unused), now);
      && (booked.Ok? <==> a.book.accounts[a.orders[id].account].balances.available + unused <= MAX_COLUMN_CENTS)
      && (booked.Err? ==> booked.error == OutOfRange)
  {
    ReservedCovers(a, id);
    assert OrderOk(a, id);
    RoomBelow(a, id);
  }

  lemma RoomBelow(a: Tables, id: nat)
    requires Inv(a) && InTables(a, id)
    ensures a.book.accounts[a.orders[id].account].balances.available <= MAX_COLUMN_CENTS
    ensures a.book.accounts[a.orders[id].account].balances.reserved <= MAX_COLUMN_CENTS
    ensures a.book.accounts[a.orders[id].account].balances.available >= 0
  {
    var journal := Journal(a.book.entries, a.orders[id].account);
    assert Journaled(a.book.accounts[a.orders[id].account], journal);
    if journal != [] {
      assert LinkOk(journal, |journal| - 1);
    }
  }

  /**
   * A reading of an UNKNOWN order that finds it: refused there, it is given back; otherwise it is
   * decided as an acceptance.
   */
  lemma FoundIsDecided(a: Tables, id: nat, answer: OperatorOrder, readAt: int, now: int)
    requires Inv(a) && InTables(a, id) && a.orders[id].status == Unknown
    ensures
      var outcome := ResolveUnknown(a, id, Some(answer), readAt, now);
      var balances := a.book.accounts[a.orders[id].account].balances;
      if answer.status == OpRejected then
        if balances.available + a.orders[id].requestedStake <= MAX_COLUMN_CENTS
        then outcome.Ok? && GivenBack(a, outcome.value.0, id, OperatorUnavailable) && outcome.value.1 == ResolvedRejected
        else outcome == Err(OutOfRange)
      else if !KeepsContract(a, id, answer) then
        outcome.Ok? && PutAside(a, outcome.value.0, id, now) && outcome.value.1 == NeedsReconciliation && outcome.value.2.Some?
      else if balances.available + a.orders[id].requestedStake - answer.acceptedStake.value <= MAX_COLUMN_CENTS then
        && outcome.Ok? && TakenOn(a, outcome.value.0, id, answer)
        && outcome.value.1 == (if answer.status == OpAccepted then ResolvedAccepted else ResolvedSettled)
      else outcome == Err(OutOfRange)
  {
    hide Inv, KeepsContract, ApplyAcceptance, Cancel, GivenBack, TakenOn, PutAside;
    if answer.status == OpRejected {
      CancelGivesBack(a, id, {Unknown}, OperatorUnavailable, now);
    } else {
      AcceptanceIsDecided(a, id, answer, now);
    }
  }

  // ---- Submission ----

  /**
   * The lock transaction submits the order exactly when it is still RESERVED, execution runs
   * in its mode and the quote is there, of an age the policy allows and at the minimum odd or
   * better; it records the odd asked for and the instant, and moves no money.
   */
  lemma SubmittedExactly(a: Tables, id: nat, quote: Option<OperatorQuote>, now: int, interlockOpen: bool)
    requires InTables(a, id)
    ensures
      var order, policy := a.orders[id], ActivePolicy(a.control);
      var (b, verdict) := StartSubmission(a, id, quote, now, interlockOpen);
      if && order.status == Reserved
         && LockForExecution(a.control, interlockOpen) == Ok(order.mode)
         && quote.Some? && quote.value.available && quote.value.odd >= order.minimumOdd
         && policy.Some? && 0 <= now - quote.value.capturedAt <= policy.value.maxQuoteAgeMs
      then
        && OnlyAbout(a, b, id) && b.book == a.book && b.decisions == a.decisions && b.receipts == a.receipts
        && b.orders[id] == order.(status := Submitting, requestedOdd := quote.value.odd, submittedAt := Some(now),
                                  version := b.orders[id].version)
        && verdict == Current(b.orders[id])
      else b == a && (order.status == Reserved ==> verdict.MustCancel?)
  {
  }

  /** Why an order still RESERVED is not submitted, first cause first, and whether execution must stop for it. */
  lemma NotSubmittedFor(a: Tables, id: nat, quote: Option<OperatorQuote>, now: int, interlockOpen: bool)
    requires InTables(a, id) && a.orders[id].status == Reserved
    requires StartSubmission(a, id, quote, now, interlockOpen).1.MustCancel?
    ensures
      var order, policy := a.orders[id], ActivePolicy(a.control);
      var runs := LockForExecution(a.control, interlockOpen) == Ok(order.mode);
      var quoted := quote.Some? && quote.value.available;
      var verdict := StartSubmission(a, id, quote, now, interlockOpen).1;
      && (!runs <==> verdict.code == ControlDisabled)
      && (runs && !quoted <==> verdict.code == NoExecutableOdd)
      && (runs && quoted && (policy.None? || !(0 <= now - quote.value.capturedAt <= policy.value.maxQuoteAgeMs))
          <==> verdict.code == StaleOdd)
      && verdict.code in {ControlDisabled, NoExecutableOdd, StaleOdd, OddMoved}
      && verdict.stop == (if a.control.control.None? || a.control.control.value.mode.Unrecognized? then Some(ControlUnreadable)
                          else if verdict.code == StaleOdd then Some(StaleOrSuspendedOdd) else None)
  {
  }

  /** Execution may commit money exactly in a known running mode, real money only with the interlock open. */
  lemma RunsExactly(control: ControlTables, interlockOpen: bool, mode: Mode)
    ensures LockForExecution(control, interlockOpen) == Ok(mode) <==>
      && control.control.Some? && control.control.value.mode == Stored(mode)
      && mode != Disabled && (mode == LiveCanary ==> interlockOpen)
  {
  }

  /** The sweep turns every submission older than its delay UNKNOWN since it was submitted, and nothing else. */
  lemma SweptExactly(a: Tables, readAt: int, id: nat)
    requires id < |a.orders|
    ensures
      var b, order := RecoverStale(a, readAt), a.orders[id];
      && |b.orders| == |a.orders| && b == a.(orders := b.orders)
      && if order.status == Submitting && order.submittedAt.Some? && readAt - order.submittedAt.value > 60 * 1000
         then b.orders[id] == order.(status := Unknown, unknownSince := order.submittedAt, version := order.version + 1)
         else b.orders[id] == order
  {
  }

  // ---- Settlement ----

  /** A closed order is won above its stake, lost below it and void at it, with the difference for profit. */
  lemma ClosedExactly(a: Tables, id: nat, stake: int, payout: int, settledAt: int)
    requires InTables(a, id) && a.orders[id].status == Accepted
    ensures
      var b, d := CloseOrder(a, id, stake, payout, settledAt), a.orders[id].decision;
      && OnlyAbout(a, b, id) && b.book == a.book && b.receipts == a.receipts
      && b.orders[id].payout == Some(payout) && b.orders[id].settledAt == Some(settledAt)
      && b.orders[id].status == (if payout == stake then Voided else Settled)
      && b.decisions[d].status == Completed && b.decisions[d].profit == Some(payout - stake)
      && (b.decisions[d].outcome == Some(Won) <==> payout > stake)
      && (b.decisions[d].outcome == Some(Lost) <==> payout < stake)
      && (b.decisions[d].outcome == Some(Void) <==> payout == stake)
  {
  }

  /**
   * A first settlement books the payout against the accepted stake, and asks for a stop
   * exactly when the orders settled in the day then lose as much as the policy allows.
   */
  lemma SettlementStopsExactly(a: Tables, id: nat, payout: int, now: int)
    requires Inv(a) && InTables(a, id) && a.orders[id].status == Accepted && a.orders[id].acceptedStake.Some?
    requires Lookup(a.book.entries, SettleKey(a.orders[id].key)).None? && 0 <= payout <= MAX_COLUMN_CENTS
    ensures
      var order, policy := a.orders[id], ActivePolicy(a.control);
      var outcome := SettleStake(a, id, order.acceptedStake.value, payout, now);
      if a.book.accounts[order.account].balances.available + payout <= MAX_COLUMN_CENTS then
        && outcome.Ok?
        && var b := outcome.value.0;
        && b == a.(book := b.book) && Moves(a.book, b.book, order.account, payout, -order.acceptedStake.value)
        && (outcome.value.1 <==>
              policy.Some? && -Sum(ResultsOn(b, order.account, UtcDayStart(now))) >= policy.value.maxDailyLoss)
      else outcome == Err(OutOfRange)
  {
    hide Inv, WellFormed, Append, Lookup, ResultsOn, UtcDayStart, Total;
    OrderOkOf(a, id);
    BookOf(a);
    var stake := a.orders[id].acceptedStake.value;
    SettleStakeVerdict(a, id, payout, now);
    if SettleStake(a, id, stake, payout, now).Ok? {
      var b := SettleStake(a, id, stake, payout, now).value.0;
      AppendMoves(a.book, a.orders[id].account, SettleInput(a.orders[id], id, stake, payout), now);
      SettleStakeKeepsInv(a, id, stake, payout, now);
      ResultsAreOfOrders(b, a.orders[id].account, UtcDayStart(now));
      if ActivePolicy(a.control).Some? {
        PolicyIsPositive(a);
      }
    }
  }

  lemma PolicyIsPositive(a: Tables)
    requires Inv(a) && ActivePolicy(a.control).Some?
    ensures ActivePolicy(a.control).value.maxDailyLoss > 0
  {
  }

  /** The operator closed the order and says what it pays. */
  predicate PaysOut(answer: OperatorOrder) {
    answer.status in {OpSettled, OpVoided} && answer.payout.Some? && 0 <= answer.payout.value <= MAX_COLUMN_CENTS
  }

  /** Closed with that payout and its decision completed: won above the accepted stake, lost below it, void at it. */
  predicate ClosedFor(a: Tables, b: Tables, id: nat, answer: OperatorOrder, now: int)
    requires InTables(a, id) && a.orders[id].acceptedStake.Some? && PaysOut(answer)
  {
    var order, d, stake, payout := a.orders[id], a.orders[id].decision, a.orders[id].acceptedStake.value, answer.payout.value;
    && OnlyAbout(a, b.(control := a.control), id) && b.receipts == a.receipts
    && b.orders[id].status == (if payout == stake then Voided else Settled)
    && b.orders[id].payout == Some(payout)
    && b.orders[id].settledAt == Some(if answer.settledAt.Some? then answer.settledAt.value else now)
    && b.decisions[d].status == Completed && b.decisions[d].profit == Some(payout - stake)
    && b.decisions[d].outcome == Some(if payout > stake then Won else if payout < stake then Lost else Void)
  }

  /** The payout against the accepted stake, in one new entry. */
  predicate PaidFor(a: Tables, b: Tables, id: nat, answer: OperatorOrder)
    requires InTables(a, id) && a.orders[id].acceptedStake.Some? && PaysOut(answer)
  {
    var order, n := a.orders[id], |a.book.entries|;
    && |b.book.entries| == n + 1 && b.book.entries[..n] == a.book.entries
    && b.book.entries[n].key == SettleKey(order.key) && b.book.entries[n].order == Some(id)
    && Moves(a.book, b.book, order.account, answer.payout.value, -order.acceptedStake.value)
  }

  /**
   * Both transactions of a settlement, whatever happens to the control in between: the first
   * time it goes through exactly when the account has room for the payout, and pays it; again,
   * exactly when it says the same payout, and pays nothing. Then the order is closed.
   */
  lemma SettlementCompletes(a: Tables, id: nat, answer: OperatorOrder, now: int, control: ControlTables)
    requires Inv(a) && InTables(a, id) && a.orders[id].status == Accepted && PaysOut(answer)
    ensures a.orders[id].acceptedStake.Some?
    ensures
      var order, stake, payout := a.orders[id], a.orders[id].acceptedStake.value, answer.payout.value;
      var paid, booked := Lookup(a.book.entries, SettleKey(order.key)), SettleStake(a, id, stake, payout, now);
      && (booked.Ok? <==> if paid.Some? then paid.value.effect.amount == payout
                          else a.book.accounts[order.account].balances.available + payout <= MAX_COLUMN_CENTS)
      && (booked.Ok? ==>
            && InTables(booked.value.0, id)
            && var b := CloseOrder(booked.value.0.(control := control), id, stake, payout,
                                   if answer.settledAt.Some? then answer.settledAt.value else now);
            && ClosedFor(a, b, id, answer, now) && b.control == control
            && if paid.Some? then b.book == a.book else PaidFor(a, b, id, answer))
  {
    hide Inv, WellFormed, Append, Lookup, Total, UtcDayStart;
    OrderOkOf(a, id);
    BookOf(a);
    var order, payout := a.orders[id], answer.payout.value;
    var stake := order.acceptedStake.value;
    SettleStakeVerdict(a, id, payout, now);
    if SettleStake(a, id, stake, payout, now).Ok? {
      if Lookup(a.book.entries, SettleKey(order.key)).None? {
        AppendMoves(a.book, order.account, SettleInput(order, id, stake, payout), now);
      }
    }
  }

  // ---- Reservation ----

  /** The stake fits every limit of the policy, on what the account's orders did since midnight. */
  predicate FitsPolicy(a: Tables, policy: RiskPolicy, account: nat, stake: int, quoteAge: int, now: int)
    requires account < |a.book.accounts|
  {
    var balances, day := a.book.accounts[account].balances, UtcDayStart(now);
    && 0 <= quoteAge <= policy.maxQuoteAgeMs
    && 0 < stake <= policy.maxStakePerBet
    && -Sum(ResultsOn(a, account, day)) < policy.maxDailyLoss
    && Sum(StakesOn(a, account, day)) + stake <= policy.maxDailyStake
    && balances.reserved + stake <= policy.maxOpenExposure
    && stake <= balances.available
    && balances.reserved + stake <= MAX_COLUMN_CENTS
  }

  /** The key the order of a decision would have: one per mode, operator, bet and quarter of an hour. */
  function KeyFor(mode: Mode, operatorKey: string, decision: Decision): OrderKey {
    OrderKey(mode, operatorKey, decision.fixtureId, decision.marketKey, decision.selectionKey,
             decision.strategyVersion, decision.decidedAt / (15 * 60 * 1000))
  }

  /** Execution runs with an operator behind it, and the decision is eligible, whole and without order. */
  predicate MayBeOrdered(a: Tables, ports: map<Mode, string>, decisionId: nat, interlockOpen: bool) {
    && LockForExecution(a.control, interlockOpen).Ok?
    && LockForExecution(a.control, interlockOpen).value != LiveCanary
    && LockForExecution(a.control, interlockOpen).value in ports
    && decisionId < |a.decisions|
    && (forall i | 0 <= i < |a.orders| :: a.orders[i].decision != decisionId)
    && var decision := a.decisions[decisionId];
    && decision.status == Eligible
    && decision.odd.Some? && decision.stake.Some? && decision.observedAt.Some?
  }

  /** Its order would be new and whole, and the account has the mode, the currency and the means. */
  predicate MayCreate(a: Tables, mode: Mode, operatorKey: string, decisionId: nat, account: nat, now: int, clockOk: bool)
    requires decisionId < |a.decisions|
    requires a.decisions[decisionId].odd.Some? && a.decisions[decisionId].stake.Some? && a.decisions[decisionId].observedAt.Some?
  {
    var decision := a.decisions[decisionId];
    && (forall i | 0 <= i < |a.orders| :: a.orders[i].key != KeyFor(mode, operatorKey, decision))
    && 0 < decision.stake.value <= MAX_COLUMN_CENTS
    && decision.minimumOdd > 1000 && decision.odd.value >= decision.minimumOdd
    && account < |a.book.accounts| && clockOk
    && ActivePolicy(a.control).Some?
    && var policy := ActivePolicy(a.control).value;
    && a.book.accounts[account].mode == mode && a.book.accounts[account].currency == policy.currency
    && FitsPolicy(a, policy, account, decision.stake.value, now - decision.observedAt.value, now)
  }

  /** Nothing stands in the way of an order for the decision. */
  predicate MayReserve(a: Tables, ports: map<Mode, string>, decisionId: nat, account: nat, now: int, interlockOpen: bool,
                       clockOk: bool)
  {
    && MayBeOrdered(a, ports, decisionId, interlockOpen)
    && var mode := LockForExecution(a.control, interlockOpen).value;
    MayCreate(a, mode, ports[mode], decisionId, account, now, clockOk)
  }

  /** One new order RESERVED for the decision, its stake moved from available to reserved in one entry. */
  predicate NewlyReserved(a: Tables, b: Tables, decisionId: nat, account: nat, mode: Mode, operatorKey: string)
    requires decisionId < |a.decisions| && account < |a.book.accounts|
    requires a.decisions[decisionId].stake.Some? && a.decisions[decisionId].odd.Some?
  {
    var decision, n := a.decisions[decisionId], |a.orders|;
    && |b.orders| == n + 1 && b.orders[..n] == a.orders
    && var order := b.orders[n];
    && order.status == Reserved && order.decision == decisionId && order.account == account
    && order.mode == mode && order.operatorKey == operatorKey && order.key == KeyFor(mode, operatorKey, decision)
    && order.requestedStake == decision.stake.value && order.requestedOdd == decision.odd.value
    && order.minimumOdd == decision.minimumOdd && order.externalId.None? && order.submittedAt.None?
    && b.decisions == a.decisions[decisionId := decision.(status := OrderReserved)]
    && b.receipts == a.receipts && b.control == a.control
    && |b.book.entries| == |a.book.entries| + 1 && b.book.entries[..|a.book.entries|] == a.book.entries
    && b.book.entries[|a.book.entries|].key == ReserveKey(order.key)
    && b.book.entries[|a.book.entries|].order == Some(n)
    && Moves(a.book, b.book, account, -decision.stake.value, decision.stake.value)
  }

  lemma LimitsAreTheDays(a: Tables, policy: RiskPolicy, account: nat, stake: int, observedAt: int, now: int)
    requires Inv(a) && account < |a.book.accounts| && policy.maxDailyLoss > 0
    ensures FitsPolicy(a, policy, account, stake, now - observedAt, now)
      <==> AssessRisk(policy, a.book, account, stake, observedAt, now).Accept?
           && a.book.accounts[account].balances.reserved + stake <= MAX_COLUMN_CENTS
  {
    hide Inv, Total, ResultsOn, StakesOn;
    ResultsAreOfOrders(a, account, UtcDayStart(now));
    StakesAreOfOrders(a, account, UtcDayStart(now));
  }

  lemma AccountInColumn(a: Tables, account: nat)
    requires Inv(a) && account < |a.book.accounts|
    ensures 0 <= a.book.accounts[account].balances.available <= MAX_COLUMN_CENTS
    ensures 0 <= a.book.accounts[account].balances.reserved
  {
    var journal := Journal(a.book.entries, account);
    assert Journaled(a.book.accounts[account], journal);
    if journal != [] {
      assert LinkOk(journal, |journal| - 1);
    }
  }

  lemma VerdictExactly(a: Tables, mode: Mode, order: Order, id: nat, observedAt: int, now: int, clockOk: bool)
    requires Inv(a) && order.account < |a.book.accounts| && 0 < order.requestedStake <= MAX_COLUMN_CENTS
    requires Lookup(a.book.entries, ReserveKey(order.key)).None?
    ensures
      var verdict, policy := ReserveWithin(a.control, a.book, mode, order, id, observedAt, now, clockOk), ActivePolicy(a.control);
      && (verdict.Booked? <==>
            && clockOk && policy.Some?
            && a.book.accounts[order.account].mode == mode
            && a.book.accounts[order.account].currency == policy.value.currency
            && FitsPolicy(a, policy.value, order.account, order.requestedStake, now - observedAt, now))
      && (verdict.Booked? ==>
            && |verdict.book.entries| == |a.book.entries| + 1 && verdict.book.entries[..|a.book.entries|] == a.book.entries
            && verdict.book.entries[|a.book.entries|].key == ReserveKey(order.key)
            && verdict.book.entries[|a.book.entries|].order == Some(id)
            && Moves(a.book, verdict.book, order.account, -order.requestedStake, order.requestedStake))
  {
    hide Inv, WellFormed, AssessRisk, FitsPolicy, Lookup, ActivePolicy;
    BookOf(a);
    AccountInColumn(a, order.account);
    if ActivePolicy(a.control).Some? {
      var policy := ActivePolicy(a.control).value;
      PolicyIsPositive(a);
      LimitsAreTheDays(a, policy, order.account, order.requestedStake, observedAt, now);
      AcceptedIsAffordable(a, policy, order.account, order.requestedStake, observedAt, now);
      if Append(a.book, order.account, ReserveInput(order, id), now).Ok? {
        AppendMoves(a.book, order.account, ReserveInput(order, id), now);
      }
    }
  }

  lemma AcceptedIsAffordable(a: Tables, policy: RiskPolicy, account: nat, stake: int, observedAt: int, now: int)
    requires account < |a.book.accounts|
    ensures AssessRisk(policy, a.book, account, stake, observedAt, now).Accept? ==>
      0 < stake <= a.book.accounts[account].balances.available
  {
  }

  lemma CreatedExactly(a: Tables, mode: Mode, operatorKey: string, decisionId: nat, account: nat, now: int, clockOk: bool)
    requires Inv(a) && decisionId < |a.decisions|
    requires a.decisions[decisionId].odd.Some? && a.decisions[decisionId].stake.Some? && a.decisions[decisionId].observedAt.Some?
    ensures
      var result := CreateOrder(a, mode, operatorKey, decisionId, account, now, clockOk);
      if MayCreate(a, mode, operatorKey, decisionId, account, now, clockOk) then
        && NewlyReserved(a, result.tables, decisionId, account, mode, operatorKey)
        && result.order == Some(|a.orders|) && result.thrown.None? && result.stop.None?
      else
        && result.tables.book == a.book && result.tables.receipts == a.receipts && result.tables.control == a.control
        && |a.orders| <= |result.tables.orders| <= |a.orders| + 1 && result.tables.orders[..|a.orders|] == a.orders
        && (|result.tables.orders| > |a.orders| ==> result.tables.orders[|a.orders|].status == Rejected)
  {
    hide Inv, ReserveWithin, ActivePolicy, FitsPolicy, Moves;
    var order := NewOrder(a.decisions[decisionId], decisionId, account, mode, operatorKey);
    assert order.key == KeyFor(mode, operatorKey, a.decisions[decisionId]);
    if !KeyUsed(a.orders, order.key) && OrderRowOk(order) && account < |a.book.accounts| {
      UnusedKeyUnbooked(a, order.key);
      VerdictExactly(a, mode, order, |a.orders|, a.decisions[decisionId].observedAt.value, now, clockOk);
    }
  }

  /**
   * A stake is reserved exactly when nothing stands in its way; otherwise no money moves, and
   * the only order that may appear is a rejected one.
   */
  lemma ReservedExactly(a: Tables, ports: map<Mode, string>, decisionId: nat, account: nat, now: int, interlockOpen: bool,
                        clockOk: bool)
    requires Inv(a)
    ensures
      var result := ReserveOrder(a, ports, decisionId, account, now, interlockOpen, clockOk);
      if MayReserve(a, ports, decisionId, account, now, interlockOpen, clockOk) then
        var mode := LockForExecution(a.control, interlockOpen).value;
        && NewlyReserved(a, result.tables, decisionId, account, mode, ports[mode])
        && result.order == Some(|a.orders|) && result.thrown.None? && result.stop.None?
      else
        && result.tables.book == a.book && result.tables.receipts == a.receipts && result.tables.control == a.control
        && |a.orders| <= |result.tables.orders| <= |a.orders| + 1 && result.tables.orders[..|a.orders|] == a.orders
        && (|result.tables.orders| > |a.orders| ==> result.tables.orders[|a.orders|].status == Rejected)
  {
    hide Inv, CreateOrder, LockForExecution, MayCreate, NewlyReserved;
    DecisionHasNoOrder(a.orders, decisionId);
    if MayBeOrdered(a, ports, decisionId, interlockOpen) {
      var mode := LockForExecution(a.control, interlockOpen).value;
      CreatedExactly(a, mode, ports[mode], decisionId, account, now, clockOk);
    } else if LockForExecution(a.control, interlockOpen).Ok? && decisionId < |a.decisions| {
      var mode := LockForExecution(a.control, interlockOpen).value;
      if mode in ports {
        IncompleteIsRejected(a, mode, ports[mode], decisionId, account, now, clockOk);
      }
    }
  }

  lemma IncompleteIsRejected(a: Tables, mode: Mode, operatorKey: string, decisionId: nat, account: nat, now: int,
                             clockOk: bool)
    requires decisionId < |a.decisions|
    ensures
      var decision := a.decisions[decisionId];
      decision.odd.None? || decision.stake.None? || decision.observedAt.None? ==>
        CreateOrder(a, mode, operatorKey, decisionId, account, now, clockOk)
        == ReserveResult(RejectDecision(a, decisionId, NoExecutableOdd), None, None, None)
  {
  }

  // ---- Reservations refused ----

  /** The decision is rejected for that reason; nothing else changes but, if asked, one rejected order of it. */
  predicate TurnedDown(a: Tables, b: Tables, decisionId: nat, code: RejectionCode, withOrder: bool)
    requires decisionId < |a.decisions|
  {
    && b.book == a.book && b.receipts == a.receipts && b.control == a.control
    && b.decisions == a.decisions[decisionId :=
         a.decisions[decisionId].(status := DecisionRejected, rejectionCode := Some(code))]
    && (!withOrder ==> b.orders == a.orders)
    && (withOrder ==>
          && |b.orders| == |a.orders| + 1 && b.orders[..|a.orders|] == a.orders
          && b.orders[|a.orders|].status == Rejected && b.orders[|a.orders|].rejectionCode == Some(code)
          && b.orders[|a.orders|].decision == decisionId)
  }

  /** Why a fresh order gets no stake, first cause first: declined for good, or the transaction throws. */
  lemma NotBookedFor(a: Tables, mode: Mode, order: Order, id: nat, observedAt: int, now: int, clockOk: bool)
    requires Inv(a) && order.account < |a.book.accounts| && 0 < order.requestedStake <= MAX_COLUMN_CENTS
    requires Lookup(a.book.entries, ReserveKey(order.key)).None?
    ensures
      var verdict, policy := ReserveWithin(a.control, a.book, mode, order, id, observedAt, now, clockOk), ActivePolicy(a.control);
      var account := a.book.accounts[order.account];
      if !clockOk then verdict == Threw(ControlDisabled, Some(ClockOutOfTolerance))
      else if policy.None? then verdict == Declined(RiskCheckFailed, Some(ControlUnreadable))
      else if account.mode != mode || account.currency != policy.value.currency then verdict == Declined(RiskCheckFailed, None)
      else
        var risk := AssessRisk(policy.value, a.book, order.account, order.requestedStake, observedAt, now);
        if risk.Refuse? then verdict == Declined(risk.code, risk.autoStop)
        else if account.balances.reserved + order.requestedStake > MAX_COLUMN_CENTS
        then verdict == Threw(RiskCheckFailed, Some(ControlUnreadable))
        else verdict.Booked?
  {
    hide Inv, WellFormed, Lookup, AssessRisk, ActivePolicy;
    AccountInColumn(a, order.account);
    if ActivePolicy(a.control).Some? {
      AcceptedIsAffordable(a, ActivePolicy(a.control).value, order.account, order.requestedStake, observedAt, now);
    }
  }

  /** An eligible decision that cannot be ordered is rejected for its first defect, or the transaction throws for it. */
  lemma NotCreatedFor(a: Tables, mode: Mode, operatorKey: string, decisionId: nat, account: nat, now: int, clockOk: bool)
    requires Inv(a) && decisionId < |a.decisions|
    ensures
      var result, decision := CreateOrder(a, mode, operatorKey, decisionId, account, now, clockOk), a.decisions[decisionId];
      if decision.odd.None? || decision.stake.None? || decision.observedAt.None? then
        TurnedDown(a, result.tables, decisionId, NoExecutableOdd, false) && result.thrown.None? && result.stop.None?
      else if exists i | 0 <= i < |a.orders| :: a.orders[i].key == KeyFor(mode, operatorKey, decision) then
        TurnedDown(a, result.tables, decisionId, RiskCheckFailed, false) && result.thrown.None? && result.stop.None?
      else if account >= |a.book.accounts| || !(0 < decision.stake.value <= MAX_COLUMN_CENTS)
              || decision.minimumOdd <= 1000 || decision.odd.value < decision.minimumOdd then
        result.tables == a && result.thrown == Some(RiskCheckFailed) && result.stop == Some(ControlUnreadable)
      else if !clockOk then
        result.tables == a && result.thrown == Some(ControlDisabled) && result.stop == Some(ClockOutOfTolerance)
      else if ActivePolicy(a.control).None? then
        && TurnedDown(a, result.tables, decisionId, RiskCheckFailed, true)
        && result.thrown.None? && result.stop == Some(ControlUnreadable)
      else if a.book.accounts[account].mode != mode
              || a.book.accounts[account].currency != ActivePolicy(a.control).value.currency then
        TurnedDown(a, result.tables, decisionId, RiskCheckFailed, true) && result.thrown.None? && result.stop.None?
      else
        var policy := ActivePolicy(a.control).value;
        var verdict := AssessRisk(policy, a.book, account, decision.stake.value, decision.observedAt.value, now);
        if verdict.Refuse? then
          TurnedDown(a, result.tables, decisionId, verdict.code, true) && result.thrown.None? && result.stop == verdict.autoStop
        else if a.book.accounts[account].balances.reserved + decision.stake.value > MAX_COLUMN_CENTS then
          result.tables == a && result.thrown == Some(RiskCheckFailed) && result.stop == Some(ControlUnreadable)
        else result.thrown.None? && result.stop.None?
  {
    hide Inv, Lookup, AssessRisk, ActivePolicy, ReserveWithin;
    var decision := a.decisions[decisionId];
    if decision.odd.Some? && decision.stake.Some? && decision.observedAt.Some? {
      var order := NewOrder(decision, decisionId, account, mode, operatorKey);
      assert order.key == KeyFor(mode, operatorKey, decision);
      if !KeyUsed(a.orders, order.key) && OrderRowOk(order) && account < |a.book.accounts| {
        UnusedKeyUnbooked(a, order.key);
        NotBookedFor(a, mode, order, |a.orders|, decision.observedAt.value, now, clockOk);
      }
    }
  }

  /**
   * Nothing is written for a decision that has an order, is not there or is not eligible, nor when
   * no operator can be used.
   */
  lemma NothingReserved(a: Tables, ports: map<Mode, string>, decisionId: nat, account: nat, now: int, interlockOpen: bool,
                        clockOk: bool)
    requires
      || (exists i | 0 <= i < |a.orders| :: a.orders[i].decision == decisionId)
      || LockForExecution(a.control, interlockOpen).Err?
      || LockForExecution(a.control, interlockOpen).value == LiveCanary
      || LockForExecution(a.control, interlockOpen).value !in ports
      || decisionId >= |a.decisions| || a.decisions[decisionId].status != Eligible
    ensures
      var result := ReserveOrder(a, ports, decisionId, account, now, interlockOpen, clockOk);
      var locked := LockForExecution(a.control, interlockOpen);
      && result.tables == a
      && (exists i | 0 <= i < |a.orders| :: a.orders[i].decision == decisionId) == result.order.Some?
      && (result.order.Some? ==>
            && result.order.value < |a.orders| && a.orders[result.order.value].decision == decisionId
            && result.thrown.None? && result.stop.None?)
      && (result.order.None? ==>
            && result.thrown == (if locked.Err? || locked.value == LiveCanary || locked.value !in ports then Some(ControlDisabled)
                                 else if decisionId >= |a.decisions| then Some(RiskCheckFailed) else None)
            && result.stop == (if locked.Err? && locked.error.unreadable then Some(ControlUnreadable) else None))
  {
    hide CreateOrder, LockForExecution;
    DecisionHasNoOrder(a.orders, decisionId);
    OrderOfDecisionFinds(a.orders, decisionId);
  }

  lemma {:induction false} OrderOfDecisionFinds(orders: seq<Order>, decision: nat)
    ensures
      var found := OrderOfDecision(orders, decision);
      found.Some? ==> found.value < |orders| && orders[found.value].decision == decision
  {
    if orders != [] {
      OrderOfDecisionFinds(orders[..|orders| - 1], decision);
    }
  }

  /** After a reservation that threw, the decision is rejected for it if it is still eligible. */
  lemma EligibleIsTurnedDown(a: Tables, decisionId: nat, code: RejectionCode)
    ensures
      if decisionId < |a.decisions| && a.decisions[decisionId].status == Eligible
      then TurnedDown(a, RejectEligible(a, decisionId, code), decisionId, code, false)
      else RejectEligible(a, decisionId, code) == a
  {
  }
}
