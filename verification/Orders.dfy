/**
 * The order pipeline: every database transaction of an order's life as a function of the
 * tables. A transaction that throws leaves the tables as they were.
 */
module Orders {
  import opened Wrappers
  import opened Keys
  import opened Control
  import opened Ledger
  import opened Risk

  const UNKNOWN_GRACE_MS := 5 * 60 * 1000
  const UNKNOWN_MAX_AGE_MS := 30 * 60 * 1000
  const SUBMITTING_STALE_MS := 60 * 1000

  datatype DecisionStatus = DecisionRejected | Eligible | OrderReserved | Completed

  datatype BetOutcome = Won | Lost | Void

  datatype Decision = Decision(
    status: DecisionStatus,
    rejectionCode: Option<RejectionCode>,
    fixtureId: string,
    marketKey: string,
    selectionKey: string,
    strategyVersion: string,
    decidedAt: int,
    currency: string,
    stake: Option<int>,
    odd: Option<int>,
    observedAt: Option<int>,
    minimumOdd: int,
    executableOdd: Option<int>,
    outcome: Option<BetOutcome>,
    profit: Option<int>)

  datatype OrderStatus =
    | Reserved
    | Submitting
    | Accepted
    | Rejected
    | Unknown
    | Settled
    | Voided
    | ReconciliationRequired

  /** Amounts in cents, odds in thousandths. */
  datatype Order = Order(
    decision: nat,
    account: nat,
    mode: Mode,
    operatorKey: string,
    key: OrderKey,
    status: OrderStatus,
    rejectionCode: Option<RejectionCode>,
    requestedStake: int,
    requestedOdd: int,
    minimumOdd: int,
    externalId: Option<string>,
    acceptedStake: Option<int>,
    acceptedOdd: Option<int>,
    payout: Option<int>,
    submittedAt: Option<int>,
    unknownSince: Option<int>,
    settledAt: Option<int>,
    version: nat)

  datatype Receipt = Receipt(order: nat, hash: string)

  datatype Tables = Tables(
    control: ControlTables,
    book: Book,
    decisions: seq<Decision>,
    orders: seq<Order>,
    receipts: seq<Receipt>)

  /** What the operator says about a stored order. `None` stands for null or unreadable. */
  datatype OperatorStatus = OpAccepted | OpRejected | OpSettled | OpVoided

  datatype OperatorOrder = OperatorOrder(
    externalId: Option<string>,
    status: OperatorStatus,
    acceptedOdd: Option<int>,
    acceptedStake: Option<int>,
    receiptHash: Option<string>,
    payout: Option<int>,
    settledAt: Option<int>)

  datatype OperatorQuote = OperatorQuote(odd: int, capturedAt: int, available: bool)

  datatype PlaceResult =
    | PlaceAccepted(externalId: string, odd: Option<int>, stake: Option<int>, dated: bool, receiptHash: string)
    | PlaceRejected(code: RejectionCode)
    | PlaceUnknown

  // ---- Reading the tables ----

  /** The order exists and its foreign keys resolve. */
  predicate InTables(tables: Tables, id: nat) {
    && id < |tables.orders|
    && tables.orders[id].decision < |tables.decisions|
    && tables.orders[id].account < |tables.book.accounts|
  }

  function OrderOfDecision(orders: seq<Order>, decision: nat): Option<nat> {
    if orders == [] then None
    else if orders[|orders| - 1].decision == decision then Some(|orders| - 1)
    else OrderOfDecision(orders[..|orders| - 1], decision)
  }

  predicate KeyUsed(orders: seq<Order>, key: OrderKey) {
    exists i | 0 <= i < |orders| :: orders[i].key == key
  }

  predicate ExternalTaken(orders: seq<Order>, operatorKey: string, externalId: string) {
    exists i | 0 <= i < |orders| :: orders[i].operatorKey == operatorKey && orders[i].externalId == Some(externalId)
  }

  predicate HashTaken(receipts: seq<Receipt>, hash: string) {
    exists i | 0 <= i < |receipts| :: receipts[i].hash == hash
  }

  predicate HasReceipt(receipts: seq<Receipt>, order: nat) {
    exists i | 0 <= i < |receipts| :: receipts[i].order == order
  }

  /** The operator key behind a mode. Live execution has no adapter. */
  function PortFor(ports: map<Mode, string>, mode: Mode): Option<string> {
    if mode != LiveCanary && mode in ports then Some(ports[mode]) else None
  }

  function OrderKeyOf(mode: Mode, operatorKey: string, decision: Decision): OrderKey {
    OrderKey(mode, operatorKey, decision.fixtureId, decision.marketKey, decision.selectionKey,
             decision.strategyVersion, decision.decidedAt / DECISION_BUCKET_MS)
  }

  // ---- Movements an order makes ----

  function ReserveInput(order: Order, id: nat): AppendInput {
    AppendInput(Reserve, ReserveKey(order.key), Movement(Some(order.requestedStake), None, None), Some(id))
  }

  function ReleaseInput(order: Order, id: nat): AppendInput {
    AppendInput(Release, ReleaseKey(order.key), Movement(Some(order.requestedStake), None, None), Some(id))
  }

  function PartialInput(order: Order, id: nat, unused: int): AppendInput {
    AppendInput(Release, PartialKey(order.key), Movement(Some(unused), None, None), Some(id))
  }

  function SettleInput(order: Order, id: nat, stake: int, payout: int): AppendInput {
    AppendInput(Settle, SettleKey(order.key), Movement(Some(stake), Some(payout), None), Some(id))
  }

  // ---- Decisions ----

  function RejectDecision(tables: Tables, decision: nat, code: RejectionCode): Tables
    requires decision < |tables.decisions|
  {
    tables.(decisions := tables.decisions[decision :=
      tables.decisions[decision].(status := DecisionRejected, rejectionCode := Some(code))])
  }

  /** The second transaction of a reservation that threw: only an eligible decision is rejected. */
  function RejectEligible(tables: Tables, decision: nat, code: RejectionCode): Tables {
    if decision < |tables.decisions| && tables.decisions[decision].status == Eligible
    then RejectDecision(tables, decision, code)
    else tables
  }

  // ---- Reservation ----

  /** Verdict of a reservation inside its caller's transaction. */
  datatype Reservation =
    | Booked(book: Book)
    | Declined(code: RejectionCode, stop: Option<AutoStopTrigger>)
    | Threw(code: RejectionCode, stop: Option<AutoStopTrigger>)

  function AssessRisk(policy: RiskPolicy, book: Book, account: nat, stake: int, observedAt: int, now: int): RiskVerdict
    requires account < |book.accounts|
  {
    var day := UtcDayStart(now);
    EvaluateRisk(RiskInput(policy, stake, book.accounts[account].balances,
                           Total(StakedSince(day), book.entries, account),
                           Total(PnlSince(day), book.entries, account),
                           now - observedAt))
  }

  function ReserveWithin(control: ControlTables, book: Book, mode: Mode, order: Order, id: nat, observedAt: int,
                         now: int, clockOk: bool): Reservation
    requires order.account < |book.accounts|
  {
    var account := book.accounts[order.account];
    var input := ReserveInput(order, id);
    if Lookup(book.entries, input.key).Some? then
      match Append(book, order.account, input, now)
      case Err(_) => Threw(RiskCheckFailed, None)
      case Ok(outcome) => Booked(outcome.book)
    else if !clockOk then Threw(ControlDisabled, Some(ClockOutOfTolerance))
    else if ActivePolicy(control).None? then Declined(RiskCheckFailed, Some(ControlUnreadable))
    else
      var policy := ActivePolicy(control).value;
      if account.mode != mode || account.currency != policy.currency then Declined(RiskCheckFailed, None)
      else
        match AssessRisk(policy, book, order.account, order.requestedStake, observedAt, now)
        case Refuse(code, _, stop) => Declined(code, stop)
        case Accept =>
          match Append(book, order.account, input, now)
          case Err(Rule) => Threw(RiskCheckFailed, None)
          case Err(Conflict) => Threw(RiskCheckFailed, None)
          case Err(OutOfRange) => Threw(RiskCheckFailed, Some(ControlUnreadable))
          case Ok(outcome) => Booked(outcome.book)
  }

  /** `order`: the order of the decision, if there is one now. `thrown`: the refusal of a rolled back transaction. */
  datatype ReserveResult = ReserveResult(
    tables: Tables,
    order: Option<nat>,
    thrown: Option<RejectionCode>,
    stop: Option<AutoStopTrigger>)

  function NewOrder(decision: Decision, decisionId: nat, account: nat, mode: Mode, operatorKey: string): Order
    requires decision.stake.Some? && decision.odd.Some?
  {
    Order(decisionId, account, mode, operatorKey, OrderKeyOf(mode, operatorKey, decision), Reserved, None,
          decision.stake.value, decision.odd.value, decision.minimumOdd,
          None, None, None, None, None, None, None, 1)
  }

  /** Column constraints of an order row. */
  predicate OrderRowOk(order: Order) {
    && 0 < order.requestedStake <= MAX_COLUMN_CENTS
    && order.minimumOdd > 1000
    && order.requestedOdd >= order.minimumOdd
  }

  function ReserveOrder(tables: Tables, ports: map<Mode, string>, decisionId: nat, account: nat, now: int,
                        interlockOpen: bool, clockOk: bool): ReserveResult
  {
    if OrderOfDecision(tables.orders, decisionId).Some?
    then ReserveResult(tables, OrderOfDecision(tables.orders, decisionId), None, None)
    else
      match LockForExecution(tables.control, interlockOpen)
      case Err(blocked) =>
        ReserveResult(tables, None, Some(ControlDisabled), if blocked.unreadable then Some(ControlUnreadable) else None)
      case Ok(mode) =>
        if PortFor(ports, mode).None? then ReserveResult(tables, None, Some(ControlDisabled), None)
        else if decisionId >= |tables.decisions| then ReserveResult(tables, None, Some(RiskCheckFailed), None)
        else if tables.decisions[decisionId].status != Eligible then ReserveResult(tables, None, None, None)
        else CreateOrder(tables, mode, PortFor(ports, mode).value, decisionId, account, now, clockOk)
  }

  /** The decision is eligible and has no order: insert one and reserve its stake, or reject. */
  function CreateOrder(tables: Tables, mode: Mode, operatorKey: string, decisionId: nat, account: nat, now: int,
                       clockOk: bool): ReserveResult
    requires decisionId < |tables.decisions|
  {
    var decision := tables.decisions[decisionId];
    if decision.odd.None? || decision.stake.None? || decision.observedAt.None?
    then ReserveResult(RejectDecision(tables, decisionId, NoExecutableOdd), None, None, None)
    else
      var order := NewOrder(decision, decisionId, account, mode, operatorKey);
      if KeyUsed(tables.orders, order.key)
      then ReserveResult(RejectDecision(tables, decisionId, RiskCheckFailed), None, None, None)
      else if !OrderRowOk(order) || account >= |tables.book.accounts|
      then ReserveResult(tables, None, Some(RiskCheckFailed), Some(ControlUnreadable))
      else
        var id := |tables.orders|;
        match ReserveWithin(tables.control, tables.book, mode, order, id, decision.observedAt.value, now, clockOk)
        case Threw(code, stop) => ReserveResult(tables, None, Some(code), stop)
        case Declined(code, stop) =>
          ReserveResult(
            RejectDecision(
              tables.(orders := tables.orders + [order.(status := Rejected, rejectionCode := Some(code), version := 2)]),
              decisionId, code),
            Some(id), None, stop)
        case Booked(book) =>
          ReserveResult(
            tables.(book := book,
                    orders := tables.orders + [order],
                    decisions := tables.decisions[decisionId := decision.(status := OrderReserved)]),
            Some(id), None, None)
  }

  // ---- Submission ----

  /** What the locked check before submission decides. */
  datatype LockVerdict =
    | Current(order: Order)
    | MustCancel(code: RejectionCode, stop: Option<AutoStopTrigger>)

  function StartSubmission(tables: Tables, id: nat, quote: Option<OperatorQuote>, now: int, interlockOpen: bool)
    : (Tables, LockVerdict)
    requires id < |tables.orders|
  {
    var current := tables.orders[id];
    match LockForExecution(tables.control, interlockOpen)
    case Err(blocked) =>
      (tables, MustCancel(ControlDisabled, if blocked.unreadable then Some(ControlUnreadable) else None))
    case Ok(mode) =>
      if current.status != Reserved then (tables, Current(current))
      else if mode != current.mode then (tables, MustCancel(ControlDisabled, None))
      else if quote.None? || !quote.value.available then (tables, MustCancel(NoExecutableOdd, None))
      else
        var age, policy := now - quote.value.capturedAt, ActivePolicy(tables.control);
        if policy.None? || age < 0 || age > policy.value.maxQuoteAgeMs
        then (tables, MustCancel(StaleOdd, Some(StaleOrSuspendedOdd)))
        else if quote.value.odd < current.minimumOdd then (tables, MustCancel(OddMoved, None))
        else
          var submitting := current.(status := Submitting, requestedOdd := quote.value.odd,
                                     submittedAt := Some(now), version := current.version + 1);
          (tables.(orders := tables.orders[id := submitting]), Current(submitting))
  }

  // ---- Cancellation ----

  /** Release the stake and reject, if the order is still in one of the given states. */
  function Cancel(tables: Tables, id: nat, from: set<OrderStatus>, code: RejectionCode,
                  now: int): Result<Tables, LedgerError>
    requires InTables(tables, id)
  {
    var order := tables.orders[id];
    if order.status !in from then Ok(tables)
    else if Lookup(tables.book.entries, ReserveKey(order.key)).None? then Ok(MarkRejected(tables, id, code))
    else
      match Append(tables.book, order.account, ReleaseInput(order, id), now)
      case Err(e) => Err(e)
      case Ok(outcome) => Ok(MarkRejected(tables.(book := outcome.book), id, code))
  }

  function MarkRejected(tables: Tables, id: nat, code: RejectionCode): Tables
    requires id < |tables.orders| && tables.orders[id].decision < |tables.decisions|
  {
    var order := tables.orders[id];
    RejectDecision(
      tables.(orders := tables.orders[id :=
        order.(status := Rejected, rejectionCode := Some(code), version := order.version + 1)]),
      order.decision, code)
  }

  // ---- Acceptance ----

  predicate IsHash(hash: string) {
    |hash| == 64 && forall i | 0 <= i < 64 :: '0' <= hash[i] <= '9' || 'a' <= hash[i] <= 'f'
  }

  predicate AcceptanceViolation(order: Order, accepted: OperatorOrder) {
    || accepted.receiptHash.None?
    || !IsHash(accepted.receiptHash.value)
    || accepted.externalId.None?
    || accepted.externalId.value == ""
    || accepted.acceptedOdd.None?
    || accepted.acceptedOdd.value < order.minimumOdd
    || accepted.acceptedStake.None?
    || accepted.acceptedStake.value <= 0
    || accepted.acceptedStake.value > order.requestedStake
  }

  predicate AcceptanceRefused(tables: Tables, order: Order, accepted: OperatorOrder) {
    || AcceptanceViolation(order, accepted)
    || HashTaken(tables.receipts, accepted.receiptHash.value)
    || ExternalTaken(tables.orders, order.operatorKey, accepted.externalId.value)
  }

  function AcceptedOrder(order: Order, accepted: OperatorOrder): Order {
    order.(status := Accepted, externalId := accepted.externalId, acceptedOdd := accepted.acceptedOdd,
           acceptedStake := accepted.acceptedStake, version := order.version + 1)
  }

  /** Record an acceptance, or set the order aside and stop everything if it breaks the contract. */
  function ApplyAcceptance(tables: Tables, id: nat, accepted: OperatorOrder, now: int)
    : Result<(Tables, Option<AutoStopTrigger>), LedgerError>
    requires InTables(tables, id)
  {
    var order := tables.orders[id];
    if order.status !in {Submitting, Unknown, Reserved} then Ok((tables, None))
    else if AcceptanceRefused(tables, order, accepted) then
      var since := if order.unknownSince.Some? then order.unknownSince else Some(now);
      var aside := order.(status := ReconciliationRequired, unknownSince := since, version := order.version + 1);
      var invalid := accepted.receiptHash.None? || accepted.receiptHash.value == ""
                     || HashTaken(tables.receipts, accepted.receiptHash.value);
      Ok((tables.(orders := tables.orders[id := aside]),
          Some(if invalid then ReceiptInvalid else OperatorContractViolation)))
    else
      var unused := order.requestedStake - accepted.acceptedStake.value;
      var recorded := tables.(
        orders := tables.orders[id := AcceptedOrder(order, accepted)],
        receipts := tables.receipts + [Receipt(id, accepted.receiptHash.value)],
        decisions := tables.decisions[order.decision :=
          tables.decisions[order.decision].(executableOdd := accepted.acceptedOdd)]);
      if unused <= 0 then Ok((recorded, None))
      else
        match Append(tables.book, order.account, PartialInput(order, id, unused), now)
        case Err(e) => Err(e)
        case Ok(outcome) => Ok((recorded.(book := outcome.book), None))
  }

  predicate WellFormedAcceptance(result: PlaceResult)
    requires result.PlaceAccepted?
  {
    && 0 < |result.externalId| <= 128
    && result.odd.Some? && result.odd.value > 1000
    && result.stake.Some?
    && result.dated
    && IsHash(result.receiptHash)
  }

  function AcceptanceOf(result: PlaceResult): OperatorOrder
    requires result.PlaceAccepted?
  {
    OperatorOrder(Some(result.externalId), OpAccepted, result.odd, result.stake, Some(result.receiptHash), None, None)
  }

  function MarkUnknown(tables: Tables, id: nat, now: int): Tables
    requires id < |tables.orders|
  {
    var order := tables.orders[id];
    if order.status != Submitting then tables
    else tables.(orders := tables.orders[id :=
           order.(status := Unknown, unknownSince := Some(now), version := order.version + 1)])
  }

  /** The transaction that follows the operator's answer to a placement. */
  function ApplyPlacement(tables: Tables, id: nat, result: PlaceResult, now: int)
    : Result<(Tables, Option<AutoStopTrigger>), LedgerError>
    requires InTables(tables, id)
  {
    if result.PlaceAccepted? && WellFormedAcceptance(result) then ApplyAcceptance(tables, id, AcceptanceOf(result), now)
    else if result.PlaceRejected? then
      match Cancel(tables, id, {Submitting, Reserved}, result.code, now)
      case Err(e) => Err(e)
      case Ok(after) => Ok((after, None))
    else Ok((MarkUnknown(tables, id, now), None))
  }

  // ---- Settlement, in two transactions ----

  function SettleStake(tables: Tables, id: nat, stake: int, payout: int, now: int): Result<(Tables, bool), LedgerError>
    requires InTables(tables, id)
  {
    var order := tables.orders[id];
    match Append(tables.book, order.account, SettleInput(order, id, stake, payout), now)
    case Err(e) => Err(e)
    case Ok(outcome) =>
      var policy := ActivePolicy(tables.control);
      var pnl := Total(PnlSince(UtcDayStart(now)), outcome.book.entries, order.account);
      Ok((tables.(book := outcome.book), policy.Some? && DayLoss(pnl) >= policy.value.maxDailyLoss))
  }

  function SettlementOutcome(stake: int, payout: int): (BetOutcome, int) {
    if payout == stake then (Void, 0) else (if payout > stake then Won else Lost, payout - stake)
  }

  function CloseOrder(tables: Tables, id: nat, stake: int, payout: int, settledAt: int): Tables
    requires InTables(tables, id)
  {
    var order := tables.orders[id];
    if order.status != Accepted then tables
    else
      var (outcome, profit) := SettlementOutcome(stake, payout);
      tables.(
        orders := tables.orders[id :=
          order.(status := if outcome == Void then Voided else Settled, payout := Some(payout),
                 settledAt := Some(settledAt), version := order.version + 1)],
        decisions := tables.decisions[order.decision :=
          tables.decisions[order.decision].(status := Completed, outcome := Some(outcome), profit := Some(profit))])
  }

  // ---- Ambiguous and abandoned orders ----

  datatype Resolution =
    | ResolvedAccepted
    | ResolvedSettled
    | ResolvedRejected
    | DeclaredNotPlaced
    | Pending
    | TooOld
    | NeedsReconciliation

  /** One reading of the operator for an order seen UNKNOWN; the settlement that may follow is separate. */
  function ResolveUnknown(tables: Tables, id: nat, answer: Option<OperatorOrder>, readAt: int, now: int)
    : Result<(Tables, Resolution, Option<AutoStopTrigger>), LedgerError>
    requires InTables(tables, id)
  {
    var order := tables.orders[id];
    if order.status != Unknown then Ok((tables, Pending, None))
    else if answer.Some? && answer.value.status == OpRejected then
      match Cancel(tables, id, {Unknown}, OperatorUnavailable, now)
      case Err(e) => Err(e)
      case Ok(after) => Ok((after, ResolvedRejected, None))
    else if answer.Some? then
      match ApplyAcceptance(tables, id, answer.value, now)
      case Err(e) => Err(e)
      case Ok((after, stop)) =>
        Ok((after,
            if stop.Some? then NeedsReconciliation
            else if answer.value.status == OpAccepted then ResolvedAccepted else ResolvedSettled,
            stop))
    else
      var age := if order.unknownSince.Some? then readAt - order.unknownSince.value else 0;
      if age >= UNKNOWN_MAX_AGE_MS then Ok((tables, TooOld, Some(UnknownOrderTooOld)))
      else if age >= UNKNOWN_GRACE_MS then
        match Cancel(tables, id, {Unknown}, OperatorUnavailable, now)
        case Err(e) => Err(e)
        case Ok(after) => Ok((after, DeclaredNotPlaced, None))
      else Ok((tables, Pending, None))
  }

  predicate IsStale(order: Order, readAt: int) {
    order.status == Submitting && order.submittedAt.Some? && order.submittedAt.value < readAt - SUBMITTING_STALE_MS
  }

  function Recovered(order: Order): Order {
    order.(status := Unknown, unknownSince := order.submittedAt, version := order.version + 1)
  }

  /** Submissions interrupted for too long become UNKNOWN, all in one statement. */
  function RecoverStale(tables: Tables, readAt: int): Tables {
    tables.(orders := seq(|tables.orders|, i requires 0 <= i < |tables.orders| =>
      if IsStale(tables.orders[i], readAt) then Recovered(tables.orders[i]) else tables.orders[i]))
  }

  predicate Ascending(rows: seq<nat>) {
    forall q, r | 0 <= q < r < |rows| :: rows[q] < rows[r]
  }

  predicate AreOrders(rows: seq<nat>, orders: seq<Order>) {
    forall r | 0 <= r < |rows| :: rows[r] < |orders|
  }

  /** The orders among `ids` still RESERVED, by increasing identifier. */
  function ReservedAmong(orders: seq<Order>, ids: set<nat>): (rows: seq<nat>)
    ensures Ascending(rows) && AreOrders(rows, orders)
    ensures forall r | 0 <= r < |rows| :: rows[r] in ids && orders[rows[r]].status == Reserved
    ensures forall i: nat | i in ids && i < |orders| && orders[i].status == Reserved :: i in rows
  {
    if orders == [] then []
    else
      var n, earlier := |orders| - 1, ReservedAmong(orders[..|orders| - 1], ids);
      assert forall r | 0 <= r < |earlier| :: earlier[r] < n;
      if n in ids && orders[n].status == Reserved then earlier + [n] else earlier
  }

  predicate StakeBooked(tables: Tables, id: nat)
    requires id < |tables.orders|
  {
    Lookup(tables.book.entries, ReserveKey(tables.orders[id].key)).Some?
  }

  /** Those whose stake is in the ledger. */
  function Releasable(tables: Tables, rows: seq<nat>): (kept: seq<nat>)
    requires AreOrders(rows, tables.orders) && Ascending(rows)
    ensures AreOrders(kept, tables.orders) && Ascending(kept)
    ensures forall k | 0 <= k < |kept| :: kept[k] in rows && StakeBooked(tables, kept[k])
    ensures forall r | 0 <= r < |rows| && StakeBooked(tables, rows[r]) :: rows[r] in kept
  {
    if rows == [] then []
    else
      var last, init := rows[|rows| - 1], rows[..|rows| - 1];
      var earlier := Releasable(tables, init);
      assert rows == init + [last];
      assert forall k | 0 <= k < |earlier| :: earlier[k] in init && earlier[k] < last;
      assert forall r | 0 <= r < |init| && StakeBooked(tables, init[r]) :: init[r] in earlier;
      if StakeBooked(tables, last) then earlier + [last] else earlier
  }

  function ReleaseInputs(orders: seq<Order>, rows: seq<nat>): (inputs: seq<AppendInput>)
    requires AreOrders(rows, orders)
    ensures |inputs| == |rows|
    ensures forall r | 0 <= r < |rows| :: inputs[r] == ReleaseInput(orders[rows[r]], rows[r])
  {
    if rows == [] then []
    else
      ReleaseInputs(orders, rows[..|rows| - 1]) + [ReleaseInput(orders[rows[|rows| - 1]], rows[|rows| - 1])]
  }

  predicate RowsStored(tables: Tables, rows: seq<nat>) {
    forall r | 0 <= r < |rows| :: InTables(tables, rows[r])
  }

  function MarkAllRejected(tables: Tables, rows: seq<nat>, code: RejectionCode): (after: Tables)
    requires RowsStored(tables, rows)
    ensures |after.orders| == |tables.orders| && |after.decisions| == |tables.decisions| && after.book == tables.book
    ensures forall i | 0 <= i < |tables.orders| ::
      after.orders[i].decision == tables.orders[i].decision && after.orders[i].account == tables.orders[i].account
  {
    if rows == [] then tables
    else
      var last := rows[|rows| - 1];
      assert InTables(tables, last);
      MarkRejected(MarkAllRejected(tables, rows[..|rows| - 1], code), last, code)
  }

  predicate OneAccount(orders: seq<Order>, rows: seq<nat>)
    requires AreOrders(rows, orders)
  {
    forall r | 0 <= r < |rows| :: orders[rows[r]].account == orders[rows[0]].account
  }

  /** Reservations never submitted, cancelled together: grouped reads, one batch of releases, grouped updates. */
  function CancelAbandoned(tables: Tables, ids: set<nat>, now: int): Result<(Tables, seq<nat>), LedgerError>
    requires forall id | id in ids && id < |tables.orders| :: InTables(tables, id)
  {
    var rows := ReservedAmong(tables.orders, ids);
    assert RowsStored(tables, rows);
    if rows == [] then Ok((tables, []))
    else if !OneAccount(tables.orders, rows) then Err(MixedAccounts)
    else
      var releasable := Releasable(tables, rows);
      match AppendAll(tables.book, tables.orders[rows[0]].account, ReleaseInputs(tables.orders, releasable), now)
      case Err(e) => Err(e)
      case Ok(done) =>
        Ok((MarkAllRejected(tables, releasable, OperatorUnavailable).(book := done.book), releasable))
  }
}
