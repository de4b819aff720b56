/**
 * The reconciliation checker: what it reports about an order, when it stops everything, and
 * exactly which reads made at different instants raise a false alarm.
 */
module Reconciliation {
  import opened Wrappers
  import opened Keys
  import opened Control
  import opened Ledger
  import opened Risk
  import opened Orders
  import opened OrderInvariant
  import opened OrderSteps
  import opened Pipeline
  import opened PipelineInvariant

  datatype ItemType = OrderItem | ReceiptItem | LedgerItem | SettlementItem | BalanceItem

  datatype Finding = Match | Mismatch | MissingAtOperator | MissingLocally | Unresolved | Resolved

  datatype Severity = Info | Warning | Critical

  datatype Draft = Draft(order: Option<nat>, itemType: ItemType, finding: Finding, severity: Severity, detail: string)

  const DETAIL_LENGTH := 255

  function Truncated(detail: string): string {
    if |detail| <= DETAIL_LENGTH then detail else detail[..DETAIL_LENGTH]
  }

  function Item(order: nat, itemType: ItemType, finding: Finding, severity: Severity, detail: string): Draft {
    Draft(Some(order), itemType, finding, severity, Truncated(detail))
  }

  predicate Differs(order: Order, answer: OperatorOrder) {
    || answer.externalId != order.externalId
    || answer.acceptedStake != order.acceptedStake
    || answer.acceptedOdd != order.acceptedOdd
    || answer.status == OpRejected
  }

  function OperatorItems(order: Order, id: nat, answer: Option<OperatorOrder>, tracked: bool): seq<Draft> {
    match answer
    case None =>
      [Item(id, OrderItem, MissingAtOperator, if tracked then Critical else Warning,
            if tracked then "Ordre accepté introuvable chez l’opérateur" else "Opérateur papier sans historique persistant")]
    case Some(found) =>
      if Differs(order, found) then [Item(id, OrderItem, Mismatch, Critical, "Ordre différent chez l’opérateur")]
      else [Item(id, OrderItem, Match, Info, "Ordre concordant")]
  }

  function ReceiptItems(id: nat, hasReceipt: bool): seq<Draft> {
    if hasReceipt then [] else [Item(id, ReceiptItem, MissingLocally, Critical, "Acceptation sans reçu")]
  }

  function ReserveItems(order: Order, id: nat, keys: set<EntryKey>): seq<Draft> {
    if ReserveKey(order.key) in keys then []
    else [Item(id, LedgerItem, MissingLocally, Critical, "Acceptation sans réservation au ledger")]
  }

  function SettleItems(order: Order, id: nat, keys: set<EntryKey>): seq<Draft> {
    if order.status == Accepted || SettleKey(order.key) in keys then []
    else [Item(id, LedgerItem, MissingLocally, Critical, "Ordre réglé sans écriture de règlement")]
  }

  function PayoutItems(order: Order, id: nat, answer: Option<OperatorOrder>): seq<Draft> {
    if order.status == Accepted || answer.None? || answer.value.payout == order.payout then []
    else [Item(id, SettlementItem, Mismatch, Critical, "Gain réglé différent")]
  }

  function CompareAccepted(order: Order, id: nat, answer: Option<OperatorOrder>, hasReceipt: bool,
                           keys: set<EntryKey>, tracked: bool): seq<Draft> {
    OperatorItems(order, id, answer, tracked)
    + ReceiptItems(id, hasReceipt)
    + ReserveItems(order, id, keys)
    + SettleItems(order, id, keys)
    + PayoutItems(order, id, answer)
  }

  function PresenceItems(id: nat, answer: Option<OperatorOrder>): seq<Draft> {
    if answer.Some? && answer.value.status != OpRejected
    then [Item(id, OrderItem, Mismatch, Critical, "Ordre refusé localement mais présent chez l’opérateur")] else []
  }

  function ReleaseItems(order: Order, id: nat, keys: set<EntryKey>): seq<Draft> {
    if ReserveKey(order.key) in keys && ReleaseKey(order.key) !in keys
    then [Item(id, LedgerItem, MissingLocally, Critical, "Ordre refusé dont la mise n’a pas été relâchée")] else []
  }

  function CompareRejected(order: Order, id: nat, answer: Option<OperatorOrder>, keys: set<EntryKey>): seq<Draft> {
    PresenceItems(id, answer) + ReleaseItems(order, id, keys)
  }

  /** `reason` is the order's stored reason, shown when it was set aside. */
  function CompareOrder(order: Order, id: nat, reason: Option<string>, answer: Option<OperatorOrder>, hasReceipt: bool,
                        keys: set<EntryKey>, tracked: bool): seq<Draft> {
    (if WasAccepted(order.status) then CompareAccepted(order, id, answer, hasReceipt, keys, tracked) else [])
    + (if order.status == Rejected then CompareRejected(order, id, answer, keys) else [])
    + (if order.status == ReconciliationRequired
       then [Item(id, OrderItem, Mismatch, Critical,
                  if reason.Some? then reason.value else "Intervention manuelle requise")] else [])
  }

  // ---- The cause of a stop ----

  predicate Contains(text: string, part: string) {
    |part| <= |text| && (text[..|part|] == part || (text != [] && Contains(text[1..], part)))
  }

  predicate HasCritical(items: seq<Draft>) {
    exists i | 0 <= i < |items| :: items[i].severity == Critical
  }

  predicate CriticalOf(items: seq<Draft>, itemType: ItemType) {
    exists i | 0 <= i < |items| :: items[i].severity == Critical && items[i].itemType == itemType
  }

  predicate CriticalAbout(items: seq<Draft>, text: string) {
    exists i | 0 <= i < |items| :: items[i].severity == Critical && Contains(items[i].detail, text)
  }

  function StopTriggerFor(items: seq<Draft>): (trigger: Option<AutoStopTrigger>)
    ensures trigger.Some? <==> HasCritical(items)
    ensures CriticalAbout(items, "LOOKUP_FAILED") ==> trigger == Some(OperatorErrorRate)
    ensures trigger == Some(OperatorBalanceMismatch) <==> CriticalOf(items, BalanceItem) && !CriticalAbout(items, "LOOKUP_FAILED")
    ensures trigger == Some(ReceiptMissing) <==>
      CriticalOf(items, ReceiptItem) && !CriticalAbout(items, "LOOKUP_FAILED") && !CriticalOf(items, BalanceItem)
    ensures trigger == Some(LedgerInvariantBroken) <==>
      && CriticalOf(items, LedgerItem) && !CriticalAbout(items, "LOOKUP_FAILED")
      && !CriticalOf(items, BalanceItem) && !CriticalOf(items, ReceiptItem)
    ensures trigger == Some(UnknownOrderTooOld) <==>
      && CriticalAbout(items, "UNKNOWN") && !CriticalAbout(items, "LOOKUP_FAILED")
      && !CriticalOf(items, BalanceItem) && !CriticalOf(items, ReceiptItem) && !CriticalOf(items, LedgerItem)
    ensures trigger in {None, Some(OperatorErrorRate), Some(OperatorBalanceMismatch), Some(ReceiptMissing),
                        Some(LedgerInvariantBroken), Some(UnknownOrderTooOld), Some(OperatorContractViolation)}
    ensures trigger == Some(OperatorErrorRate) ==> CriticalAbout(items, "LOOKUP_FAILED")
  {
    if !HasCritical(items) then None
    else if CriticalAbout(items, "LOOKUP_FAILED") then Some(OperatorErrorRate)
    else if CriticalOf(items, BalanceItem) then Some(OperatorBalanceMismatch)
    else if CriticalOf(items, ReceiptItem) then Some(ReceiptMissing)
    else if CriticalOf(items, LedgerItem) then Some(LedgerInvariantBroken)
    else if CriticalAbout(items, "UNKNOWN") then Some(UnknownOrderTooOld)
    else Some(OperatorContractViolation)
  }

  // ---- What is reported, exactly ----

  /** The books back what the status claims. */
  predicate Backed(order: Order, hasReceipt: bool, keys: set<EntryKey>) {
    && (WasAccepted(order.status) ==> hasReceipt && ReserveKey(order.key) in keys)
    && (order.status in {Settled, Voided} ==> SettleKey(order.key) in keys)
    && (order.status == Rejected && ReserveKey(order.key) in keys ==> ReleaseKey(order.key) in keys)
  }

  /** The operator tells the same story. */
  predicate Agrees(order: Order, answer: Option<OperatorOrder>, tracked: bool) {
    && (WasAccepted(order.status) ==>
          match answer
          case None => !tracked
          case Some(found) =>
            && found.externalId == order.externalId && found.acceptedStake == order.acceptedStake
            && found.acceptedOdd == order.acceptedOdd && found.status != OpRejected
            && (order.status != Accepted ==> found.payout == order.payout))
    && (order.status == Rejected && answer.Some? ==> answer.value.status == OpRejected)
  }

  predicate Accuses(draft: Draft) {
    draft.itemType == LedgerItem || draft.itemType == ReceiptItem
  }

  predicate HasAccusation(items: seq<Draft>) {
    exists i | 0 <= i < |items| :: Accuses(items[i])
  }

  lemma Joined(first: seq<Draft>, second: seq<Draft>)
    ensures HasAccusation(first + second) <==> HasAccusation(first) || HasAccusation(second)
    ensures HasCritical(first + second) <==> HasCritical(first) || HasCritical(second)
  {
    var both := first + second;
    assert forall i | 0 <= i < |first| :: both[i] == first[i];
    assert forall i | 0 <= i < |second| :: both[|first| + i] == second[i];
  }

  /** What each part of the comparison of an accepted order brings. */
  lemma PartsOfAccepted(order: Order, id: nat, answer: Option<OperatorOrder>, hasReceipt: bool, keys: set<EntryKey>,
                        tracked: bool)
    ensures !HasAccusation(OperatorItems(order, id, answer, tracked))
    ensures HasCritical(OperatorItems(order, id, answer, tracked))
      <==> if answer.None? then tracked else Differs(order, answer.value)
    ensures HasAccusation(ReceiptItems(id, hasReceipt)) == HasCritical(ReceiptItems(id, hasReceipt)) == !hasReceipt
    ensures HasAccusation(ReserveItems(order, id, keys)) == HasCritical(ReserveItems(order, id, keys))
      == (ReserveKey(order.key) !in keys)
    ensures HasAccusation(SettleItems(order, id, keys)) == HasCritical(SettleItems(order, id, keys))
      == (order.status != Accepted && SettleKey(order.key) !in keys)
    ensures !HasAccusation(PayoutItems(order, id, answer))
    ensures HasCritical(PayoutItems(order, id, answer))
      == (order.status != Accepted && answer.Some? && answer.value.payout != order.payout)
  {
    hide HasAccusation, HasCritical, Truncated;
    Single(OperatorItems(order, id, answer, tracked));
    Single(ReceiptItems(id, hasReceipt));
    Single(ReserveItems(order, id, keys));
    Single(SettleItems(order, id, keys));
    Single(PayoutItems(order, id, answer));
  }

  lemma AlertsOfAccepted(order: Order, id: nat, answer: Option<OperatorOrder>, hasReceipt: bool, keys: set<EntryKey>,
                         tracked: bool)
    requires WasAccepted(order.status)
    ensures var items := CompareAccepted(order, id, answer, hasReceipt, keys, tracked);
      && (HasAccusation(items) <==> !Backed(order, hasReceipt, keys))
      && (HasCritical(items) <==> !Backed(order, hasReceipt, keys) || !Agrees(order, answer, tracked))
  {
    hide HasAccusation, HasCritical, OperatorItems, ReceiptItems, ReserveItems, SettleItems, PayoutItems;
    PartsOfAccepted(order, id, answer, hasReceipt, keys, tracked);
    var first := OperatorItems(order, id, answer, tracked) + ReceiptItems(id, hasReceipt);
    Joined(OperatorItems(order, id, answer, tracked), ReceiptItems(id, hasReceipt));
    Joined(first, ReserveItems(order, id, keys));
    Joined(first + ReserveItems(order, id, keys), SettleItems(order, id, keys));
    Joined(first + ReserveItems(order, id, keys) + SettleItems(order, id, keys), PayoutItems(order, id, answer));
  }

  lemma JoinedOne(first: seq<Draft>, second: seq<Draft>)
    requires |second| <= 1
    ensures HasAccusation(first + second) <==> HasAccusation(first) || (second != [] && Accuses(second[0]))
    ensures HasCritical(first + second) <==> HasCritical(first) || (second != [] && second[0].severity == Critical)
  {
    Joined(first, second);
    Single(second);
  }

  lemma Single(items: seq<Draft>)
    requires |items| <= 1
    ensures HasAccusation(items) <==> items != [] && Accuses(items[0])
    ensures HasCritical(items) <==> items != [] && items[0].severity == Critical
  {
  }

  lemma AlertsOfRejected(order: Order, id: nat, answer: Option<OperatorOrder>, hasReceipt: bool, keys: set<EntryKey>,
                         tracked: bool)
    requires order.status == Rejected
    ensures var items := CompareRejected(order, id, answer, keys);
      && (HasAccusation(items) <==> !Backed(order, hasReceipt, keys))
      && (HasCritical(items) <==> !Backed(order, hasReceipt, keys) || !Agrees(order, answer, tracked))
  {
    var first, second := PresenceItems(id, answer), ReleaseItems(order, id, keys);
    Joined(first, second);
    Single(first);
    Single(second);
  }

  /**
   * An item about the ledger or a receipt is emitted exactly when the books do not back the
   * status. The comparison stops execution exactly when they do not, or the operator tells
   * another story, or the order was set aside.
   */
  lemma AlertsExactly(order: Order, id: nat, reason: Option<string>, answer: Option<OperatorOrder>,
                      hasReceipt: bool, keys: set<EntryKey>, tracked: bool)
    ensures var items := CompareOrder(order, id, reason, answer, hasReceipt, keys, tracked);
      && (HasAccusation(items) <==> !Backed(order, hasReceipt, keys))
      && (StopTriggerFor(items).Some? <==>
            || !Backed(order, hasReceipt, keys)
            || !Agrees(order, answer, tracked)
            || order.status == ReconciliationRequired)
  {
    hide CompareAccepted, CompareRejected;
    var items := CompareOrder(order, id, reason, answer, hasReceipt, keys, tracked);
    if WasAccepted(order.status) {
      AlertsOfAccepted(order, id, answer, hasReceipt, keys, tracked);
      assert items == CompareAccepted(order, id, answer, hasReceipt, keys, tracked);
    } else if order.status == Rejected {
      AlertsOfRejected(order, id, answer, hasReceipt, keys, tracked);
      assert items == CompareRejected(order, id, answer, keys);
    } else {
      Single(items);
    }
  }

  // ---- The items themselves ----

  predicate Says(draft: Draft, itemType: ItemType, finding: Finding, severity: Severity) {
    draft.itemType == itemType && draft.finding == finding && draft.severity == severity
  }

  predicate Reports(items: seq<Draft>, itemType: ItemType, finding: Finding, severity: Severity) {
    exists i | 0 <= i < |items| :: Says(items[i], itemType, finding, severity)
  }

  lemma ReportsJoined(first: seq<Draft>, second: seq<Draft>, itemType: ItemType, finding: Finding, severity: Severity)
    ensures Reports(first + second, itemType, finding, severity)
      <==> Reports(first, itemType, finding, severity) || Reports(second, itemType, finding, severity)
  {
    hide Says;
    var both := first + second;
    if i :| 0 <= i < |first| && Says(first[i], itemType, finding, severity) {
      assert Says(both[i], itemType, finding, severity);
    }
    if i :| 0 <= i < |second| && Says(second[i], itemType, finding, severity) {
      assert Says(both[|first| + i], itemType, finding, severity);
    }
    if i :| 0 <= i < |both| && Says(both[i], itemType, finding, severity) {
      assert Says(if i < |first| then first[i] else second[i - |first|], itemType, finding, severity);
    }
  }

  lemma ReportsOne(items: seq<Draft>, itemType: ItemType, finding: Finding, severity: Severity)
    requires |items| <= 1
    ensures Reports(items, itemType, finding, severity)
      <==> items != [] && Says(items[0], itemType, finding, severity)
  {
  }

  /** The operator knows the order as it was accepted. */
  predicate SameTerms(order: Order, answer: OperatorOrder) {
    && answer.status != OpRejected && answer.externalId == order.externalId
    && answer.acceptedStake == order.acceptedStake && answer.acceptedOdd == order.acceptedOdd
  }

  /** Which item the comparison holds for which reason, and no other. */
  predicate Warrants(itemType: ItemType, finding: Finding, severity: Severity, order: Order, answer: Option<OperatorOrder>,
                     hasReceipt: bool, keys: set<EntryKey>, tracked: bool)
  {
    var taken, closed := order.status in {Accepted, Settled, Voided}, order.status in {Settled, Voided};
    match (itemType, finding, severity)
    case (OrderItem, MissingAtOperator, Critical) => taken && answer.None? && tracked
    case (OrderItem, MissingAtOperator, Warning) => taken && answer.None? && !tracked
    case (OrderItem, Match, Info) => taken && answer.Some? && SameTerms(order, answer.value)
    case (OrderItem, Mismatch, Critical) =>
      || (taken && answer.Some? && !SameTerms(order, answer.value))
      || (order.status == Rejected && answer.Some? && answer.value.status != OpRejected)
      || order.status == ReconciliationRequired
    case (ReceiptItem, MissingLocally, Critical) => taken && !hasReceipt
    case (LedgerItem, MissingLocally, Critical) =>
      || (taken && ReserveKey(order.key) !in keys)
      || (closed && SettleKey(order.key) !in keys)
      || (order.status == Rejected && ReserveKey(order.key) in keys && ReleaseKey(order.key) !in keys)
    case (SettlementItem, Mismatch, Critical) => closed && answer.Some? && answer.value.payout != order.payout
    case _ => false
  }

  lemma ReportsOfParts(order: Order, id: nat, answer: Option<OperatorOrder>, hasReceipt: bool, keys: set<EntryKey>,
                       tracked: bool,
                       itemType: ItemType, finding: Finding, severity: Severity)
    ensures Reports(CompareAccepted(order, id, answer, hasReceipt, keys, tracked), itemType, finding, severity) <==>
      || Reports(OperatorItems(order, id, answer, tracked), itemType, finding, severity)
      || Reports(ReceiptItems(id, hasReceipt), itemType, finding, severity)
      || Reports(ReserveItems(order, id, keys), itemType, finding, severity)
      || Reports(SettleItems(order, id, keys), itemType, finding, severity)
      || Reports(PayoutItems(order, id, answer), itemType, finding, severity)
  {
    hide Reports, OperatorItems, ReceiptItems, ReserveItems, SettleItems, PayoutItems;
    var a, b := OperatorItems(order, id, answer, tracked), ReceiptItems(id, hasReceipt);
    var c, d, e := ReserveItems(order, id, keys), SettleItems(order, id, keys), PayoutItems(order, id, answer);
    ReportsJoined(a, b, itemType, finding, severity);
    ReportsJoined(a + b, c, itemType, finding, severity);
    ReportsJoined(a + b + c, d, itemType, finding, severity);
    ReportsJoined(a + b + c + d, e, itemType, finding, severity);
  }

  lemma OperatorReports(order: Order, id: nat, answer: Option<OperatorOrder>, tracked: bool, itemType: ItemType,
                        finding: Finding,
                        severity: Severity)
    ensures Reports(OperatorItems(order, id, answer, tracked), itemType, finding, severity) <==>
      && itemType == OrderItem
      && if answer.None? then finding == MissingAtOperator && severity == (if tracked then Critical else Warning)
         else if SameTerms(order, answer.value) then finding == Match && severity == Info
         else finding == Mismatch && severity == Critical
  {
    ReportsOne(OperatorItems(order, id, answer, tracked), itemType, finding, severity);
  }

  lemma ReceiptReports(id: nat, hasReceipt: bool, itemType: ItemType, finding: Finding, severity: Severity)
    ensures Reports(ReceiptItems(id, hasReceipt), itemType, finding, severity)
      <==> !hasReceipt && itemType == ReceiptItem && finding == MissingLocally && severity == Critical
  {
    ReportsOne(ReceiptItems(id, hasReceipt), itemType, finding, severity);
  }

  lemma ReserveReports(order: Order, id: nat, keys: set<EntryKey>, itemType: ItemType, finding: Finding, severity: Severity)
    ensures Reports(ReserveItems(order, id, keys), itemType, finding, severity)
      <==> ReserveKey(order.key) !in keys && itemType == LedgerItem && finding == MissingLocally && severity == Critical
  {
    ReportsOne(ReserveItems(order, id, keys), itemType, finding, severity);
  }

  lemma SettleReports(order: Order, id: nat, keys: set<EntryKey>, itemType: ItemType, finding: Finding, severity: Severity)
    ensures Reports(SettleItems(order, id, keys), itemType, finding, severity) <==>
      && order.status != Accepted && SettleKey(order.key) !in keys
      && itemType == LedgerItem && finding == MissingLocally && severity == Critical
  {
    ReportsOne(SettleItems(order, id, keys), itemType, finding, severity);
  }

  lemma PayoutReports(order: Order, id: nat, answer: Option<OperatorOrder>, itemType: ItemType, finding: Finding,
                      severity: Severity)
    ensures Reports(PayoutItems(order, id, answer), itemType, finding, severity) <==>
      && order.status != Accepted && answer.Some? && answer.value.payout != order.payout
      && itemType == SettlementItem && finding == Mismatch && severity == Critical
  {
    ReportsOne(PayoutItems(order, id, answer), itemType, finding, severity);
  }

  lemma ReportsOfAccepted(order: Order, id: nat, answer: Option<OperatorOrder>, hasReceipt: bool, keys: set<EntryKey>,
                          tracked: bool,
                          itemType: ItemType, finding: Finding, severity: Severity)
    requires WasAccepted(order.status)
    ensures Reports(CompareAccepted(order, id, answer, hasReceipt, keys, tracked), itemType, finding, severity)
      <==> Warrants(itemType, finding, severity, order, answer, hasReceipt, keys, tracked)
  {
    hide Reports, CompareAccepted, OperatorItems, ReceiptItems, ReserveItems, SettleItems, PayoutItems;
    ReportsOfParts(order, id, answer, hasReceipt, keys, tracked, itemType, finding, severity);
    OperatorReports(order, id, answer, tracked, itemType, finding, severity);
    ReceiptReports(id, hasReceipt, itemType, finding, severity);
    ReserveReports(order, id, keys, itemType, finding, severity);
    SettleReports(order, id, keys, itemType, finding, severity);
    PayoutReports(order, id, answer, itemType, finding, severity);
  }

  lemma ReportsOfRejected(order: Order, id: nat, answer: Option<OperatorOrder>, hasReceipt: bool, keys: set<EntryKey>,
                          tracked: bool,
                          itemType: ItemType, finding: Finding, severity: Severity)
    requires order.status == Rejected
    ensures Reports(CompareRejected(order, id, answer, keys), itemType, finding, severity)
      <==> Warrants(itemType, finding, severity, order, answer, hasReceipt, keys, tracked)
  {
    hide Reports, Truncated;
    var first, second := PresenceItems(id, answer), ReleaseItems(order, id, keys);
    ReportsOne(first, itemType, finding, severity);
    ReportsOne(second, itemType, finding, severity);
    ReportsJoined(first, second, itemType, finding, severity);
  }

  /** The comparison of an order holds exactly the items its status, its books and the operator's answer warrant. */
  lemma ReportsExactly(order: Order, id: nat, reason: Option<string>, answer: Option<OperatorOrder>, hasReceipt: bool,
                       keys: set<EntryKey>, tracked: bool, itemType: ItemType, finding: Finding, severity: Severity)
    ensures Reports(CompareOrder(order, id, reason, answer, hasReceipt, keys, tracked), itemType, finding, severity)
      <==> Warrants(itemType, finding, severity, order, answer, hasReceipt, keys, tracked)
  {
    hide Reports, CompareAccepted, CompareRejected, Warrants, Truncated;
    var items := CompareOrder(order, id, reason, answer, hasReceipt, keys, tracked);
    if WasAccepted(order.status) {
      ReportsOfAccepted(order, id, answer, hasReceipt, keys, tracked, itemType, finding, severity);
      assert items == CompareAccepted(order, id, answer, hasReceipt, keys, tracked);
    } else if order.status == Rejected {
      ReportsOfRejected(order, id, answer, hasReceipt, keys, tracked, itemType, finding, severity);
      assert items == CompareRejected(order, id, answer, keys);
    } else {
      ReportsOne(items, itemType, finding, severity);
      OthersWarrant(order, answer, hasReceipt, keys, tracked, itemType, finding, severity);
    }
  }

  lemma OthersWarrant(order: Order, answer: Option<OperatorOrder>, hasReceipt: bool, keys: set<EntryKey>, tracked: bool,
                      itemType: ItemType, finding: Finding, severity: Severity)
    requires order.status in {Reserved, Submitting, Unknown, ReconciliationRequired}
    ensures Warrants(itemType, finding, severity, order, answer, hasReceipt, keys, tracked)
      <==> order.status == ReconciliationRequired && itemType == OrderItem && finding == Mismatch && severity == Critical
  {
  }

  // ---- Reads at different instants ----

  /** Keys of the account's entries about the given orders. */
  function KeysOf(entries: seq<Entry>, account: nat, ids: set<nat>): set<EntryKey> {
    set e | 0 <= e < |entries| && entries[e].account == account && entries[e].order.Some? && entries[e].order.value in ids
      :: entries[e].key
  }

  lemma BookedIsRead(tables: Tables, key: EntryKey, account: nat, id: nat, entryType: EntryType, effect: Effect,
                     ids: set<nat>)
    requires BookedAs(tables.book.entries, key, account, id, entryType, effect) && id in ids
    ensures key in KeysOf(tables.book.entries, account, ids)
  {
    LookupFinds(tables.book.entries, key);
    var entries := tables.book.entries;
    var e :| 0 <= e < |entries| && entries[e] == Lookup(entries, key).value && entries[e].key == key;
    assert entries[e].key in KeysOf(entries, account, ids);
  }

  lemma ReadIsBooked(entries: seq<Entry>, key: EntryKey, account: nat, ids: set<nat>)
    requires key in KeysOf(entries, account, ids)
    ensures Lookup(entries, key).Some?
  {
    LookupFinds(entries, key);
  }

  /** Accepted by then. */
  predicate AcceptedIn(tables: Tables, id: nat) {
    id < |tables.orders| && WasAccepted(tables.orders[id].status)
  }

  /** Its stake still held then. */
  predicate HeldIn(tables: Tables, id: nat) {
    id < |tables.orders| && HoldsStake(tables.orders[id].status)
  }

  /** What the reads of the receipts and of the ledger came too early to see of an order read in `orders`. */
  predicate ReadTooEarly(orders: Tables, receipts: Tables, ledger: Tables, id: nat)
    requires id < |orders.orders|
  {
    var order := orders.orders[id];
    || (WasAccepted(order.status) && !AcceptedIn(receipts, id))
    || (WasAccepted(order.status) && id >= |ledger.orders|)
    || (order.status in {Settled, Voided} && Lookup(ledger.book.entries, SettleKey(order.key)).None?)
    || (order.status == Rejected && HeldIn(ledger, id))
  }

  /** Two states of one run, in either order. */
  ghost predicate OfOneRun(a: Tables, b: Tables) {
    TablesEvolve(a, b) || TablesEvolve(b, a)
  }

  lemma ReceiptTells(tables: Tables, id: nat)
    requires Inv(tables)
    ensures HasReceipt(tables.receipts, id) <==> AcceptedIn(tables, id)
  {
    if id < |tables.orders| {
      assert InTables(tables, id) && OrderOk(tables, id);
    }
  }

  /** Any entry of a stored order is on its account and about it, so it is among the keys read. */
  lemma StoredIsRead(ledger: Tables, id: nat, ids: set<nat>)
    requires Inv(ledger) && id < |ledger.orders| && id in ids
    ensures
      var order, entries := ledger.orders[id], ledger.book.entries;
      var keys := KeysOf(entries, order.account, ids);
      && (ReserveKey(order.key) in keys <==> Lookup(entries, ReserveKey(order.key)).Some?)
      && (ReleaseKey(order.key) in keys <==> Lookup(entries, ReleaseKey(order.key)).Some?)
      && (SettleKey(order.key) in keys <==> Lookup(entries, SettleKey(order.key)).Some?)
  {
    hide Inv, KeysOf;
    var order, entries := ledger.orders[id], ledger.book.entries;
    StillInTables(ledger, id);
    OrderOkOf(ledger, id);
    forall key: EntryKey | key in {ReserveKey(order.key), ReleaseKey(order.key), SettleKey(order.key)}
      ensures key in KeysOf(entries, order.account, ids) <==> Lookup(entries, key).Some?
    {
      if key in KeysOf(entries, order.account, ids) {
        ReadIsBooked(entries, key, order.account, ids);
      }
      if Lookup(entries, key).Some? {
        var found := Lookup(entries, key).value;
        BookedIsRead(ledger, key, order.account, id, found.entryType, found.effect, ids);
      }
    }
  }

  /** The ledger was read before the order existed: it has nothing about it. */
  lemma NotYetStored(ledger: Tables, orders: Tables, id: nat, account: nat, ids: set<nat>)
    requires Inv(ledger) && Inv(orders) && TablesEvolve(ledger, orders)
    requires |ledger.orders| <= id < |orders.orders|
    ensures
      var key, keys := orders.orders[id].key, KeysOf(ledger.book.entries, account, ids);
      && Lookup(ledger.book.entries, SettleKey(key)).None?
      && ReserveKey(key) !in keys && SettleKey(key) !in keys
  {
    var key := orders.orders[id].key;
    forall i | 0 <= i < |ledger.orders|
      ensures ledger.orders[i].key != key
    {
      assert Evolves(ledger.orders[i], orders.orders[i]);
    }
    UnusedKeyUnbooked(ledger, key);
    if ReserveKey(key) in KeysOf(ledger.book.entries, account, ids) {
      ReadIsBooked(ledger.book.entries, ReserveKey(key), account, ids);
    }
    if SettleKey(key) in KeysOf(ledger.book.entries, account, ids) {
      ReadIsBooked(ledger.book.entries, SettleKey(key), account, ids);
    }
  }

  /** What a stored order has in the ledger when it is read there and elsewhere in one run. */
  lemma StoredEntries(orders: Tables, ledger: Tables, id: nat)
    requires Inv(ledger) && OfOneRun(orders, ledger)
    requires id < |orders.orders| && id < |ledger.orders|
    ensures
      var order, entries := orders.orders[id], ledger.book.entries;
      && SameIdentity(ledger.orders[id], order)
      && (WasAccepted(order.status) ==> Lookup(entries, ReserveKey(order.key)).Some?)
      && (order.status == Rejected ==>
            (Lookup(entries, ReserveKey(order.key)).Some? && Lookup(entries, ReleaseKey(order.key)).None?
             <==> HeldIn(ledger, id)))
  {
    hide Inv;
    StillInTables(ledger, id);
    OrderOkOf(ledger, id);
    var order, row := orders.orders[id], ledger.orders[id];
    assert Evolves(order, row) || Evolves(row, order);
  }

  /** The books back the order exactly when nothing was read too early. */
  lemma BackedExactly(orders: Tables, receipts: Tables, ledger: Tables, id: nat, ids: set<nat>)
    requires Inv(orders) && Inv(receipts) && Inv(ledger) && OfOneRun(orders, ledger)
    requires id < |orders.orders| && id in ids
    ensures
      var order := orders.orders[id];
      Backed(order, HasReceipt(receipts.receipts, id), KeysOf(ledger.book.entries, order.account, ids))
      <==> !ReadTooEarly(orders, receipts, ledger, id)
  {
    hide Inv, TablesEvolve, KeysOf, HasReceipt;
    var order := orders.orders[id];
    ReceiptTells(receipts, id);
    if id < |ledger.orders| {
      StoredEntries(orders, ledger, id);
      StoredIsRead(ledger, id, ids);
    } else {
      ShorterIsEarlier(ledger, orders);
      NotYetStored(ledger, orders, id, order.account, ids);
    }
  }

  lemma ShorterIsEarlier(a: Tables, b: Tables)
    requires OfOneRun(b, a) && |a.orders| < |b.orders|
    ensures TablesEvolve(a, b)
  {
  }

  /** Nothing is too early that is read in the order of the source: orders, then receipts and ledger. */
  lemma InOrderIsNeverEarly(orders: Tables, receipts: Tables, ledger: Tables, id: nat)
    requires Inv(orders) && TablesEvolve(orders, receipts) && TablesEvolve(orders, ledger)
    requires id < |orders.orders|
    ensures !ReadTooEarly(orders, receipts, ledger, id)
  {
    assert InTables(orders, id) && OrderOk(orders, id);
    var order := orders.orders[id];
    assert Evolves(order, receipts.orders[id]) && Evolves(order, ledger.orders[id]);
    if order.status in {Settled, Voided} {
      assert Lookup(ledger.book.entries, SettleKey(order.key)) == Lookup(orders.book.entries, SettleKey(order.key));
    }
  }

  lemma ReadAtOnceIsBacked(tables: Tables, id: nat, ids: set<nat>)
    requires Inv(tables) && id < |tables.orders| && id in ids
    ensures
      Backed(tables.orders[id], HasReceipt(tables.receipts, id),
             KeysOf(tables.book.entries, tables.orders[id].account, ids))
  {
    hide Inv, TablesEvolve;
    TablesEvolveReflexive(tables);
    InOrderIsNeverEarly(tables, tables, tables, id);
    BackedExactly(tables, tables, tables, id, ids);
  }

  // ---- In every run ----

  /** What is reported about an order read after `i` steps, its receipts after `j`, the ledger after `k`. */
  ghost function ItemsRead(setup: Setup, steps: seq<Step>, i: nat, j: nat, k: nat, id: nat, ids: set<nat>,
                           reason: Option<string>, answer: Option<OperatorOrder>, tracked: bool): seq<Draft>
    requires i <= |steps| && j <= |steps| && k <= |steps|
    requires id < |Run(setup, steps[..i]).tables.orders|
  {
    var order := Run(setup, steps[..i]).tables.orders[id];
    CompareOrder(order, id, reason, answer,
                 HasReceipt(Run(setup, steps[..j]).tables.receipts, id),
                 KeysOf(Run(setup, steps[..k]).tables.book.entries, order.account, ids), tracked)
  }

  lemma PrefixesOfOneRun(setup: Setup, steps: seq<Step>, i: nat, k: nat)
    requires i <= |steps| && k <= |steps|
    ensures i <= k ==> TablesEvolve(Run(setup, steps[..i]).tables, Run(setup, steps[..k]).tables)
    ensures OfOneRun(Run(setup, steps[..i]).tables, Run(setup, steps[..k]).tables)
  {
    hide Run, TablesEvolve;
    if i <= k {
      assert steps[..k][..i] == steps[..i];
      RunsEvolve(setup, steps[..k], i);
    } else {
      assert steps[..i][..k] == steps[..k];
      RunsEvolve(setup, steps[..i], k);
    }
  }

  /**
   * In every run, with the three reads made at any instants: an item about the ledger or a
   * receipt appears exactly when the order had been accepted and the receipts were read
   * before that, or the ledger before the order existed; or it had been settled and the
   * ledger was read before the booking; or it had been rejected and the ledger was read
   * while its stake was held.
   */
  lemma AccusedExactly(setup: Setup, steps: seq<Step>, i: nat, j: nat, k: nat, id: nat, ids: set<nat>,
                       reason: Option<string>, answer: Option<OperatorOrder>, tracked: bool)
    requires i <= |steps| && j <= |steps| && k <= |steps|
    requires id < |Run(setup, steps[..i]).tables.orders| && id in ids
    ensures
      HasAccusation(ItemsRead(setup, steps, i, j, k, id, ids, reason, answer, tracked))
      <==> ReadTooEarly(Run(setup, steps[..i]).tables, Run(setup, steps[..j]).tables, Run(setup, steps[..k]).tables, id)
    ensures
      HasAccusation(ItemsRead(setup, steps, i, j, k, id, ids, reason, answer, tracked)) ==>
        StopTriggerFor(ItemsRead(setup, steps, i, j, k, id, ids, reason, answer, tracked)).Some?
  {
    hide Run, TablesEvolve, Inv, CompareOrder, ReadTooEarly;
    var orders, receipts, ledger := Run(setup, steps[..i]), Run(setup, steps[..j]), Run(setup, steps[..k]);
    EveryRun(setup, steps[..i]);
    EveryRun(setup, steps[..j]);
    EveryRun(setup, steps[..k]);
    PrefixesOfOneRun(setup, steps, i, k);
    BackedExactly(orders.tables, receipts.tables, ledger.tables, id, ids);
    var order := orders.tables.orders[id];
    AlertsExactly(order, id, reason, answer, HasReceipt(receipts.tables.receipts, id),
                  KeysOf(ledger.tables.book.entries, order.account, ids), tracked);
  }

  /** So, reading orders first, an item about the ledger or a receipt always means corruption. */
  lemma NoFalseAlarm(setup: Setup, steps: seq<Step>, i: nat, j: nat, k: nat, id: nat, ids: set<nat>,
                     reason: Option<string>, answer: Option<OperatorOrder>, tracked: bool)
    requires i <= j <= |steps| && i <= k <= |steps|
    requires id < |Run(setup, steps[..i]).tables.orders| && id in ids
    ensures !HasAccusation(ItemsRead(setup, steps, i, j, k, id, ids, reason, answer, tracked))
  {
    hide Run, TablesEvolve, Inv, CompareOrder, ReadTooEarly, HasAccusation, ItemsRead;
    EveryRun(setup, steps[..i]);
    PrefixesOfOneRun(setup, steps, i, j);
    PrefixesOfOneRun(setup, steps, i, k);
    InOrderIsNeverEarly(Run(setup, steps[..i]).tables, Run(setup, steps[..j]).tables, Run(setup, steps[..k]).tables, id);
    AccusedExactly(setup, steps, i, j, k, id, ids, reason, answer, tracked);
  }

  /**
   * The reads run in parallel, so the ledger may be read first. An order settled in between
   * is then reported and execution stops, though read at once the books back it.
   */
  lemma LedgerReadFirstAlarms(setup: Setup, steps: seq<Step>, i: nat, j: nat, k: nat, id: nat, ids: set<nat>,
                              reason: Option<string>, answer: Option<OperatorOrder>, tracked: bool)
    requires k < i <= |steps| && j <= |steps|
    requires id < |Run(setup, steps[..i]).tables.orders| && id in ids
    requires Run(setup, steps[..i]).tables.orders[id].status in {Settled, Voided}
    requires Lookup(Run(setup, steps[..k]).tables.book.entries,
                    SettleKey(Run(setup, steps[..i]).tables.orders[id].key)).None?
    ensures
      var items := ItemsRead(setup, steps, i, j, k, id, ids, reason, answer, tracked);
      HasAccusation(items) && StopTriggerFor(items).Some?
    ensures !HasAccusation(ItemsRead(setup, steps, i, i, i, id, ids, reason, answer, tracked))
  {
    hide Run, HasAccusation, ItemsRead;
    AccusedExactly(setup, steps, i, j, k, id, ids, reason, answer, tracked);
    NoFalseAlarm(setup, steps, i, i, i, id, ids, reason, answer, tracked);
  }
}
