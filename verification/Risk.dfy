/** The limits a reservation must respect, in cents. */
module Risk {
  import opened Wrappers
  import opened Control
  import opened Ledger

  datatype RejectionCode =
    | NoExecutableOdd
    | StaleOdd
    | SuspendedMarket
    | OddMoved
    | LimitExceeded
    | ControlDisabled
    | RiskCheckFailed
    | OperatorUnavailable
    | BelowMinOdd

  datatype RiskLimit = MaxStakePerBet | DailyStake | DailyLoss | OpenExposure | AvailableBalance | QuoteAge

  datatype RiskInput = RiskInput(
    policy: RiskPolicy,
    stake: int,
    balances: Balances,
    dailyStaked: int,
    dailyPnl: int,
    quoteAgeMs: int)

  datatype RiskVerdict =
    | Accept
    | Refuse(code: RejectionCode, limit: RiskLimit, autoStop: Option<AutoStopTrigger>)

  function Max(a: int, b: int): int {
    if a > b then a else b
  }

  function DayLoss(pnl: int): int {
    Max(0, -pnl)
  }

  /** A limit exactly reached is allowed, one cent above is refused. */
  predicate WithinLimits(input: RiskInput) {
    && 0 <= input.quoteAgeMs <= input.policy.maxQuoteAgeMs
    && 0 < input.stake <= input.policy.maxStakePerBet
    && -input.dailyPnl < input.policy.maxDailyLoss && 0 < input.policy.maxDailyLoss
    && input.dailyStaked + input.stake <= input.policy.maxDailyStake
    && input.balances.reserved + input.stake <= input.policy.maxOpenExposure
    && input.stake <= input.balances.available
  }

  /** The stake breaks this limit. */
  predicate Breaks(input: RiskInput, limit: RiskLimit) {
    match limit
    case QuoteAge => !(0 <= input.quoteAgeMs <= input.policy.maxQuoteAgeMs)
    case MaxStakePerBet => !(0 < input.stake <= input.policy.maxStakePerBet)
    case DailyLoss => -input.dailyPnl >= input.policy.maxDailyLoss || 0 >= input.policy.maxDailyLoss
    case DailyStake => input.dailyStaked + input.stake > input.policy.maxDailyStake
    case OpenExposure => input.balances.reserved + input.stake > input.policy.maxOpenExposure
    case AvailableBalance => input.stake > input.balances.available
  }

  /** The order in which the limits are looked at. */
  function Position(limit: RiskLimit): nat {
    match limit
    case QuoteAge => 0
    case MaxStakePerBet => 1
    case DailyLoss => 2
    case DailyStake => 3
    case OpenExposure => 4
    case AvailableBalance => 5
  }

  /** Refused for the first limit broken. */
  function EvaluateRisk(input: RiskInput): (verdict: RiskVerdict)
    ensures verdict.Refuse? ==> Breaks(input, verdict.limit)
    ensures verdict.Refuse? ==> forall other | Position(other) < Position(verdict.limit) :: !Breaks(input, other)
    ensures verdict.Refuse? ==> verdict.code in {StaleOdd, LimitExceeded}
    ensures verdict.Refuse? && verdict.code == StaleOdd <==> Breaks(input, QuoteAge)
    ensures verdict.Accept? <==> WithinLimits(input)
    ensures verdict.Refuse? && verdict.autoStop == Some(DailyLimitReached) <==>
      && !Breaks(input, QuoteAge)
      && !Breaks(input, MaxStakePerBet)
      && (Breaks(input, DailyLoss)
          || (Breaks(input, DailyStake) && input.dailyStaked >= input.policy.maxDailyStake))
    ensures verdict.Refuse? && verdict.autoStop == Some(StaleOrSuspendedOdd) <==> Breaks(input, QuoteAge)
    ensures verdict.Refuse? ==> verdict.autoStop in {None, Some(DailyLimitReached), Some(StaleOrSuspendedOdd)}
  {
    var policy := input.policy;
    if input.quoteAgeMs < 0 || input.quoteAgeMs > policy.maxQuoteAgeMs then
      Refuse(StaleOdd, QuoteAge, Some(StaleOrSuspendedOdd))
    else if !(input.stake > 0) || input.stake > policy.maxStakePerBet then
      Refuse(LimitExceeded, MaxStakePerBet, None)
    else if DayLoss(input.dailyPnl) >= policy.maxDailyLoss then
      Refuse(LimitExceeded, DailyLoss, Some(DailyLimitReached))
    else if input.dailyStaked + input.stake > policy.maxDailyStake then
      Refuse(LimitExceeded, DailyStake,
             if input.dailyStaked >= policy.maxDailyStake then Some(DailyLimitReached) else None)
    else if input.balances.reserved + input.stake > policy.maxOpenExposure then
      Refuse(LimitExceeded, OpenExposure, None)
    else if input.stake > input.balances.available then
      Refuse(LimitExceeded, AvailableBalance, None)
    else
      Accept
  }

  /** Midnight UTC of the day an instant falls in. */
  function UtcDayStart(now: int): (day: int)
    ensures day <= now < day + 24 * 60 * 60 * 1000
    ensures day % (24 * 60 * 60 * 1000) == 0
  {
    now - now % DAY_MS
  }
}
