/**
 * The versioned kill switch: one control row, immutable policies and evidence, and the
 * writes that change the mode. Proved over every run from the bootstrap row.
 */
module Control {
  import opened Wrappers
  import opened Keys
  import opened Gates

  /** The stored mode is text: a value the domain does not know is read as no execution. */
  datatype StoredMode = Stored(mode: Mode) | Unrecognized(text: string)

  datatype StopSource = Bootstrap | Manual | Automatic

  /** Why execution stops itself. */
  datatype AutoStopTrigger =
    | ControlUnreadable
    | StaleOrSuspendedOdd
    | DailyLimitReached
    | OperatorBalanceMismatch
    | UnknownOrderTooOld
    | ReceiptMissing
    | OperatorErrorRate
    | ClockOutOfTolerance
    | LedgerInvariantBroken
    | ReceiptInvalid
    | OperatorContractViolation

  datatype ControlRow = ControlRow(
    id: string,
    mode: StoredMode,
    version: nat,
    policy: Option<nat>,
    stopSource: Option<StopSource>)

  /** Limits in cents; policies are numbered by position and never change. */
  datatype RiskPolicy = RiskPolicy(
    version: nat,
    currency: string,
    maxStakePerBet: int,
    maxDailyStake: int,
    maxDailyLoss: int,
    maxOpenExposure: int,
    maxQuoteAgeMs: int)

  datatype ControlTables = ControlTables(
    control: Option<ControlRow>,
    policies: seq<RiskPolicy>,
    evidence: seq<Evidence>)

  datatype ControlError = Unavailable | VersionConflict | BadTransition | NoPolicy | InterlockClosed | Unproven | NotStopped | BadRow

  /** `unreadable`: the state itself could not be established. */
  datatype Blocked = Blocked(unreadable: bool)

  function CurrentMode(tables: ControlTables): Mode {
    if tables.control.Some? && tables.control.value.mode.Stored? then tables.control.value.mode.mode else Disabled
  }

  function ActivePolicy(tables: ControlTables): Option<RiskPolicy> {
    if tables.control.Some? && tables.control.value.policy.Some? && tables.control.value.policy.value < |tables.policies|
    then Some(tables.policies[tables.control.value.policy.value])
    else None
  }

  predicate ExecutionAllowed(mode: Mode, interlockOpen: bool) {
    match mode
    case Disabled => false
    case LiveCanary => interlockOpen
    case _ => true
  }

  /** The mode a transaction that commits money may run in, read under the shared lock. */
  function LockForExecution(tables: ControlTables, interlockOpen: bool): Result<Mode, Blocked> {
    if tables.control.None? || tables.control.value.mode.Unrecognized? then Err(Blocked(true))
    else if !ExecutionAllowed(tables.control.value.mode.mode, interlockOpen) then Err(Blocked(false))
    else Ok(tables.control.value.mode.mode)
  }

  function Stop(tables: ControlTables, freshId: string, source: StopSource): ControlTables {
    match tables.control
    case None => tables.(control := Some(ControlRow(freshId, Stored(Disabled), 1, None, Some(source))))
    case Some(row) =>
      if row.mode == Stored(Disabled) then tables
      else tables.(control := Some(row.(mode := Stored(Disabled), version := row.version + 1, stopSource := Some(source))))
  }

  /** Evidence rows found for the provided identifiers. */
  function Found(evidence: seq<Evidence>, ids: seq<nat>): map<nat, Evidence> {
    map id | id in ids && id < |evidence| :: evidence[id]
  }

  ghost predicate TransitionProven(tables: ControlTables, controlId: string, from: Mode, to: Mode, ids: seq<nat>) {
    var required := RequiredGates(from, to);
    required == [] || Sufficient(required, ids, Found(tables.evidence, ids), controlId)
  }

  ghost function ChangeMode(tables: ControlTables, target: Mode, expectedVersion: nat, ids: seq<nat>,
                            interlockOpen: bool, freshId: string)
    : Result<ControlTables, ControlError>
  {
    if target == Disabled then Ok(Stop(tables, freshId, Manual))
    else if tables.control.None? then Err(Unavailable)
    else
      var row := tables.control.value;
      var from := CurrentMode(tables);
      var (direction, allowed) := TransitionShape(from, target);
      if row.version != expectedVersion then Err(VersionConflict)
      else if !allowed then Err(BadTransition)
      else if direction == Up && row.policy.None? then Err(NoPolicy)
      else if direction == Up && target == LiveCanary && !interlockOpen then Err(InterlockClosed)
      else if direction == Up && !TransitionProven(tables, row.id, from, target, ids) then Err(Unproven)
      else Ok(tables.(control := Some(row.(mode := Stored(target), version := row.version + 1, stopSource := None))))
  }

  /** Column constraints of a policy row. */
  predicate PolicyOk(policy: RiskPolicy) {
    && policy.maxStakePerBet > 0 && policy.maxDailyStake > 0 && policy.maxDailyLoss > 0
    && policy.maxOpenExposure > 0 && policy.maxQuoteAgeMs > 0
    && policy.maxStakePerBet <= policy.maxDailyStake
    && policy.maxStakePerBet <= policy.maxOpenExposure
  }

  function CreateRiskPolicy(tables: ControlTables, policy: RiskPolicy, activate: bool, expectedVersion: Option<nat>)
    : Result<ControlTables, ControlError>
  {
    if activate && tables.control.None? then Err(Unavailable)
    else if activate && tables.control.value.mode != Stored(Disabled) then Err(NotStopped)
    else if activate && expectedVersion.Some? && tables.control.value.version != expectedVersion.value then Err(VersionConflict)
    else if !PolicyOk(policy) then Err(BadRow)
    else
      var added := tables.(policies := tables.policies + [policy.(version := |tables.policies| + 1)]);
      if activate
      then
        var row := tables.control.value;
        Ok(added.(control := Some(row.(policy := Some(|tables.policies|), version := row.version + 1))))
      else Ok(added)
  }

  predicate SameReport(a: Evidence, b: Evidence) {
    a.gate == b.gate && a.reportHash == b.reportHash
  }

  function RecordEvidence(tables: ControlTables, row: Evidence): Result<ControlTables, ControlError> {
    if row.periodFrom >= row.periodTo then Err(BadRow)
    else if tables.control.None? || tables.control.value.id != row.controlId then Err(BadRow)
    else if exists i | 0 <= i < |tables.evidence| :: SameReport(tables.evidence[i], row) then Err(BadRow)
    else Ok(tables.(evidence := tables.evidence + [row]))
  }

  // ---- Runs ----

  datatype ControlStep =
    | DoStop(freshId: string, source: StopSource)
    | DoChangeMode(target: Mode, expectedVersion: nat, ids: seq<nat>, interlockOpen: bool, freshId: string)
    | DoCreatePolicy(policy: RiskPolicy, activate: bool, expected: Option<nat>)
    | DoRecordEvidence(row: Evidence)

  ghost function Outcome(tables: ControlTables, step: ControlStep): Result<ControlTables, ControlError> {
    match step
    case DoStop(freshId, source) => Ok(Stop(tables, freshId, source))
    case DoChangeMode(target, expectedVersion, ids, interlockOpen, freshId) =>
      ChangeMode(tables, target, expectedVersion, ids, interlockOpen, freshId)
    case DoCreatePolicy(policy, activate, expected) => CreateRiskPolicy(tables, policy, activate, expected)
    case DoRecordEvidence(row) => RecordEvidence(tables, row)
  }

  ghost function ControlNext(tables: ControlTables, step: ControlStep): ControlTables {
    match Outcome(tables, step)
    case Ok(after) => after
    case Err(_) => tables
  }

  /** The row the migration inserts: stopped, no policy, no evidence. */
  function Bootstrapped(id: string): ControlTables {
    ControlTables(Some(ControlRow(id, Stored(Disabled), 1, None, Some(Bootstrap))), [], [])
  }

  ghost function ControlRun(id: string, steps: seq<ControlStep>): ControlTables {
    if steps == [] then Bootstrapped(id)
    else ControlNext(ControlRun(id, steps[..|steps| - 1]), steps[|steps| - 1])
  }

  /** Some recorded evidence is a GO for the gate, approved and tied to this control. */
  ghost predicate Proven(evidence: seq<Evidence>, controlId: string, gate: GateKey) {
    exists i | 0 <= i < |evidence| :: Proves(evidence[i], controlId, gate)
  }

  predicate Proves(row: Evidence, controlId: string, gate: GateKey) {
    row.controlId == controlId && row.verdict == Go && row.approver != "" && row.gate == gate
  }

  ghost predicate ModeProven(evidence: seq<Evidence>, controlId: string, mode: Mode) {
    forall g | 0 <= g < |GatesToEnter(mode)| :: Proven(evidence, controlId, GatesToEnter(mode)[g])
  }

  /** The mode and every active mode below it have their gates proven; execution has a policy; a stop has a cause. */
  ghost predicate ControlInv(tables: ControlTables) {
    && tables.control.Some?
    && tables.control.value.mode.Stored?
    && var row := tables.control.value;
    && (forall p | 0 <= p < |tables.policies| :: PolicyOk(tables.policies[p]))
    && (row.policy.Some? ==> row.policy.value < |tables.policies|)
    && (row.mode.mode != Disabled ==> row.policy.Some?)
    && (row.stopSource.Some? <==> row.mode.mode == Disabled)
    && (forall mode: Mode :: Rank(mode) <= Rank(row.mode.mode) ==> ModeProven(tables.evidence, row.id, mode))
  }

  lemma SufficientProves(tables: ControlTables, controlId: string, required: seq<GateKey>, ids: seq<nat>, gate: GateKey)
    requires Sufficient(required, ids, Found(tables.evidence, ids), controlId)
    requires gate in required
    ensures Proven(tables.evidence, controlId, gate)
  {
    var found := Found(tables.evidence, ids);
    var g :| 0 <= g < |required| && required[g] == gate;
    assert CoveredBy(required[g], ids, found, required, controlId);
    var i :| 0 <= i < |ids| && DefectOf(ids[i], found, required, controlId).None? && found[ids[i]].gate == gate;
    assert Proves(tables.evidence[ids[i]], controlId, gate);
  }

  lemma EvidenceStays(evidence: seq<Evidence>, row: Evidence, controlId: string, mode: Mode)
    requires ModeProven(evidence, controlId, mode)
    ensures ModeProven(evidence + [row], controlId, mode)
  {
    forall g | 0 <= g < |GatesToEnter(mode)|
      ensures Proven(evidence + [row], controlId, GatesToEnter(mode)[g])
    {
      assert Proven(evidence, controlId, GatesToEnter(mode)[g]);
      var i :| 0 <= i < |evidence| && Proves(evidence[i], controlId, GatesToEnter(mode)[g]);
      assert (evidence + [row])[i] == evidence[i];
    }
  }

  lemma ChangeModeKeepsControlInv(tables: ControlTables, target: Mode, expectedVersion: nat, ids: seq<nat>,
                                  interlockOpen: bool, freshId: string)
    requires ControlInv(tables) && target != Disabled
    requires ChangeMode(tables, target, expectedVersion, ids, interlockOpen, freshId).Ok?
    ensures ControlInv(ChangeMode(tables, target, expectedVersion, ids, interlockOpen, freshId).value)
  {
    var row, from := tables.control.value, CurrentMode(tables);
    forall mode: Mode | Rank(mode) <= Rank(target)
      ensures ModeProven(tables.evidence, row.id, mode)
    {
      if Rank(mode) > Rank(from) {
        assert mode == target;
        var required := RequiredGates(from, target);
        assert required == GatesToEnter(mode);
        forall g | 0 <= g < |GatesToEnter(mode)|
          ensures Proven(tables.evidence, row.id, GatesToEnter(mode)[g])
        {
          SufficientProves(tables, row.id, required, ids, GatesToEnter(mode)[g]);
        }
      }
    }
  }

  lemma StepKeepsControlInv(tables: ControlTables, step: ControlStep)
    requires ControlInv(tables)
    ensures ControlInv(ControlNext(tables, step))
    ensures ControlNext(tables, step).control.value.id == tables.control.value.id
    ensures |tables.policies| <= |ControlNext(tables, step).policies|
    ensures ControlNext(tables, step).policies[..|tables.policies|] == tables.policies
  {
    if Outcome(tables, step).Ok? {
      match step
      case DoStop(_, _) =>
      case DoChangeMode(target, expectedVersion, ids, interlockOpen, freshId) =>
        if target != Disabled {
          ChangeModeKeepsControlInv(tables, target, expectedVersion, ids, interlockOpen, freshId);
        }
      case DoCreatePolicy(_, _, _) =>
      case DoRecordEvidence(row) =>
        forall mode: Mode | Rank(mode) <= Rank(CurrentMode(tables))
          ensures ModeProven(ControlNext(tables, step).evidence, tables.control.value.id, mode)
        {
          EvidenceStays(tables.evidence, row, tables.control.value.id, mode);
        }
    }
  }

  /** In every run, every mode that is on has its gates proven and a policy behind it. */
  lemma {:induction false} EveryRunIsProven(id: string, steps: seq<ControlStep>)
    ensures ControlInv(ControlRun(id, steps))
    ensures ControlRun(id, steps).control.value.id == id
  {
    if steps != [] {
      EveryRunIsProven(id, steps[..|steps| - 1]);
      StepKeepsControlInv(ControlRun(id, steps[..|steps| - 1]), steps[|steps| - 1]);
    }
  }

  /** A step either leaves the control row alone or raises its version by one. */
  lemma VersionCountsWrites(tables: ControlTables, step: ControlStep)
    requires ControlInv(tables)
    ensures var after := ControlNext(tables, step);
      || after.control == tables.control
      || after.control.value.version == tables.control.value.version + 1
  {
  }

  /** The policy in force changes only while execution is stopped. */
  lemma PolicyFrozenWhileRunning(tables: ControlTables, step: ControlStep)
    requires ControlInv(tables)
    requires ControlNext(tables, step).control.value.policy != tables.control.value.policy
    ensures CurrentMode(tables) == Disabled && CurrentMode(ControlNext(tables, step)) == Disabled
  {
  }

  /** Modes are climbed one at a time, only by a mode change quoting the version it read. */
  lemma ClimbsOneStep(tables: ControlTables, step: ControlStep)
    requires ControlInv(tables)
    requires Rank(CurrentMode(ControlNext(tables, step))) > Rank(CurrentMode(tables))
    ensures Rank(CurrentMode(ControlNext(tables, step))) == Rank(CurrentMode(tables)) + 1
    ensures step.DoChangeMode? && step.target == CurrentMode(ControlNext(tables, step))
    ensures step.expectedVersion == tables.control.value.version
    ensures step.target == LiveCanary ==> step.interlockOpen
  {
  }

  /** As long as execution is never stopped, the policy in force stays the one it was. */
  lemma {:induction false} OnePolicyPerStretch(id: string, steps: seq<ControlStep>, n: nat)
    requires n <= |steps|
    requires forall k | n <= k <= |steps| :: CurrentMode(ControlRun(id, steps[..k])) != Disabled
    ensures ControlInv(ControlRun(id, steps[..n])) && ControlInv(ControlRun(id, steps))
    ensures ControlRun(id, steps).control.value.policy == ControlRun(id, steps[..n]).control.value.policy
    ensures ActivePolicy(ControlRun(id, steps)) == ActivePolicy(ControlRun(id, steps[..n]))
  {
    EveryRunIsProven(id, steps);
    EveryRunIsProven(id, steps[..n]);
    assert steps[..|steps|] == steps;
    assert CurrentMode(ControlRun(id, steps[..n])) != Disabled;
    if n < |steps| {
      var init := steps[..|steps| - 1];
      forall k | n <= k <= |init|
        ensures CurrentMode(ControlRun(id, init[..k])) != Disabled
      {
        assert init[..k] == steps[..k];
      }
      assert init[..n] == steps[..n];
      OnePolicyPerStretch(id, init, n);
      assert CurrentMode(ControlRun(id, steps[..|steps|])) != Disabled;
      EveryRunIsProven(id, init);
      var before := ControlRun(id, init);
      StepKeepsControlInv(before, steps[|steps| - 1]);
      if ControlRun(id, steps).control.value.policy != before.control.value.policy {
        PolicyFrozenWhileRunning(before, steps[|steps| - 1]);
      }
      var p := before.control.value.policy.value;
      assert ControlRun(id, steps).policies[..|before.policies|][p] == before.policies[p];
    }
  }

  /** A mode is reached only after every mode below it was in force. */
  lemma {:induction false} ReachedStepByStep(id: string, steps: seq<ControlStep>, mode: Mode)
    requires Rank(mode) <= Rank(CurrentMode(ControlRun(id, steps)))
    ensures exists n | 0 <= n <= |steps| :: CurrentMode(ControlRun(id, steps[..n])) == mode
  {
    assert steps[..|steps|] == steps;
    if CurrentMode(ControlRun(id, steps)) != mode && steps != [] {
      var init := steps[..|steps| - 1];
      EveryRunIsProven(id, init);
      if Rank(CurrentMode(ControlRun(id, steps))) > Rank(CurrentMode(ControlRun(id, init))) {
        ClimbsOneStep(ControlRun(id, init), steps[|steps| - 1]);
      }
      ReachedStepByStep(id, init, mode);
      var n :| 0 <= n <= |init| && CurrentMode(ControlRun(id, init[..n])) == mode;
      assert init[..n] == steps[..n];
    }
  }

  predicate IsModeChange(step: ControlStep) {
    step.DoChangeMode? && step.target != Disabled
  }

  lemma {:induction false} VersionGrows(id: string, steps: seq<ControlStep>, n: nat)
    requires n <= |steps|
    ensures ControlInv(ControlRun(id, steps[..n])) && ControlInv(ControlRun(id, steps))
    ensures ControlRun(id, steps[..n]).control.value.version <= ControlRun(id, steps).control.value.version
  {
    EveryRunIsProven(id, steps);
    EveryRunIsProven(id, steps[..n]);
    if n == |steps| {
      assert steps[..n] == steps;
    } else {
      var init := steps[..|steps| - 1];
      assert init[..n] == steps[..n];
      VersionGrows(id, init, n);
      VersionCountsWrites(ControlRun(id, init), steps[|steps| - 1]);
    }
  }

  /** At most one mode change succeeds per expected version. */
  lemma OneModeChangePerVersion(id: string, steps: seq<ControlStep>, i: nat, j: nat)
    requires i < j < |steps|
    requires IsModeChange(steps[i]) && Outcome(ControlRun(id, steps[..i]), steps[i]).Ok?
    requires IsModeChange(steps[j]) && Outcome(ControlRun(id, steps[..j]), steps[j]).Ok?
    ensures steps[i].expectedVersion < steps[j].expectedVersion
  {
    EveryRunIsProven(id, steps[..i]);
    assert steps[..i + 1][..i] == steps[..i];
    assert steps[..j][..i + 1] == steps[..i + 1];
    VersionGrows(id, steps[..j], i + 1);
  }
}
