/**
 * What each write to the control comes to: exactly when a mode, a policy or evidence is accepted,
 * and what it leaves.
 */
module ControlOutcomes {
  import opened Wrappers
  import opened Keys
  import opened Gates
  import opened Control

  // ---- Stopping ----

  /** Execution is stopped whatever was there; a row already stopped is left alone, and nothing else is touched. */
  lemma StopsExactly(tables: ControlTables, freshId: string, source: StopSource)
    ensures
      var after := Stop(tables, freshId, source);
      && after == tables.(control := after.control)
      && after.control.Some? && after.control.value.mode == Stored(Disabled)
      && match tables.control
         case None => after.control.value == ControlRow(freshId, Stored(Disabled), 1, None, Some(source))
         case Some(row) =>
           && (row.mode == Stored(Disabled) ==> after == tables)
           && (row.mode != Stored(Disabled) ==>
                 && after.control.value.version == row.version + 1 && after.control.value.stopSource == Some(source)
                 && after.control.value.id == row.id && after.control.value.policy == row.policy)
  {
  }

  // ---- Usable evidence ----

  /**
   * What is wrong with an identifier, first defect first: no row, another control, no GO, nobody
   * approved it, a gate not asked for.
   */
  lemma DefectsExactly(id: nat, found: map<nat, Evidence>, required: seq<GateKey>, controlId: string)
    ensures
      var defect := DefectOf(id, found, required, controlId);
      && (defect == Some(UnknownEvidence) <==> id !in found)
      && (id in found ==>
            var row := found[id];
            && (defect == Some(OtherControl) <==> row.controlId != controlId)
            && (defect == Some(VerdictNotGo) <==> row.controlId == controlId && row.verdict == NoGo)
            && (defect == Some(NoApprover) <==> row.controlId == controlId && row.verdict == Go && row.approver == "")
            && (defect.None? <==> row.controlId == controlId && row.verdict == Go && row.approver != "" && row.gate in required))
  {
  }

  // ---- Changing the mode ----

  /** The mode a gate opens. */
  function Opens(gate: GateKey): Mode {
    match gate
    case G1 => Simulation
    case G2 => Simulation
    case G3 => Sandbox
    case G4 => LiveCanary
    case G5 => LiveCanary
    case G6 => LiveCanary
  }

  /** The row is a GO for a gate of the mode, approved and about this control. */
  predicate Supports(tables: ControlTables, id: nat, mode: Mode) {
    && tables.control.Some? && id < |tables.evidence|
    && var row := tables.evidence[id];
    && row.controlId == tables.control.value.id && row.verdict == Go && row.approver != "" && Opens(row.gate) == mode
  }

  predicate SupportsGate(tables: ControlTables, ids: seq<nat>, mode: Mode, gate: GateKey) {
    exists i | 0 <= i < |ids| :: Supports(tables, ids[i], mode) && tables.evidence[ids[i]].gate == gate
  }

  /** Every identifier supports the mode and every gate of it is supported. */
  predicate Supported(tables: ControlTables, ids: seq<nat>, mode: Mode) {
    && (forall i | 0 <= i < |ids| :: Supports(tables, ids[i], mode))
    && forall gate | Opens(gate) == mode :: SupportsGate(tables, ids, mode, gate)
  }

  function Above(mode: Mode): Option<Mode> {
    match mode
    case Disabled => Some(Simulation)
    case Simulation => Some(Sandbox)
    case Sandbox => Some(LiveCanary)
    case LiveCanary => None
  }

  /** One mode up with a policy, the gates supported and, for real money, the interlock open; or one mode down. */
  predicate MayChange(tables: ControlTables, target: Mode, ids: seq<nat>, interlockOpen: bool)
    requires tables.control.Some?
  {
    || Above(target) == Some(CurrentMode(tables))
    || (&& Above(CurrentMode(tables)) == Some(target)
        && tables.control.value.policy.Some?
        && (target == LiveCanary ==> interlockOpen)
        && Supported(tables, ids, target))
  }

  lemma GateIsListed(gate: GateKey, mode: Mode)
    ensures gate in GatesToEnter(mode) <==> Opens(gate) == mode
  {
    var gates := GatesToEnter(mode);
    match mode {
      case Disabled =>
      case Simulation =>
        assert gates[0] == G1 && gates[1] == G2;
      case Sandbox =>
        assert gates[0] == G3;
      case LiveCanary =>
        assert gates[0] == G4 && gates[1] == G5 && gates[2] == G6;
    }
  }

  lemma SoundEvidence(tables: ControlTables, id: nat, ids: seq<nat>, mode: Mode)
    requires tables.control.Some? && id in ids
    ensures DefectOf(id, Found(tables.evidence, ids), GatesToEnter(mode), tables.control.value.id).None?
      <==> Supports(tables, id, mode)
  {
    if id < |tables.evidence| {
      GateIsListed(tables.evidence[id].gate, mode);
    }
  }

  lemma ProvenIsSupported(tables: ControlTables, ids: seq<nat>, mode: Mode)
    requires tables.control.Some?
    ensures Sufficient(GatesToEnter(mode), ids, Found(tables.evidence, ids), tables.control.value.id) <==> Supported(tables, ids, mode)
  {
    hide DefectOf, Supports, SupportsGate, GatesToEnter, Opens;
    var required, found, controlId := GatesToEnter(mode), Found(tables.evidence, ids), tables.control.value.id;
    forall i | 0 <= i < |ids|
      ensures DefectOf(ids[i], found, required, controlId).None? <==> Supports(tables, ids[i], mode)
    {
      SoundEvidence(tables, ids[i], ids, mode);
    }
    forall gate
      ensures gate in required <==> Opens(gate) == mode
      ensures CoveredBy(gate, ids, found, required, controlId) <==> SupportsGate(tables, ids, mode, gate)
    {
      GateIsListed(gate, mode);
      CoveredMeans(tables, gate, ids, mode);
    }
    if Supported(tables, ids, mode) {
      forall g | 0 <= g < |required|
        ensures CoveredBy(required[g], ids, found, required, controlId)
      {
        assert required[g] in required;
      }
    }
  }

  lemma CoveredMeans(tables: ControlTables, gate: GateKey, ids: seq<nat>, mode: Mode)
    requires tables.control.Some?
    ensures CoveredBy(gate, ids, Found(tables.evidence, ids), GatesToEnter(mode), tables.control.value.id)
      <==> SupportsGate(tables, ids, mode, gate)
  {
    forall i | 0 <= i < |ids|
      ensures DefectOf(ids[i], Found(tables.evidence, ids), GatesToEnter(mode), tables.control.value.id).None?
        <==> Supports(tables, ids[i], mode)
    {
      SoundEvidence(tables, ids[i], ids, mode);
    }
  }

  /**
   * A mode other than DISABLED is written exactly at the version expected and when the change
   * is one that may be made; nothing but mode, version and cause of the stop is.
   */
  lemma ChangesExactly(tables: ControlTables, target: Mode, expectedVersion: nat, ids: seq<nat>, interlockOpen: bool,
                       freshId: string)
    requires target != Disabled
    ensures
      var result := ChangeMode(tables, target, expectedVersion, ids, interlockOpen, freshId);
      && (result.Ok? <==>
            && tables.control.Some? && tables.control.value.version == expectedVersion
            && MayChange(tables, target, ids, interlockOpen))
      && (result.Ok? ==>
            && result.value == tables.(control := result.value.control)
            && result.value.control == Some(tables.control.value.(
                 mode := Stored(target), version := expectedVersion + 1, stopSource := None)))
  {
    hide Sufficient, Supported;
    if tables.control.Some? {
      ProvenIsSupported(tables, ids, target);
      NeedsSomeGate(target);
    }
  }

  lemma NeedsSomeGate(target: Mode)
    requires target != Disabled
    ensures GatesToEnter(target) != []
  {
  }

  /** Why it is not, first cause first. */
  lemma NotChangedFor(tables: ControlTables, target: Mode, expectedVersion: nat, ids: seq<nat>, interlockOpen: bool,
                      freshId: string)
    requires target != Disabled
    ensures
      var result := ChangeMode(tables, target, expectedVersion, ids, interlockOpen, freshId);
      var climbs := Above(CurrentMode(tables)) == Some(target);
      && (result == Err(Unavailable) <==> tables.control.None?)
      && (tables.control.Some? ==>
            var known := tables.control.value.version == expectedVersion;
            && (result == Err(VersionConflict) <==> !known)
            && (result == Err(BadTransition) <==> known && !climbs && Above(target) != Some(CurrentMode(tables)))
            && (result == Err(NoPolicy) <==> known && climbs && tables.control.value.policy.None?)
            && (result == Err(InterlockClosed) <==>
                  known && climbs && tables.control.value.policy.Some? && target == LiveCanary && !interlockOpen)
            && (result.Err? ==> result.error in {VersionConflict, BadTransition, NoPolicy, InterlockClosed, Unproven}))
  {
    hide Sufficient;
  }

  /** In every run, a mode is in force only on GO evidence for each gate that opens it or a mode below it. */
  lemma RunsOnEvidence(id: string, steps: seq<ControlStep>, gate: GateKey)
    requires Rank(Opens(gate)) <= Rank(CurrentMode(ControlRun(id, steps)))
    ensures exists row | row in ControlRun(id, steps).evidence ::
      row.gate == gate && row.controlId == id && row.verdict == Go && row.approver != ""
  {
    EveryRunIsProven(id, steps);
    var tables := ControlRun(id, steps);
    GateIsListed(gate, Opens(gate));
    assert ModeProven(tables.evidence, id, Opens(gate));
    var g :| 0 <= g < |GatesToEnter(Opens(gate))| && GatesToEnter(Opens(gate))[g] == gate;
    assert Proven(tables.evidence, id, GatesToEnter(Opens(gate))[g]);
    var i :| 0 <= i < |tables.evidence| && Proves(tables.evidence[i], id, gate);
    assert tables.evidence[i] in tables.evidence;
  }

  // ---- Policies and evidence ----

  /**
   * A policy is stored exactly when its limits are positive and a single bet fits the day and
   * the exposure; it is put in force only while execution is stopped, at the version expected.
   */
  lemma PoliciesExactly(tables: ControlTables, policy: RiskPolicy, activate: bool, expected: Option<nat>)
    ensures
      var result, n := CreateRiskPolicy(tables, policy, activate, expected), |tables.policies|;
      && (result.Ok? <==>
            && (activate ==>
                  && tables.control.Some? && tables.control.value.mode == Stored(Disabled)
                  && expected in {None, Some(tables.control.value.version)})
            && 0 < policy.maxStakePerBet && 0 < policy.maxDailyLoss && 0 < policy.maxQuoteAgeMs
            && policy.maxStakePerBet <= policy.maxDailyStake && policy.maxStakePerBet <= policy.maxOpenExposure)
      && (result.Ok? ==>
            && result.value.evidence == tables.evidence
            && |result.value.policies| == n + 1 && result.value.policies[..n] == tables.policies
            && result.value.policies[n] == policy.(version := n + 1)
            && (!activate ==> result.value.control == tables.control)
            && (activate ==>
                  && ActivePolicy(result.value) == Some(policy.(version := n + 1))
                  && result.value.control.value.version == tables.control.value.version + 1
                  && result.value.control.value.mode == Stored(Disabled)
                  && result.value.control.value.id == tables.control.value.id))
  {
  }

  /**
   * Evidence is stored exactly when it covers a period, is about this control, and no report is
   * filed twice for a gate.
   */
  lemma EvidenceExactly(tables: ControlTables, row: Evidence)
    ensures
      var result := RecordEvidence(tables, row);
      && (result.Ok? <==>
            && row.periodFrom < row.periodTo
            && tables.control.Some? && row.controlId == tables.control.value.id
            && forall other | other in tables.evidence :: (other.gate, other.reportHash) != (row.gate, row.reportHash))
      && (result.Ok? ==> result.value == tables.(evidence := tables.evidence + [row]))
  {
  }
}
