/** Which mode changes are allowed and which evidence they need. */
module Gates {
  import opened Wrappers
  import opened Keys

  datatype GateKey = G1 | G2 | G3 | G4 | G5 | G6

  datatype Verdict = Go | NoGo

  datatype Direction = Up | Down | Same

  /** An evidence row; rows are numbered by position and an empty approver is no approver. */
  datatype Evidence = Evidence(
    controlId: string,
    gate: GateKey,
    verdict: Verdict,
    approver: string,
    reportHash: string,
    periodFrom: int,
    periodTo: int)

  datatype Defect = UnknownEvidence | OtherControl | VerdictNotGo | NoApprover | GateNotRequired

  datatype EvidenceCheck = EvidenceCheck(ok: bool, missing: seq<GateKey>, rejected: seq<(nat, Defect)>)

  function Rank(mode: Mode): nat {
    match mode
    case Disabled => 0
    case Simulation => 1
    case Sandbox => 2
    case LiveCanary => 3
  }

  function GatesToEnter(mode: Mode): seq<GateKey> {
    match mode
    case Disabled => []
    case Simulation => [G1, G2]
    case Sandbox => [G3]
    case LiveCanary => [G4, G5, G6]
  }

  function TransitionShape(from: Mode, to: Mode): (Direction, bool) {
    var delta := Rank(to) - Rank(from);
    if delta == 0 then (Same, false)
    else if delta > 0 then (Up, delta == 1)
    else (Down, delta == -1 || to == Disabled)
  }

  function RequiredGates(from: Mode, to: Mode): seq<GateKey> {
    if TransitionShape(from, to).0 == Up then GatesToEnter(to) else []
  }

  /** Why a provided identifier cannot be used, if it cannot. */
  function DefectOf(id: nat, found: map<nat, Evidence>, required: seq<GateKey>, controlId: string): Option<Defect> {
    if id !in found then Some(UnknownEvidence)
    else if found[id].controlId != controlId then Some(OtherControl)
    else if found[id].verdict != Go then Some(VerdictNotGo)
    else if found[id].approver == "" then Some(NoApprover)
    else if found[id].gate !in required then Some(GateNotRequired)
    else None
  }

  predicate CoveredBy(gate: GateKey, provided: seq<nat>, found: map<nat, Evidence>, required: seq<GateKey>,
                      controlId: string) {
    exists i | 0 <= i < |provided| ::
      DefectOf(provided[i], found, required, controlId).None? && found[provided[i]].gate == gate
  }

  /** Every identifier is usable and every required gate is covered. */
  ghost predicate Sufficient(required: seq<GateKey>, provided: seq<nat>, found: map<nat, Evidence>, controlId: string) {
    && (forall i | 0 <= i < |provided| :: DefectOf(provided[i], found, required, controlId).None?)
    && (forall g | 0 <= g < |required| :: CoveredBy(required[g], provided, found, required, controlId))
  }

  /**
   * The evidence check: accepted exactly when sufficient. `missing` is what `required` lacks,
   * and each unusable identifier is reported once with its defect.
   */
  method CheckEvidence(required: seq<GateKey>, provided: seq<nat>, found: map<nat, Evidence>, controlId: string)
    returns (check: EvidenceCheck)
    ensures check.ok <==> Sufficient(required, provided, found, controlId)
    ensures forall gate :: gate in check.missing <==>
      gate in required && !CoveredBy(gate, provided, found, required, controlId)
    ensures forall i | 0 <= i < |provided| :: DefectOf(provided[i], found, required, controlId).Some? ==>
      (provided[i], DefectOf(provided[i], found, required, controlId).value) in check.rejected
    ensures forall r | 0 <= r < |check.rejected| ::
      && check.rejected[r].0 in provided
      && DefectOf(check.rejected[r].0, found, required, controlId) == Some(check.rejected[r].1)
    ensures forall q, r | 0 <= q < r < |check.rejected| :: check.rejected[q].0 != check.rejected[r].0
  {
    var seen: set<nat> := {};
    var covered: set<GateKey> := {};
    var rejected: seq<(nat, Defect)> := [];
    for i := 0 to |provided|
      invariant seen == set j | 0 <= j < i :: provided[j]
      invariant forall gate :: gate in covered <==> CoveredBy(gate, provided[..i], found, required, controlId)
      invariant forall j | 0 <= j < i :: DefectOf(provided[j], found, required, controlId).Some? ==>
        (provided[j], DefectOf(provided[j], found, required, controlId).value) in rejected
      invariant forall r | 0 <= r < |rejected| ::
        rejected[r].0 in seen && DefectOf(rejected[r].0, found, required, controlId) == Some(rejected[r].1)
      invariant forall q, r | 0 <= q < r < |rejected| :: rejected[q].0 != rejected[r].0
    {
      ghost var before := covered;
      if provided[i] !in seen {
        var defect := DefectOf(provided[i], found, required, controlId);
        if defect.Some? {
          rejected := rejected + [(provided[i], defect.value)];
        } else {
          covered := covered + {found[provided[i]].gate};
        }
        seen := seen + {provided[i]};
      }
      CoveredStep(provided, i, found, required, controlId);
    }
    assert provided[..|provided|] == provided;
    var missing: seq<GateKey> := [];
    for g := 0 to |required|
      invariant forall gate :: gate in missing <==>
        gate in required[..g] && !CoveredBy(gate, provided, found, required, controlId)
    {
      if required[g] !in covered {
        missing := missing + [required[g]];
      }
    }
    assert required[..|required|] == required;
    check := EvidenceCheck(missing == [] && rejected == [], missing, rejected);
    if missing != [] {
      assert missing[0] in missing;
    }
    if rejected != [] {
      assert rejected[0].0 in provided;
    }
  }

  lemma CoveredStep(provided: seq<nat>, i: nat, found: map<nat, Evidence>, required: seq<GateKey>, controlId: string)
    requires i < |provided|
    ensures forall gate :: CoveredBy(gate, provided[..i + 1], found, required, controlId) <==>
      || CoveredBy(gate, provided[..i], found, required, controlId)
      || (DefectOf(provided[i], found, required, controlId).None? && found[provided[i]].gate == gate)
  {
    forall gate
      ensures CoveredBy(gate, provided[..i + 1], found, required, controlId) <==>
        || CoveredBy(gate, provided[..i], found, required, controlId)
        || (DefectOf(provided[i], found, required, controlId).None? && found[provided[i]].gate == gate)
    {
      var shorter, longer := provided[..i], provided[..i + 1];
      if CoveredBy(gate, shorter, found, required, controlId) {
        var j :| 0 <= j < i && DefectOf(shorter[j], found, required, controlId).None? && found[shorter[j]].gate == gate;
        assert longer[j] == shorter[j];
      }
      if CoveredBy(gate, longer, found, required, controlId) {
        var j :| 0 <= j < i + 1 && DefectOf(longer[j], found, required, controlId).None? && found[longer[j]].gate == gate;
        if j < i {
          assert shorter[j] == longer[j];
        }
      }
      assert longer[i] == provided[i];
    }
  }
}
