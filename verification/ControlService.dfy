/** The writes to the control row, each in its own transaction under the exclusive lock. */
module ControlService {
  import opened Wrappers
  import opened Keys
  import opened Gates
  import opened Control
  import opened Database

  class ExecutionControlService {
    const db: Database

    constructor (db: Database)
      ensures this.db == db
    {
      this.db := db;
    }

    /** Never refused and idempotent; a missing row is created stopped. */
    method Stop(freshId: string, source: StopSource)
      modifies db`control
      ensures db.ControlState() == Control.Stop(old(db.ControlState()), freshId, source)
      ensures CurrentMode(db.ControlState()) == Disabled && db.control.Some?
    {
      if db.control.None? {
        db.control := Some(ControlRow(freshId, Stored(Disabled), 1, None, Some(source)));
        return;
      }
      var current := db.control.value;
      if current.mode == Stored(Disabled) {
        return;
      }
      db.control := Some(current.(mode := Stored(Disabled), version := current.version + 1, stopSource := Some(source)));
    }

    /** The evidence a climb needs, checked against the rows its identifiers name. */
    method TransitionAllowed(controlId: string, from: Mode, to: Mode, ids: seq<nat>) returns (allowed: bool)
      ensures allowed <==> TransitionProven(db.ControlState(), controlId, from, to, ids)
    {
      var required := RequiredGates(from, to);
      if required == [] {
        return true;
      }
      var check := CheckEvidence(required, ids, Found(db.evidence, ids), controlId);
      return check.ok;
    }

    method ChangeMode(target: Mode, expectedVersion: nat, ids: seq<nat>, interlockOpen: bool, freshId: string)
      returns (result: Result<(), ControlError>)
      modifies db`control
      ensures
        match Control.ChangeMode(old(db.ControlState()), target, expectedVersion, ids, interlockOpen, freshId)
        case Err(e) => result == Err(e) && db.ControlState() == old(db.ControlState())
        case Ok(after) => result.Ok? && db.ControlState() == after
    {
      if target == Disabled {
        Stop(freshId, Manual);
        return Ok(());
      }
      if db.control.None? {
        return Err(Unavailable);
      }
      var current := db.control.value;
      if current.version != expectedVersion {
        return Err(VersionConflict);
      }
      var from := if current.mode.Stored? then current.mode.mode else Disabled;
      var (direction, allowed) := TransitionShape(from, target);
      if !allowed {
        return Err(BadTransition);
      }
      if direction == Up {
        if current.policy.None? {
          return Err(NoPolicy);
        }
        if target == LiveCanary && !interlockOpen {
          return Err(InterlockClosed);
        }
        var proven := TransitionAllowed(current.id, from, target, ids);
        if !proven {
          return Err(Unproven);
        }
      }
      db.control := Some(current.(mode := Stored(target), version := current.version + 1, stopSource := None));
      return Ok(());
    }

    method CreateRiskPolicy(policy: RiskPolicy, activate: bool, expectedVersion: Option<nat>)
      returns (result: Result<nat, ControlError>)
      modifies db`control, db`policies
      ensures
        match Control.CreateRiskPolicy(old(db.ControlState()), policy, activate, expectedVersion)
        case Err(e) => result == Err(e) && db.ControlState() == old(db.ControlState())
        case Ok(after) => result == Ok(|old(db.policies)|) && db.ControlState() == after
    {
      if activate {
        if db.control.None? {
          return Err(Unavailable);
        }
        if db.control.value.mode != Stored(Disabled) {
          return Err(NotStopped);
        }
        if expectedVersion.Some? && db.control.value.version != expectedVersion.value {
          return Err(VersionConflict);
        }
      }
      if !PolicyOk(policy) {
        return Err(BadRow);
      }
      var id := |db.policies|;
      db.policies := db.policies + [policy.(version := id + 1)];
      if activate {
        var current := db.control.value;
        db.control := Some(current.(policy := Some(id), version := current.version + 1));
      }
      return Ok(id);
    }
  }
}
