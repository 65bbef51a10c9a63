/** `automation/release_rollback.py`: converge, validate, roll back, and remember a release that
    failed.  Helpers answer anything; converging and rolling back may leave the pointer anywhere. */
module ReleaseUpdate {
  import Reconcile

  const LOCK_CONTENTION_RC := Reconcile.LOCK_CONTENTION_RC
  const FAILED_RELEASE_RC := Reconcile.FAILED_RELEASE_RC

  datatype Phase = RollbackPending | Failed

  datatype FailedRelease = FailedRelease(failedSha: string, priorSha: string, reason: string, phase: Phase,
                                         noticeSent: bool)

  /** The fingerprint file; `Corrupt` is one that `load_failed_release` refuses. */
  datatype Stored = Nothing | Corrupt | Record(failed: FailedRelease)

  datatype Transition = Transition(priorSha: string, targetSha: string)

  /** A code, the `FailedReleaseStateError`, or no answer because the process died. */
  datatype Outcome = Code(rc: int) | StateError | Crashed

  /** What becomes of a notice: it is delivered, and the process dies before that is saved. */
  datatype Telling = Telling(delivered: bool, dies: bool)

  datatype Validation = NotRun | Passed | Broken

  /** What the helpers were asked to do. */
  datatype Event =
    | Attempted(target: string, stored: Stored, rc: int)
    | RolledBack(pointer: string, failed: FailedRelease)
    | Told(failed: FailedRelease, delivered: bool)
    | Ran(command: Command, rc: int)

  datatype Command = Restart | Health | Smoke

  predicate Suppresses(stored: Stored, target: string) {
    stored.Corrupt? || (stored.Record? && stored.failed.failedSha == target)
  }

  /** No converging for a release known to be bad, no rolling back of a release that is not the failed
      one, no second notice. */
  predicate Proper(e: Event) {
    match e
    case Attempted(target, stored, _) => !Suppresses(stored, target)
    case RolledBack(pointer, failed) => pointer == failed.failedSha
    case Told(failed, _) => !failed.noticeSent
    case Ran(_, _) => true
  }

  ghost predicate AllProper(log: seq<Event>) { forall k :: 0 <= k < |log| ==> Proper(log[k]) }

  ghost predicate NoAttempt(log: seq<Event>, from: nat) { forall k :: from <= k < |log| ==> !log[k].Attempted? }

  function Deliveries(log: seq<Event>): nat {
    if log == [] then 0
    else Deliveries(log[..|log| - 1]) + if log[|log| - 1].Told? && log[|log| - 1].delivered then 1 else 0
  }

  lemma DeliveriesOne(log: seq<Event>, e: Event)
    ensures Deliveries(log + [e]) == Deliveries(log) + if e.Told? && e.delivered then 1 else 0
  {
    assert (log + [e])[..|log|] == log;
  }

  /** From place `k` on, the gateways were restarted and then found healthy. */
  predicate Recovered(log: seq<Event>, k: nat) {
    k + 2 <= |log| && log[k] == Ran(Restart, 0) && log[k + 1] == Ran(Health, 0)
  }

  /** From place `k` on, the gateways were restarted unless they are stopped, and the smoke test passed. */
  predicate Smoked(log: seq<Event>, k: nat, stopped: bool) {
    if stopped then k < |log| && log[k] == Ran(Smoke, 0)
    else k + 2 <= |log| && log[k] == Ran(Restart, 0) && log[k + 1] == Ran(Smoke, 0)
  }

  /** The step that failed, seen from the commands that were run from place `k` on. */
  predicate Broke(log: seq<Event>, k: nat, stopped: bool, reason: string) {
    if k < |log| && log[k].Ran? && log[k].command == Restart && log[k].rc != 0 then
      !stopped && reason == "gateway-restart"
    else
      var at := if stopped then k else k + 1;
      && (!stopped ==> k < |log| && log[k] == Ran(Restart, 0))
      && at < |log| && log[at].Ran? && log[at].command == Smoke && log[at].rc != 0 && reason == "deploy-smoke"
  }

  /** What a failed validation leaves on disk. */
  ghost predicate Marked(stored: Stored, t: Transition, log: seq<Event>, k: nat, stopped: bool) {
    && stored.Record? && stored.failed.failedSha == t.targetSha && stored.failed.priorSha == t.priorSha
    && Broke(log, k, stopped, stored.failed.reason)
  }

  lemma BrokeLater(before: seq<Event>, log: seq<Event>, k: nat, stopped: bool, reason: string)
    requires before <= log && Broke(before, k, stopped, reason)
    ensures Broke(log, k, stopped, reason)
  {
  }

  /** `_stranded` */
  predicate Stranded(failed: FailedRelease, active: string) { active != failed.failedSha && active != failed.priorSha }

  /** The target was converged once; a refusal is passed on, a pointer elsewhere is code 1, and only a pointer on the
      target is validated. */
  ghost predicate Answered(before: seq<Event>, log: seq<Event>, t: Transition, r: Outcome, validation: Validation,
                           current: string) {
    var k := |before|;
    && k < |log| && log[k].Attempted? && log[k].target == t.targetSha
    && (log[k].rc != 0 ==> validation == NotRun && r == Code(log[k].rc) && |log| == k + 1)
    && (log[k].rc == 0 && validation == NotRun ==> r == Code(1) && current != t.targetSha && |log| == k + 1)
  }

  /** A failed validation: the release is marked with the step that failed, and the notices since are told from the
      flag that was saved, as nobody had been told before. */
  ghost predicate FailedNow(before: seq<Event>, log: seq<Event>, k: nat, t: Transition, a: Telling, stopped: bool,
                            r: Outcome, stored: Stored, lost: int) {
    && (r == Code(FAILED_RELEASE_RC) || r == Crashed) && Marked(stored, t, log, k, stopped)
    && Deliveries(log) - Deliveries(before) == Bit(stored.failed.noticeSent) + lost
    && (r != Crashed ==> stored.failed.noticeSent == a.delivered)
  }

  /** Code 0 is for a target that is live and passed, with no fingerprint left. */
  ghost predicate PassedNow(log: seq<Event>, k: nat, t: Transition, stopped: bool, r: Outcome, current: string,
                            stored: Stored) {
    r == Code(0) && stored == Nothing && current == t.targetSha && Smoked(log, k, stopped)
  }

  /** One attempt to converge, with how it was answered and validated. */
  ghost predicate Converged(before: seq<Event>, log: seq<Event>, t: Transition, a: Telling, stopped: bool, r: Outcome,
                            validation: Validation, current: string, stored: Stored, lost: int) {
    && Answered(before, log, t, r, validation, current) && (r == Code(0) <==> validation == Passed)
    && (validation == Passed ==> PassedNow(log, |before| + 1, t, stopped, r, current, stored))
    && (validation == Broken ==> FailedNow(before, log, |before| + 1, t, a, stopped, r, stored, lost))
  }

  function Bit(b: bool): nat { if b then 1 else 0 }

  /** The fingerprint that stays while the same release is named. */
  ghost predicate SameFailure(a: Stored, b: Stored) {
    && a.Record? && b.Record? && b.failed.failedSha == a.failed.failedSha && b.failed.priorSha == a.failed.priorSha
    && b.failed.reason == a.failed.reason && (a.failed.noticeSent ==> b.failed.noticeSent)
  }

  /** A fingerprint was dealt with: the release was not tried again, the fingerprint is still there, and the notices
      since are told from its flag. */
  ghost predicate Resumed(from: Stored, to: Stored, before: seq<Event>, log: seq<Event>, r: Outcome, lost: int) {
    && NoAttempt(log, |before|) && (r == Code(FAILED_RELEASE_RC) || r == Crashed) && SameFailure(from, to)
    && Deliveries(log) - Deliveries(before) == Bit(to.failed.noticeSent) - Bit(from.failed.noticeSent) + lost
  }

  /** A settled failure is told, and that is saved unless the process dies in between. */
  ghost predicate TellsOnly(reliable: bool, a: Telling, before: FailedRelease, lostBefore: nat, r: Outcome,
                            after: Stored, lostAfter: nat) {
    && after.Record? && after.failed.phase == Failed && (r == Crashed <==> a.dies && !reliable)
    && (r == Crashed ==> after.failed.noticeSent == before.noticeSent)
    && (r == Crashed ==> lostAfter == lostBefore + Bit(a.delivered && !before.noticeSent))
    && (r != Crashed ==> after.failed.noticeSent == (before.noticeSent || a.delivered) && lostAfter == lostBefore)
  }

  class Updater {
    /** The name that the live pointer resolves to, "" when it does not resolve. */
    var current: string
    var stored: Stored
    const gatewaysStopped: bool
    /** Helpers that do what they are asked. */
    const reliable: bool
    ghost var log: seq<Event>
    /** How the last call's validation went. */
    ghost var validation: Validation
    /** Notices that were delivered right before a crash, so that no record of it was saved. */
    ghost var lost: nat

    constructor (pointer: string, fingerprint: Stored, stopped: bool, sound: bool)
      ensures current == pointer && stored == fingerprint && gatewaysStopped == stopped && reliable == sound
      ensures log == [] && lost == 0
    {
      current, stored, gatewaysStopped, reliable := pointer, fingerprint, stopped, sound;
      log, validation, lost := [], NotRun, 0;
    }

    // ------------------------------------------------------------ helpers

    method RunConverge(target: string) returns (rc: int)
      modifies this`current, this`log
      ensures log == old(log) + [Attempted(target, stored, rc)] && Deliveries(log) == old(Deliveries(log))
    {
      rc, current := *, *;
      log := log + [Attempted(target, stored, rc)];
      DeliveriesOne(old(log), Attempted(target, stored, rc));
    }

    method RunRollback(failed: FailedRelease) returns (rc: int)
      modifies this`current, this`log
      ensures log == old(log) + [RolledBack(old(current), failed)]
      ensures reliable ==> rc == 0 && current == failed.priorSha
    {
      log := log + [RolledBack(current, failed)];
      if reliable {
        rc, current := 0, failed.priorSha;
      } else {
        rc, current := *, *;
      }
    }

    /** Restarting, asking for health, the smoke script. */
    method RunCommand(command: Command) returns (rc: int)
      modifies this`log
      ensures log == old(log) + [Ran(command, rc)] && Deliveries(log) == old(Deliveries(log))
      ensures reliable ==> rc == 0
    {
      rc := *;
      if reliable {
        rc := 0;
      }
      log := log + [Ran(command, rc)];
      DeliveriesOne(old(log), Ran(command, rc));
    }

    method Crash() returns (crash: bool)
      ensures reliable ==> !crash
    {
      crash := *;
      crash := crash && !reliable;
    }

    // ------------------------------------------------------------ the transaction

    method DeliverOnce(failed: FailedRelease, delivered: bool) returns (updated: FailedRelease)
      modifies this`log
      ensures updated == failed.(noticeSent := failed.noticeSent || delivered)
      ensures old(log) <= log && |log| <= |old(log)| + 1 && (old(AllProper(log)) ==> AllProper(log))
      ensures NoAttempt(log, |old(log)|)
      ensures Deliveries(log) == old(Deliveries(log)) + Bit(updated.noticeSent) - Bit(failed.noticeSent)
    {
      if failed.noticeSent {
        return failed;
      }
      log := log + [Told(failed, delivered)];
      DeliveriesOne(old(log), Told(failed, delivered));
      updated := failed.(noticeSent := delivered);
    }

    /** The pointer is back, as far as can be seen: it never left, or the helper says so. */
    method RestorePointer(failed: FailedRelease) returns (restored: bool)
      modifies this`current, this`log
      ensures old(log) <= log && (old(AllProper(log)) ==> AllProper(log)) && NoAttempt(log, |old(log)|)
      ensures Deliveries(log) == old(Deliveries(log))
      ensures restored ==> !Stranded(failed, old(current))
      ensures reliable && !Stranded(failed, old(current)) ==> restored && current == failed.priorSha
      ensures old(current) != failed.failedSha
        ==> current == old(current) && restored == (old(current) == failed.priorSha)
    {
      restored := current == failed.priorSha;
      if current == failed.failedSha {
        ghost var active := current;
        var code := RunRollback(failed);
        DeliveriesOne(old(log), RolledBack(active, failed));
        restored := code == 0;
      }
    }

    /** Restarted and healthy, unless the gateways are to stay stopped. */
    method RecoverGateways() returns (recovered: bool, crashed: bool)
      modifies this`log
      ensures old(log) <= log && (old(AllProper(log)) ==> AllProper(log)) && NoAttempt(log, |old(log)|)
      ensures Deliveries(log) == old(Deliveries(log)) && (reliable ==> recovered && !crashed)
      ensures gatewaysStopped ==> recovered && !crashed && log == old(log)
      ensures !gatewaysStopped ==> (recovered <==> Recovered(log, |old(log)|))
    {
      if gatewaysStopped {
        return true, false;
      }
      var restart := RunCommand(Restart);
      crashed := Crash();
      if crashed {
        return false, true;
      }
      var health := RunCommand(Health);
      recovered := restart == 0 && health == 0;
    }

    /** The notice, and the record of it: a crash in between loses the record. */
    method TellAndSave(failed: FailedRelease, a: Telling) returns (r: Outcome)
      requires stored.Record? && failed == stored.failed.(phase := failed.phase)
      modifies this`stored, this`log, this`lost
      ensures r == if a.dies && !reliable then Crashed else Code(FAILED_RELEASE_RC)
      ensures r == Crashed ==> stored == old(stored) && lost == old(lost) + Bit(a.delivered && !failed.noticeSent)
      ensures r != Crashed ==> stored == Record(failed.(noticeSent := failed.noticeSent || a.delivered))
      ensures SameFailure(old(stored), stored)
      ensures old(log) <= log && (old(AllProper(log)) ==> AllProper(log)) && NoAttempt(log, |old(log)|)
      ensures Deliveries(log) - old(Deliveries(log))
           == Bit(stored.failed.noticeSent) - Bit(failed.noticeSent) + lost - old(lost)
      ensures r != Crashed ==> lost == old(lost)
    {
      var updated := DeliverOnce(failed, a.delivered);
      if a.dies && !reliable {
        lost := lost + Bit(updated.noticeSent) - Bit(failed.noticeSent);
        return Crashed;
      }
      stored := Record(updated);
      r := Code(FAILED_RELEASE_RC);
    }

    /** The fingerprint is on disk before and after, whatever crash comes; it is settled only when the
        pointer and the gateways are back. */
    method Rollback(failed: FailedRelease, a: Telling) returns (r: Outcome)
      requires failed.phase == RollbackPending
      modifies this
      ensures old(log) <= log && (old(AllProper(log)) ==> AllProper(log)) && (r == Crashed ==> !reliable)
      ensures Resumed(Record(failed), stored, old(log), log, r, lost - old(lost))
      ensures reliable && !Stranded(failed, old(current))
        ==> stored.failed.phase == Failed && current == failed.priorSha
      ensures stored.failed.phase == Failed ==> !Stranded(failed, old(current))
      ensures stored.failed.phase == Failed && !gatewaysStopped ==> exists k :: |old(log)| <= k && Recovered(log, k)
      ensures validation == old(validation)
      ensures r != Crashed ==> stored.failed.noticeSent == (failed.noticeSent || a.delivered) && lost == old(lost)
    {
      stored := Record(failed);
      var crash := Crash();
      if crash {
        return Crashed;
      }
      var restored := RestorePointer(failed);
      crash := Crash();
      if crash {
        return Crashed;
      }
      var recovered := false;
      ghost var from := |log|;
      if restored {
        recovered, crash := RecoverGateways();
        if crash {
          return Crashed;
        }
      }
      ghost var before := log;
      r := TellAndSave(failed.(phase := if restored && recovered then Failed else RollbackPending), a);
      assert Recovered(before, from) ==> Recovered(log, from);
    }

    method ResumeOrBlock(failed: FailedRelease, a: Telling) returns (r: Outcome)
      requires stored == Record(failed) && failed.phase == Failed
      modifies this`stored, this`log, this`lost
      ensures TellsOnly(reliable, a, failed, old(lost), r, stored, lost)
      ensures old(log) <= log && (old(AllProper(log)) ==> AllProper(log)) && (r == Crashed ==> !reliable)
      ensures Resumed(Record(failed), stored, old(log), log, r, lost - old(lost))
    {
      r := TellAndSave(failed, a);
    }

    /** `_settle_stranded`, where events have overtaken the fingerprint.  After it no rollback is due that
        could not be made, a fingerprint of another release is out of the way, and the named release is
        suppressed exactly as before. */
    method Settle(t: Transition)
      modifies this`stored
      ensures stored.Record? && stored.failed.phase == RollbackPending ==> !Stranded(stored.failed, current)
      ensures Suppresses(stored, t.targetSha) <==> Suppresses(old(stored), t.targetSha)
      ensures stored.Corrupt? <==> old(stored).Corrupt?
      ensures stored.Record?
        ==> SameFailure(old(stored), stored) && stored.failed.noticeSent == old(stored).failed.noticeSent
      ensures !old(IsStranded()) ==> stored == old(stored)
      ensures old(IsStranded()) && t.priorSha == current && !Suppresses(old(stored), t.targetSha) ==> Attempts(t)
      ensures old(IsStranded()) && !Suppresses(old(stored), t.targetSha) ==> stored == Nothing
    {
      if stored.Record? && Stranded(stored.failed, current) {
        if stored.failed.failedSha != t.targetSha {
          stored := Nothing;
        } else {
          stored := Record(stored.failed.(phase := Failed));
        }
      }
    }

    predicate IsStranded() reads this { stored.Record? && Stranded(stored.failed, current) }

    /** The calls that converge: the release is not known to be bad, no rollback is due, and the pointer
        is where the caller saw it. */
    predicate Attempts(t: Transition) reads this {
      && !Suppresses(stored, t.targetSha) && current == t.priorSha
      && (stored.Record? && stored.failed.phase == RollbackPending ==> Stranded(stored.failed, current))
    }

    /** The release is not known to be bad and no rollback is due, but the pointer is not where the caller saw it. */
    predicate Contended(t: Transition) reads this {
      && !Suppresses(stored, t.targetSha) && current != t.priorSha
      && (stored.Record? && stored.failed.phase == RollbackPending ==> Stranded(stored.failed, current))
    }

    /** A call that deals with the fingerprint: it names the release, or its rollback is due and can be made. */
    predicate Due(t: Transition) reads this {
      && stored.Record?
      && (stored.failed.failedSha == t.targetSha
          || (stored.failed.phase == RollbackPending && !Stranded(stored.failed, current)))
    }

    /** A call that only tells: the rollback is done and the release is still named. */
    predicate Blocks(t: Transition) reads this {
      stored.Record? && stored.failed.phase == Failed && stored.failed.failedSha == t.targetSha
    }

    /** One call. */
    method ApplyReleaseUpdate(t: Transition, a: Telling) returns (r: Outcome)
      modifies this
      ensures old(log) <= log && (old(AllProper(log)) ==> AllProper(log))
      ensures old(stored).Corrupt? ==> r == StateError && stored == Corrupt && log == old(log)
      ensures old(Due(t)) ==> Resumed(old(stored), stored, old(log), log, r, lost - old(lost))
      ensures r == Crashed ==> !reliable
      ensures old(Blocks(t)) ==> TellsOnly(reliable, a, old(stored).failed, old(lost), r, stored, lost)
      ensures old(Blocks(t)) ==> current == old(current)
      ensures r != Crashed ==> lost == old(lost)
      ensures !NoAttempt(log, |old(log)|) <==> old(Attempts(t))
      ensures old(Attempts(t))
        ==> Converged(old(log), log, t, a, gatewaysStopped, r, validation, current, stored, lost - old(lost))
      ensures !old(Attempts(t)) ==> validation == NotRun && r != Code(0)
      ensures old(Contended(t)) ==> r == Code(LOCK_CONTENTION_RC) && log == old(log)
      ensures validation == NotRun && (old(Attempts(t)) || old(Contended(t)))
        ==> stored == if old(IsStranded()) then Nothing else old(stored)
      ensures reliable && !old(Attempts(t)) && old(current) == t.priorSha && !Suppresses(old(stored), t.targetSha)
        ==> SameFailure(old(stored), stored) && stored.failed.phase == Failed && current == stored.failed.priorSha
    {
      validation := NotRun;
      if stored.Corrupt? {
        return StateError;
      }
      Settle(t);
      r := Act(t, a);
    }

    /** What the settled fingerprint calls for. */
    method Act(t: Transition, a: Telling) returns (r: Outcome)
      requires !stored.Corrupt? && validation == NotRun
      requires stored.Record? && stored.failed.phase == RollbackPending ==> !Stranded(stored.failed, current)
      modifies this
      ensures old(log) <= log && (old(AllProper(log)) ==> AllProper(log)) && (r == Crashed ==> !reliable)
      ensures r != Crashed ==> lost == old(lost)
      ensures old(Due(t)) ==> Resumed(old(stored), stored, old(log), log, r, lost - old(lost)) && validation == NotRun
      ensures old(Due(t)) && reliable && old(stored).failed.phase == RollbackPending
        ==> stored.failed.phase == Failed && current == stored.failed.priorSha
      ensures old(Blocks(t)) ==> TellsOnly(reliable, a, old(stored).failed, old(lost), r, stored, lost)
      ensures old(Blocks(t)) ==> current == old(current)
      ensures !old(Due(t)) ==> (!NoAttempt(log, |old(log)|) <==> old(current) == t.priorSha)
      ensures !old(Due(t)) && old(current) == t.priorSha
        ==> Converged(old(log), log, t, a, gatewaysStopped, r, validation, current, stored, lost - old(lost))
      ensures !old(Due(t)) && old(current) != t.priorSha
        ==> r == Code(LOCK_CONTENTION_RC) && log == old(log) && validation == NotRun
      ensures !old(Due(t)) && validation == NotRun ==> stored == old(stored)
    {
      if stored.Record? && stored.failed.phase == RollbackPending {
        r := Rollback(stored.failed, a);
        return;
      }
      if stored.Record? && stored.failed.failedSha == t.targetSha {
        r := ResumeOrBlock(stored.failed, a);
        return;
      }
      r := Update(t, a);
    }

    /** A release that is not known to be bad, with no rollback due. */
    method Update(t: Transition, a: Telling) returns (r: Outcome)
      requires !Suppresses(stored, t.targetSha) && validation == NotRun
      modifies this
      ensures old(log) <= log && (old(AllProper(log)) ==> AllProper(log))
      ensures (r == Crashed ==> !reliable) && (r != Crashed ==> lost == old(lost))
      ensures !NoAttempt(log, |old(log)|) <==> old(current) == t.priorSha
      ensures old(current) == t.priorSha
        ==> Converged(old(log), log, t, a, gatewaysStopped, r, validation, current, stored, lost - old(lost))
      ensures old(current) != t.priorSha ==> r == Code(LOCK_CONTENTION_RC) && log == old(log) && validation == NotRun
      ensures validation == NotRun ==> stored == old(stored)
    {
      if current != t.priorSha {
        return Code(LOCK_CONTENTION_RC);
      }
      r := ConvergeNow(t, a);
    }

    /** Converge, see that the pointer is on the target, validate. */
    method ConvergeNow(t: Transition, a: Telling) returns (r: Outcome)
      requires !Suppresses(stored, t.targetSha) && validation == NotRun
      modifies this
      ensures old(log) <= log && (old(AllProper(log)) ==> AllProper(log)) && !NoAttempt(log, |old(log)|)
      ensures (r == Crashed ==> !reliable) && (r != Crashed ==> lost == old(lost))
      ensures validation == NotRun ==> stored == old(stored)
      ensures Converged(old(log), log, t, a, gatewaysStopped, r, validation, current, stored, lost - old(lost))
    {
      var rc := RunConverge(t.targetSha);
      assert log[|old(log)|].Attempted?;
      if rc != 0 {
        return Code(rc);
      }
      if current != t.targetSha {
        return Code(1);
      }
      r := Validate(t, a);
      assert log[|old(log)|].Attempted?;
    }

    /** Restart, unless the gateways are stopped, and smoke test. */
    method Probe() returns (ok: bool, reason: string)
      modifies this`log
      ensures old(log) <= log && (old(AllProper(log)) ==> AllProper(log)) && NoAttempt(log, |old(log)|)
      ensures ok <==> Smoked(log, |old(log)|, gatewaysStopped)
      ensures !ok ==> Broke(log, |old(log)|, gatewaysStopped, reason)
      ensures Deliveries(log) == old(Deliveries(log))
    {
      if !gatewaysStopped {
        var restart := RunCommand(Restart);
        if restart != 0 {
          return false, "gateway-restart";
        }
      }
      var smoke := RunCommand(Smoke);
      ok, reason := smoke == 0, "deploy-smoke";
    }

    /** On failure the fingerprint is written and the rollback starts. */
    method Validate(t: Transition, a: Telling) returns (r: Outcome)
      requires current == t.targetSha
      modifies this
      ensures old(log) <= log && (old(AllProper(log)) ==> AllProper(log)) && NoAttempt(log, |old(log)|)
      ensures if validation == Passed then r == Code(0) else r == Code(FAILED_RELEASE_RC) || (r == Crashed && !reliable)
      ensures validation == Passed || validation == Broken
      ensures validation == Passed ==> PassedNow(log, |old(log)|, t, gatewaysStopped, r, current, stored)
      ensures validation == Broken
        ==> FailedNow(old(log), log, |old(log)|, t, a, gatewaysStopped, r, stored, lost - old(lost))
      ensures r != Crashed ==> lost == old(lost)
    {
      var ok, reason := Probe();
      ghost var seen := log;
      if ok {
        validation := Passed;
        stored := Nothing;
        return Code(0);
      }
      validation := Broken;
      r := Rollback(FailedRelease(t.targetSha, t.priorSha, reason, RollbackPending, false), a);
      BrokeLater(seen, log, |old(log)|, gatewaysStopped, reason);
    }
  }

  // ---------------------------------------------------------------- whole runs

  /** Something else moves the pointer. */
  method MoveOutside(u: Updater)
    modifies u`current
  {
    u.current := *;
  }

  /** Every event of every run is proper, whatever is named, whatever the helpers do and wherever the
      pointer is moved in between. */
  method Serve(u: Updater, calls: seq<Transition>)
    requires u.log == []
    modifies u
    ensures AllProper(u.log)
  {
    for i := 0 to |calls|
      invariant AllProper(u.log)
    {
      MoveOutside(u);
      var a: Telling := *;
      var r := u.ApplyReleaseUpdate(calls[i], a);
    }
  }

  /** Once a release is known to be bad, no call converges while every call names it, the record of it
      stays, and the owner hears of it at most once, but for each crash that falls between a delivered
      notice and the saving of that fact. */
  method ServeSuppressed(u: Updater, calls: seq<Transition>)
    requires u.stored.Record? && forall k :: 0 <= k < |calls| ==> calls[k].targetSha == u.stored.failed.failedSha
    modifies u
    ensures NoAttempt(u.log, |old(u.log)|) && SameFailure(old(u.stored), u.stored) && old(u.log) <= u.log
    ensures u.reliable ==> u.lost == old(u.lost)
    ensures Deliveries(u.log) - old(Deliveries(u.log))
         == Bit(u.stored.failed.noticeSent) - Bit(old(u.stored).failed.noticeSent) + u.lost - old(u.lost)
  {
    for i := 0 to |calls|
      invariant old(u.log) <= u.log && NoAttempt(u.log, |old(u.log)|) && SameFailure(old(u.stored), u.stored)
      invariant u.reliable ==> u.lost == old(u.lost)
      invariant Deliveries(u.log) - old(Deliveries(u.log))
             == Bit(u.stored.failed.noticeSent) - Bit(old(u.stored).failed.noticeSent) + u.lost - old(u.lost)
    {
      MoveOutside(u);
      var a: Telling := *;
      var r := u.ApplyReleaseUpdate(calls[i], a);
    }
  }

  /** The call whose validation fails starts such a run: counted from that call on, the owner hears of the failed
      release once, plus once for each crash that loses the record, and exactly once when no process dies and the first
      notice goes out. */
  method FailThenServe(u: Updater, t: Transition, a: Telling, calls: seq<Transition>)
    returns (ghost broke: bool, ghost mark: nat)
    requires forall k :: 0 <= k < |calls| ==> calls[k].targetSha == t.targetSha
    modifies u
    ensures mark >= |old(u.log)|
    ensures broke ==> NoAttempt(u.log, mark) && Marked(u.stored, t, u.log, |old(u.log)| + 1, u.gatewaysStopped)
    ensures broke
      ==> Deliveries(u.log) - old(Deliveries(u.log)) == Bit(u.stored.failed.noticeSent) + u.lost - old(u.lost)
    ensures broke && u.reliable && a.delivered ==> Deliveries(u.log) == old(Deliveries(u.log)) + 1
  {
    var r := u.ApplyReleaseUpdate(t, a);
    broke, mark := u.validation == Broken, |u.log|;
    if u.stored.Record? && u.stored.failed.failedSha == t.targetSha {
      ghost var failed, log := u.stored.failed, u.log;
      ServeSuppressed(u, calls);
      if broke {
        BrokeLater(log, u.log, |old(u.log)| + 1, u.gatewaysStopped, failed.reason);
      }
    }
  }

  /** The updater cannot freeze: with helpers that work, a release that is not known to be bad is
      converged by the second call, from any readable fingerprint, phase and pointer. */
  method AtMostTwoCalls(u: Updater, target: string)
    requires u.reliable && !Suppresses(u.stored, target)
    modifies u
    ensures !NoAttempt(u.log, |old(u.log)|)
  {
    var a: Telling, b: Telling := *, *;
    var first := u.ApplyReleaseUpdate(Transition(u.current, target), a);
    ghost var between := u.log;
    var second := u.ApplyReleaseUpdate(Transition(u.current, target), b);
    assert NoAttempt(between, |old(u.log)|) ==> !NoAttempt(u.log, |between|);
  }

  /** One failed release, told twice: the process dies right after the first notice was delivered. */
  method ToldTwice() returns (u: Updater, first: Outcome, second: Outcome)
    ensures first == Crashed && second == Code(FAILED_RELEASE_RC)
    ensures Deliveries(u.log) == 2 && u.lost == 1 && u.stored.Record? && u.stored.failed.noticeSent
  {
    var failed := FailedRelease("b", "a", "deploy-smoke", Failed, false);
    u := new Updater("a", Record(failed), false, false);
    first := u.ApplyReleaseUpdate(Transition("a", "b"), Telling(true, true));
    second := u.ApplyReleaseUpdate(Transition("a", "b"), Telling(true, false));
  }
}
