/** Migrating again after a run that stopped: any number of attempts, each of which plans on the account
    that the one before it left. */
module MigrationRetries {
  import opened Text
  import opened MigrationModel
  import opened MigrationSteps
  import opened MigrationSafety
  import opened MigrationPlan
  import opened MigrationTheorems
  import opened MigrationFixpoint

  /** Planning on `d` and sending some of the requests leads to `e`. */
  ghost predicate Attempt(o: string, d: Drive, e: Drive) {
    exists plan, k :: AttemptOf(o, d, plan, k, e)
  }

  ghost predicate AttemptOf(o: string, d: Drive, plan: Plan, k: nat, e: Drive) {
    PlanFor(o, d, plan) && ThreeDeep(plan.moves) && k <= |Ops(plan)| && Runs(d, Ops(plan)[..k], e)
  }

  // ---------------------------------------------------------------- what is legacy afterwards was so before

  lemma RootBefore(o: string, d: Drive, e: Drive, l: int)
    requires Inv(o, d, e) && o !in KINDS && LegacyRoot(e, l)
    ensures l < |d| && e[l] == d[l] && LegacyRoot(d, l)
  {
    OutputsApart(o, e, l, l);
    assert l >= |d| ==> Added(o, e, l);
    assert Kept(o, d, e, l);
  }

  lemma FolderBefore(o: string, d: Drive, e: Drive, p: int)
    requires Inv(o, d, e) && o !in KINDS && LegacyFolder(e, p)
    ensures p < |d| && e[p] == d[p] && LegacyFolder(d, p)
  {
    if LegacyRoot(e, p) {
      RootBefore(o, d, e, p);
    } else {
      var l :| 0 <= l < |e| && LegacyRoot(e, l) && e[p].parent == e[l].id;
      RootBefore(o, d, e, l);
      OutputsApart(o, e, p, l);
      assert p >= |d| ==> Added(o, e, p);
      assert Kept(o, d, e, p);
    }
  }

  lemma FileBefore(o: string, d: Drive, e: Drive, j: int)
    requires Inv(o, d, e) && o !in KINDS && LegacyFile(e, j)
    ensures j < |d| && e[j] == d[j] && LegacyFile(d, j)
  {
    var p :| 0 <= p < |e| && LegacyFolder(e, p) && e[j].parent == e[p].id;
    FolderBefore(o, d, e, p);
    assert j >= |d| ==> Added(o, e, j);
    assert Kept(o, d, e, j);
    if Deep(o, e, e[j].parent) {
      var y :| 0 <= y < |e| && Bottom(o, e, y) && e[y].id == e[j].parent;
      DeepIsNotLegacy(o, e, y, p);
    }
  }

  // ---------------------------------------------------------------- no winner is ever trashed

  /** A file that no attempt may trash: while it is in the legacy folders it is the newest of its name. */
  ghost predicate Spared(d: Drive, i: int) {
    0 <= i < |d| && !d[i].folder && !d[i].trashed && (LegacyFile(d, i) ==> Winner(d, i))
  }

  lemma AttemptInv(o: string, d: Drive, e: Drive)
    requires DriveValid(d) && o != "" && o !in KINDS && Attempt(o, d, e)
    ensures Inv(o, d, e)
  {
    var plan, k :| AttemptOf(o, d, plan, k, e);
    AtEveryMoment(o, d, plan, k, e);
  }

  lemma SparedAgain(o: string, d: Drive, e: Drive, i: int)
    requires Inv(o, d, e) && o !in KINDS && Spared(d, i)
    ensures Spared(e, i)
  {
    assert Kept(o, d, e, i);
    assert !Duplicate(d, i) && !Goes(d, i);
    if LegacyFile(e, i) {
      FileBefore(o, d, e, i);
      forall j | 0 <= j < |e| && LegacyFile(e, j) && e[j].name == e[i].name ensures Older(e[j], e[i]) {
        FileBefore(o, d, e, j);
      }
    }
  }

  /** Over any number of attempts, each stopped anywhere, no winner of the original account is trashed. */
  lemma {:induction false} NoWinnerIsEverTrashed(o: string, states: seq<Drive>, i: int)
    requires states != [] && DriveValid(states[0]) && o != "" && o !in KINDS && Winner(states[0], i)
    requires forall k :: 0 < k < |states| ==> Attempt(o, states[k - 1], states[k])
    ensures DriveValid(Last(states)) && Spared(Last(states), i)
  {
    if |states| > 1 {
      var front := Front(states);
      NoWinnerIsEverTrashed(o, front, i);
      assert Attempt(o, states[|states| - 2], states[|states| - 1]);
      AttemptInv(o, Last(front), Last(states));
      SparedAgain(o, Last(front), Last(states), i);
    }
  }

  // ---------------------------------------------------------------- what a second run makes good

  /** A winner that a stopped run did not move is where it was, in the legacy folders. */
  lemma UnmovedIsLegacy(o: string, d: Drive, e: Drive, i: int)
    requires DriveValid(d) && Inv(o, d, e) && LegacyFile(d, i) && e[i] == d[i]
    ensures LegacyFile(e, i)
  {
    var p :| 0 <= p < |d| && LegacyFolder(d, p) && d[i].parent == d[p].id;
    UntrashedFolder(o, d, e, p);
    assert Kept(o, d, e, p);
  }

  lemma UntrashedFolder(o: string, d: Drive, e: Drive, p: int)
    requires DriveValid(d) && Inv(o, d, e) && LegacyFolder(d, p)
    ensures !e[p].trashed ==> LegacyFolder(e, p) && e[p] == d[p]
  {
    assert Kept(o, d, e, p);
    if Month(d, p) && !e[p].trashed {
      var l :| 0 <= l < |d| && LegacyRoot(d, l) && d[p].parent == d[l].id;
      assert Kept(o, d, e, l);
      assert !e[l].trashed;
      assert LegacyRoot(e, l);
    }
  }

  lemma StillLegacyIsFiled(o: string, d0: Drive, d1: Drive, d2: Drive, i: int)
    requires Inv(o, d0, d1) && Finished(o, d1, d2) && o !in KINDS && Moved(d0, i) && LegacyFile(d1, i) && Spared(d1, i)
    ensures i < |d1| <= |d2| && Deep(o, d2, d2[i].parent) && Renamed(d0, d2, i)
  {
    FileBefore(o, d0, d1, i);
    assert Moved(d1, i);
    assert Filed(o, d1, d2, i) && Renamed(d1, d2, i);
    FiledIsDeep(o, d1, d2, i);
  }

  /** Planning on `d` and sending all the requests leads to `e`. */
  ghost predicate CompleteAttempt(o: string, d: Drive, e: Drive) { exists plan :: CompleteOf(o, d, plan, e) }

  ghost predicate CompleteOf(o: string, d: Drive, plan: Plan, e: Drive) {
    PlanFor(o, d, plan) && ThreeDeep(plan.moves) && Runs(d, Ops(plan), e)
  }

  lemma CompleteFinishes(o: string, d: Drive, e: Drive)
    requires DriveValid(d) && o != "" && o !in KINDS && CompleteAttempt(o, d, e)
    ensures Finished(o, d, e)
  {
    var plan :| CompleteOf(o, d, plan, e);
    CompleteRun(o, d, plan, e);
  }

  /** Filed in any case; renamed if and only if renamed before or not moved before. */
  ghost predicate MadeGood(o: string, d0: Drive, d1: Drive, d2: Drive, i: int) {
    && 0 <= i < |d0| <= |d1| <= |d2| && DateOf(d0[i]).Some? && !d2[i].trashed && Deep(o, d2, d2[i].parent)
    && (Renamed(d0, d2, i) <==> Renamed(d0, d1, i) || LegacyFile(d1, i))
  }

  /** A stopped run and then a complete one file every dated winner; the new name is missing for exactly
      the files that the first run moved and did not rename, since the second plan no longer sees them. */
  lemma SecondRun(o: string, d0: Drive, d1: Drive, d2: Drive, i: int)
    requires DriveValid(d0) && o != "" && o !in KINDS && Attempt(o, d0, d1) && CompleteAttempt(o, d1, d2)
    requires Moved(d0, i)
    ensures MadeGood(o, d0, d1, d2, i)
  {
    AttemptInv(o, d0, d1);
    CompleteFinishes(o, d1, d2);
    AfterBoth(o, d0, d1, d2, i);
  }

  lemma AfterBoth(o: string, d0: Drive, d1: Drive, d2: Drive, i: int)
    requires DriveValid(d0) && Inv(o, d0, d1) && Finished(o, d1, d2) && o !in KINDS && Moved(d0, i)
    ensures MadeGood(o, d0, d1, d2, i)
  {
    SparedAgain(o, d0, d1, i);
    SparedAgain(o, d1, d2, i);
    if LegacyFile(d1, i) {
      StillLegacyIsFiled(o, d0, d1, d2, i);
    } else {
      StaysMoved(o, d0, d1, d2, i);
    }
  }

  lemma StaysMoved(o: string, d0: Drive, d1: Drive, d2: Drive, i: int)
    requires DriveValid(d0) && Inv(o, d0, d1) && Inv(o, d1, d2) && Moved(d0, i) && !LegacyFile(d1, i)
    ensures d2[i] == d1[i] && Deep(o, d2, d2[i].parent)
  {
    assert Kept(o, d0, d1, i) && Kept(o, d1, d2, i);
    if d1[i] == d0[i] {
      UnmovedIsLegacy(o, d0, d1, i);
    }
    InvKeepsFolders(o, d1, d2);
    DeepKept(o, d1, d2, d1[i].parent);
  }

  lemma InvKeepsFolders(o: string, d: Drive, e: Drive)
    requires Inv(o, d, e)
    ensures FoldersKept(d, e)
  {
    forall i | 0 <= i < |d|
      ensures e[i].id == d[i].id && e[i].folder == d[i].folder
      ensures d[i].folder ==> e[i].name == d[i].name && e[i].parent == d[i].parent
    {
      assert Kept(o, d, e, i);
    }
  }
}
