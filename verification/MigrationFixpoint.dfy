/** The account after a complete run, and why planning again finds nothing to do. */
module MigrationFixpoint {
  import opened MigrationModel
  import opened MigrationSteps
  import opened MigrationSafety
  import opened MigrationPlan
  import opened MigrationTheorems

  /** All requests were answered. */
  ghost predicate Finished(o: string, d0: Drive, d: Drive) {
    && DriveValid(d0) && Inv(o, d0, d) && FilesDone(o, d0, d)
    && forall j :: 0 <= j < |d0| && Goes(d0, j) ==> d[j].trashed
  }

  lemma CompleteRun(o: string, d0: Drive, plan: Plan, d: Drive)
    requires DriveValid(d0) && PlanFor(o, d0, plan) && o != "" && o !in KINDS && ThreeDeep(plan.moves)
    requires Runs(d0, Ops(plan), d)
    ensures Finished(o, d0, d)
  {
    var c, e := FolderOps(plan, false), FolderOps(plan, true);
    assert Ops(plan) == FileOps(plan) + AllMoveOps(plan.moves) + (c + e);
    var mid := FilesThrough(o, d0, plan, c + e, d);
    var later := RunsSplit(mid, c, e, d);
    AfterMonths(o, d0, plan, mid, later);
    AfterRoots(o, d0, plan, later, d);
  }

  // ---------------------------------------------------------------- one copy of every name

  /** Among the first `n` items, a legacy file named `name` that is no older than the others. */
  lemma {:induction false} NewestUpTo(d: Drive, name: string, n: nat, seed: nat) returns (w: nat)
    requires n <= |d| && LegacyFile(d, seed) && d[seed].name == name
    ensures LegacyFile(d, w) && d[w].name == name && Older(d[seed], d[w])
    ensures forall j :: 0 <= j < n && LegacyFile(d, j) && d[j].name == name ==> Older(d[j], d[w])
  {
    OlderTotal(d[seed], d[seed]);
    if n == 0 {
      w := seed;
    } else {
      var v := NewestUpTo(d, name, n - 1, seed);
      OlderTotal(d[n - 1], d[v]);
      if LegacyFile(d, n - 1) && d[n - 1].name == name && !Older(d[n - 1], d[v]) {
        w := n - 1;
        OlderTotal(d[w], d[w]);
        OlderTransitive(d[seed], d[v], d[w]);
        forall j | 0 <= j < n && LegacyFile(d, j) && d[j].name == name ensures Older(d[j], d[w]) {
          if j < n - 1 { OlderTransitive(d[j], d[v], d[w]); }
        }
      } else {
        w := v;
      }
    }
  }

  lemma WinnerExists(d: Drive, i: nat) returns (w: nat)
    requires LegacyFile(d, i)
    ensures Winner(d, w) && d[w].name == d[i].name
  {
    w := NewestUpTo(d, d[i].name, |d|, i);
  }

  lemma WinnerUnique(d: Drive, v: int, w: int)
    requires DriveValid(d) && Winner(d, v) && Winner(d, w) && d[v].name == d[w].name
    ensures v == w
  {
    OlderTotal(d[v], d[w]);
  }

  /** After a complete run exactly one of the files that shared a name is out of the trash: the
      newest, filed under its kind and year if it has a date, untouched if it has none. */
  lemma OneCopy(o: string, d0: Drive, d: Drive, i: nat) returns (w: nat)
    requires Finished(o, d0, d) && LegacyFile(d0, i)
    ensures LegacyFile(d0, w) && d0[w].name == d0[i].name && Winner(d0, w) && !d[w].trashed
    ensures forall j :: 0 <= j < |d0| && LegacyFile(d0, j) && d0[j].name == d0[i].name && j != w ==> d[j].trashed
    ensures if DateOf(d0[w]).Some? then Filed(o, d0, d, w) && Renamed(d0, d, w) else d[w] == d0[w]
  {
    w := WinnerExists(d0, i);
    assert Kept(o, d0, d, w);
    forall j | 0 <= j < |d0| && LegacyFile(d0, j) && d0[j].name == d0[i].name && j != w ensures Duplicate(d0, j) {
      if Winner(d0, j) { WinnerUnique(d0, j, w); }
    }
  }

  // ---------------------------------------------------------------- what a second look sees

  /** A live item that is neither moved nor new is exactly as it was, and was not due to go. */
  lemma StillThere(o: string, d0: Drive, d: Drive, i: int)
    requires Finished(o, d0, d) && 0 <= i < |d0| && !d[i].trashed && !Moved(d0, i)
    ensures d[i] == d0[i] && !Duplicate(d0, i) && !Goes(d0, i)
  {
    assert Kept(o, d0, d, i);
  }

  lemma SecondRoot(o: string, d0: Drive, d: Drive, l: int)
    requires Finished(o, d0, d) && o !in KINDS && LegacyRoot(d, l)
    ensures 0 <= l < |d0| && LegacyRoot(d0, l) && d[l] == d0[l] && !Goes(d0, l)
  {
    if l >= |d0| {
      assert Added(o, d, l);
      OutputsApart(o, d, l, l);
    }
    assert Kept(o, d0, d, l);
    StillThere(o, d0, d, l);
  }

  lemma SecondMonth(o: string, d0: Drive, d: Drive, m: int) returns (l: int)
    requires Finished(o, d0, d) && o !in KINDS && Month(d, m)
    ensures 0 <= m < |d0| && Month(d0, m) && d[m] == d0[m] && !Goes(d0, m)
    ensures LegacyRoot(d, l) && LegacyRoot(d0, l) && d[m].parent == d[l].id && d[l] == d0[l]
  {
    l :| 0 <= l < |d| && LegacyRoot(d, l) && d[m].parent == d[l].id;
    SecondRoot(o, d0, d, l);
    if m >= |d0| {
      assert Added(o, d, m);
      OutputsApart(o, d, m, l);
    }
    assert Kept(o, d0, d, m);
    StillThere(o, d0, d, m);
    assert d0[m].parent == d0[l].id;
  }

  lemma SecondFolder(o: string, d0: Drive, d: Drive, p: int)
    requires Finished(o, d0, d) && o !in KINDS && LegacyFolder(d, p)
    ensures 0 <= p < |d0| && LegacyFolder(d0, p) && d[p] == d0[p] && !Goes(d0, p)
  {
    if LegacyRoot(d, p) {
      SecondRoot(o, d0, d, p);
    } else {
      var l := SecondMonth(o, d0, d, p);
    }
  }

  /** The only legacy files left are the undated winners. */
  lemma SecondFile(o: string, d0: Drive, d: Drive, i: int)
    requires Finished(o, d0, d) && o !in KINDS && LegacyFile(d, i)
    ensures 0 <= i < |d0| && Undated(d0, i) && d[i] == d0[i]
  {
    var p :| 0 <= p < |d| && LegacyFolder(d, p) && d[i].parent == d[p].id;
    SecondFolder(o, d0, d, p);
    assert i < |d0| by {
      assert i >= |d0| ==> Added(o, d, i);
    }
    assert Kept(o, d0, d, i);
    assert !Moved(d0, i) by {
      if Moved(d0, i) {
        FiledIsDeep(o, d0, d, i);
        var y :| 0 <= y < |d| && Bottom(o, d, y) && d[y].id == d[i].parent;
        DeepIsNotLegacy(o, d, y, p);
      }
    }
    StillThere(o, d0, d, i);
    assert LegacyFile(d0, i);
  }

  /** The folders around an undated winner stay, so it is still a legacy file with the same path. */
  lemma UndatedStays(o: string, d0: Drive, d: Drive, i: int, path: string)
    requires Finished(o, d0, d) && o !in KINDS && Undated(d0, i) && FilePath(d0, i, path)
    ensures 0 <= i < |d| && d[i] == d0[i] && FilePath(d, i, path) && LegacyFile(d, i)
  {
    assert Kept(o, d0, d, i);
    var p :| 0 <= p < |d0| && FolderPath(d0, p, path) && d0[i].parent == d0[p].id;
    assert HoldsUndated(d0, p) by { assert Within(path, path); }
    FolderStays(o, d0, d, p, path);
  }

  lemma FolderKept(o: string, d0: Drive, d: Drive, p: int)
    requires Finished(o, d0, d) && LegacyFolder(d0, p) && HoldsUndated(d0, p)
    ensures p < |d| && d[p] == d0[p]
  {
    assert Kept(o, d0, d, p);
  }

  lemma PathStays(d0: Drive, d: Drive, p: int, l: int, path: string)
    requires 0 <= p < |d0| <= |d| && 0 <= l < |d0| && d[p] == d0[p] && d[l] == d0[l]
    requires LegacyRoot(d0, l) && Month(d0, p) && d0[p].parent == d0[l].id && path == d0[l].name + "/" + d0[p].name
    ensures FolderPath(d, p, path)
  {
    assert LegacyRoot(d, l);
    assert Month(d, p);
  }

  /** A legacy folder that holds an undated file stays, with its legacy root and its path. */
  lemma FolderStays(o: string, d0: Drive, d: Drive, p: int, path: string)
    requires Finished(o, d0, d) && FolderPath(d0, p, path) && HoldsUndated(d0, p)
    ensures d[p] == d0[p] && FolderPath(d, p, path)
  {
    FolderKept(o, d0, d, p);
    if !(LegacyRoot(d0, p) && path == d0[p].name) {
      var l :| 0 <= l < |d0| && LegacyRoot(d0, l) && d0[p].parent == d0[l].id && path == d0[l].name + "/" + d0[p].name;
      UndatedBelow(d0, l, p);
      FolderKept(o, d0, d, l);
      PathStays(d0, d, p, l, path);
    }
  }

  lemma UndatedAgain(o: string, d0: Drive, d: Drive, i: int, path: string)
    requires Finished(o, d0, d) && o !in KINDS && Undated(d0, i) && FilePath(d0, i, path)
    ensures Undated(d, i)
  {
    UndatedStays(o, d0, d, i, path);
    forall j | 0 <= j < |d| && LegacyFile(d, j) && d[j].name == d[i].name ensures Older(d[j], d[i]) {
      SecondFile(o, d0, d, j);
      WinnerUnique(d0, i, j);
      OlderTotal(d[i], d[i]);
    }
  }

  lemma HoldsAgain(o: string, d0: Drive, d: Drive, f: int)
    requires Finished(o, d0, d) && o !in KINDS && HoldsUndated(d0, f)
    ensures HoldsUndated(d, f)
  {
    var i, path, folder :| FolderPath(d0, f, folder) && Undated(d0, i) && FilePath(d0, i, path) && Within(path, folder);
    UndatedStays(o, d0, d, i, path);
    UndatedAgain(o, d0, d, i, path);
    FolderStays(o, d0, d, f, folder);
  }

  /** A folder that is no legacy folder, or one that does not go, is as it was. */
  lemma FolderUntouched(o: string, d0: Drive, d: Drive, c: int)
    requires Finished(o, d0, d) && LiveFolder(d0, c) && !Goes(d0, c)
    ensures LiveFolder(d, c) && d[c] == d0[c]
  {
    assert Kept(o, d0, d, c);
  }

  lemma MonthBlockedAgain(o: string, d0: Drive, d: Drive, m: int)
    requires Finished(o, d0, d) && Month(d0, m) && MonthBlocked(d0, m) && d[m] == d0[m]
    ensures MonthBlocked(d, m)
  {
    var c :| 0 <= c < |d0| && LiveFolder(d0, c) && d0[c].parent == d0[m].id;
    assert !LegacyRoot(d0, c);
    assert !Month(d0, c) by {
      assert !LegacyRoot(d0, m);
    }
    FolderUntouched(o, d0, d, c);
  }

  lemma RootBlockedAgain(o: string, d0: Drive, d: Drive, l: int)
    requires Finished(o, d0, d) && LegacyRoot(d0, l) && RootBlocked(d0, l) && d[l] == d0[l]
    ensures RootBlocked(d, l)
  {
    var c :| 0 <= c < |d0| && Blocks(d0, c, l);
    assert !LegacyRoot(d0, c);
    if MonthName(d0[c].name) {
      assert Month(d0, c);
      FolderUntouched(o, d0, d, c);
      MonthBlockedAgain(o, d0, d, c);
    } else {
      FolderUntouched(o, d0, d, c);
    }
    assert Blocks(d, c, l);
  }

  lemma NothingGoes(o: string, d0: Drive, d: Drive, f: int)
    requires Finished(o, d0, d) && o !in KINDS
    ensures !Goes(d, f)
  {
    if LegacyFolder(d, f) {
      SecondFolder(o, d0, d, f);
      if HoldsUndated(d0, f) {
        HoldsAgain(o, d0, d, f);
      } else if LegacyRoot(d0, f) && RootBlocked(d0, f) {
        RootBlockedAgain(o, d0, d, f);
      } else {
        MonthBlockedAgain(o, d0, d, f);
      }
    }
  }

  /** Fixpoint: planning on the account that a complete run left finds nothing to move and nothing to
      trash, whatever was blocked, undated or doubled. */
  lemma Fixpoint(o: string, d0: Drive, plan: Plan, d: Drive, again: Plan)
    requires DriveValid(d0) && PlanFor(o, d0, plan) && o != "" && o !in KINDS && ThreeDeep(plan.moves)
    requires Runs(d0, Ops(plan), d) && PlanFor(o, d, again)
    ensures again.moves == [] && again.trashes == []
  {
    CompleteRun(o, d0, plan, d);
    if again.moves != [] {
      assert CalledFor(o, d, again.moves[0]);
      var i :| MoveFor(o, d, i, again.moves[0]);
      SecondFile(o, d0, d, i);
    }
    if again.trashes != [] {
      assert TrashCalledFor(d, again.trashes[0]);
      var i :| TrashFor(d, i, again.trashes[0]);
      NothingGoes(o, d0, d, i);
      if Duplicate(d, i) {
        NoDuplicateLeft(o, d0, d, i);
      }
    }
  }

  lemma NoDuplicateLeft(o: string, d0: Drive, d: Drive, i: int)
    requires Finished(o, d0, d) && o !in KINDS && LegacyFile(d, i)
    ensures Winner(d, i)
  {
    SecondFile(o, d0, d, i);
    var p :| 0 <= p < |d0| && LegacyFolder(d0, p) && d0[i].parent == d0[p].id;
    var path := PathOf(d0, p);
    assert FilePath(d0, i, path);
    UndatedAgain(o, d0, d, i, path);
  }
}
