/** One account, one stopping point: a file is moved, the run stops before the rename, and a complete second
    run leaves it without its new name. */
module MigrationStopped {
  import opened DriveNames
  import opened Text
  import opened Calendar
  import opened MigrationModel
  import opened MigrationSteps
  import opened MigrationSafety
  import opened MigrationPlan
  import opened MigrationBuild
  import opened MigrationTheorems
  import opened MigrationRetries
  import MigrationApply

  const OUT := "out"
  const DAY := Date(2026, 1, 2)
  const REPORT := Item("r", "report", "report", true, ROOT, false, "", "")
  const PAPER := Item("f", "x", "x", false, "r", false, "2026-01-02", "")
  const PARTS := Destination(OUT, "report", DAY)

  const BEFORE: Drive := [REPORT, PAPER]

  /** The account with three new folders of the given names. */
  function Made(a: string, b: string, c: string): Drive {
    [REPORT, PAPER, NewFolder("o1", a, ROOT), NewFolder("o2", b, "o1"), NewFolder("o3", c, "o2")]
  }

  /** The file is in its new folder, under its old name. */
  function Stopped(a: string, b: string, c: string): Drive { Made(a, b, c)[1 := PAPER.(parent := "o3")] }

  function Done(a: string, b: string, c: string): Drive { Stopped(a, b, c)[0 := REPORT.(trashed := true)] }

  const STOPPED: Drive := Stopped(PARTS[0], PARTS[1], PARTS[2])
  const DONE: Drive := Done(PARTS[0], PARTS[1], PARTS[2])

  // ---------------------------------------------------------------- the account before

  lemma PaperDate()
    ensures DateOf(PAPER) == Some(DAY)
  {
    var raw := PAPER.created;
    assert FirstDate("x", 1) == None;
    assert raw[..4] == "2026" && raw[5..7] == "01" && raw[8..10] == "02";
    Digits("2026", "01", "02");
    assert IsoAt(raw, 0);
  }

  lemma Digits(y: string, m: string, d: string)
    requires y == "2026" && m == "01" && d == "02"
    ensures Value(y) == 2026 && Value(m) == 1 && Value(d) == 2
  {
    assert y[..3] == "202" && y[..3][..2] == "20" && y[..3][..2][..1] == "2" && "2"[..0] == "";
    assert Value("2") == 2 && Value("20") == 20 && Value("202") == 202;
    assert m[..1] == "0" && d[..1] == "0" && "0"[..0] == "" && Value("0") == 0;
  }

  lemma PaperIsRenamed()
    requires DateOf(PAPER) == Some(DAY)
    ensures RenameOf(PAPER).Some? && NewNameOf(PAPER) != "x" && |PARTS| == 3
  {
    var prefix := IsoDate(DAY) + "_";
    assert |prefix| > 4;
  }

  lemma BeforeHolds()
    ensures DriveValid(BEFORE) && LegacyRoot(BEFORE, 0) && !Month(BEFORE, 0) && !Month(BEFORE, 1)
    ensures forall i :: LegacyFile(BEFORE, i) <==> i == 1
  {
    assert HasParent(BEFORE, 0) && HasParent(BEFORE, 1);
    assert LegacyFolder(BEFORE, 0);
  }

  lemma PaperMoves()
    ensures Moved(BEFORE, 1) && forall i :: LegacyFile(BEFORE, i) ==> i == 1
    ensures forall path :: FilePath(BEFORE, 1, path) ==> path == "report"
  {
    BeforeHolds();
    PaperDate();
    OlderTotal(PAPER, PAPER);
  }

  // ---------------------------------------------------------------- the plan and its first requests

  lemma PlannedMoves(plan: Plan)
    requires PlanFor(OUT, BEFORE, plan)
    ensures plan.moves != [] && DateOf(PAPER) == Some(DAY)
    ensures plan.moves[0] == Move(PAPER, PARTS, RenameOf(PAPER))
  {
    PaperMoves();
    PaperDate();
    assert Planned(OUT, BEFORE, plan.moves, 1);
    assert CalledFor(OUT, BEFORE, plan.moves[0]);
    var i :| MoveFor(OUT, BEFORE, i, plan.moves[0]);
    assert i == 1;
  }

  lemma NoDuplicates(plan: Plan)
    requires PlanFor(OUT, BEFORE, plan)
    ensures DiscardOps(plan.trashes, 0) == []
  {
    PaperMoves();
    forall k | 0 <= k < |plan.trashes| ensures plan.trashes[k].depth != 0 {
      assert TrashCalledFor(BEFORE, plan.trashes[k]);
      var i :| TrashFor(BEFORE, i, plan.trashes[k]);
      assert !Duplicate(BEFORE, i);
    }
    NoneOfDepth(plan.trashes, 0);
  }

  lemma {:induction false} NoneOfDepth(trashes: seq<TrashOrder>, depth: nat)
    requires forall k :: 0 <= k < |trashes| ==> trashes[k].depth != depth
    ensures DiscardOps(trashes, depth) == []
  {
    if trashes != [] {
      NoneOfDepth(Front(trashes), depth);
    }
  }

  lemma {:induction false} FirstOfMoves(moves: seq<Move>)
    requires moves != [] && ThreeDeep(moves)
    ensures 4 <= |AllMoveOps(moves)| && AllMoveOps(moves)[..4] == MoveOps(moves[0])[..4]
  {
    if |moves| > 1 {
      FirstOfMoves(Front(moves));
    } else {
      assert AllMoveOps(Front(moves)) == [];
    }
  }

  lemma FirstOfPlan(plan: Plan)
    requires ThreeDeep(plan.moves) && DiscardOps(plan.trashes, 0) == [] && 4 <= |AllMoveOps(plan.moves)|
    ensures 4 <= |Ops(plan)| && Ops(plan)[..4] == AllMoveOps(plan.moves)[..4]
  {
  }

  lemma FirstRequests(plan: Plan)
    requires PlanFor(OUT, BEFORE, plan) && ThreeDeep(plan.moves)
    ensures 4 <= |Ops(plan)| && |plan.moves| > 0 && plan.moves[0].entry == PAPER && plan.moves[0].destination == PARTS
    ensures Ops(plan)[..4] == MoveOps(plan.moves[0])[..4]
  {
    PlannedMoves(plan);
    NoDuplicates(plan);
    FirstOfMoves(plan.moves);
    FirstOfPlan(plan);
  }

  // ---------------------------------------------------------------- the run that stops

  ghost predicate NoFolder(d: Drive, name: string, parent: Id) {
    forall j :: 0 <= j < |d| ==> !IsFolder(d[j], name, parent)
  }

  lemma FoundLast(d: Drive, x: Item)
    requires NoFolder(d, x.name, x.parent) && IsFolder(x, x.name, x.parent)
    ensures FindFolder(d + [x], x.name, x.parent) == Some(|d|)
  {
    assert (d + [x])[|d|] == x;
  }

  /** A folder is made where there is none. */
  lemma MakesFolder(d: Drive, parts: seq<string>, id: Id, parent: Id)
    requires parts != [] && Locate(d, Front(parts)) == Some(parent) && Fresh(d, id) && NoFolder(d, Last(parts), parent)
    ensures var e := d + [NewFolder(id, Last(parts), parent)];
            Step(d, Ensure(parts), e) && Locate(e, parts) == Some(id)
  {
    var x := NewFolder(id, Last(parts), parent);
    LocateGrows(d, x, Front(parts));
    FoundLast(d, x);
    assert EnsuredIn(d, Last(parts), parent, d + [x]);
  }

  /** Three folders and a move, whatever the names. */
  lemma FourSteps(d: Drive, a: string, b: string, c: string, f: Id)
    requires |d| == 2 && NoFolder(d, a, ROOT) && Fresh(d, "o1") && Fresh(d, "o2") && Fresh(d, "o3")
    requires forall j :: 0 <= j < |d| ==> d[j].parent != "o1" && d[j].parent != "o2"
    ensures var one := d + [NewFolder("o1", a, ROOT)];
            var two := one + [NewFolder("o2", b, "o1")];
            var three := two + [NewFolder("o3", c, "o2")];
            && Step(d, Ensure([a]), one) && Step(one, Ensure([a, b]), two) && Step(two, Ensure([a, b, c]), three)
            && Step(three, MoveTo(f, [a, b, c]), WithParent(three, f, "o3"))
  {
    var one := d + [NewFolder("o1", a, ROOT)];
    var two := one + [NewFolder("o2", b, "o1")];
    assert Front([a]) == [] && Front([a, b]) == [a] && Front([a, b, c]) == [a, b];
    MakesFolder(d, [a], "o1", ROOT);
    MakesFolder(one, [a, b], "o2", "o1");
    MakesFolder(two, [a, b, c], "o3", "o2");
  }

  lemma RunsFour(a: Drive, b: Drive, c: Drive, d: Drive, e: Drive, w: Op, x: Op, y: Op, z: Op)
    requires Step(a, w, b) && Step(b, x, c) && Step(c, y, d) && Step(d, z, e)
    ensures Runs(a, [w, x, y, z], e)
  {
    assert [] + [w] == [w] && [w] + [x] == [w, x] && [w, x] + [y] == [w, x, y] && [w, x, y] + [z] == [w, x, y, z];
    assert Runs(a, [], a);
    MigrationApply.RunsMore(a, [], a, w, b);
    MigrationApply.RunsMore(a, [w], b, x, c);
    MigrationApply.RunsMore(a, [w, x], c, y, d);
    MigrationApply.RunsMore(a, [w, x, y], d, z, e);
  }

  lemma FourOps(m: Move)
    requires |m.destination| == 3
    ensures var p := m.destination;
            MoveOps(m)[..4] == [Ensure([p[0]]), Ensure([p[0], p[1]]), Ensure([p[0], p[1], p[2]]),
                                MoveTo(m.entry.id, [p[0], p[1], p[2]])]
  {
    var p := m.destination;
    assert p[..1] == [p[0]] && p[..2] == [p[0], p[1]] && p == [p[0], p[1], p[2]];
  }

  lemma PaperMoved(a: string, b: string, c: string)
    ensures WithParent(Made(a, b, c), "f", "o3") == Stopped(a, b, c)
  {
    assert Made(a, b, c)[1].id == "f" && REPORT.id != "f";
    assert forall i :: 0 <= i < 5 && i != 1 ==> Made(a, b, c)[i].id != "f";
  }

  lemma RoomBefore(a: string)
    requires a != "report"
    ensures NoFolder(BEFORE, a, ROOT) && Fresh(BEFORE, "o1") && Fresh(BEFORE, "o2") && Fresh(BEFORE, "o3")
    ensures forall j :: 0 <= j < |BEFORE| ==> BEFORE[j].parent != "o1" && BEFORE[j].parent != "o2"
  {
    assert |"report"| == 6 && |"o1"| == 2 && |"r"| == 1 && |"f"| == 1 && |ROOT| == 4;
  }

  lemma StopsThere(m: Move, a: string, b: string, c: string)
    requires m.entry == PAPER && m.destination == [a, b, c] && a != "report"
    ensures Runs(BEFORE, MoveOps(m)[..4], Stopped(a, b, c))
  {
    FourOps(m);
    RoomBefore(a);
    FourSteps(BEFORE, a, b, c, "f");
    PaperMoved(a, b, c);
    var one := BEFORE + [NewFolder("o1", a, ROOT)];
    var two := one + [NewFolder("o2", b, "o1")];
    assert two + [NewFolder("o3", c, "o2")] == Made(a, b, c);
    RunsFour(BEFORE, one, two, Made(a, b, c), Stopped(a, b, c),
             Ensure([a]), Ensure([a, b]), Ensure([a, b, c]), MoveTo("f", [a, b, c]));
  }

  // ---------------------------------------------------------------- the second run

  lemma MadeValid(a: string, b: string, c: string)
    requires a != "" && b != "" && c != ""
    ensures DriveValid(Made(a, b, c))
  {
    BeforeHolds();
    var one := BEFORE + [NewFolder("o1", a, ROOT)];
    var two := one + [NewFolder("o2", b, "o1")];
    GrowthKeepsValid(BEFORE, NewFolder("o1", a, ROOT));
    assert LiveFolder(one, 2) && one[2].id == "o1";
    GrowthKeepsValid(one, NewFolder("o2", b, "o1"));
    assert LiveFolder(two, 3) && two[3].id == "o2";
    GrowthKeepsValid(two, NewFolder("o3", c, "o2"));
    assert two + [NewFolder("o3", c, "o2")] == Made(a, b, c);
  }

  lemma StoppedValid(a: string, b: string, c: string)
    requires a != "" && b != "" && c != ""
    ensures DriveValid(Stopped(a, b, c)) && DriveValid(Done(a, b, c))
  {
    MadeValid(a, b, c);
    ReparentKeepsValid(Made(a, b, c), 1, 4);
    NothingInReport(a, b, c);
    TrashKeepsValid(Stopped(a, b, c), 0);
  }

  /** Nothing is left in the legacy folder. */
  lemma NothingInReport(a: string, b: string, c: string)
    ensures var d := Stopped(a, b, c); forall i :: 0 <= i < |d| ==> d[i].parent != "r"
    ensures var d := Done(a, b, c); forall i :: 0 <= i < |d| ==> d[i].parent != "r"
  {
    assert |ROOT| == 4 && |"o1"| == 2 && |"o2"| == 2 && |"o3"| == 2 && |"r"| == 1;
  }

  lemma StoppedHolds(a: string, b: string, c: string)
    requires a !in KINDS
    ensures var d := Stopped(a, b, c);
            LegacyRoot(d, 0) && (forall i :: !LegacyFile(d, i)) && forall i :: LegacyFolder(d, i) <==> i == 0
  {
    var d := Stopped(a, b, c);
    NothingInReport(a, b, c);
    assert |ROOT| == 4 && |"o1"| == 2 && |"o2"| == 2 && |"o3"| == 2;
    assert forall i :: LegacyRoot(d, i) ==> i == 0;
    assert KINDS[0] == "report" && LegacyRoot(d, 0);
    assert forall i :: !Month(d, i);
  }

  lemma RootGoes(d: Drive)
    requires LegacyRoot(d, 0) && !Month(d, 0) && (forall i :: !LegacyFile(d, i))
    requires forall i :: 0 <= i < |d| ==> d[i].parent != d[0].id
    ensures Goes(d, 0)
  {
    assert !RootBlocked(d, 0) && !HoldsUndated(d, 0);
  }

  lemma NoMoves(o: string, d: Drive, moves: seq<Move>)
    requires MovesFor(o, d, moves) && forall i :: !LegacyFile(d, i)
    ensures moves == []
  {
    assert |moves| > 0 ==> CalledFor(o, d, moves[0]);
    forall m ensures !CalledFor(o, d, m) {
    }
  }

  lemma OnlyRootGoes(d: Drive, trashes: seq<TrashOrder>)
    requires TrashesFor(d, trashes) && LegacyRoot(d, 0) && Goes(d, 0)
    requires (forall i :: !LegacyFile(d, i)) && forall i :: LegacyFolder(d, i) <==> i == 0
    ensures trashes != [] && forall k :: 0 <= k < |trashes| ==> trashes[k] == TrashOrder(d[0], 1)
  {
    forall k | 0 <= k < |trashes| ensures trashes[k] == TrashOrder(d[0], 1) {
      assert TrashCalledFor(d, trashes[k]);
      var i :| TrashFor(d, i, trashes[k]);
      assert !Duplicate(d, i);
    }
    assert TrashPlanned(d, trashes, 0);
  }

  /** Discarding one folder, however often it is asked for. */
  lemma {:induction false} RootDiscards(d: Drive, e: Drive, trashes: seq<TrashOrder>, t: TrashOrder)
    requires trashes != [] && t.depth == 1 && forall k :: 0 <= k < |trashes| ==> trashes[k] == t
    requires Trashed(d, t.entry.id) == e && Trashed(e, t.entry.id) == e
    ensures Runs(d, DiscardOps(trashes, 1), e)
  {
    var front := Front(trashes);
    if front == [] {
      assert DiscardOps(trashes, 1) == [Discard(t.entry.id)];
      assert Runs(d, [], d);
      MigrationApply.RunsMore(d, [], d, Discard(t.entry.id), e);
    } else {
      RootDiscards(d, e, front, t);
      MigrationApply.RunsMore(d, DiscardOps(front, 1), e, Discard(t.entry.id), e);
    }
  }

  lemma RootTrashed(a: string, b: string, c: string)
    requires a != "" && b != "" && c != ""
    ensures Trashed(Stopped(a, b, c), "r") == Done(a, b, c) && Trashed(Done(a, b, c), "r") == Done(a, b, c)
  {
    StoppedValid(a, b, c);
    NothingInReport(a, b, c);
    TrashLeaf(Stopped(a, b, c), 0);
    TrashLeaf(Done(a, b, c), 0);
  }

  lemma OpsOfRoots(plan: Plan)
    requires plan.moves == [] && DiscardOps(plan.trashes, 0) == [] && DiscardOps(plan.trashes, 2) == []
    ensures Ops(plan) == DiscardOps(plan.trashes, 1)
  {
  }

  lemma SecondRequests(o: string, d: Drive, e: Drive, again: Plan)
    requires PlanFor(o, d, again) && ThreeDeep(again.moves) && LegacyRoot(d, 0) && Goes(d, 0)
    requires (forall i :: !LegacyFile(d, i)) && forall i :: LegacyFolder(d, i) <==> i == 0
    requires Trashed(d, d[0].id) == e && Trashed(e, d[0].id) == e
    ensures CompleteOf(o, d, again, e)
  {
    NoMoves(o, d, again.moves);
    OnlyRootGoes(d, again.trashes);
    NoneOfDepth(again.trashes, 0);
    NoneOfDepth(again.trashes, 2);
    RootDiscards(d, e, again.trashes, TrashOrder(d[0], 1));
    OpsOfRoots(again);
  }

  lemma NamesAreFit()
    ensures |PARTS| == 3 && PARTS == [PARTS[0], PARTS[1], PARTS[2]]
    ensures PARTS[0] != "" && PARTS[1] != "" && PARTS[2] != "" && PARTS[0] != "report" && PARTS[0] !in KINDS
  {
    assert PARTS[0] == OUT && |OUT| == 3;
  }

  method StoppedRun() returns (plan: Plan)
    ensures AttemptOf(OUT, BEFORE, plan, 4, STOPPED)
  {
    BeforeHolds();
    NamesAreFit();
    plan := BuildPlan(OUT, BEFORE);
    PlanThreeDeep(OUT, BEFORE, plan);
    FirstRequests(plan);
    StopsThere(plan.moves[0], PARTS[0], PARTS[1], PARTS[2]);
  }

  /** Item `i`, which has a date, is not renamed. */
  ghost predicate OldName(d0: Drive, d: Drive, i: int) {
    0 <= i < |d0| <= |d| && DateOf(d0[i]).Some? && !Renamed(d0, d, i)
  }

  lemma OldNameOf(d: Drive)
    requires |d| == 5 && d[1].original == "x"
    ensures OldName(BEFORE, d, 1)
  {
    PaperDate();
    PaperIsRenamed();
  }

  method CompletedRun() returns (again: Plan)
    ensures CompleteOf(OUT, STOPPED, again, DONE) && !LegacyFile(STOPPED, 1)
  {
    var a, b, c := PARTS[0], PARTS[1], PARTS[2];
    NamesAreFit();
    StoppedValid(a, b, c);
    StoppedHolds(a, b, c);
    NothingInReport(a, b, c);
    RootTrashed(a, b, c);
    again := BuildPlan(OUT, STOPPED);
    PlanThreeDeep(OUT, STOPPED, again);
    RootGoes(STOPPED);
    SecondRequests(OUT, STOPPED, DONE, again);
  }

  /** A stopped run, a complete second one, and the file still has its old name. */
  method NameIsLost() returns (plan: Plan, again: Plan)
    ensures Moved(BEFORE, 1) && AttemptOf(OUT, BEFORE, plan, 4, STOPPED) && CompleteOf(OUT, STOPPED, again, DONE)
    ensures OldName(BEFORE, STOPPED, 1) && !LegacyFile(STOPPED, 1) && OldName(BEFORE, DONE, 1)
  {
    PaperMoves();
    OldNameOf(STOPPED);
    OldNameOf(DONE);
    plan := StoppedRun();
    again := CompletedRun();
  }
}
