/** Nothing is lost at any moment, everything is filed at the end, and a second run has nothing to do. */
module MigrationTheorems {
  import opened Text
  import opened Calendar
  import opened MigrationModel
  import opened MigrationSteps
  import opened MigrationSafety
  import opened MigrationPlan

  // ---------------------------------------------------------------- the newest copy

  /** A legacy file wins if and only if no other of its name was modified after it, or at the same time with
      a greater id. */
  lemma WinnerIsNewest(d: Drive, i: int)
    requires LegacyFile(d, i)
    ensures Winner(d, i)
       <==> forall j :: 0 <= j < |d| && LegacyFile(d, j) && d[j].name == d[i].name ==>
              !Before(d[i].modified, d[j].modified) && (d[j].modified == d[i].modified ==> !Before(d[i].id, d[j].id))
  {
    forall j | 0 <= j < |d|
      ensures Older(d[j], d[i])
         <==> !Before(d[i].modified, d[j].modified) && (d[j].modified == d[i].modified ==> !Before(d[i].id, d[j].id))
    {
      NothingNewer(d[j], d[i]);
    }
  }

  function Copy(id: string, modified: string): Item { Item(id, "x", "x", false, "r", false, "", modified) }

  const COPIES: Drive := [Item("r", "report", "report", true, "root", false, "", ""),
                          Copy("c", "1"), Copy("a", "2"), Copy("b", "2")]

  lemma CopiesHold()
    ensures DriveValid(COPIES) && forall i :: LegacyFile(COPIES, i) <==> 1 <= i <= 3
  {
    assert LegacyRoot(COPIES, 0) && LegacyFolder(COPIES, 0);
    assert forall i :: 0 <= i <= 3 ==> HasParent(COPIES, i);
  }

  lemma CopiesCompare()
    ensures Before("1", "2") && Before("a", "b") && !Before("2", "1") && !Before("b", "a") && !Before("b", "b")
    ensures !Before("2", "2")
  {
    assert BeforeAt("1", "2", 0) && BeforeAt("a", "b", 0);
    NotBefore("1", "2");
    NotBefore("a", "b");
    NotBefore("b", "b");
    NotBefore("2", "2");
  }

  /** A file loses to one of its name that was modified later, or at the same time with a greater id. */
  lemma Outdone(d: Drive, i: int, j: int)
    requires LegacyFile(d, i) && LegacyFile(d, j) && d[i].name == d[j].name
    requires Before(d[i].modified, d[j].modified) || (d[i].modified == d[j].modified && Before(d[i].id, d[j].id))
    ensures Duplicate(d, i)
  {
    NothingNewer(d[j], d[i]);
  }

  lemma CopiesFate()
    ensures Winner(COPIES, 3) && Duplicate(COPIES, 1) && Duplicate(COPIES, 2)
  {
    CopiesHold();
    CopiesCompare();
    Outdone(COPIES, 1, 3);
    Outdone(COPIES, 2, 3);
    WinnerIsNewest(COPIES, 3);
  }

  /** Three files named `x`, modified at 1, 2 and 2: the last of the later two by id stays, and every plan trashes
      the other two. */
  lemma NewestStays(o: string, plan: Plan)
    requires PlanFor(o, COPIES, plan)
    ensures Winner(COPIES, 3) && Duplicate(COPIES, 1) && Duplicate(COPIES, 2)
    ensures TrashOrder(COPIES[1], 0) in plan.trashes && TrashOrder(COPIES[2], 0) in plan.trashes
    ensures TrashOrder(COPIES[3], 0) !in plan.trashes
  {
    CopiesHold();
    CopiesFate();
    TrashFate(COPIES, plan.trashes, 1);
    TrashFate(COPIES, plan.trashes, 2);
    TrashFate(COPIES, plan.trashes, 3);
  }

  // ---------------------------------------------------------------- reading the list of requests

  lemma {:induction false} DiscardMembers(trashes: seq<TrashOrder>, depth: nat, op: Op)
    ensures op in DiscardOps(trashes, depth)
       <==> exists k :: 0 <= k < |trashes| && trashes[k].depth == depth && op == Discard(trashes[k].entry.id)
  {
    if trashes != [] {
      DiscardMembers(Front(trashes), depth, op);
      assert trashes == Front(trashes) + [Last(trashes)];
      if op in DiscardOps(Front(trashes), depth) {
        var k :| 0 <= k < |Front(trashes)| && Front(trashes)[k].depth == depth
          && op == Discard(Front(trashes)[k].entry.id);
        assert trashes[k] == Front(trashes)[k];
      }
      if exists k :: 0 <= k < |trashes| && trashes[k].depth == depth && op == Discard(trashes[k].entry.id) {
        var k :| 0 <= k < |trashes| && trashes[k].depth == depth && op == Discard(trashes[k].entry.id);
        if k < |trashes| - 1 {
          assert Front(trashes)[k] == trashes[k];
        }
      }
    }
  }

  lemma {:induction false} MoveMembers(moves: seq<Move>, op: Op)
    requires ThreeDeep(moves)
    ensures op in AllMoveOps(moves) <==> exists k :: 0 <= k < |moves| && op in MoveOps(moves[k])
  {
    if moves != [] {
      MoveMembers(Front(moves), op);
      assert moves == Front(moves) + [Last(moves)];
      if op in AllMoveOps(Front(moves)) {
        var k :| 0 <= k < |Front(moves)| && op in MoveOps(Front(moves)[k]);
        assert moves[k] == Front(moves)[k];
      }
      if exists k :: 0 <= k < |moves| && op in MoveOps(moves[k]) {
        var k :| 0 <= k < |moves| && op in MoveOps(moves[k]);
        if k < |moves| - 1 {
          assert Front(moves)[k] == moves[k];
        }
      }
    }
  }

  lemma PlanThreeDeep(o: string, d: Drive, plan: Plan)
    requires PlanFor(o, d, plan)
    ensures ThreeDeep(plan.moves)
  {
    forall k | 0 <= k < |plan.moves| ensures |plan.moves[k].destination| == 3 {
      assert CalledFor(o, d, plan.moves[k]);
      var i :| MoveFor(o, d, i, plan.moves[k]);
    }
  }

  ghost predicate InMoves(moves: seq<Move>, x: Item) { exists k :: 0 <= k < |moves| && moves[k].entry == x }

  /** Every legacy file moves, is an older copy, or has no date, and only one of these. */
  lemma Fates(d: Drive, i: int)
    requires LegacyFile(d, i)
    ensures Undated(d, i) <==> !Moved(d, i) && !Duplicate(d, i)
    ensures !(Moved(d, i) && Duplicate(d, i))
  {
  }

  lemma SkipFate(d: Drive, skips: seq<Skip>, i: nat)
    requires SkipsFor(d, skips) && Undated(d, i)
    ensures Skip(d[i].name, "invalid-date") in skips
  {
    var s := Skip(d[i].name, "invalid-date");
    assert UndatedAt(d, i, s);
    assert SkipCalledFor(d, s);
  }

  /** Every legacy file has exactly one fate in the plan: it moves, it is trashed as an older copy, or it
      stays and is reported. */
  lemma OneFate(o: string, d: Drive, moves: seq<Move>, trashes: seq<TrashOrder>, skips: seq<Skip>, i: nat)
    requires DriveValid(d) && MovesFor(o, d, moves) && TrashesFor(d, trashes) && SkipsFor(d, skips) && LegacyFile(d, i)
    ensures !(InMoves(moves, d[i]) && TrashOrder(d[i], 0) in trashes)
    ensures InMoves(moves, d[i]) || TrashOrder(d[i], 0) in trashes
      || (Undated(d, i) && Skip(d[i].name, "invalid-date") in skips)
    ensures Undated(d, i) ==> !InMoves(moves, d[i]) && TrashOrder(d[i], 0) !in trashes
  {
    MoveFate(o, d, moves, i);
    TrashFate(d, trashes, i);
    Fates(d, i);
    if Undated(d, i) {
      SkipFate(d, skips, i);
    }
  }

  lemma MoveFate(o: string, d: Drive, moves: seq<Move>, i: nat)
    requires DriveValid(d) && MovesFor(o, d, moves) && i < |d|
    ensures InMoves(moves, d[i]) <==> Moved(d, i)
  {
    if k :| 0 <= k < |moves| && moves[k].entry == d[i] {
      assert CalledFor(o, d, moves[k]);
      var j :| MoveFor(o, d, j, moves[k]);
      assert d[j].id == d[i].id;
    }
    if Moved(d, i) {
      assert Planned(o, d, moves, i);
      var k :| 0 <= k < |moves| && MoveFor(o, d, i, moves[k]);
    }
  }

  lemma TrashFate(d: Drive, trashes: seq<TrashOrder>, i: nat)
    requires DriveValid(d) && TrashesFor(d, trashes) && LegacyFile(d, i)
    ensures TrashOrder(d[i], 0) in trashes <==> Duplicate(d, i)
  {
    if TrashOrder(d[i], 0) in trashes {
      var k :| 0 <= k < |trashes| && trashes[k] == TrashOrder(d[i], 0);
      assert TrashCalledFor(d, trashes[k]);
      var j :| TrashFor(d, j, trashes[k]);
      assert d[j].id == d[i].id;
    }
    if Duplicate(d, i) {
      assert TrashPlanned(d, trashes, i);
      var k :| 0 <= k < |trashes| && TrashFor(d, i, trashes[k]);
    }
  }

  function FileOps(plan: Plan): seq<Op> { DiscardOps(plan.trashes, 0) }

  function FolderOps(plan: Plan, roots: bool): seq<Op> { DiscardOps(plan.trashes, if roots then 1 else 2) }

  lemma FilesFirst(o: string, d: Drive, plan: Plan)
    requires PlanFor(o, d, plan)
    ensures var ops := FileOps(plan);
            && (forall k :: 0 <= k < |ops| ==> DuplicateOp(d, ops[k]))
            && (forall i :: 0 <= i < |d| && Duplicate(d, i) ==> Discard(d[i].id) in ops)
  {
    var ops := FileOps(plan);
    forall k | 0 <= k < |ops| ensures DuplicateOp(d, ops[k]) {
      DiscardMembers(plan.trashes, 0, ops[k]);
      var t :| 0 <= t < |plan.trashes| && plan.trashes[t].depth == 0 && ops[k] == Discard(plan.trashes[t].entry.id);
      assert TrashCalledFor(d, plan.trashes[t]);
      var i :| TrashFor(d, i, plan.trashes[t]);
    }
    forall i | 0 <= i < |d| && Duplicate(d, i) ensures Discard(d[i].id) in ops {
      assert TrashPlanned(d, plan.trashes, i);
      var t :| 0 <= t < |plan.trashes| && TrashFor(d, i, plan.trashes[t]);
      DiscardMembers(plan.trashes, 0, Discard(d[i].id));
    }
  }

  lemma FoldersLast(o: string, d: Drive, plan: Plan, roots: bool)
    requires PlanFor(o, d, plan)
    ensures var ops := FolderOps(plan, roots);
            && (forall k :: 0 <= k < |ops| ==> FolderOp(d, roots, ops[k]))
            && (forall i :: 0 <= i < |d| && Goes(d, i) && LegacyRoot(d, i) == roots ==> Discard(d[i].id) in ops)
  {
    var depth := if roots then 1 else 2;
    var ops := FolderOps(plan, roots);
    forall k | 0 <= k < |ops| ensures FolderOp(d, roots, ops[k]) {
      DiscardMembers(plan.trashes, depth, ops[k]);
      var t :| 0 <= t < |plan.trashes| && plan.trashes[t].depth == depth && ops[k] == Discard(plan.trashes[t].entry.id);
      assert TrashCalledFor(d, plan.trashes[t]);
      var i :| TrashFor(d, i, plan.trashes[t]);
    }
    forall i | 0 <= i < |d| && Goes(d, i) && LegacyRoot(d, i) == roots ensures Discard(d[i].id) in ops {
      assert TrashPlanned(d, plan.trashes, i);
      var t :| 0 <= t < |plan.trashes| && TrashFor(d, i, plan.trashes[t]);
      DiscardMembers(plan.trashes, depth, Discard(d[i].id));
    }
  }

  lemma DestinationParts(o: string, path: string, on: Date)
    ensures var p := Destination(o, path, on); |p| == 3 && p[0] == o && p[1] != "" && p[2] != ""
  {
  }

  lemma MoveDestination(o: string, d: Drive, i: int, m: Move)
    requires MoveFor(o, d, i, m)
    ensures |m.destination| == 3 && m.destination[0] == o && m.destination[1] != "" && m.destination[2] != ""
    ensures MovesItem(o, d, i, m.entry.id, m.destination)
  {
    var path :| FilePath(d, i, path) && m.destination == Destination(o, path, DateOf(d[i]).value);
    DestinationParts(o, path, DateOf(d[i]).value);
  }

  lemma MoveOpCases(m: Move, op: Op)
    requires |m.destination| == 3 && op in MoveOps(m)
    ensures op.Ensure? ==> 1 <= |op.parts| <= 3 && op.parts == m.destination[..|op.parts|]
    ensures op.MoveTo? ==> op == MoveTo(m.entry.id, m.destination)
    ensures op.Rename? ==> m.newName.Some? && op == Rename(m.entry.id, m.newName.value)
    ensures !op.Discard?
  {
  }

  lemma MoveOpsAreMoves(o: string, d: Drive, i: int, m: Move, op: Op)
    requires MoveFor(o, d, i, m) && o != "" && op in MoveOps(m)
    ensures MoveOp(o, d, op)
  {
    MoveDestination(o, d, i, m);
    MoveOpCases(m, op);
    if op.Ensure? {
      EnsureIsMove(o, d, op.parts, m.destination);
    } else if op.Rename? {
      assert RenamesItem(d, i, op.id, op.name);
    }
  }

  lemma EnsureIsMove(o: string, d: Drive, parts: seq<string>, destination: seq<string>)
    requires |destination| == 3 && destination[0] == o && o != "" && destination[1] != "" && destination[2] != ""
    requires 1 <= |parts| <= 3 && parts == destination[..|parts|]
    ensures MoveOp(o, d, Ensure(parts))
  {
  }

  lemma OnlyMoves(o: string, d: Drive, moves: seq<Move>, op: Op)
    requires MovesFor(o, d, moves) && o != "" && ThreeDeep(moves) && op in AllMoveOps(moves)
    ensures MoveOp(o, d, op)
  {
    MoveMembers(moves, op);
    var t :| 0 <= t < |moves| && op in MoveOps(moves[t]);
    assert CalledFor(o, d, moves[t]);
    var i :| MoveFor(o, d, i, moves[t]);
    MoveOpsAreMoves(o, d, i, moves[t], op);
  }

  lemma EveryMove(o: string, d: Drive, moves: seq<Move>, i: nat) returns (m: Move)
    requires MovesFor(o, d, moves) && ThreeDeep(moves) && Moved(d, i)
    ensures |m.destination| == 3 && MoveFor(o, d, i, m) && forall op :: op in MoveOps(m) ==> op in AllMoveOps(moves)
  {
    assert Planned(o, d, moves, i);
    var t :| 0 <= t < |moves| && MoveFor(o, d, i, moves[t]);
    m := moves[t];
    forall op | op in MoveOps(m) ensures op in AllMoveOps(moves) {
      MoveMembers(moves, op);
    }
  }

  lemma {:induction false} RunsSplit(d: Drive, a: seq<Op>, b: seq<Op>, e: Drive) returns (mid: Drive)
    requires Runs(d, a + b, e)
    ensures Runs(d, a, mid) && Runs(mid, b, e)
  {
    if b == [] {
      assert a + b == a;
      mid := e;
    } else {
      var last := RunsBefore(d, a + b, e);
      assert Front(a + b) == a + Front(b) && Last(a + b) == Last(b);
      mid := RunsSplit(d, a, Front(b), last);
    }
  }

  // ---------------------------------------------------------------- the three stages together

  lemma AfterFiles(o: string, d0: Drive, plan: Plan, d: Drive)
    requires DriveValid(d0) && PlanFor(o, d0, plan) && Runs(d0, FileOps(plan), d)
    ensures DuplicatesTo(o, d0, d0, FileOps(plan), d) && DuplicatesGone(d0, d)
  {
    FilesFirst(o, d0, plan);
    InvStart(o, d0);
    DuplicateStage(o, d0, d0, FileOps(plan), d);
  }

  /** The plan renames a file right after moving it. */
  lemma {:induction false} AllRenamesFollow(moves: seq<Move>)
    requires ThreeDeep(moves)
    ensures RenamesFollow(AllMoveOps(moves))
  {
    if moves != [] {
      AllRenamesFollow(Front(moves));
      var a, all: seq<Op> := AllMoveOps(Front(moves)), AllMoveOps(moves);
      assert all == a + MoveOps(Last(moves));
      forall k | 0 <= k < |all| && all[k].Rename? ensures HasMove(all[..k], all[k].id) {
        if k < |a| {
          assert all[..k] == a[..k] && all[k] == a[k];
        } else {
          RenameIsLast(a, Last(moves), k);
        }
      }
    }
  }

  lemma RenameIsLast(a: seq<Op>, m: Move, k: nat)
    requires |m.destination| == 3 && |a| <= k < |a + MoveOps(m)| && (a + MoveOps(m))[k].Rename?
    ensures HasMove((a + MoveOps(m))[..k], (a + MoveOps(m))[k].id)
  {
    var all: seq<Op> := a + MoveOps(m);
    assert k == |a| + 4 && all[..k][|a| + 3] == MoveTo(m.entry.id, m.destination);
  }

  lemma AfterMoves(o: string, d0: Drive, plan: Plan, d: Drive, e: Drive)
    requires DriveValid(d0) && PlanFor(o, d0, plan) && o != "" && ThreeDeep(plan.moves)
    requires DuplicatesTo(o, d0, d0, FileOps(plan), d) && DuplicatesGone(d0, d)
    requires Runs(d, AllMoveOps(plan.moves), e)
    ensures Inv(o, d0, e) && FilesDone(o, d0, e)
  {
    var ops := AllMoveOps(plan.moves);
    forall k | 0 <= k < |ops| ensures MoveOp(o, d0, ops[k]) {
      OnlyMoves(o, d0, plan.moves, ops[k]);
    }
    AllRenamesFollow(plan.moves);
    MoveStage(o, d0, d, ops, e);
    OnwardTrans(o, d0, d0, d, e);
    forall i: nat | i < |d0| && Moved(d0, i) ensures Filed(o, d0, e, i) && Renamed(d0, e, i) {
      MoveArrived(o, d0, plan.moves, i, e);
    }
  }

  lemma MoveArrived(o: string, d0: Drive, moves: seq<Move>, i: nat, e: Drive)
    requires MovesFor(o, d0, moves) && ThreeDeep(moves) && i < |d0| <= |e| && Moved(d0, i)
    requires Delivered(o, d0, AllMoveOps(moves), e) && Onward(o, d0, d0, e)
    ensures Filed(o, d0, e, i) && Renamed(d0, e, i)
  {
    var m := EveryMove(o, d0, moves, i);
    MoveArrivedBy(o, d0, m, AllMoveOps(moves), i, e);
  }

  lemma MoveArrivedBy(o: string, d0: Drive, m: Move, ops: seq<Op>, i: nat, e: Drive)
    requires i < |d0| <= |e| && |m.destination| == 3 && MoveFor(o, d0, i, m)
    requires forall op :: op in MoveOps(m) ==> op in ops
    requires Delivered(o, d0, ops, e) && Onward(o, d0, d0, e)
    ensures Filed(o, d0, e, i) && Renamed(d0, e, i)
  {
    assert MoveOps(m)[3] == MoveTo(d0[i].id, m.destination);
    if m.newName.Some? {
      assert MoveOps(m)[4] == Rename(d0[i].id, m.newName.value);
    } else {
      assert Renamed(d0, d0, i);
    }
  }

  lemma AfterMonths(o: string, d0: Drive, plan: Plan, d: Drive, e: Drive)
    requires DriveValid(d0) && PlanFor(o, d0, plan) && o !in KINDS && Inv(o, d0, d) && FilesDone(o, d0, d)
    requires Runs(d, FolderOps(plan, false), e)
    ensures Inv(o, d0, e) && FilesDone(o, d0, e) && MonthsGone(d0, e)
  {
    FoldersLast(o, d0, plan, false);
    FolderStage(o, d0, d, false, FolderOps(plan, false), e);
    forall j | 0 <= j < |d0| && Month(d0, j) && Goes(d0, j) ensures e[j].trashed {
      assert !LegacyRoot(d0, j);
    }
  }

  lemma AfterRoots(o: string, d0: Drive, plan: Plan, d: Drive, e: Drive)
    requires DriveValid(d0) && PlanFor(o, d0, plan) && o !in KINDS && Inv(o, d0, d) && FilesDone(o, d0, d)
    requires MonthsGone(d0, d) && Runs(d, FolderOps(plan, true), e)
    ensures Inv(o, d0, e) && FilesDone(o, d0, e)
    ensures forall j :: 0 <= j < |d0| && Goes(d0, j) ==> e[j].trashed
  {
    FoldersLast(o, d0, plan, true);
    FolderStage(o, d0, d, true, FolderOps(plan, true), e);
    MonthsStayGone(o, d0, d, e);
  }

  // ---------------------------------------------------------------- safety at every moment

  /** Whatever prefix of the requests has been answered, the invariant holds. */
  lemma AtEveryMoment(o: string, d0: Drive, plan: Plan, k: nat, d: Drive)
    requires DriveValid(d0) && PlanFor(o, d0, plan) && o != "" && o !in KINDS && ThreeDeep(plan.moves)
    requires k <= |Ops(plan)| && Runs(d0, Ops(plan)[..k], d)
    ensures Inv(o, d0, d)
  {
    var a, b := FileOps(plan), AllMoveOps(plan.moves);
    var c, e := FolderOps(plan, false), FolderOps(plan, true);
    var n := |a| + |b|;
    PrefixCases(a, b, c, e, k);
    if k <= |a| {
      PrefixOfFiles(o, d0, plan, k, d);
    } else if k <= n {
      var mid := RunsSplit(d0, a, b[..k - |a|], d);
      AfterFiles(o, d0, plan, mid);
      PrefixOfMoves(o, d0, plan, mid, k - |a|, d);
    } else if k <= n + |c| {
      var mid := FilesThrough(o, d0, plan, c[..k - n], d);
      PrefixOfFolders(o, d0, plan, false, mid, k - n, d);
    } else {
      PrefixOfRoots(o, d0, plan, k - n - |c|, d);
    }
  }

  lemma PrefixCases(a: seq<Op>, b: seq<Op>, c: seq<Op>, e: seq<Op>, k: nat)
    requires k <= |a| + |b| + |c| + |e|
    ensures var p, n := (a + b + c + e)[..k], |a| + |b|;
            if k <= |a| then p == a[..k] else if k <= n then p == a + b[..k - |a|]
            else if k <= n + |c| then p == a + b + c[..k - n] else p == a + b + (c + e[..k - n - |c|])
  {
  }

  lemma PrefixOfRoots(o: string, d0: Drive, plan: Plan, j: nat, d: Drive)
    requires DriveValid(d0) && PlanFor(o, d0, plan) && o != "" && o !in KINDS && ThreeDeep(plan.moves)
    requires j <= |FolderOps(plan, true)|
    requires Runs(d0, FileOps(plan) + AllMoveOps(plan.moves)
                      + (FolderOps(plan, false) + FolderOps(plan, true)[..j]), d)
    ensures Inv(o, d0, d)
  {
    var c, e := FolderOps(plan, false), FolderOps(plan, true);
    var mid := FilesThrough(o, d0, plan, c + e[..j], d);
    var later := RunsSplit(mid, c, e[..j], d);
    AfterMonths(o, d0, plan, mid, later);
    PrefixOfFolders(o, d0, plan, true, later, j, d);
  }

  lemma FilesThrough(o: string, d0: Drive, plan: Plan, rest: seq<Op>, d: Drive) returns (mid: Drive)
    requires DriveValid(d0) && PlanFor(o, d0, plan) && o != "" && ThreeDeep(plan.moves)
    requires Runs(d0, FileOps(plan) + AllMoveOps(plan.moves) + rest, d)
    ensures Inv(o, d0, mid) && FilesDone(o, d0, mid) && Runs(mid, rest, d)
  {
    var a, b := FileOps(plan), AllMoveOps(plan.moves);
    mid := RunsSplit(d0, a + b, rest, d);
    var first := RunsSplit(d0, a, b, mid);
    AfterFiles(o, d0, plan, first);
    AfterMoves(o, d0, plan, first, mid);
  }

  lemma PrefixOfFiles(o: string, d0: Drive, plan: Plan, k: nat, d: Drive)
    requires DriveValid(d0) && PlanFor(o, d0, plan) && k <= |FileOps(plan)|
    requires Runs(d0, FileOps(plan)[..k], d)
    ensures Inv(o, d0, d)
  {
    FilesFirst(o, d0, plan);
    InvStart(o, d0);
    DuplicateStage(o, d0, d0, FileOps(plan)[..k], d);
  }

  lemma PrefixOfMoves(o: string, d0: Drive, plan: Plan, mid: Drive, k: nat, d: Drive)
    requires DriveValid(d0) && PlanFor(o, d0, plan) && o != "" && ThreeDeep(plan.moves) && k <= |AllMoveOps(plan.moves)|
    requires Inv(o, d0, mid) && Runs(mid, AllMoveOps(plan.moves)[..k], d)
    ensures Inv(o, d0, d)
  {
    var ops := AllMoveOps(plan.moves);
    forall j | 0 <= j < k ensures MoveOp(o, d0, ops[..k][j]) {
      OnlyMoves(o, d0, plan.moves, ops[j]);
    }
    AllRenamesFollow(plan.moves);
    RenamesFollowPrefix(ops, k);
    MoveStage(o, d0, mid, ops[..k], d);
  }

  lemma PrefixOfFolders(o: string, d0: Drive, plan: Plan, roots: bool, mid: Drive, k: nat, d: Drive)
    requires DriveValid(d0) && PlanFor(o, d0, plan) && o !in KINDS
    requires k <= |FolderOps(plan, roots)|
    requires Inv(o, d0, mid) && FilesDone(o, d0, mid) && (roots ==> MonthsGone(d0, mid))
    requires Runs(mid, FolderOps(plan, roots)[..k], d)
    ensures Inv(o, d0, d)
  {
    FoldersLast(o, d0, plan, roots);
    FolderStage(o, d0, mid, roots, FolderOps(plan, roots)[..k], d);
  }

  /** Conservation.  After any prefix of the requests, hence after a failure anywhere: every newest
      copy and every undated file is out of the trash, whatever was trashed is an older copy or a
      folder with nothing left in it, and every other item of the account is untouched. */
  lemma Conservation(o: string, d0: Drive, plan: Plan, k: nat, d: Drive)
    requires DriveValid(d0) && PlanFor(o, d0, plan) && o != "" && o !in KINDS && ThreeDeep(plan.moves)
    requires k <= |Ops(plan)| && Runs(d0, Ops(plan)[..k], d)
    ensures |d0| <= |d| && TrashClosed(d)
    ensures forall i :: 0 <= i < |d0| && Winner(d0, i) ==> !d[i].trashed
    ensures forall i :: 0 <= i < |d0| && d[i].trashed && !d0[i].trashed ==> Duplicate(d0, i) || Goes(d0, i)
    ensures forall i :: 0 <= i < |d0| && !Duplicate(d0, i) && !Moved(d0, i) && !Goes(d0, i) ==> d[i] == d0[i]
  {
    AtEveryMoment(o, d0, plan, k, d);
    forall i | 0 <= i < |d0|
      ensures Winner(d0, i) ==> !d[i].trashed
      ensures d[i].trashed && !d0[i].trashed ==> Duplicate(d0, i) || Goes(d0, i)
      ensures !Duplicate(d0, i) && !Moved(d0, i) && !Goes(d0, i) ==> d[i] == d0[i]
    {
      assert Kept(o, d0, d, i);
    }
  }
}
