/** The plan, the requests it turns into, and what whole runs of them guarantee. */
module MigrationPlan {
  import opened DriveNames
  import opened Text
  import opened MigrationModel
  import opened MigrationSteps
  import opened MigrationSafety

  datatype Move = Move(entry: Item, destination: seq<string>, newName: Option<string>)

  /** `depth` is 0 for a duplicate file, 2 for a month folder, 1 for a legacy root. */
  datatype TrashOrder = TrashOrder(entry: Item, depth: nat)

  datatype Skip = Skip(target: string, reason: string)

  datatype Plan = Plan(moves: seq<Move>, trashes: seq<TrashOrder>, skips: seq<Skip>)

  // ---------------------------------------------------------------- the plan that an account calls for

  function NewNameOf(x: Item): string
    requires DateOf(x).Some?
  {
    MigratedName(x.name, DateOf(x).value)
  }

  function RenameOf(x: Item): Option<string>
    requires DateOf(x).Some?
  {
    if NewNameOf(x) != x.original then Some(NewNameOf(x)) else None
  }

  ghost predicate MoveFor(o: string, d: Drive, i: int, m: Move) {
    && Moved(d, i) && m.entry == d[i] && m.newName == RenameOf(d[i])
    && exists path :: FilePath(d, i, path) && m.destination == Destination(o, path, DateOf(d[i]).value)
  }

  ghost predicate TrashFor(d: Drive, i: int, t: TrashOrder) {
    || (Duplicate(d, i) && t == TrashOrder(d[i], 0))
    || (Goes(d, i) && t == TrashOrder(d[i], if LegacyRoot(d, i) then 1 else 2))
  }

  ghost predicate CalledFor(o: string, d: Drive, m: Move) { exists i :: MoveFor(o, d, i, m) }

  ghost predicate Planned(o: string, d: Drive, moves: seq<Move>, i: int) {
    exists k :: 0 <= k < |moves| && MoveFor(o, d, i, moves[k])
  }

  ghost predicate MovesFor(o: string, d: Drive, moves: seq<Move>) {
    && (forall k {:trigger CalledFor(o, d, moves[k])} :: 0 <= k < |moves| ==> CalledFor(o, d, moves[k]))
    && (forall i {:trigger Planned(o, d, moves, i)} :: Moved(d, i) ==> Planned(o, d, moves, i))
  }

  ghost predicate TrashCalledFor(d: Drive, t: TrashOrder) { exists i :: TrashFor(d, i, t) }

  ghost predicate TrashPlanned(d: Drive, trashes: seq<TrashOrder>, i: int) {
    exists k :: 0 <= k < |trashes| && TrashFor(d, i, trashes[k])
  }

  ghost predicate TrashesFor(d: Drive, trashes: seq<TrashOrder>) {
    && (forall k {:trigger TrashCalledFor(d, trashes[k])} :: 0 <= k < |trashes| ==> TrashCalledFor(d, trashes[k]))
    && (forall i {:trigger TrashPlanned(d, trashes, i)} ::
          Duplicate(d, i) || Goes(d, i) ==> TrashPlanned(d, trashes, i))
  }

  const NO_PATENT := Skip("patent", "missing-env:PATENT_ARCHIVE_FOLDER_ID")

  ghost predicate UndatedAt(d: Drive, i: int, s: Skip) { Undated(d, i) && s == Skip(d[i].name, "invalid-date") }

  ghost predicate UnknownAt(d: Drive, i: int, s: Skip) {
    UnknownFolder(d, i) && s == Skip(d[i].name, "unknown-legacy-folder")
  }

  ghost predicate TooDeepAt(d: Drive, i: int, s: Skip) {
    TooDeep(d, i) && s == Skip(d[i].name, "depth-limit-or-unknown-folder")
  }

  ghost predicate SkipCalledFor(d: Drive, s: Skip) {
    || s == NO_PATENT
    || (exists i :: UndatedAt(d, i, s)) || (exists i :: UnknownAt(d, i, s)) || (exists i :: TooDeepAt(d, i, s))
  }

  ghost predicate SkipsFor(d: Drive, skips: seq<Skip>) {
    forall s {:trigger SkipCalledFor(d, s)} :: s in skips <==> SkipCalledFor(d, s)
  }

  /** Exactly the dated winners move; exactly the older copies and the emptied folders are trashed;
      exactly the undated winners and the folders in the way are reported. */
  ghost predicate PlanFor(o: string, d: Drive, plan: Plan) {
    MovesFor(o, d, plan.moves) && TrashesFor(d, plan.trashes) && SkipsFor(d, plan.skips)
  }

  // ---------------------------------------------------------------- its requests

  function DiscardOps(trashes: seq<TrashOrder>, depth: nat): seq<Op> {
    if trashes == [] then []
    else
      var last := Last(trashes);
      DiscardOps(Front(trashes), depth) + if last.depth == depth then [Discard(last.entry.id)] else []
  }

  function MoveOps(m: Move): seq<Op>
    requires |m.destination| == 3
  {
    [Ensure(m.destination[..1]), Ensure(m.destination[..2]), Ensure(m.destination), MoveTo(m.entry.id, m.destination)]
    + if m.newName.Some? then [Rename(m.entry.id, m.newName.value)] else []
  }

  predicate ThreeDeep(moves: seq<Move>) { forall k :: 0 <= k < |moves| ==> |moves[k].destination| == 3 }

  function AllMoveOps(moves: seq<Move>): seq<Op>
    requires ThreeDeep(moves)
  {
    if moves == [] then [] else AllMoveOps(Front(moves)) + MoveOps(Last(moves))
  }

  /** `apply_plan`: duplicates, then moves, then folders with the deepest first. */
  function Ops(plan: Plan): seq<Op>
    requires ThreeDeep(plan.moves)
  {
    DiscardOps(plan.trashes, 0) + AllMoveOps(plan.moves) + DiscardOps(plan.trashes, 2) + DiscardOps(plan.trashes, 1)
  }

  // ---------------------------------------------------------------- where a moved file ends up

  lemma PathUnique(d: Drive, i: int, a: string, b: string)
    requires DriveValid(d) && FilePath(d, i, a) && FilePath(d, i, b)
    ensures a == b
  {
    var p :| 0 <= p < |d| && FolderPath(d, p, a) && d[i].parent == d[p].id;
    var q :| 0 <= q < |d| && FolderPath(d, q, b) && d[i].parent == d[q].id;
    assert p == q;
    FolderPathUnique(d, p, a, b);
  }

  lemma FolderPathUnique(d: Drive, p: int, a: string, b: string)
    requires DriveValid(d) && FolderPath(d, p, a) && FolderPath(d, p, b)
    ensures a == b
  {
    if Month(d, p) {
      var l :| 0 <= l < |d| && LegacyRoot(d, l) && d[p].parent == d[l].id;
      PathOfMonth(d, l, p, a);
      PathOfMonth(d, l, p, b);
    }
  }

  /** Item `i` sits in the folder of its kind and year. */
  ghost predicate Filed(o: string, d0: Drive, d: Drive, i: int)
    requires 0 <= i < |d0| <= |d| && DateOf(d0[i]).Some?
  {
    forall path :: FilePath(d0, i, path) ==> Locate(d, Destination(o, path, DateOf(d0[i]).value)) == Some(d[i].parent)
  }

  ghost predicate Renamed(d0: Drive, d: Drive, i: int)
    requires 0 <= i < |d0| <= |d| && DateOf(d0[i]).Some?
  {
    d[i].original == NewNameOf(d0[i])
  }

  /** Paths in the outputs tree lead where they led. */
  ghost predicate PathsKept(o: string, d: Drive, e: Drive) {
    forall parts ::
      1 <= |parts| <= 3 && parts[0] == o && Locate(d, parts).Some? ==> Locate(e, parts) == Locate(d, parts)
  }

  ghost predicate SameFolders(d: Drive, e: Drive) {
    && |e| == |d|
    && forall i :: 0 <= i < |d| ==> if d[i].folder then e[i] == d[i] else !e[i].folder
  }

  lemma {:induction false} FindSame(d: Drive, e: Drive, name: string, parent: Id)
    requires SameFolders(d, e)
    ensures FindFolder(e, name, parent) == FindFolder(d, name, parent)
  {
    if d != [] {
      FindSame(d[..|d| - 1], e[..|e| - 1], name, parent);
    }
  }

  lemma {:induction false} LocateSame(d: Drive, e: Drive, parts: seq<string>)
    requires SameFolders(d, e)
    ensures Locate(e, parts) == Locate(d, parts)
  {
    if parts != [] {
      LocateSame(d, e, Front(parts));
      if Locate(d, Front(parts)).Some? {
        var parent := Locate(d, Front(parts)).value;
        FindSame(d, e, Last(parts), parent);
        var i := FindFolder(d, Last(parts), parent);
      }
    }
  }

  lemma PathsSame(o: string, d: Drive, e: Drive)
    requires SameFolders(d, e)
    ensures PathsKept(o, d, e)
  {
    forall parts ensures Locate(e, parts) == Locate(d, parts) {
      LocateSame(d, e, parts);
    }
  }

  lemma {:induction false} FindWithout(d: Drive, i: nat, x: Item, name: string, parent: Id)
    requires i < |d| && !IsFolder(d[i], name, parent) && !IsFolder(x, name, parent)
    ensures FindFolder(d[i := x], name, parent) == FindFolder(d, name, parent)
  {
    var e := d[i := x];
    if i < |d| - 1 {
      assert e[..|e| - 1] == d[..|d| - 1][i := x];
      FindWithout(d[..|d| - 1], i, x, name, parent);
    } else {
      assert e[..|e| - 1] == d[..|d| - 1];
    }
  }

  /** Trashing a legacy folder bends no path of the outputs tree. */
  lemma {:induction false} LocateWithout(o: string, d: Drive, i: nat, parts: seq<string>)
    requires i < |d| && DriveValid(d) && 1 <= |parts| <= 3 && parts[0] == o && Locate(d, parts).Some?
    requires !Top(o, d, i) && !Middle(o, d, i) && !Bottom(o, d, i)
    ensures Locate(d[i := d[i].(trashed := true)], parts) == Locate(d, parts)
  {
    var e := d[i := d[i].(trashed := true)];
    if |parts| > 1 {
      var p := LocateShape(o, d, Front(parts));
      LocateWithout(o, d, i, Front(parts));
    }
    FindWithout(d, i, e[i], Last(parts), Locate(d, Front(parts)).value);
  }

  lemma PathsWithout(o: string, d: Drive, i: nat)
    requires i < |d| && DriveValid(d) && !Top(o, d, i) && !Middle(o, d, i) && !Bottom(o, d, i)
    ensures PathsKept(o, d, d[i := d[i].(trashed := true)])
  {
    forall parts | 1 <= |parts| <= 3 && parts[0] == o && Locate(d, parts).Some?
      ensures Locate(d[i := d[i].(trashed := true)], parts) == Locate(d, parts)
    {
      LocateWithout(o, d, i, parts);
    }
  }

  lemma PathsGrow(o: string, d: Drive, x: Item)
    ensures PathsKept(o, d, d + [x])
  {
    forall parts | Locate(d, parts).Some? ensures Locate(d + [x], parts) == Locate(d, parts) {
      LocateGrows(d, x, parts);
    }
  }

  // ---------------------------------------------------------------- stage one: duplicates

  /** What later requests never undo. */
  ghost predicate Onward(o: string, d0: Drive, d: Drive, e: Drive) {
    && |d0| <= |d| <= |e| && FoldersKept(d, e) && PathsKept(o, d, e)
    && (forall i :: 0 <= i < |d0| && d[i].trashed ==> e[i].trashed)
    && (forall i :: 0 <= i < |d0| && Moved(d0, i) && Filed(o, d0, d, i) ==> Filed(o, d0, e, i))
    && (forall i :: 0 <= i < |d0| && Moved(d0, i) && Renamed(d0, d, i) ==> Renamed(d0, e, i))
  }

  lemma OnwardRefl(o: string, d0: Drive, d: Drive)
    requires |d0| <= |d|
    ensures Onward(o, d0, d, d)
  {
  }

  lemma OnwardTrans(o: string, d0: Drive, a: Drive, b: Drive, c: Drive)
    requires Onward(o, d0, a, b) && Onward(o, d0, b, c)
    ensures Onward(o, d0, a, c)
  {
    forall i | 0 <= i < |d0| && Moved(d0, i) && Filed(o, d0, a, i) ensures Filed(o, d0, c, i) {
      assert Filed(o, d0, b, i);
    }
    forall i | 0 <= i < |d0| && Moved(d0, i) && Renamed(d0, a, i) ensures Renamed(d0, c, i) {
      assert Renamed(d0, b, i);
    }
  }

  /** A filed item stays filed while its parent and the paths stay. */
  lemma FiledStays(o: string, d0: Drive, d: Drive, e: Drive, i: int)
    requires 0 <= i < |d0| <= |d| <= |e| && Moved(d0, i) && PathsKept(o, d, e) && e[i].parent == d[i].parent
    requires Filed(o, d0, d, i)
    ensures Filed(o, d0, e, i)
  {
    forall path | FilePath(d0, i, path)
      ensures Locate(e, Destination(o, path, DateOf(d0[i]).value)) == Some(e[i].parent)
    {
      assert Locate(d, Destination(o, path, DateOf(d0[i]).value)) == Some(d[i].parent);
    }
  }

  /** A step that leaves the moved files alone. */
  lemma OnwardStill(o: string, d0: Drive, d: Drive, e: Drive)
    requires |d0| <= |d| <= |e| && FoldersKept(d, e) && PathsKept(o, d, e)
    requires forall i :: 0 <= i < |d0| && d[i].trashed ==> e[i].trashed
    requires forall i :: 0 <= i < |d0| && Moved(d0, i) ==> e[i].parent == d[i].parent && e[i].original == d[i].original
    ensures Onward(o, d0, d, e)
  {
    forall i | 0 <= i < |d0| && Moved(d0, i) && Filed(o, d0, d, i) ensures Filed(o, d0, e, i) {
      FiledStays(o, d0, d, e, i);
    }
  }

  ghost predicate DuplicateOp(d0: Drive, op: Op) {
    op.Discard? && exists i :: 0 <= i < |d0| && Duplicate(d0, i) && op.id == d0[i].id
  }

  lemma DiscardFileOn(o: string, d0: Drive, d: Drive, i: nat)
    requires Inv(o, d0, d) && i < |d0| && Duplicate(d0, i)
    ensures Inv(o, d0, Trashed(d, d0[i].id)) && Onward(o, d0, d, Trashed(d, d0[i].id))
    ensures Trashed(d, d0[i].id)[i].trashed
  {
    DiscardFile(o, d0, d, i);
    var e := Trashed(d, d0[i].id);
    assert Kept(o, d0, d, i);
    PathsSame(o, d, e);
    OnwardStill(o, d0, d, e);
  }

  /** Every planned item that `ops` discards is in the trash. */
  ghost predicate Discarded(d0: Drive, ops: seq<Op>, e: Drive) {
    |d0| <= |e| && forall i :: 0 <= i < |d0| && Discard(d0[i].id) in ops ==> e[i].trashed
  }

  lemma DiscardedMore(o: string, d0: Drive, ops: seq<Op>, i: nat, d: Drive, e: Drive)
    requires DriveValid(d0) && i < |d0| && Discarded(d0, ops, d) && Onward(o, d0, d, e) && e[i].trashed
    ensures Discarded(d0, ops + [Discard(d0[i].id)], e)
  {
  }

  ghost predicate DuplicatesTo(o: string, d0: Drive, d: Drive, ops: seq<Op>, e: Drive) {
    Inv(o, d0, e) && Onward(o, d0, d, e) && Discarded(d0, ops, e)
  }

  lemma DuplicateNext(o: string, d0: Drive, d: Drive, ops: seq<Op>, mid: Drive, op: Op, e: Drive)
    requires DriveValid(d0) && DuplicatesTo(o, d0, d, ops, mid) && DuplicateOp(d0, op) && Step(mid, op, e)
    ensures DuplicatesTo(o, d0, d, ops + [op], e)
  {
    var i :| 0 <= i < |d0| && Duplicate(d0, i) && op.id == d0[i].id;
    DiscardFileOn(o, d0, mid, i);
    OnwardTrans(o, d0, d, mid, e);
    DiscardedMore(o, d0, ops, i, mid, e);
  }

  lemma {:induction false} DuplicateStage(o: string, d0: Drive, d: Drive, ops: seq<Op>, e: Drive)
    requires DriveValid(d0) && Inv(o, d0, d) && Runs(d, ops, e)
    requires forall k :: 0 <= k < |ops| ==> DuplicateOp(d0, ops[k])
    ensures DuplicatesTo(o, d0, d, ops, e)
  {
    if ops == [] {
      OnwardRefl(o, d0, d);
    } else {
      var mid := RunsBefore(d, ops, e);
      DuplicateStage(o, d0, d, Front(ops), mid);
      DuplicateNext(o, d0, d, Front(ops), mid, Last(ops), e);
    }
  }

  lemma RunsBefore(d: Drive, ops: seq<Op>, e: Drive) returns (mid: Drive)
    requires ops != [] && Runs(d, ops, e)
    ensures Runs(d, Front(ops), mid) && Step(mid, Last(ops), e) && ops == Front(ops) + [Last(ops)]
  {
    mid :| Runs(d, Front(ops), mid) && Step(mid, Last(ops), e);
    FrontAndLast(ops);
  }

  lemma FrontAndLast<T>(s: seq<T>)
    requires s != []
    ensures s == Front(s) + [Last(s)]
  {
  }

  // ---------------------------------------------------------------- stage two: moves

  ghost predicate MoveOp(o: string, d0: Drive, op: Op) {
    match op
    case Discard(_) => false
    case Ensure(parts) => 1 <= |parts| <= 3 && parts[0] == o && Last(parts) != ""
    case MoveTo(id, parts) => exists i :: 0 <= i < |d0| && MovesItem(o, d0, i, id, parts)
    case Rename(id, name) => exists i :: 0 <= i < |d0| && RenamesItem(d0, i, id, name)
  }

  ghost predicate MovesItem(o: string, d0: Drive, i: int, id: Id, parts: seq<string>) {
    && Moved(d0, i) && id == d0[i].id
    && exists path :: FilePath(d0, i, path) && parts == Destination(o, path, DateOf(d0[i]).value)
  }

  ghost predicate RenamesItem(d0: Drive, i: int, id: Id, name: string) {
    Moved(d0, i) && id == d0[i].id && name == NewNameOf(d0[i])
  }

  lemma EnsureOn(o: string, d0: Drive, d: Drive, parts: seq<string>, e: Drive)
    requires Inv(o, d0, d) && 1 <= |parts| <= 3 && parts[0] == o && Last(parts) != "" && Step(d, Ensure(parts), e)
    ensures Inv(o, d0, e) && Onward(o, d0, d, e)
  {
    EnsureStep(o, d0, d, parts, e);
    var parent, name := Locate(d, Front(parts)).value, Last(parts);
    if FindFolder(d, name, parent).None? {
      var id :| Fresh(d, id) && e == d + [NewFolder(id, name, parent)];
      PathsGrow(o, d, NewFolder(id, name, parent));
    }
    OnwardStill(o, d0, d, e);
  }

  lemma MoveOn(o: string, d0: Drive, d: Drive, i: nat, parts: seq<string>, e: Drive)
    requires DriveValid(d0) && Inv(o, d0, d) && i < |d0| && MovesItem(o, d0, i, d0[i].id, parts)
    requires Step(d, MoveTo(d0[i].id, parts), e)
    ensures Inv(o, d0, e) && Onward(o, d0, d, e) && Filed(o, d0, e, i)
  {
    MoveStep(o, d0, d, i, parts, e);
    assert Kept(o, d0, d, i);
    assert SameFolders(d, e);
    PathsSame(o, d, e);
    LocateSame(d, e, parts);
    forall path | FilePath(d0, i, path)
      ensures Locate(e, Destination(o, path, DateOf(d0[i]).value)) == Some(e[i].parent)
    {
      var mine :| FilePath(d0, i, mine) && parts == Destination(o, mine, DateOf(d0[i]).value);
      PathUnique(d0, i, path, mine);
    }
    OnwardExcept(o, d0, d, e, i);
  }

  /** A step that changes one moved file and leaves it filed and named at least as well. */
  lemma OnwardExcept(o: string, d0: Drive, d: Drive, e: Drive, i: nat)
    requires |d0| <= |d| <= |e| && i < |d0| && Moved(d0, i) && FoldersKept(d, e) && PathsKept(o, d, e)
    requires forall j :: 0 <= j < |d0| && j != i ==> e[j] == d[j]
    requires d[i].trashed ==> e[i].trashed
    requires (Filed(o, d0, d, i) ==> Filed(o, d0, e, i)) && (Renamed(d0, d, i) ==> Renamed(d0, e, i))
    ensures Onward(o, d0, d, e)
  {
    forall j | 0 <= j < |d0| && Moved(d0, j) && Filed(o, d0, d, j) ensures Filed(o, d0, e, j) {
      if j != i {
        FiledStays(o, d0, d, e, j);
      }
    }
    forall j | 0 <= j < |d0| && Moved(d0, j) && Renamed(d0, d, j) ensures Renamed(d0, e, j) {
      if j != i {
        assert e[j] == d[j];
      }
    }
  }

  lemma RenameOn(o: string, d0: Drive, d: Drive, i: nat, e: Drive)
    requires DriveValid(d0) && Inv(o, d0, d) && i < |d0| && Moved(d0, i) && Filed(o, d0, d, i)
    requires Step(d, Rename(d0[i].id, NewNameOf(d0[i])), e)
    ensures Inv(o, d0, e) && Onward(o, d0, d, e) && Renamed(d0, e, i)
  {
    NewNameNotEmpty(d0[i]);
    FiledIsDeep(o, d0, d, i);
    RenameStep(o, d0, d, i, NewNameOf(d0[i]), e);
    assert Kept(o, d0, d, i);
    assert SameFolders(d, e);
    PathsSame(o, d, e);
    forall parts ensures Locate(e, parts) == Locate(d, parts) {
      LocateSame(d, e, parts);
    }
    OnwardExcept(o, d0, d, e, i);
  }

  lemma NewNameNotEmpty(x: Item)
    requires DateOf(x).Some? && x.name != ""
    ensures NewNameOf(x) != ""
  {
  }

  /** Every item that `ops` moves is filed, and every item it renames is renamed. */
  ghost predicate Delivered(o: string, d0: Drive, ops: seq<Op>, e: Drive) {
    && |d0| <= |e|
    && (forall i, parts :: 0 <= i < |d0| && Moved(d0, i) && MoveTo(d0[i].id, parts) in ops ==> Filed(o, d0, e, i))
    && (forall i, name :: 0 <= i < |d0| && Moved(d0, i) && Rename(d0[i].id, name) in ops ==> Renamed(d0, e, i))
  }

  /** The moved item of that id is filed, or is renamed. */
  ghost predicate ItemDone(o: string, d0: Drive, id: Id, e: Drive, filed: bool) {
    && |d0| <= |e|
    && forall i ::
         0 <= i < |d0| && Moved(d0, i) && d0[i].id == id ==> if filed then Filed(o, d0, e, i) else Renamed(d0, e, i)
  }

  lemma DeliveredMore(o: string, d0: Drive, ops: seq<Op>, op: Op, d: Drive, e: Drive)
    requires DriveValid(d0) && Delivered(o, d0, ops, d) && Onward(o, d0, d, e)
    requires op.MoveTo? ==> ItemDone(o, d0, op.id, e, true)
    requires op.Rename? ==> ItemDone(o, d0, op.id, e, false)
    ensures Delivered(o, d0, ops + [op], e)
  {
    var all := ops + [op];
    forall i, parts | 0 <= i < |d0| && Moved(d0, i) && MoveTo(d0[i].id, parts) in all ensures Filed(o, d0, e, i) {
      if MoveTo(d0[i].id, parts) in ops { assert Filed(o, d0, d, i); }
    }
    forall i, name | 0 <= i < |d0| && Moved(d0, i) && Rename(d0[i].id, name) in all ensures Renamed(d0, e, i) {
      if Rename(d0[i].id, name) in ops { assert Renamed(d0, d, i); }
    }
  }

  /** One request of the second stage. */
  lemma MoveOpOn(o: string, d0: Drive, d: Drive, op: Op, e: Drive)
    requires DriveValid(d0) && Inv(o, d0, d) && MoveOp(o, d0, op) && Step(d, op, e)
    requires op.Rename? ==> ItemDone(o, d0, op.id, d, true)
    ensures Inv(o, d0, e) && Onward(o, d0, d, e)
    ensures op.MoveTo? ==> ItemDone(o, d0, op.id, e, true)
    ensures op.Rename? ==> ItemDone(o, d0, op.id, e, false)
  {
    match op
    case Ensure(parts) =>
      EnsureOn(o, d0, d, parts, e);
    case MoveTo(id, parts) =>
      var i :| 0 <= i < |d0| && MovesItem(o, d0, i, id, parts);
      MoveOn(o, d0, d, i, parts, e);
    case Rename(id, name) =>
      var i :| 0 <= i < |d0| && RenamesItem(d0, i, id, name);
      RenameOn(o, d0, d, i, e);
  }

  ghost predicate MovesTo(o: string, d0: Drive, d: Drive, ops: seq<Op>, e: Drive) {
    Inv(o, d0, e) && Onward(o, d0, d, e) && Delivered(o, d0, ops, e)
  }

  ghost predicate HasMove(ops: seq<Op>, id: Id) { exists parts :: MoveTo(id, parts) in ops }

  /** No file is renamed before it has been moved. */
  ghost predicate RenamesFollow(ops: seq<Op>) {
    forall k :: 0 <= k < |ops| && ops[k].Rename? ==> HasMove(ops[..k], ops[k].id)
  }

  lemma RenamesFollowPrefix(ops: seq<Op>, n: nat)
    requires RenamesFollow(ops) && n <= |ops|
    ensures RenamesFollow(ops[..n])
  {
    forall k | 0 <= k < n && ops[..n][k].Rename? ensures HasMove(ops[..n][..k], ops[..n][k].id) {
      assert ops[..n][..k] == ops[..k] && ops[..n][k] == ops[k];
    }
  }

  lemma MovedIsFiled(o: string, d0: Drive, ops: seq<Op>, id: Id, e: Drive)
    requires Delivered(o, d0, ops, e) && HasMove(ops, id)
    ensures ItemDone(o, d0, id, e, true)
  {
    var parts :| MoveTo(id, parts) in ops;
    forall i | 0 <= i < |d0| && Moved(d0, i) && d0[i].id == id ensures Filed(o, d0, e, i) {
      assert MoveTo(d0[i].id, parts) in ops;
    }
  }

  lemma MoveNext(o: string, d0: Drive, d: Drive, ops: seq<Op>, mid: Drive, op: Op, e: Drive)
    requires DriveValid(d0) && MovesTo(o, d0, d, ops, mid) && MoveOp(o, d0, op) && Step(mid, op, e)
    requires op.Rename? ==> HasMove(ops, op.id)
    ensures MovesTo(o, d0, d, ops + [op], e)
  {
    if op.Rename? {
      MovedIsFiled(o, d0, ops, op.id, mid);
    }
    MoveOpOn(o, d0, mid, op, e);
    DeliveredMore(o, d0, ops, op, mid, e);
    OnwardTrans(o, d0, d, mid, e);
  }

  lemma {:induction false} MoveStage(o: string, d0: Drive, d: Drive, ops: seq<Op>, e: Drive)
    requires DriveValid(d0) && Inv(o, d0, d) && Runs(d, ops, e)
    requires (forall k :: 0 <= k < |ops| ==> MoveOp(o, d0, ops[k])) && RenamesFollow(ops)
    ensures MovesTo(o, d0, d, ops, e)
  {
    if ops == [] {
      OnwardRefl(o, d0, d);
    } else {
      var mid := RunsBefore(d, ops, e);
      RenamesFollowPrefix(ops, |ops| - 1);
      MoveStage(o, d0, d, Front(ops), mid);
      MoveNext(o, d0, d, Front(ops), mid, Last(ops), e);
    }
  }

  // ---------------------------------------------------------------- stage three: folders

  ghost predicate FolderOp(d0: Drive, roots: bool, op: Op) {
    op.Discard? && exists i :: 0 <= i < |d0| && Goes(d0, i) && LegacyRoot(d0, i) == roots && op.id == d0[i].id
  }

  /** Nothing is left to happen to the files. */
  ghost predicate FilesDone(o: string, d0: Drive, d: Drive) {
    && DuplicatesGone(d0, d)
    && forall i :: 0 <= i < |d0| && Moved(d0, i) ==> Filed(o, d0, d, i) && Renamed(d0, d, i)
  }

  lemma FilesDoneOnward(o: string, d0: Drive, d: Drive, e: Drive)
    requires FilesDone(o, d0, d) && Onward(o, d0, d, e)
    ensures FilesDone(o, d0, e)
  {
    forall i | 0 <= i < |d0| && Moved(d0, i) ensures Filed(o, d0, e, i) && Renamed(d0, e, i) {
      assert Filed(o, d0, d, i) && Renamed(d0, d, i);
    }
  }

  lemma FiledIsDeep(o: string, d0: Drive, d: Drive, i: nat)
    requires i < |d0| <= |d| && Moved(d0, i) && Filed(o, d0, d, i)
    ensures Deep(o, d, d[i].parent)
  {
    var p :| 0 <= p < |d0| && LegacyFolder(d0, p) && d0[i].parent == d0[p].id;
    var path := PathOf(d0, p);
    assert FilePath(d0, i, path);
    var y := LocateShape(o, d, Destination(o, path, DateOf(d0[i]).value));
  }

  lemma AllFiled(o: string, d0: Drive, d: Drive)
    requires |d0| <= |d| && FilesDone(o, d0, d)
    ensures MovesDone(o, d0, d)
  {
    forall j | 0 <= j < |d0| && Moved(d0, j) ensures Deep(o, d, d[j].parent) {
      FiledIsDeep(o, d0, d, j);
    }
  }

  lemma DiscardFolderOn(o: string, d0: Drive, d: Drive, i: nat)
    requires DriveValid(d0) && Inv(o, d0, d) && o !in KINDS && Goes(d0, i) && FilesDone(o, d0, d)
    requires LegacyRoot(d0, i) ==> MonthsGone(d0, d)
    ensures Inv(o, d0, Trashed(d, d0[i].id)) && Onward(o, d0, d, Trashed(d, d0[i].id))
    ensures Trashed(d, d0[i].id)[i].trashed
  {
    AllFiled(o, d0, d);
    DiscardFolder(o, d0, d, i);
    LegacyNotOutputs(o, d0, d, i);
    PathsWithout(o, d, i);
    OnwardStill(o, d0, d, Trashed(d, d0[i].id));
  }

  ghost predicate FoldersTo(o: string, d0: Drive, d: Drive, ops: seq<Op>, e: Drive) {
    Inv(o, d0, e) && Onward(o, d0, d, e) && Discarded(d0, ops, e) && FilesDone(o, d0, e)
  }

  lemma MonthsStayGone(o: string, d0: Drive, d: Drive, e: Drive)
    requires MonthsGone(d0, d) && Onward(o, d0, d, e)
    ensures MonthsGone(d0, e)
  {
  }

  lemma FolderNext(o: string, d0: Drive, d: Drive, roots: bool, ops: seq<Op>, mid: Drive, op: Op, e: Drive)
    requires DriveValid(d0) && o !in KINDS && FoldersTo(o, d0, d, ops, mid) && FolderOp(d0, roots, op)
    requires Step(mid, op, e)
    requires roots ==> MonthsGone(d0, d)
    ensures FoldersTo(o, d0, d, ops + [op], e)
  {
    var i :| 0 <= i < |d0| && Goes(d0, i) && LegacyRoot(d0, i) == roots && op.id == d0[i].id;
    if roots {
      MonthsStayGone(o, d0, d, mid);
    }
    DiscardFolderOn(o, d0, mid, i);
    OnwardTrans(o, d0, d, mid, e);
    DiscardedMore(o, d0, ops, i, mid, e);
    FilesDoneOnward(o, d0, mid, e);
  }

  lemma {:induction false} FolderStage(o: string, d0: Drive, d: Drive, roots: bool, ops: seq<Op>, e: Drive)
    requires DriveValid(d0) && Inv(o, d0, d) && o !in KINDS && Runs(d, ops, e) && FilesDone(o, d0, d)
    requires roots ==> MonthsGone(d0, d)
    requires forall k :: 0 <= k < |ops| ==> FolderOp(d0, roots, ops[k])
    ensures FoldersTo(o, d0, d, ops, e)
  {
    if ops == [] {
      OnwardRefl(o, d0, d);
    } else {
      var mid := RunsBefore(d, ops, e);
      FolderStage(o, d0, d, roots, Front(ops), mid);
      FolderNext(o, d0, d, roots, Front(ops), mid, Last(ops), e);
    }
  }
}
