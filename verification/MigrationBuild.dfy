/** `build_plan`: dating the winners, keeping folders that hold undated files, ordering the plan. */
module MigrationBuild {
  import opened DriveNames
  import opened Text
  import opened Sorting
  import opened MigrationModel
  import opened MigrationSafety
  import opened MigrationPlan
  import opened MigrationPlanner

  // ---------------------------------------------------------------- dating

  ghost predicate MoveOf(o: string, e: Entry, m: Move) {
    DateOf(e.item).Some? && m == Move(e.item, Destination(o, e.path, DateOf(e.item).value), RenameOf(e.item))
  }

  ghost predicate UndatedIn(winners: seq<Entry>, parent: Id) {
    exists e :: e in winners && DateOf(e.item).None? && e.item.parent == parent
  }

  ghost predicate MoveIn(o: string, winners: seq<Entry>, m: Move) { exists e :: e in winners && MoveOf(o, e, m) }

  ghost predicate UndatedSkip(winners: seq<Entry>, s: Skip) {
    exists e :: e in winners && DateOf(e.item).None? && s == Skip(e.item.name, "invalid-date")
  }

  method DateWinners(o: string, winners: seq<Entry>, before: seq<Skip>)
    returns (moves: seq<Move>, skips: seq<Skip>, invalid: set<Id>)
    ensures forall m :: m in moves <==> MoveIn(o, winners, m)
    ensures forall s :: s in skips <==> s in before || UndatedSkip(winners, s)
    ensures forall p :: p in invalid <==> UndatedIn(winners, p)
  {
    moves, skips, invalid := [], before, {};
    for i := 0 to |winners|
      invariant forall m :: m in moves <==> MoveIn(o, winners[..i], m)
      invariant forall s :: s in skips <==> s in before || UndatedSkip(winners[..i], s)
      invariant forall p :: p in invalid <==> UndatedIn(winners[..i], p)
    {
      var e := winners[i];
      assert winners[..i + 1] == winners[..i] + [e];
      WinnersNext(o, winners[..i], e);
      UndatedNext(winners[..i], e);
      if DateOf(e.item).None? {
        skips := skips + [Skip(e.item.name, "invalid-date")];
        invalid := invalid + {e.item.parent};
      } else {
        moves := moves + [Move(e.item, Destination(o, e.path, DateOf(e.item).value), RenameOf(e.item))];
      }
    }
    assert winners[..|winners|] == winners;
  }

  lemma WinnersNext(o: string, winners: seq<Entry>, e: Entry)
    ensures forall m :: MoveIn(o, winners + [e], m) <==> (MoveIn(o, winners, m) || MoveOf(o, e, m))
    ensures forall p ::
              UndatedIn(winners + [e], p) <==> (UndatedIn(winners, p) || (DateOf(e.item).None? && e.item.parent == p))
  {
    var more := winners + [e];
    assert forall y :: y in more <==> y in winners || y == e;
    forall m ensures MoveIn(o, more, m) <==> (MoveIn(o, winners, m) || MoveOf(o, e, m)) {
    }
    forall p ensures UndatedIn(more, p) <==> (UndatedIn(winners, p) || (DateOf(e.item).None? && e.item.parent == p)) {
    }
  }

  lemma UndatedNext(winners: seq<Entry>, e: Entry)
    ensures forall s :: UndatedSkip(winners + [e], s)
                   <==> (UndatedSkip(winners, s) || (DateOf(e.item).None? && s == Skip(e.item.name, "invalid-date")))
  {
    var more := winners + [e];
    assert forall y :: y in more <==> y in winners || y == e;
    forall s
      ensures UndatedSkip(more, s)
        <==> (UndatedSkip(winners, s) || (DateOf(e.item).None? && s == Skip(e.item.name, "invalid-date")))
    {
    }
  }

  // ---------------------------------------------------------------- folders that stay

  /** Some winner that shares its folder with an undated one has a path in the candidate. */
  ghost predicate Tainted(winners: seq<Entry>, invalid: set<Id>, c: Candidate) {
    exists w :: w in winners && w.item.parent in invalid && Within(w.path, FolderPathOf(c))
  }

  method InvalidPaths(winners: seq<Entry>, invalid: set<Id>) returns (paths: seq<string>)
    ensures forall p :: p in paths <==> exists w :: w in winners && w.item.parent in invalid && w.path == p
  {
    paths := [];
    for i := 0 to |winners|
      invariant forall p :: p in paths <==> exists w :: w in winners[..i] && w.item.parent in invalid && w.path == p
    {
      var x := winners[i];
      assert winners[..i + 1] == winners[..i] + [x];
      assert forall y :: y in winners[..i + 1] <==> y in winners[..i] || y == x;
      if x.item.parent in invalid {
        paths := paths + [x.path];
      }
    }
    assert winners[..|winners|] == winners;
  }

  method ContainsInvalid(paths: seq<string>, c: Candidate) returns (r: bool)
    ensures r <==> exists p :: p in paths && Within(p, FolderPathOf(c))
  {
    r := false;
    for i := 0 to |paths|
      invariant r <==> exists p :: p in paths[..i] && Within(p, FolderPathOf(c))
    {
      assert paths[..i + 1] == paths[..i] + [paths[i]];
      if Within(paths[i], FolderPathOf(c)) {
        r := true;
      }
    }
    assert paths[..|paths|] == paths;
  }

  method KeepEmptied(winners: seq<Entry>, invalid: set<Id>, folders: seq<Candidate>) returns (kept: seq<Candidate>)
    ensures forall c :: c in kept <==> c in folders && !Tainted(winners, invalid, c)
  {
    if invalid == {} {
      return folders;
    }
    var paths := InvalidPaths(winners, invalid);
    kept := [];
    for i := 0 to |folders|
      invariant forall c :: c in kept <==> c in folders[..i] && !Tainted(winners, invalid, c)
    {
      assert folders[..i + 1] == folders[..i] + [folders[i]];
      var bad := ContainsInvalid(paths, folders[i]);
      assert bad <==> Tainted(winners, invalid, folders[i]);
      if !bad {
        kept := kept + [folders[i]];
      }
    }
    assert folders[..|folders|] == folders;
  }

  // ---------------------------------------------------------------- the order of the plan

  predicate LeParts(a: seq<string>, b: seq<string>) {
    a == [] || (b != [] && (if a[0] == b[0] then LeParts(a[1..], b[1..]) else Le(a[0], b[0])))
  }

  predicate ByMove(x: Move, y: Move) {
    if x.entry.id == y.entry.id then LeParts(x.destination, y.destination) else Le(x.entry.id, y.entry.id)
  }

  function Reason(t: TrashOrder): string { if t.depth == 0 then "duplicate" else "empty-folder" }

  predicate ByTrash(x: TrashOrder, y: TrashOrder) {
    if x.entry.id == y.entry.id then Le(Reason(x), Reason(y)) else Le(x.entry.id, y.entry.id)
  }

  predicate BySkip(x: Skip, y: Skip) { if x.target == y.target then Le(x.reason, y.reason) else Le(x.target, y.target) }

  predicate ByEntry(x: Entry, y: Entry) { ByName(x.item, y.item) }

  /** Trash orders compare as their keys do, so `apply_plan` sorting them again changes nothing. */
  lemma ByTrashOrders()
    ensures TotalPreorder(ByTrash)
  {
    forall x: TrashOrder, y: TrashOrder ensures ByTrash(x, y) || ByTrash(y, x) {
      LeTotal(x.entry.id, y.entry.id);
      LeTotal(Reason(x), Reason(y));
    }
    forall x: TrashOrder, y: TrashOrder, z: TrashOrder | ByTrash(x, y) && ByTrash(y, z) ensures ByTrash(x, z) {
      ByTrashTransitive(x, y, z);
    }
  }

  lemma ByTrashTransitive(x: TrashOrder, y: TrashOrder, z: TrashOrder)
    requires ByTrash(x, y) && ByTrash(y, z)
    ensures ByTrash(x, z)
  {
    LeTotal(x.entry.id, y.entry.id);
    LeTotal(y.entry.id, z.entry.id);
    if x.entry.id == y.entry.id == z.entry.id {
      LeTransitive(Reason(x), Reason(y), Reason(z));
    } else if x.entry.id != y.entry.id && y.entry.id != z.entry.id {
      LeTransitive(x.entry.id, y.entry.id, z.entry.id);
    }
  }

  lemma {:induction false} LePartsTotal(a: seq<string>, b: seq<string>)
    ensures LeParts(a, b) || LeParts(b, a)
  {
    if a != [] && b != [] {
      LeTotal(a[0], b[0]);
      if a[0] == b[0] {
        LePartsTotal(a[1..], b[1..]);
      }
    }
  }

  lemma {:induction false} LePartsTransitive(a: seq<string>, b: seq<string>, c: seq<string>)
    requires LeParts(a, b) && LeParts(b, c)
    ensures LeParts(a, c)
  {
    if a != [] {
      LeTotal(a[0], b[0]);
      LeTotal(b[0], c[0]);
      if a[0] == b[0] == c[0] {
        LePartsTransitive(a[1..], b[1..], c[1..]);
      } else if a[0] != b[0] && b[0] != c[0] {
        LeTransitive(a[0], b[0], c[0]);
      }
    }
  }

  lemma ByMoveOrders()
    ensures TotalPreorder(ByMove)
  {
    forall x: Move, y: Move ensures ByMove(x, y) || ByMove(y, x) {
      LeTotal(x.entry.id, y.entry.id);
      LePartsTotal(x.destination, y.destination);
    }
    forall x: Move, y: Move, z: Move | ByMove(x, y) && ByMove(y, z) ensures ByMove(x, z) {
      ByMoveTransitive(x, y, z);
    }
  }

  lemma ByMoveTransitive(x: Move, y: Move, z: Move)
    requires ByMove(x, y) && ByMove(y, z)
    ensures ByMove(x, z)
  {
    LeTotal(x.entry.id, y.entry.id);
    LeTotal(y.entry.id, z.entry.id);
    if x.entry.id == y.entry.id == z.entry.id {
      LePartsTransitive(x.destination, y.destination, z.destination);
    } else if x.entry.id != y.entry.id && y.entry.id != z.entry.id {
      LeTransitive(x.entry.id, y.entry.id, z.entry.id);
    }
  }

  lemma BySkipOrders()
    ensures TotalPreorder(BySkip)
  {
    forall x: Skip, y: Skip ensures BySkip(x, y) || BySkip(y, x) {
      LeTotal(x.target, y.target);
      LeTotal(x.reason, y.reason);
    }
    forall x: Skip, y: Skip, z: Skip | BySkip(x, y) && BySkip(y, z) ensures BySkip(x, z) {
      BySkipTransitive(x, y, z);
    }
  }

  lemma BySkipTransitive(x: Skip, y: Skip, z: Skip)
    requires BySkip(x, y) && BySkip(y, z)
    ensures BySkip(x, z)
  {
    LeTotal(x.target, y.target);
    LeTotal(y.target, z.target);
    if x.target == y.target == z.target {
      LeTransitive(x.reason, y.reason, z.reason);
    } else if x.target != y.target && y.target != z.target {
      LeTransitive(x.target, y.target, z.target);
    }
  }

  /** A plan in order: no entry comes before an earlier one, by id for moves and trashes, by target for skips. */
  lemma PlanRises(plan: Plan)
    requires Ascending(plan.moves, ByMove) && Ascending(plan.trashes, ByTrash) && Ascending(plan.skips, BySkip)
    ensures forall i, j :: 0 <= i < j < |plan.moves| ==> !Before(plan.moves[j].entry.id, plan.moves[i].entry.id)
    ensures forall i, j :: 0 <= i < j < |plan.trashes| ==> !Before(plan.trashes[j].entry.id, plan.trashes[i].entry.id)
    ensures forall i, j :: 0 <= i < j < |plan.skips| ==> !Before(plan.skips[j].target, plan.skips[i].target)
  {
    forall i, j | 0 <= i < j < |plan.moves| ensures !Before(plan.moves[j].entry.id, plan.moves[i].entry.id) {
      assert ByMove(plan.moves[i], plan.moves[j]);
      NotBefore(plan.moves[i].entry.id, plan.moves[j].entry.id);
    }
    forall i, j | 0 <= i < j < |plan.trashes| ensures !Before(plan.trashes[j].entry.id, plan.trashes[i].entry.id) {
      assert ByTrash(plan.trashes[i], plan.trashes[j]);
      NotBefore(plan.trashes[i].entry.id, plan.trashes[j].entry.id);
    }
    forall i, j | 0 <= i < j < |plan.skips| ensures !Before(plan.skips[j].target, plan.skips[i].target) {
      assert BySkip(plan.skips[i], plan.skips[j]);
      NotBefore(plan.skips[i].target, plan.skips[j].target);
    }
  }

  // The executor sorts once more: the files by id, the folders by falling depth and then by id.

  predicate ById(x: TrashOrder, y: TrashOrder) { Le(x.entry.id, y.entry.id) }

  predicate ByDepth(x: TrashOrder, y: TrashOrder) { if x.depth == y.depth then ById(x, y) else x.depth > y.depth }

  function OfDepth(trashes: seq<TrashOrder>, depth: nat): (r: seq<TrashOrder>)
    ensures forall t :: t in r <==> t in trashes && t.depth == depth
  {
    if trashes == [] then []
    else
      assert trashes == Front(trashes) + [Last(trashes)];
      OfDepth(Front(trashes), depth) + if Last(trashes).depth == depth then [Last(trashes)] else []
  }

  function Folders(trashes: seq<TrashOrder>): seq<TrashOrder> {
    if trashes == [] then [] else Folders(Front(trashes)) + if Last(trashes).depth != 0 then [Last(trashes)] else []
  }

  lemma ByTrashIsById(x: TrashOrder, y: TrashOrder)
    requires ByTrash(x, y)
    ensures ById(x, y)
  {
    LeTotal(x.entry.id, y.entry.id);
  }

  lemma {:induction false} OfDepthAscends(trashes: seq<TrashOrder>, depth: nat)
    requires Ascending(trashes, ByTrash)
    ensures Ascending(OfDepth(trashes, depth), ById)
    ensures trashes != [] ==> forall t :: t in OfDepth(Front(trashes), depth) ==> ById(t, Last(trashes))
  {
    if trashes != [] {
      OfDepthAscends(Front(trashes), depth);
      forall t | t in OfDepth(Front(trashes), depth) ensures ById(t, Last(trashes)) {
        var i :| 0 <= i < |trashes| - 1 && trashes[i] == t;
        ByTrashIsById(t, Last(trashes));
      }
    }
  }

  /** On a plan in order, sorting the files again changes nothing. */
  lemma FilesInOrder(trashes: seq<TrashOrder>)
    requires Ascending(trashes, ByTrash)
    ensures Sorted(OfDepth(trashes, 0), ById) == OfDepth(trashes, 0)
  {
    OfDepthAscends(trashes, 0);
    SortedAgain(OfDepth(trashes, 0), ById);
  }

  /** On a plan in order, sorting the folders puts the months before the roots, each as they stand. */
  lemma {:induction false} FoldersInOrder(trashes: seq<TrashOrder>)
    requires Ascending(trashes, ByTrash) && forall i :: 0 <= i < |trashes| ==> trashes[i].depth <= 2
    ensures Sorted(Folders(trashes), ByDepth) == OfDepth(trashes, 2) + OfDepth(trashes, 1)
  {
    if trashes != [] {
      var front, last := Front(trashes), Last(trashes);
      FoldersInOrder(front);
      OfDepthAscends(trashes, 2);
      OfDepthAscends(trashes, 1);
      var before, months, roots := Folders(front), OfDepth(front, 2), OfDepth(front, 1);
      FolderPlaced(before, months, roots, last);
      FolderStep(trashes, before, months, roots, last);
    }
  }

  lemma FolderStep(trashes: seq<TrashOrder>, before: seq<TrashOrder>, months: seq<TrashOrder>, roots: seq<TrashOrder>,
                   last: TrashOrder)
    requires trashes != [] && last == Last(trashes) && last.depth <= 2
    requires before == Folders(Front(trashes)) && months == OfDepth(Front(trashes), 2)
    requires roots == OfDepth(Front(trashes), 1)
    ensures Folders(trashes) == if last.depth == 0 then before else before + [last]
    ensures OfDepth(trashes, 2) + OfDepth(trashes, 1)
         == if last.depth == 0 then months + roots
            else if last.depth == 2 then months + [last] + roots
            else months + (roots + [last])
  {
    assert before + [] == before && months + [] == months && roots + [] == roots;
  }

  lemma FolderPlaced(before: seq<TrashOrder>, months: seq<TrashOrder>, roots: seq<TrashOrder>, t: TrashOrder)
    requires Sorted(before, ByDepth) == months + roots
    requires forall m :: m in months ==> m.depth == 2 && ById(m, t)
    requires forall m :: m in roots ==> m.depth == 1 && ById(m, t)
    ensures t.depth == 2 ==> Sorted(before + [t], ByDepth) == months + [t] + roots
    ensures t.depth == 1 ==> Sorted(before + [t], ByDepth) == months + (roots + [t])
  {
    assert (before + [t])[..|before|] == before;
    if t.depth == 2 {
      assert months != [] ==> months[|months| - 1] in months;
      InsertBetween(t, months, roots, ByDepth);
    } else if t.depth == 1 {
      var all := months + roots;
      assert all != [] ==> all[|all| - 1] in months || all[|all| - 1] in roots;
      InsertBetween(t, all, [], ByDepth);
      assert all + [] == all && all + [t] + [] == months + (roots + [t]);
    }
  }

  ghost predicate TrashIn(duplicates: seq<Entry>, kept: seq<Candidate>, t: TrashOrder) {
    || (exists e :: e in duplicates && t == TrashOrder(e.item, 0))
    || (exists c :: c in kept && t == TrashOrder(c.entry.item, c.depth))
  }

  function DuplicateOrders(duplicates: seq<Entry>): (r: seq<TrashOrder>)
    ensures forall t :: t in r <==> exists e :: e in duplicates && t == TrashOrder(e.item, 0)
  {
    if duplicates == [] then []
    else
      assert duplicates == [duplicates[0]] + duplicates[1..];
      [TrashOrder(duplicates[0].item, 0)] + DuplicateOrders(duplicates[1..])
  }

  function FolderOrders(kept: seq<Candidate>): (r: seq<TrashOrder>)
    ensures forall t :: t in r <==> exists c :: c in kept && t == TrashOrder(c.entry.item, c.depth)
  {
    if kept == [] then []
    else
      assert kept == [kept[0]] + kept[1..];
      [TrashOrder(kept[0].entry.item, kept[0].depth)] + FolderOrders(kept[1..])
  }

  // ---------------------------------------------------------------- what the loops found, by index

  lemma FilesDistinct(d: Drive, files: seq<Entry>)
    requires DriveValid(d) && FilesOf(d, files)
    ensures Distinct(files)
  {
    forall e, f | e in files && f in files && e.item.id == f.item.id ensures e == f {
      var i :| FileEntry(d, i, e);
      var j :| FileEntry(d, j, f);
      PathUnique(d, i, e.path, f.path);
    }
  }

  lemma EntryOf(d: Drive, i: int) returns (e: Entry)
    requires LegacyFile(d, i)
    ensures FileEntry(d, i, e)
  {
    var p :| 0 <= p < |d| && LegacyFolder(d, p) && d[i].parent == d[p].id;
    var path := PathOf(d, p);
    e := Entry(d[i], path);
  }

  lemma BestIsWinner(d: Drive, files: seq<Entry>, i: int, e: Entry)
    requires FilesOf(d, files) && FileEntry(d, i, e)
    ensures Best(files, e) <==> Winner(d, i)
  {
    assert e in files;
    if Best(files, e) {
      forall j | 0 <= j < |d| && LegacyFile(d, j) && d[j].name == d[i].name ensures Older(d[j], d[i]) {
        var f := EntryOf(d, j);
        assert f in files;
      }
    }
    if Winner(d, i) {
      forall f | f in files && f.item.name == e.item.name ensures Older(f.item, e.item) {
        var j :| FileEntry(d, j, f);
      }
    }
  }

  ghost predicate WinnersOf(d: Drive, winners: seq<Entry>) {
    forall e {:trigger e in winners} :: e in winners <==> exists i :: FileEntry(d, i, e) && Winner(d, i)
  }

  ghost predicate DuplicatesOf(d: Drive, duplicates: seq<Entry>) {
    forall e {:trigger e in duplicates} :: e in duplicates <==> exists i :: FileEntry(d, i, e) && Duplicate(d, i)
  }

  lemma PickedRight(d: Drive, files: seq<Entry>, winners: seq<Entry>, duplicates: seq<Entry>)
    requires FilesOf(d, files) && forall e :: e in winners <==> Best(files, e)
    requires forall e :: e in duplicates <==> e in files && !Best(files, e)
    ensures WinnersOf(d, winners) && DuplicatesOf(d, duplicates)
  {
    forall e ensures e in winners <==> exists i :: FileEntry(d, i, e) && Winner(d, i) {
      if i :| FileEntry(d, i, e) {
        BestIsWinner(d, files, i, e);
      }
    }
    forall e ensures e in duplicates <==> exists i :: FileEntry(d, i, e) && Duplicate(d, i) {
      if i :| FileEntry(d, i, e) {
        BestIsWinner(d, files, i, e);
      }
    }
  }

  lemma MovesRight(o: string, d: Drive, winners: seq<Entry>, moves: seq<Move>)
    requires WinnersOf(d, winners) && forall m :: m in moves <==> MoveIn(o, winners, m)
    ensures MovesFor(o, d, moves)
  {
    forall k {:trigger CalledFor(o, d, moves[k])} | 0 <= k < |moves| ensures CalledFor(o, d, moves[k]) {
      assert moves[k] in moves;
      var e :| e in winners && MoveOf(o, e, moves[k]);
      var i :| FileEntry(d, i, e) && Winner(d, i);
      assert MoveFor(o, d, i, moves[k]);
    }
    forall i | Moved(d, i) ensures Planned(o, d, moves, i) {
      var e := EntryOf(d, i);
      var m := Move(e.item, Destination(o, e.path, DateOf(e.item).value), RenameOf(e.item));
      assert e in winners && MoveOf(o, e, m);
      assert MoveIn(o, winners, m);
      var k :| 0 <= k < |moves| && moves[k] == m;
      assert MoveFor(o, d, i, moves[k]);
    }
  }

  lemma UndatedSkipIs(d: Drive, winners: seq<Entry>, s: Skip)
    requires WinnersOf(d, winners)
    ensures UndatedSkip(winners, s) <==> exists i :: UndatedAt(d, i, s)
  {
    if UndatedSkip(winners, s) {
      var e :| e in winners && DateOf(e.item).None? && s == Skip(e.item.name, "invalid-date");
      var i :| FileEntry(d, i, e) && Winner(d, i);
      assert UndatedAt(d, i, s);
    }
    if i :| UndatedAt(d, i, s) {
      var e := EntryOf(d, i);
      assert e in winners;
    }
  }

  lemma SkipsRight(d: Drive, winners: seq<Entry>, found: seq<Skip>, skips: seq<Skip>)
    requires WinnersOf(d, winners) && SkipsOf(d, found)
    requires forall s :: s in skips <==> s in found || UndatedSkip(winners, s) || s == NO_PATENT
    ensures SkipsFor(d, skips)
  {
    forall s ensures s in skips <==> SkipCalledFor(d, s) {
      UndatedSkipIs(d, winners, s);
      assert s in found <==> FoundSkip(d, s);
    }
  }

  /** The path a candidate was listed under is its path. */
  lemma CandidatePath(d: Drive, i: int, c: Candidate)
    requires DriveValid(d) && FolderEntry(d, i, c)
    ensures FolderPath(d, i, FolderPathOf(c))
  {
    if c.depth == 2 {
      var l :| 0 <= l < |d| && LegacyRoot(d, l) && d[i].parent == d[l].id && c.entry.path == d[l].name;
      assert c.entry.path != ROOT;
    }
  }

  lemma TaintedIs(d: Drive, winners: seq<Entry>, invalid: set<Id>, i: int, c: Candidate)
    requires DriveValid(d) && WinnersOf(d, winners) && FolderEntry(d, i, c)
    requires forall p :: p in invalid <==> UndatedIn(winners, p)
    ensures Tainted(winners, invalid, c) <==> HoldsUndated(d, i)
  {
    CandidatePath(d, i, c);
    if Tainted(winners, invalid, c) {
      TaintedHolds(d, winners, invalid, i, c);
    }
    if HoldsUndated(d, i) {
      var j, path, folder :| FolderPath(d, i, folder) && Undated(d, j) && FilePath(d, j, path) && Within(path, folder);
      FolderPathUnique(d, i, folder, FolderPathOf(c));
      var e := EntryOf(d, j);
      PathUnique(d, j, path, e.path);
      assert e in winners;
      assert UndatedIn(winners, e.item.parent);
    }
  }

  lemma TaintedHolds(d: Drive, winners: seq<Entry>, invalid: set<Id>, i: int, c: Candidate)
    requires WinnersOf(d, winners) && FolderPath(d, i, FolderPathOf(c))
    requires (forall p :: p in invalid <==> UndatedIn(winners, p)) && Tainted(winners, invalid, c)
    ensures HoldsUndated(d, i)
  {
    var w :| w in winners && w.item.parent in invalid && Within(w.path, FolderPathOf(c));
    assert UndatedIn(winners, w.item.parent);
    var u := UndatedBeside(d, winners, w);
    HoldsBy(d, i, u, w.path, FolderPathOf(c));
  }

  lemma UndatedBeside(d: Drive, winners: seq<Entry>, w: Entry) returns (u: int)
    requires WinnersOf(d, winners) && w in winners && UndatedIn(winners, w.item.parent)
    ensures Undated(d, u) && FilePath(d, u, w.path)
  {
    var e :| e in winners && DateOf(e.item).None? && e.item.parent == w.item.parent;
    var i :| FileEntry(d, i, w) && Winner(d, i);
    u :| FileEntry(d, u, e) && Winner(d, u);
    SharedFolder(d, i, u, w.path);
  }

  lemma HoldsBy(d: Drive, f: int, i: int, path: string, folder: string)
    requires FolderPath(d, f, folder) && Undated(d, i) && FilePath(d, i, path) && Within(path, folder)
    ensures HoldsUndated(d, f)
  {
  }

  lemma SharedFolder(d: Drive, i: int, j: int, path: string)
    requires FilePath(d, i, path) && 0 <= j < |d| && d[j].parent == d[i].parent
    ensures FilePath(d, j, path)
  {
  }

  lemma CandidateOf(d: Drive, i: int) returns (c: Candidate)
    requires LegacyFolder(d, i)
    requires (LegacyRoot(d, i) ==> !RootBlocked(d, i)) && (Month(d, i) ==> !MonthBlocked(d, i))
    ensures FolderEntry(d, i, c) && c.entry.item == d[i] && c.depth == if LegacyRoot(d, i) then 1 else 2
  {
    if LegacyRoot(d, i) {
      c := Candidate(Entry(d[i], ROOT), 1);
    } else {
      var l :| 0 <= l < |d| && LegacyRoot(d, l) && d[i].parent == d[l].id;
      c := Candidate(Entry(d[i], d[l].name), 2);
    }
  }

  ghost predicate KeptOf(d: Drive, kept: seq<Candidate>) {
    forall c {:trigger c in kept} :: c in kept <==> exists i :: FolderEntry(d, i, c) && !HoldsUndated(d, i)
  }

  lemma KeptRight(d: Drive, winners: seq<Entry>, invalid: set<Id>, folders: seq<Candidate>, kept: seq<Candidate>)
    requires DriveValid(d) && WinnersOf(d, winners) && FoldersOf(d, folders)
    requires forall p :: p in invalid <==> UndatedIn(winners, p)
    requires forall c :: c in kept <==> c in folders && !Tainted(winners, invalid, c)
    ensures KeptOf(d, kept)
  {
    forall c ensures c in kept <==> exists i :: FolderEntry(d, i, c) && !HoldsUndated(d, i) {
      if c in kept {
        var i :| FolderEntry(d, i, c);
        TaintedIs(d, winners, invalid, i, c);
      }
      if i :| FolderEntry(d, i, c) && !HoldsUndated(d, i) {
        TaintedIs(d, winners, invalid, i, c);
        assert c in folders;
      }
    }
  }

  /** A legacy root lies in the root folder and a month does not. */
  lemma RootOrMonth(d: Drive, i: int)
    requires DriveValid(d) && LegacyRoot(d, i)
    ensures !Month(d, i)
  {
  }

  lemma KeptGoes(d: Drive, i: int, c: Candidate)
    requires DriveValid(d) && FolderEntry(d, i, c) && !HoldsUndated(d, i)
    ensures TrashFor(d, i, TrashOrder(c.entry.item, c.depth))
  {
    if LegacyRoot(d, i) {
      RootOrMonth(d, i);
    }
  }

  lemma TrashesRight(d: Drive, duplicates: seq<Entry>, kept: seq<Candidate>, trashes: seq<TrashOrder>)
    requires DriveValid(d) && DuplicatesOf(d, duplicates) && KeptOf(d, kept)
    requires forall t :: t in trashes <==> TrashIn(duplicates, kept, t)
    ensures TrashesFor(d, trashes)
  {
    forall k {:trigger TrashCalledFor(d, trashes[k])} | 0 <= k < |trashes| ensures TrashCalledFor(d, trashes[k]) {
      assert trashes[k] in trashes;
      TrashHasIndex(d, duplicates, kept, trashes[k]);
    }
    forall i | Duplicate(d, i) || Goes(d, i) ensures TrashPlanned(d, trashes, i) {
      var t := OrderOf(d, duplicates, kept, i);
      assert t in trashes;
      var k :| 0 <= k < |trashes| && trashes[k] == t;
    }
  }

  lemma OrderOf(d: Drive, duplicates: seq<Entry>, kept: seq<Candidate>, i: int) returns (t: TrashOrder)
    requires DriveValid(d) && DuplicatesOf(d, duplicates) && KeptOf(d, kept) && (Duplicate(d, i) || Goes(d, i))
    ensures TrashFor(d, i, t) && TrashIn(duplicates, kept, t)
  {
    if Duplicate(d, i) {
      var e := EntryOf(d, i);
      assert e in duplicates;
      t := TrashOrder(e.item, 0);
    } else {
      var c := CandidateOf(d, i);
      assert c in kept;
      t := TrashOrder(c.entry.item, c.depth);
    }
  }

  lemma TrashHasIndex(d: Drive, duplicates: seq<Entry>, kept: seq<Candidate>, t: TrashOrder)
    requires DriveValid(d) && DuplicatesOf(d, duplicates) && KeptOf(d, kept) && TrashIn(duplicates, kept, t)
    ensures TrashCalledFor(d, t)
  {
    if e :| e in duplicates && t == TrashOrder(e.item, 0) {
      var i :| FileEntry(d, i, e) && Duplicate(d, i);
      assert TrashFor(d, i, t);
    } else {
      var c :| c in kept && t == TrashOrder(c.entry.item, c.depth);
      var i :| FolderEntry(d, i, c) && !HoldsUndated(d, i);
      KeptGoes(d, i, c);
    }
  }

  // ---------------------------------------------------------------- the planner

  method Contenders(d: Drive)
    returns (winners: seq<Entry>, duplicates: seq<Entry>, folders: seq<Candidate>, skips: seq<Skip>)
    requires DriveValid(d)
    ensures WinnersOf(d, winners) && DuplicatesOf(d, duplicates) && FoldersOf(d, folders) && SkipsOf(d, skips)
  {
    var files;
    files, folders, skips := LegacyEntries(d);
    ListingByIndex(d, files, folders);
    SkipsByIndex(d, skips);
    FilesDistinct(d, files);
    winners, duplicates := PickWinners(files);
    PickedRight(d, files, winners, duplicates);
  }

  method Trashes(d: Drive, duplicates: seq<Entry>, kept: seq<Candidate>) returns (trashes: seq<TrashOrder>)
    requires DriveValid(d) && DuplicatesOf(d, duplicates) && KeptOf(d, kept)
    ensures TrashesFor(d, trashes) && Ascending(trashes, ByTrash)
  {
    var all := DuplicateOrders(duplicates) + FolderOrders(kept);
    SortedMembers(all, ByTrash);
    ByTrashOrders();
    SortedAscends(all, ByTrash);
    trashes := Sorted(all, ByTrash);
    TrashesRight(d, duplicates, kept, trashes);
  }

  /** The loops produce the plan that the account calls for. */
  method BuildPlan(o: string, d: Drive) returns (plan: Plan)
    requires DriveValid(d)
    ensures PlanFor(o, d, plan)
    ensures Ascending(plan.moves, ByMove) && Ascending(plan.trashes, ByTrash) && Ascending(plan.skips, BySkip)
  {
    var winners, duplicates, folders, found := Contenders(d);
    SortedMembers(winners, ByEntry);
    var moves, skips, invalid := DateWinners(o, Sorted(winners, ByEntry), found);
    var kept := KeepEmptied(winners, invalid, folders);
    KeptRight(d, winners, invalid, folders, kept);
    var trashes := Trashes(d, duplicates, kept);

    SortedMembers(moves, ByMove);
    ByMoveOrders();
    SortedAscends(moves, ByMove);
    MovesRight(o, d, Sorted(winners, ByEntry), Sorted(moves, ByMove));
    skips := skips + [NO_PATENT];
    SortedMembers(skips, BySkip);
    BySkipOrders();
    SortedAscends(skips, BySkip);
    SkipsRight(d, Sorted(winners, ByEntry), found, Sorted(skips, BySkip));
    plan := Plan(Sorted(moves, ByMove), trashes, Sorted(skips, BySkip));
  }
}
