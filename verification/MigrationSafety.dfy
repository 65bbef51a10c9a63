/** What every prefix of the requests of a plan keeps. */
module MigrationSafety {
  import opened DriveNames
  import opened Text
  import opened MigrationModel
  import opened MigrationSteps

  // ---------------------------------------------------------------- the outputs tree

  predicate Top(o: string, d: Drive, i: int) { 0 <= i < |d| && d[i].folder && d[i].parent == ROOT && d[i].name == o }

  predicate Middle(o: string, d: Drive, i: int) {
    0 <= i < |d| && d[i].folder && exists t :: 0 <= t < |d| && Top(o, d, t) && d[i].parent == d[t].id
  }

  predicate Bottom(o: string, d: Drive, i: int) {
    0 <= i < |d| && d[i].folder && exists m :: 0 <= m < |d| && Middle(o, d, m) && d[i].parent == d[m].id
  }

  /** `id` is a year folder: two levels below the outputs root. */
  predicate Deep(o: string, d: Drive, id: Id) { exists y :: 0 <= y < |d| && Bottom(o, d, y) && d[y].id == id }

  /** Folders stay where they are and keep their names. */
  ghost predicate FoldersKept(d: Drive, e: Drive) {
    && |d| <= |e|
    && (forall i :: 0 <= i < |d| ==> e[i].id == d[i].id && e[i].folder == d[i].folder)
    && (forall i :: 0 <= i < |d| && d[i].folder ==> e[i].name == d[i].name && e[i].parent == d[i].parent)
  }

  lemma OutputsKept(o: string, d: Drive, e: Drive, i: int)
    requires FoldersKept(d, e)
    ensures Top(o, d, i) ==> Top(o, e, i)
    ensures Middle(o, d, i) ==> Middle(o, e, i)
    ensures Bottom(o, d, i) ==> Bottom(o, e, i)
  {
    if Middle(o, d, i) {
      var t :| 0 <= t < |d| && Top(o, d, t) && d[i].parent == d[t].id;
      assert Top(o, e, t);
    }
    if Bottom(o, d, i) {
      var m :| 0 <= m < |d| && Middle(o, d, m) && d[i].parent == d[m].id;
      var t :| 0 <= t < |d| && Top(o, d, t) && d[m].parent == d[t].id;
      assert Top(o, e, t);
      assert Middle(o, e, m);
    }
  }

  lemma DeepKept(o: string, d: Drive, e: Drive, id: Id)
    requires FoldersKept(d, e) && Deep(o, d, id)
    ensures Deep(o, e, id)
  {
    var y :| 0 <= y < |d| && Bottom(o, d, y) && d[y].id == id;
    OutputsKept(o, d, e, y);
  }

  /** No folder of the outputs tree is a legacy root, and nothing in it lies in a legacy folder. */
  lemma OutputsApart(o: string, d: Drive, i: int, l: int)
    requires DriveValid(d) && o !in KINDS && LegacyRoot(d, l)
    ensures Top(o, d, i) ==> i != l && d[i].parent != d[l].id
    ensures Middle(o, d, i) ==> i != l && d[i].parent != d[l].id
    ensures Bottom(o, d, i) ==> i != l && d[i].parent != d[l].id
  {
  }

  lemma DeepIsNotLegacy(o: string, d: Drive, y: int, p: int)
    requires DriveValid(d) && o !in KINDS && Bottom(o, d, y) && LegacyFolder(d, p)
    ensures y != p
  {
    if Month(d, p) {
      var l :| 0 <= l < |d| && LegacyRoot(d, l) && d[p].parent == d[l].id;
      OutputsApart(o, d, y, l);
    } else {
      OutputsApart(o, d, y, p);
    }
  }

  // ---------------------------------------------------------------- the invariant

  /** What may have become of item `i` of the account that was planned for. */
  ghost predicate Kept(o: string, d0: Drive, d: Drive, i: int)
    requires 0 <= i < |d0| <= |d|
  {
    && d[i].id == d0[i].id && d[i].folder == d0[i].folder
    && (|| d[i] == d0[i]
        || ((Duplicate(d0, i) || Goes(d0, i)) && d[i] == d0[i].(trashed := true))
        || (Moved(d0, i) && !d[i].trashed && Deep(o, d, d[i].parent)))
  }

  ghost predicate Added(o: string, d: Drive, i: int) {
    && 0 <= i < |d| && d[i].folder && !d[i].trashed
    && (Top(o, d, i) || Middle(o, d, i) || Bottom(o, d, i))
  }

  ghost predicate Inv(o: string, d0: Drive, d: Drive) {
    && DriveValid(d) && |d0| <= |d|
    && (forall i :: 0 <= i < |d0| ==> Kept(o, d0, d, i))
    && (forall i :: |d0| <= i < |d| ==> Added(o, d, i))
  }

  lemma InvStart(o: string, d0: Drive)
    requires DriveValid(d0)
    ensures Inv(o, d0, d0)
  {
  }

  lemma AddedKept(o: string, d: Drive, e: Drive, i: int)
    requires FoldersKept(d, e) && Added(o, d, i) && !e[i].trashed
    ensures Added(o, e, i)
  {
    OutputsKept(o, d, e, i);
  }

  lemma KeptKept(o: string, d0: Drive, d: Drive, e: Drive, i: int)
    requires 0 <= i < |d0| <= |d| && FoldersKept(d, e) && Kept(o, d0, d, i) && e[i] == d[i]
    ensures Kept(o, d0, e, i)
  {
    if Deep(o, d, d[i].parent) {
      DeepKept(o, d, e, d[i].parent);
    }
  }

  /** Changing one old item in an allowed way keeps the invariant. */
  lemma InvOne(o: string, d0: Drive, d: Drive, i: nat, x: Item)
    requires Inv(o, d0, d) && i < |d0|
    requires var e := d[i := x]; DriveValid(e) && FoldersKept(d, e) && Kept(o, d0, e, i)
    ensures Inv(o, d0, d[i := x])
  {
    var e := d[i := x];
    forall j | 0 <= j < |d0| ensures Kept(o, d0, e, j) {
      if j != i {
        KeptKept(o, d0, d, e, j);
      }
    }
    forall j | |d0| <= j < |e| ensures Added(o, e, j) {
      AddedKept(o, d, e, j);
    }
  }

  /** The index of a child's parent, for ids that are folders. */
  lemma ParentIs(d: Drive, i: int, p: int)
    requires DriveValid(d) && 0 <= i < |d| && 0 <= p < |d| && d[i].parent == d[p].id
    ensures d[p].folder
  {
    assert HasParent(d, i) && d[i].parent != ROOT;
  }

  lemma TrashKeepsValid(d: Drive, i: nat)
    requires DriveValid(d) && i < |d|
    requires forall j :: 0 <= j < |d| && d[j].parent == d[i].id ==> d[j].trashed
    ensures DriveValid(d[i := d[i].(trashed := true)])
  {
    var e := d[i := d[i].(trashed := true)];
    forall j | 0 <= j < |e| && e[j].parent != ROOT ensures HasParent(e, j) {
      assert HasParent(d, j);
      var p :| 0 <= p < |d| && d[p].folder && d[p].id == d[j].parent;
      assert e[p].folder && e[p].id == e[j].parent;
    }
  }

  // ---------------------------------------------------------------- trashing a duplicate

  lemma DiscardFile(o: string, d0: Drive, d: Drive, i: nat)
    requires Inv(o, d0, d) && i < |d0| && Duplicate(d0, i)
    ensures Inv(o, d0, Trashed(d, d0[i].id)) && Trashed(d, d0[i].id) == d[i := d[i].(trashed := true)]
    ensures FoldersKept(d, Trashed(d, d0[i].id))
  {
    forall j | 0 <= j < |d| ensures d[j].parent != d[i].id {
      if d[j].parent == d[i].id { ParentIs(d, j, i); }
    }
    assert Kept(o, d0, d, i);
    TrashLeaf(d, i);
    TrashKeepsValid(d, i);
    InvOne(o, d0, d, i, d[i].(trashed := true));
  }

  // ---------------------------------------------------------------- trashing an emptied folder

  ghost predicate DuplicatesGone(d0: Drive, d: Drive) {
    |d0| <= |d| && forall j :: 0 <= j < |d0| && Duplicate(d0, j) ==> d[j].trashed
  }

  ghost predicate MovesDone(o: string, d0: Drive, d: Drive) {
    |d0| <= |d| && forall j :: 0 <= j < |d0| && Moved(d0, j) ==> Deep(o, d, d[j].parent)
  }

  ghost predicate MonthsGone(d0: Drive, d: Drive) {
    |d0| <= |d| && forall j :: 0 <= j < |d0| && Month(d0, j) && Goes(d0, j) ==> d[j].trashed
  }

  lemma LegacyFolderKept(o: string, d0: Drive, d: Drive, i: int)
    requires Inv(o, d0, d) && LegacyFolder(d0, i)
    ensures d[i].name == d0[i].name && d[i].parent == d0[i].parent && d[i].id == d0[i].id
  {
    assert Kept(o, d0, d, i);
  }

  /** A legacy folder is never a folder of the outputs tree. */
  lemma LegacyNotOutputs(o: string, d0: Drive, d: Drive, i: int)
    requires DriveValid(d0) && Inv(o, d0, d) && o !in KINDS && LegacyFolder(d0, i)
    ensures !Top(o, d, i) && !Middle(o, d, i) && !Bottom(o, d, i)
  {
    LegacyFolderKept(o, d0, d, i);
    if Month(d0, i) {
      var l :| 0 <= l < |d0| && LegacyRoot(d0, l) && d0[i].parent == d0[l].id;
      LegacyFolderKept(o, d0, d, l);
      assert d[i].parent == d[l].id && d[l].parent == ROOT && d[l].name in KINDS;
    }
  }

  lemma OutputsNotInside(o: string, d0: Drive, d: Drive, i: int, id: Id)
    requires DriveValid(d0) && Inv(o, d0, d) && o !in KINDS && LegacyFolder(d0, i)
    ensures Deep(o, d, id) ==> id != d[i].id
    ensures forall j :: 0 <= j < |d| && Added(o, d, j) ==> d[j].parent != d[i].id
  {
    LegacyNotOutputs(o, d0, d, i);
  }

  lemma PathOfMonth(d: Drive, l: int, m: int, folder: string)
    requires DriveValid(d) && LegacyRoot(d, l) && Month(d, m) && d[m].parent == d[l].id && FolderPath(d, m, folder)
    ensures folder == d[l].name + "/" + d[m].name
  {
    assert !LegacyRoot(d, m);
  }

  lemma WithinParent(path: string, top: string, sub: string)
    requires Within(path, top + "/" + sub)
    ensures Within(path, top)
  {
    assert top + "/" <= top + "/" + sub;
  }

  /** An undated file in a month is an undated file in the month's legacy folder. */
  lemma UndatedBelow(d: Drive, l: int, m: int)
    requires DriveValid(d) && LegacyRoot(d, l) && Month(d, m) && d[m].parent == d[l].id && HoldsUndated(d, m)
    ensures HoldsUndated(d, l)
  {
    var i, path, folder :| FolderPath(d, m, folder) && Undated(d, i) && FilePath(d, i, path) && Within(path, folder);
    PathOfMonth(d, l, m, folder);
    WithinParent(path, d[l].name, d[m].name);
    assert FolderPath(d, l, d[l].name);
  }

  /** A folder that goes and the live folder `c` in it: `c` is a month that goes too. */
  lemma SubfolderGoes(d: Drive, i: int, c: int)
    requires DriveValid(d) && Goes(d, i) && LiveFolder(d, c) && d[c].parent == d[i].id
    ensures LegacyRoot(d, i) && Month(d, c) && Goes(d, c)
  {
    assert !Month(d, i);
    assert !Blocks(d, c, i);
    assert Month(d, c);
    assert !LegacyRoot(d, c);
    if HoldsUndated(d, c) {
      UndatedBelow(d, i, c);
    }
  }

  /** No file in a folder that goes is an undated winner. */
  lemma FileInGoing(d: Drive, i: int, j: int)
    requires DriveValid(d) && Goes(d, i) && 0 <= j < |d| && !d[j].folder && !d[j].trashed && d[j].parent == d[i].id
    ensures Duplicate(d, j) || Moved(d, j)
  {
    assert LegacyFile(d, j);
    if Undated(d, j) {
      var path := PathOf(d, i);
      assert FilePath(d, j, path) && Within(path, path);
    }
  }

  lemma PathOf(d: Drive, i: int) returns (path: string)
    requires LegacyFolder(d, i)
    ensures FolderPath(d, i, path)
  {
    if LegacyRoot(d, i) {
      path := d[i].name;
    } else {
      var l :| 0 <= l < |d| && LegacyRoot(d, l) && d[i].parent == d[l].id;
      path := d[l].name + "/" + d[i].name;
    }
  }

  /** By the time a folder is trashed, whatever was in it has moved out or is in the trash. */
  lemma ChildSettled(o: string, d0: Drive, d: Drive, i: int, j: int)
    requires DriveValid(d0) && Inv(o, d0, d) && o !in KINDS && Goes(d0, i) && 0 <= j < |d|
    requires DuplicatesGone(d0, d) && MovesDone(o, d0, d) && (LegacyRoot(d0, i) ==> MonthsGone(d0, d))
    requires d[j].parent == d[i].id
    ensures d[j].trashed
  {
    OutputsNotInside(o, d0, d, i, d[j].parent);
    LegacyFolderKept(o, d0, d, i);
    assert j < |d0| && Kept(o, d0, d, j);
    assert !Moved(d0, j);
    if d[j] == d0[j] && !d0[j].trashed {
      if d0[j].folder {
        SubfolderGoes(d0, i, j);
      } else {
        FileInGoing(d0, i, j);
      }
    }
  }

  lemma DiscardFolder(o: string, d0: Drive, d: Drive, i: nat)
    requires DriveValid(d0) && Inv(o, d0, d) && o !in KINDS && Goes(d0, i)
    requires DuplicatesGone(d0, d) && MovesDone(o, d0, d) && (LegacyRoot(d0, i) ==> MonthsGone(d0, d))
    ensures Inv(o, d0, Trashed(d, d0[i].id)) && Trashed(d, d0[i].id) == d[i := d[i].(trashed := true)]
    ensures FoldersKept(d, Trashed(d, d0[i].id))
  {
    forall j | 0 <= j < |d| && d[j].parent == d[i].id ensures d[j].trashed {
      ChildSettled(o, d0, d, i, j);
    }
    assert Kept(o, d0, d, i);
    TrashLeaf(d, i);
    TrashKeepsValid(d, i);
    InvOne(o, d0, d, i, d[i].(trashed := true));
  }

  // ---------------------------------------------------------------- making room in the outputs tree

  /** A path that starts at the outputs root leads to a live folder at its depth. */
  lemma {:induction false} LocateShape(o: string, d: Drive, parts: seq<string>) returns (y: nat)
    requires 1 <= |parts| <= 3 && parts[0] == o && Locate(d, parts).Some?
    ensures y < |d| && LiveFolder(d, y) && d[y].id == Locate(d, parts).value
    ensures |parts| == 1 ==> Top(o, d, y)
    ensures |parts| == 2 ==> Middle(o, d, y)
    ensures |parts| == 3 ==> Bottom(o, d, y)
  {
    var parent := Locate(d, Front(parts)).value;
    y := FindFolder(d, Last(parts), parent).value;
    if |parts| > 1 {
      var p := LocateShape(o, d, Front(parts));
      assert d[y].parent == d[p].id;
    }
  }

  lemma {:induction false} FindGrows(d: Drive, x: Item, name: string, parent: Id)
    requires FindFolder(d, name, parent).Some?
    ensures FindFolder(d + [x], name, parent) == FindFolder(d, name, parent)
  {
    assert (d + [x])[..|d|] == d;
  }

  lemma {:induction false} LocateGrows(d: Drive, x: Item, parts: seq<string>)
    requires Locate(d, parts).Some?
    ensures Locate(d + [x], parts) == Locate(d, parts)
  {
    if parts != [] {
      LocateGrows(d, x, Front(parts));
      FindGrows(d, x, Last(parts), Locate(d, Front(parts)).value);
    }
  }

  lemma GrowthKeepsValid(d: Drive, x: Item)
    requires DriveValid(d) && Fresh(d, x.id) && x.name != "" && !x.trashed
    requires x.parent == ROOT || exists p :: LiveFolder(d, p) && d[p].id == x.parent
    ensures DriveValid(d + [x])
  {
    var e := d + [x];
    forall j | 0 <= j < |e| && e[j].parent != ROOT ensures HasParent(e, j) {
      if j < |d| {
        assert HasParent(d, j);
        var p :| 0 <= p < |d| && d[p].folder && d[p].id == d[j].parent;
        assert e[p].folder && e[p].id == e[j].parent;
      } else {
        var p :| LiveFolder(d, p) && d[p].id == x.parent;
        assert e[p].folder && e[p].id == e[j].parent;
      }
    }
  }

  /** Once ensured, a path leads somewhere. */
  lemma EnsuredLocates(d: Drive, parts: seq<string>, e: Drive)
    requires Step(d, Ensure(parts), e)
    ensures Locate(e, parts).Some?
  {
    var parent, name := Locate(d, Front(parts)).value, Last(parts);
    if FindFolder(d, name, parent).None? {
      var id :| Fresh(d, id) && e == d + [NewFolder(id, name, parent)];
      LocateGrows(d, NewFolder(id, name, parent), Front(parts));
      assert IsFolder(e[|d|], name, parent);
    }
  }

  lemma GrowStep(o: string, d0: Drive, d: Drive, x: Item)
    requires Inv(o, d0, d) && DriveValid(d + [x]) && Added(o, d + [x], |d|)
    ensures Inv(o, d0, d + [x])
  {
    var e := d + [x];
    assert FoldersKept(d, e);
    forall j | 0 <= j < |d0| ensures Kept(o, d0, e, j) { KeptKept(o, d0, d, e, j); }
    forall j | |d0| <= j < |d| ensures Added(o, e, j) { AddedKept(o, d, e, j); }
  }

  /** A folder made at the end of a path in the outputs tree belongs to that tree. */
  lemma NewFolderAdded(o: string, d: Drive, parts: seq<string>, x: Item)
    requires DriveValid(d) && Fresh(d, x.id) && 1 <= |parts| <= 3 && parts[0] == o && Last(parts) != ""
    requires Locate(d, Front(parts)).Some? && x == NewFolder(x.id, Last(parts), Locate(d, Front(parts)).value)
    ensures DriveValid(d + [x]) && Added(o, d + [x], |d|)
  {
    var e := d + [x];
    if |parts| > 1 {
      var p := LocateShape(o, d, Front(parts));
      OutputsKept(o, d, e, p);
      assert e[|d|].parent == e[p].id;
    }
    GrowthKeepsValid(d, x);
  }

  lemma EnsureStep(o: string, d0: Drive, d: Drive, parts: seq<string>, e: Drive)
    requires Inv(o, d0, d) && 1 <= |parts| <= 3 && parts[0] == o && Last(parts) != ""
    requires Step(d, Ensure(parts), e)
    ensures Inv(o, d0, e) && FoldersKept(d, e)
    ensures forall i :: 0 <= i < |d| ==> e[i] == d[i]
  {
    var parent, name := Locate(d, Front(parts)).value, Last(parts);
    if FindFolder(d, name, parent).None? {
      var id :| Fresh(d, id) && e == d + [NewFolder(id, name, parent)];
      NewFolderAdded(o, d, parts, NewFolder(id, name, parent));
      GrowStep(o, d0, d, NewFolder(id, name, parent));
    }
  }

  // ---------------------------------------------------------------- moving and renaming a winner

  lemma MoveStep(o: string, d0: Drive, d: Drive, i: nat, parts: seq<string>, e: Drive)
    requires Inv(o, d0, d) && i < |d0| && Moved(d0, i) && |parts| == 3 && parts[0] == o
    requires Step(d, MoveTo(d0[i].id, parts), e)
    ensures Inv(o, d0, e) && FoldersKept(d, e) && Deep(o, e, e[i].parent)
    ensures forall j :: 0 <= j < |d| && j != i ==> e[j] == d[j]
  {
    var y := LocateShape(o, d, parts);
    var x := d[i].(parent := d[y].id);
    assert Kept(o, d0, d, i);
    assert e == d[i := x];
    OutputsKept(o, d, e, y);
    assert Deep(o, e, e[i].parent);
    ReparentKeepsValid(d, i, y);
    InvOne(o, d0, d, i, x);
  }

  lemma ReparentKeepsValid(d: Drive, i: nat, y: nat)
    requires DriveValid(d) && i < |d| && LiveFolder(d, y) && !d[i].folder && !d[i].trashed
    ensures DriveValid(d[i := d[i].(parent := d[y].id)])
  {
    var e := d[i := d[i].(parent := d[y].id)];
    forall j | 0 <= j < |e| && e[j].parent != ROOT ensures HasParent(e, j) {
      if j == i {
        assert e[y].folder && e[y].id == e[j].parent;
      } else {
        assert HasParent(d, j);
        var p :| 0 <= p < |d| && d[p].folder && d[p].id == d[j].parent;
        assert e[p].folder && e[p].id == e[j].parent;
      }
    }
  }

  lemma RenameStep(o: string, d0: Drive, d: Drive, i: nat, name: string, e: Drive)
    requires Inv(o, d0, d) && i < |d0| && Moved(d0, i) && name != "" && Deep(o, d, d[i].parent)
    requires Step(d, Rename(d0[i].id, name), e)
    ensures Inv(o, d0, e) && FoldersKept(d, e)
    ensures e == d[i := d[i].(name := name, original := name)]
  {
    var x := d[i].(name := name, original := name);
    assert Kept(o, d0, d, i);
    assert e == d[i := x];
    DeepKept(o, d, e, d[i].parent);
    RenameKeepsValid(d, i, name);
    InvOne(o, d0, d, i, x);
  }

  lemma RenameKeepsValid(d: Drive, i: nat, name: string)
    requires DriveValid(d) && i < |d| && name != ""
    ensures DriveValid(d[i := d[i].(name := name, original := name)])
  {
    var e := d[i := d[i].(name := name, original := name)];
    forall j | 0 <= j < |e| && e[j].parent != ROOT ensures HasParent(e, j) {
      assert HasParent(d, j);
      var p :| 0 <= p < |d| && d[p].folder && d[p].id == d[j].parent;
      assert e[p].folder && e[p].id == e[j].parent;
    }
  }
}
