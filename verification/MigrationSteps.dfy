/** The requests that `apply_plan` sends, as steps on the account.  Trashing takes the subtree. */
module MigrationSteps {
  import opened DriveNames
  import opened Text
  import opened MigrationModel

  // ---------------------------------------------------------------- trashing

  ghost function Ids(d: Drive): set<Id> { set i | 0 <= i < |d| :: d[i].id }

  /** `s` with everything below it. */
  ghost function Below(d: Drive, s: set<Id>): (r: set<Id>)
    ensures s <= r
    decreases Ids(d) - s
  {
    var more := set i | 0 <= i < |d| && d[i].parent in s && d[i].id !in s :: d[i].id;
    if more == {} then s
    else
      var x :| x in more;
      assert x in Ids(d) && x !in s + {} && x in s + more;
      Below(d, s + more)
  }

  ghost function Trashed(d: Drive, id: Id): (r: Drive)
    ensures |r| == |d|
  {
    var gone := Below(d, {id});
    seq(|d|, i requires 0 <= i < |d| => if d[i].id in gone then d[i].(trashed := true) else d[i])
  }

  ghost predicate Closed(d: Drive, c: set<Id>) { forall i :: 0 <= i < |d| && d[i].parent in c ==> d[i].id in c }

  lemma {:induction false} BelowLeast(d: Drive, s: set<Id>, c: set<Id>)
    requires s <= c && Closed(d, c)
    ensures Below(d, s) <= c
    decreases Ids(d) - s
  {
    var more := set i | 0 <= i < |d| && d[i].parent in s && d[i].id !in s :: d[i].id;
    if more != {} {
      var x :| x in more;
      assert x in Ids(d) && x in s + more;
      BelowLeast(d, s + more, c);
    }
  }

  /** The item with everything that is in the trash: nothing else lies below it. */
  ghost function Shut(d: Drive, i: nat): set<Id>
    requires i < |d|
  {
    {d[i].id} + set j | 0 <= j < |d| && d[j].trashed :: d[j].id
  }

  lemma ShutIsClosed(d: Drive, i: nat)
    requires TrashClosed(d) && i < |d|
    requires forall j :: 0 <= j < |d| && d[j].parent == d[i].id ==> d[j].trashed
    ensures Closed(d, Shut(d, i))
  {
    forall j | 0 <= j < |d| && d[j].parent in Shut(d, i) ensures d[j].id in Shut(d, i) {
      if d[j].parent != d[i].id {
        var p :| 0 <= p < |d| && d[p].trashed && d[p].id == d[j].parent;
      }
      assert d[j].trashed;
    }
  }

  lemma OnlyTrashedBelow(d: Drive, i: nat, j: nat)
    requires DriveValid(d) && i < |d| && j < |d| && d[j].id in Shut(d, i)
    ensures j == i || d[j].trashed
  {
    if d[j].id != d[i].id {
      var k :| 0 <= k < |d| && d[k].trashed && d[k].id == d[j].id;
      assert k == j;
    }
  }

  /** Nothing but the item itself leaves when all it holds is in the trash already. */
  lemma TrashLeaf(d: Drive, i: nat)
    requires DriveValid(d) && i < |d|
    requires forall j :: 0 <= j < |d| && d[j].parent == d[i].id ==> d[j].trashed
    ensures Trashed(d, d[i].id) == d[i := d[i].(trashed := true)]
  {
    ShutIsClosed(d, i);
    BelowLeast(d, {d[i].id}, Shut(d, i));
    forall j | 0 <= j < |d| ensures Trashed(d, d[i].id)[j] == d[i := d[i].(trashed := true)][j] {
      if d[j].id in Below(d, {d[i].id}) {
        OnlyTrashedBelow(d, i, j);
      }
    }
  }

  // ---------------------------------------------------------------- finding and creating folders

  predicate IsFolder(x: Item, name: string, parent: Id) {
    x.folder && !x.trashed && x.name == name && x.parent == parent
  }

  /** `find_folder`: the first match. */
  function FindFolder(d: Drive, name: string, parent: Id): (r: Option<nat>)
    ensures r.Some? ==> r.value < |d| && IsFolder(d[r.value], name, parent)
    ensures r.None? ==> forall i :: 0 <= i < |d| ==> !IsFolder(d[i], name, parent)
  {
    if d == [] then None
    else
      var early := FindFolder(d[..|d| - 1], name, parent);
      if early.Some? then early
      else if IsFolder(d[|d| - 1], name, parent) then Some(|d| - 1) else None
  }

  /** The folder that a path of names leads to. */
  function Locate(d: Drive, parts: seq<string>): (r: Option<Id>) {
    if parts == [] then Some(ROOT)
    else
      var parent := Locate(d, Front(parts));
      if parent.None? then None
      else
        var i := FindFolder(d, Last(parts), parent.value);
        if i.None? then None else Some(d[i.value].id)
  }

  // ---------------------------------------------------------------- steps

  datatype Op =
    | Discard(id: Id)
    | Ensure(parts: seq<string>)
    | MoveTo(id: Id, parts: seq<string>)
    | Rename(id: Id, name: string)

  predicate Fresh(d: Drive, id: Id) { id != "" && id != ROOT && forall i :: 0 <= i < |d| ==> d[i].id != id }

  function NewFolder(id: Id, name: string, parent: Id): Item {
    Item(id, name, name, true, parent, false, "", "")
  }

  ghost function WithParent(d: Drive, id: Id, parent: Id): (r: Drive)
    ensures |r| == |d|
  {
    seq(|d|, i requires 0 <= i < |d| => if d[i].id == id then d[i].(parent := parent) else d[i])
  }

  ghost function WithName(d: Drive, id: Id, name: string): (r: Drive)
    ensures |r| == |d|
  {
    seq(|d|, i requires 0 <= i < |d| => if d[i].id == id then d[i].(name := name, original := name) else d[i])
  }

  ghost predicate EnsuredIn(d: Drive, name: string, parent: Id, e: Drive) {
    if FindFolder(d, name, parent).Some? then e == d
    else exists id :: Fresh(d, id) && e == d + [NewFolder(id, name, parent)]
  }

  /** One successful request.  A new folder gets whatever fresh id the service picks. */
  ghost predicate Step(d: Drive, op: Op, e: Drive) {
    match op
    case Discard(id) => e == Trashed(d, id)
    case Ensure(parts) =>
      && parts != [] && Locate(d, Front(parts)).Some?
      && EnsuredIn(d, Last(parts), Locate(d, Front(parts)).value, e)
    case MoveTo(id, parts) => Locate(d, parts).Some? && e == WithParent(d, id, Locate(d, parts).value)
    case Rename(id, name) => e == WithName(d, id, name)
  }

  /** `ops`, all answered, take `d` to `e`. */
  ghost predicate Runs(d: Drive, ops: seq<Op>, e: Drive) {
    if ops == [] then e == d
    else exists mid :: Runs(d, Front(ops), mid) && Step(mid, Last(ops), e)
  }
}
