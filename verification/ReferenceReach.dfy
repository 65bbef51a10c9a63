/** What the unfolding of a folder graph means: the files that chains of named folders lead to. */
module ReferenceReach {
  import opened DriveNames
  import opened Text
  import opened ReferenceWalk

  /** Follow a chain of row numbers from a folder: the file it ends at. */
  function Lookup(g: Graph, id: Id, path: string, chain: seq<nat>): Option<File>
    decreases |chain|
  {
    if chain == [] || chain[0] >= |Rows(g, id)| then None
    else
      var row := Rows(g, id)[chain[0]];
      if !Named(row) || row.folder != (|chain| > 1) then None
      else if |chain| == 1 then Some(FileOf(path, row))
      else Lookup(g, row.id, Under(path, row), chain[1..])
  }

  // ---------------------------------------------------------------- the unfolding holds what chains reach

  lemma {:induction false} RowsHold(g: Graph, rows: seq<Row>, j: nat, path: string, left: nat, f: File)
    requires j < |rows| && f in RowFiles(g, rows[j], path, left)
    ensures f in FilesIn(g, rows, path, left)
  {
    HeadLoad(g, rows, path, left);
    if j > 0 {
      RowsHold(g, rows[1..], j - 1, path, left, f);
    }
  }

  lemma {:induction false} ChainHeld(g: Graph, id: Id, path: string, chain: seq<nat>, left: nat, f: File)
    requires Lookup(g, id, path, chain) == Some(f) && |chain| <= left + 1
    ensures f in FilesIn(g, Rows(g, id), path, left)
    decreases |chain|
  {
    var row := Rows(g, id)[chain[0]];
    if |chain| > 1 {
      ChainHeld(g, row.id, Under(path, row), chain[1..], left - 1, f);
      RowOpens(g, row, path, left);
    }
    RowsHold(g, Rows(g, id), chain[0], path, left, f);
  }

  /** A chain to each file of the unfolding, starting at the row that it comes from. */
  lemma {:induction false} ChainTo(g: Graph, id: Id, path: string, k: nat, left: nat, f: File) returns (chain: seq<nat>)
    requires k <= |Rows(g, id)| && f in FilesIn(g, Rows(g, id)[k..], path, left)
    ensures chain != [] && k <= chain[0] && |chain| <= left + 1 && Lookup(g, id, path, chain) == Some(f)
    decreases left, 1, |Rows(g, id)| - k
  {
    var rest := Rows(g, id)[k..];
    assert rest != [];
    HeadLoad(g, rest, path, left);
    assert rest[1..] == Rows(g, id)[k + 1..];
    if f in RowFiles(g, rest[0], path, left) {
      chain := ChainToRow(g, id, path, k, left, f);
    } else {
      chain := ChainTo(g, id, path, k + 1, left, f);
    }
  }

  lemma {:induction false} ChainToRow(g: Graph, id: Id, path: string, k: nat, left: nat, f: File)
    returns (chain: seq<nat>)
    requires k < |Rows(g, id)| && f in RowFiles(g, Rows(g, id)[k], path, left)
    ensures chain != [] && chain[0] == k && |chain| <= left + 1 && Lookup(g, id, path, chain) == Some(f)
    decreases left, 0
  {
    var row := Rows(g, id)[k];
    if row.folder {
      RowOpens(g, row, path, left);
      assert Rows(g, row.id)[0..] == Rows(g, row.id);
      var deeper := ChainTo(g, row.id, Under(path, row), 0, left - 1, f);
      chain := [k] + deeper;
      assert chain[1..] == deeper;
    } else {
      chain := [k];
    }
  }

  lemma {:induction false} ShallowRow(g: Graph, rows: seq<Row>, j: nat, left: nat)
    requires j < |rows| && ShallowIn(g, rows, left)
    ensures RowShallow(g, rows[j], left)
  {
    if j > 0 {
      ShallowRow(g, rows[1..], j - 1, left);
    }
  }

  /** In a shallow graph no chain is longer than the levels allowed. */
  lemma {:induction false} ShallowChains(g: Graph, id: Id, path: string, chain: seq<nat>, left: nat)
    requires ShallowIn(g, Rows(g, id), left) && Lookup(g, id, path, chain).Some?
    ensures |chain| <= left + 1
    decreases |chain|
  {
    if |chain| > 1 {
      var row := Rows(g, id)[chain[0]];
      ShallowRow(g, Rows(g, id), chain[0], left);
      RowOpens(g, row, path, left);
      ShallowChains(g, row.id, Under(path, row), chain[1..], left - 1);
    }
  }

  // ---------------------------------------------------------------- trees

  function StepTo(g: Graph, from: Option<Id>, k: nat): Option<Id> {
    if from.None? || k >= |Rows(g, from.value)| || !Named(Rows(g, from.value)[k]) then None
    else Some(Rows(g, from.value)[k].id)
  }

  /** The id of the row that a chain ends at. */
  function Reached(g: Graph, root: Id, chain: seq<nat>): Option<Id>
    decreases |chain|
  {
    if chain == [] then Some(root) else StepTo(g, Reached(g, root, chain[..|chain| - 1]), chain[|chain| - 1])
  }

  ghost predicate SameRow(g: Graph, a: Id, i: int, b: Id, j: int) {
    && 0 <= i < |Rows(g, a)| && 0 <= j < |Rows(g, b)| && Named(Rows(g, a)[i]) && Named(Rows(g, b)[j])
    && Rows(g, a)[i].id == Rows(g, b)[j].id
  }

  /** Every named row is the only one of its id, and none is the root. */
  ghost predicate Tree(g: Graph, root: Id) {
    && (forall a, i :: 0 <= i < |Rows(g, a)| && Named(Rows(g, a)[i]) ==> Rows(g, a)[i].id != root)
    && (forall a, b, i, j :: SameRow(g, a, i, b, j) ==> a == b && i == j)
  }

  lemma ReachedOne(g: Graph, root: Id, chain: seq<nat>, k: nat)
    ensures Reached(g, root, chain + [k]) == StepTo(g, Reached(g, root, chain), k)
  {
    assert (chain + [k])[..|chain|] == chain;
  }

  lemma {:induction false} LookupReaches(g: Graph, root: Id, before: seq<nat>, id: Id, path: string, chain: seq<nat>)
    requires Reached(g, root, before) == Some(id) && Lookup(g, id, path, chain).Some?
    ensures Reached(g, root, before + chain) == Some(Lookup(g, id, path, chain).value.id)
    decreases |chain|
  {
    ReachedOne(g, root, before, chain[0]);
    if |chain| > 1 {
      var row := Rows(g, id)[chain[0]];
      LookupReaches(g, root, before + [chain[0]], row.id, Under(path, row), chain[1..]);
      assert before + [chain[0]] + chain[1..] == before + chain;
    } else {
      assert chain == [chain[0]];
    }
  }

  /** In a tree, one chain leads to each row. */
  lemma {:induction false} ChainUnique(g: Graph, root: Id, a: seq<nat>, b: seq<nat>)
    requires Tree(g, root) && Reached(g, root, a).Some? && Reached(g, root, a) == Reached(g, root, b)
    ensures a == b
    decreases |a|
  {
    if a != [] && b != [] {
      var x, y := Reached(g, root, a[..|a| - 1]).value, Reached(g, root, b[..|b| - 1]).value;
      assert SameRow(g, x, a[|a| - 1], y, b[|b| - 1]);
      ChainUnique(g, root, a[..|a| - 1], b[..|b| - 1]);
      assert a == a[..|a| - 1] + [a[|a| - 1]] && b == b[..|b| - 1] + [b[|b| - 1]];
    }
  }

  ghost predicate Distinct(m: multiset<File>) {
    && (forall f :: f in m ==> m[f] == 1)
    && (forall f, h :: f in m && h in m && f.id == h.id ==> f == h)
  }

  lemma DistinctSum(a: multiset<File>, b: multiset<File>)
    requires Distinct(a) && Distinct(b) && forall f, h :: f in a && h in b ==> f.id != h.id
    ensures Distinct(a + b)
  {
    forall f | f in a + b ensures (a + b)[f] == 1 {
      assert !(f in a && f in b);
    }
  }

  /** In a tree, the unfolding below a folder holds every file id once. */
  lemma {:induction false} TreeDistinct(g: Graph, root: Id, chain: seq<nat>, id: Id, path: string, k: nat, left: nat)
    requires Tree(g, root) && Reached(g, root, chain) == Some(id) && k <= |Rows(g, id)|
    ensures Distinct(FilesIn(g, Rows(g, id)[k..], path, left))
    decreases left, 1, |Rows(g, id)| - k
  {
    var rest := Rows(g, id)[k..];
    if rest != [] {
      HeadLoad(g, rest, path, left);
      assert rest[1..] == Rows(g, id)[k + 1..];
      var a, b := RowFiles(g, rest[0], path, left), FilesIn(g, rest[1..], path, left);
      TreeDistinct(g, root, chain, id, path, k + 1, left);
      RowDistinct(g, root, chain, id, path, k, left);
      forall f, h | f in a && h in b ensures f.id != h.id {
        RowsApart(g, root, chain, id, path, k, left, f, h);
      }
      DistinctSum(a, b);
    }
  }

  lemma {:induction false} RowDistinct(g: Graph, root: Id, chain: seq<nat>, id: Id, path: string, k: nat, left: nat)
    requires Tree(g, root) && Reached(g, root, chain) == Some(id) && k < |Rows(g, id)|
    ensures Distinct(RowFiles(g, Rows(g, id)[k], path, left))
    decreases left, 0
  {
    var row := Rows(g, id)[k];
    if Named(row) && row.folder && left > 0 {
      RowOpens(g, row, path, left);
      ReachedOne(g, root, chain, k);
      assert Rows(g, row.id)[0..] == Rows(g, row.id);
      TreeDistinct(g, root, chain + [k], row.id, Under(path, row), 0, left - 1);
    }
  }

  lemma RowsApart(g: Graph, root: Id, chain: seq<nat>, id: Id, path: string, k: nat, left: nat, f: File, h: File)
    requires Tree(g, root) && Reached(g, root, chain) == Some(id) && k < |Rows(g, id)|
    requires f in RowFiles(g, Rows(g, id)[k], path, left) && h in FilesIn(g, Rows(g, id)[k + 1..], path, left)
    ensures f.id != h.id
  {
    var x := ChainToRow(g, id, path, k, left, f);
    var y := ChainTo(g, id, path, k + 1, left, h);
    LookupReaches(g, root, chain, id, path, x);
    LookupReaches(g, root, chain, id, path, y);
    assert (chain + x)[|chain|] != (chain + y)[|chain|];
    if f.id == h.id {
      ChainUnique(g, root, chain + x, chain + y);
    }
  }

  // ---------------------------------------------------------------- reachability, whatever the order of rows

  /** Through named folders, at most `levels` of them, to a named file. */
  ghost predicate Leads(g: Graph, id: Id, path: string, f: File, levels: nat)
    decreases levels
  {
    exists row :: row in Rows(g, id) && Named(row) && Onto(g, row, path, f, levels)
  }

  ghost predicate Onto(g: Graph, row: Row, path: string, f: File, levels: nat)
    requires Named(row)
    decreases levels, 0
  {
    if row.folder then levels > 0 && Leads(g, row.id, Under(path, row), f, levels - 1) else f == FileOf(path, row)
  }

  lemma {:induction false} ChainLeads(g: Graph, id: Id, path: string, chain: seq<nat>, f: File, levels: nat)
    requires Lookup(g, id, path, chain) == Some(f) && |chain| <= levels + 1
    ensures Leads(g, id, path, f, levels)
    decreases |chain|
  {
    var row := Rows(g, id)[chain[0]];
    if |chain| > 1 {
      ChainLeads(g, row.id, Under(path, row), chain[1..], f, levels - 1);
    }
    assert row in Rows(g, id) && Onto(g, row, path, f, levels);
  }

  lemma {:induction false} LeadsByChain(g: Graph, id: Id, path: string, f: File, levels: nat) returns (chain: seq<nat>)
    requires Leads(g, id, path, f, levels)
    ensures Lookup(g, id, path, chain) == Some(f) && |chain| <= levels + 1
    decreases levels
  {
    var row :| row in Rows(g, id) && Named(row) && Onto(g, row, path, f, levels);
    var k: nat :| k < |Rows(g, id)| && Rows(g, id)[k] == row;
    if row.folder {
      var deeper := LeadsByChain(g, row.id, Under(path, row), f, levels - 1);
      chain := [k] + deeper;
      assert chain[1..] == deeper;
    } else {
      chain := [k];
    }
  }

  ghost predicate SameRows(g: Graph, h: Graph) { forall id, row :: row in Rows(g, id) <==> row in Rows(h, id) }

  /** Reachability does not look at the order of rows. */
  lemma {:induction false} LeadsSame(g: Graph, h: Graph, id: Id, path: string, f: File, levels: nat)
    requires SameRows(g, h) && Leads(g, id, path, f, levels)
    ensures Leads(h, id, path, f, levels)
    decreases levels
  {
    var row :| row in Rows(g, id) && Named(row) && Onto(g, row, path, f, levels);
    if row.folder {
      LeadsSame(g, h, row.id, Under(path, row), f, levels - 1);
    }
    assert row in Rows(h, id) && Onto(h, row, path, f, levels);
  }

  lemma LeadsInOrder(drive: Graph, id: Id, path: string, f: File, levels: nat)
    ensures Leads(InOrder(drive), id, path, f, levels) <==> Leads(drive, id, path, f, levels)
  {
    var g := InOrder(drive);
    forall x ensures forall row :: row in Rows(g, x) <==> row in Rows(drive, x) {
      InOrderRows(drive, x);
    }
    if Leads(g, id, path, f, levels) { LeadsSame(g, drive, id, path, f, levels); }
    if Leads(drive, id, path, f, levels) { LeadsSame(drive, g, id, path, f, levels); }
  }

  /** In a listing, rows of one id stand at one place. */
  ghost predicate DistinctIds(rows: seq<Row>) {
    forall i, j ::
      0 <= i < |rows| && 0 <= j < |rows| && Named(rows[i]) && rows[i].id == rows[j].id && Named(rows[j]) ==> i == j
  }

  lemma {:induction false} TwoPlaces<T>(s: seq<T>, x: T) returns (i: nat, j: nat)
    requires multiset(s)[x] >= 2
    ensures i < j < |s| && s[i] == x && s[j] == x
  {
    var n := |s| - 1;
    assert s == s[..n] + [s[n]];
    if s[n] == x {
      assert multiset(s[..n])[x] >= 1;
      assert x in s[..n];
      i :| 0 <= i < n && s[i] == x;
      j := n;
    } else {
      i, j := TwoPlaces(s[..n], x);
    }
  }

  lemma DistinctInOrder(rows: seq<Row>, sorted: seq<Row>)
    requires DistinctIds(rows) && multiset(rows) == multiset(sorted)
    ensures DistinctIds(sorted)
  {
    forall i, j | 0 <= i < j < |sorted| && Named(sorted[i]) && Named(sorted[j]) ensures sorted[i].id != sorted[j].id {
      PlacesApart(rows, sorted, i, j);
    }
  }

  lemma PlacesApart(rows: seq<Row>, sorted: seq<Row>, i: nat, j: nat)
    requires DistinctIds(rows) && multiset(rows) == multiset(sorted) && i < j < |sorted|
    requires Named(sorted[i]) && Named(sorted[j])
    ensures sorted[i].id != sorted[j].id
  {
    assert sorted[i] in multiset(sorted) && sorted[j] in multiset(sorted);
    if sorted[i] == sorted[j] {
      Twice(sorted, i, j);
      var a, b := TwoPlaces(rows, sorted[i]);
    } else {
      var a :| 0 <= a < |rows| && rows[a] == sorted[i];
      var b :| 0 <= b < |rows| && rows[b] == sorted[j];
    }
  }

  /** A tree is one whatever the order of its rows. */
  lemma TreeInOrder(drive: Graph, root: Id)
    requires Tree(drive, root)
    ensures Tree(InOrder(drive), root)
  {
    var g := InOrder(drive);
    forall a, i | 0 <= i < |Rows(g, a)| && Named(Rows(g, a)[i]) ensures Rows(g, a)[i].id != root {
      var k := PlaceOf(drive, a, i);
    }
    forall a, b, i, j | SameRow(g, a, i, b, j) ensures a == b && i == j {
      var k := PlaceOf(drive, a, i);
      var l := PlaceOf(drive, b, j);
      assert SameRow(drive, a, k, b, l);
      DistinctRows(drive, root, a);
    }
  }

  lemma PlaceOf(drive: Graph, id: Id, i: int) returns (k: int)
    requires 0 <= i < |Rows(InOrder(drive), id)|
    ensures 0 <= k < |Rows(drive, id)| && Rows(drive, id)[k] == Rows(InOrder(drive), id)[i]
  {
    InOrderRows(drive, id);
    var row := Rows(InOrder(drive), id)[i];
    assert row in Rows(drive, id);
    k :| 0 <= k < |Rows(drive, id)| && Rows(drive, id)[k] == row;
  }

  lemma DistinctRows(drive: Graph, root: Id, id: Id)
    requires Tree(drive, root)
    ensures DistinctIds(Rows(InOrder(drive), id))
  {
    var rows := Rows(drive, id);
    forall i, j | 0 <= i < |rows| && 0 <= j < |rows| && Named(rows[i]) && rows[i].id == rows[j].id && Named(rows[j])
      ensures i == j
    {
      assert SameRow(drive, id, i, id, j);
    }
    InOrderRows(drive, id);
    DistinctInOrder(rows, Rows(InOrder(drive), id));
  }

  // ---------------------------------------------------------------- the walk, by what is reachable

  ghost predicate Reachable(g: Graph, id: Id, top: string, f: File, levels: int) {
    exists chain :: |chain| <= levels && Lookup(g, id, top, chain) == Some(f)
  }

  /** Whatever a walk returns is reachable within the depth allowed. */
  lemma WalkIsSound(g: Graph, id: Id, top: string, maxDepth: int, found: seq<File>, f: File)
    requires multiset(found) <= AllFiles(g, id, top, maxDepth) && f in found
    ensures Reachable(g, id, top, f, Left(maxDepth, 1) + 1)
  {
    assert f in multiset(found);
    assert Rows(g, id)[0..] == Rows(g, id);
    var chain := ChainTo(g, id, top, 0, Left(maxDepth, 1), f);
  }

  /** A silent walk returns exactly the reachable files, on any graph. */
  lemma SilentWalkIsComplete(g: Graph, id: Id, top: string, maxDepth: int, found: seq<File>, f: File)
    requires multiset(found) == AllFiles(g, id, top, maxDepth) && Shallow(g, id, maxDepth)
    ensures f in found <==> exists chain :: Lookup(g, id, top, chain) == Some(f)
  {
    assert f in found <==> f in multiset(found);
    if f in found {
      WalkIsSound(g, id, top, maxDepth, found, f);
    }
    if chain :| Lookup(g, id, top, chain) == Some(f) {
      ShallowChains(g, id, top, chain, Left(maxDepth, 1));
      ChainHeld(g, id, top, chain, Left(maxDepth, 1), f);
    }
  }

  /** On a tree a walk, silent or not, returns no file twice. */
  lemma TreeWalkIsDistinct(g: Graph, id: Id, top: string, maxDepth: int, found: seq<File>, i: nat, j: nat)
    requires Tree(g, id) && multiset(found) <= AllFiles(g, id, top, maxDepth) && i < j < |found|
    ensures found[i].id != found[j].id
  {
    assert Rows(g, id)[0..] == Rows(g, id);
    TreeDistinct(g, id, [], id, top, 0, Left(maxDepth, 1));
    var all := AllFiles(g, id, top, maxDepth);
    assert found[i] in multiset(found) && found[j] in multiset(found);
    assert found[i] in all && found[j] in all;
    if found[i] == found[j] {
      Twice(found, i, j);
    }
  }

  lemma Twice<T>(s: seq<T>, i: nat, j: nat)
    requires i < j < |s| && s[i] == s[j]
    ensures multiset(s)[s[i]] >= 2
  {
    assert s == s[..j] + s[j..];
    assert s[i] == s[..j][i] && s[i] == s[j..][0];
    assert s[i] in multiset(s[..j]) && s[i] in multiset(s[j..]);
  }

  /** The walk on the account's own listing: what it returns is reachable within the depth; when it is
      silent it returns exactly what is reachable at any depth; on a tree it returns no id twice. */
  method WalkReaches(drive: Graph, id: Id, top: string, maxDepth: int, maxFolders: int, maxFiles: int)
    returns (found: seq<File>, notes: seq<Note>, listed: nat)
    ensures |found| <= AtLeast0(maxFiles) && listed <= AtLeast0(maxFolders)
    ensures forall f :: f in found ==> Leads(drive, id, top, f, Left(maxDepth, 1))
    ensures notes == [] ==> forall f :: f in found <==> exists levels :: Leads(drive, id, top, f, levels)
    ensures Tree(drive, id) ==> forall i, j :: 0 <= i < j < |found| ==> found[i].id != found[j].id
  {
    found, notes, listed := Walk(drive, id, top, maxDepth, maxFolders, maxFiles);
    ReportedWhole(InOrder(drive), id, top, found, notes, maxDepth, maxFolders, maxFiles);
    forall f | f in found ensures Leads(drive, id, top, f, Left(maxDepth, 1)) {
      FoundLeads(drive, id, top, maxDepth, found, f);
    }
    if notes == [] {
      forall f ensures f in found <==> exists levels :: Leads(drive, id, top, f, levels) {
        SilentLeads(drive, id, top, maxDepth, found, f);
      }
    }
    if Tree(drive, id) {
      TreeInOrder(drive, id);
      forall i, j | 0 <= i < j < |found| ensures found[i].id != found[j].id {
        TreeWalkIsDistinct(InOrder(drive), id, top, maxDepth, found, i, j);
      }
    }
  }

  lemma FoundLeads(drive: Graph, id: Id, top: string, maxDepth: int, found: seq<File>, f: File)
    requires multiset(found) <= AllFiles(InOrder(drive), id, top, maxDepth) && f in found
    ensures Leads(drive, id, top, f, Left(maxDepth, 1))
  {
    var g := InOrder(drive);
    WalkIsSound(g, id, top, maxDepth, found, f);
    var chain :| |chain| <= Left(maxDepth, 1) + 1 && Lookup(g, id, top, chain) == Some(f);
    ChainLeads(g, id, top, chain, f, Left(maxDepth, 1));
    LeadsInOrder(drive, id, top, f, Left(maxDepth, 1));
  }

  lemma SilentLeads(drive: Graph, id: Id, top: string, maxDepth: int, found: seq<File>, f: File)
    requires multiset(found) == AllFiles(InOrder(drive), id, top, maxDepth) && Shallow(InOrder(drive), id, maxDepth)
    ensures f in found <==> exists levels :: Leads(drive, id, top, f, levels)
  {
    if f in found {
      FoundLeads(drive, id, top, maxDepth, found, f);
    }
    if levels :| Leads(drive, id, top, f, levels) {
      LeadsInOrder(drive, id, top, f, levels);
      var chain := LeadsByChain(InOrder(drive), id, top, f, levels);
      SilentWalkIsComplete(InOrder(drive), id, top, maxDepth, found, f);
    }
  }
}
