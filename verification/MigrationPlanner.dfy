/** `_legacy_entries` and `build_plan`: the loops that fill the plan. */
module MigrationPlanner {
  import opened DriveNames
  import opened Sorting
  import opened MigrationModel
  import opened MigrationPlan

  /** An item with the path it was listed under. */
  datatype Entry = Entry(item: Item, path: string)

  /** A folder that could be trashed as empty. */
  datatype Candidate = Candidate(entry: Entry, depth: nat)

  function FolderPathOf(c: Candidate): string {
    if c.entry.path == ROOT then c.entry.item.name else c.entry.path + "/" + c.entry.item.name
  }

  // ---------------------------------------------------------------- listing

  /** `x` is listed in folder `parent`. */
  ghost predicate RowOf(d: Drive, parent: Id, x: Item) {
    x in d && x.parent == parent && !x.trashed && x.id != "" && x.name != ""
  }

  predicate ByName(x: Item, y: Item) { if x.name == y.name then Le(x.id, y.id) else Le(x.name, y.name) }

  lemma ByNameIs(x: Item, y: Item)
    ensures ByName(x, y) <==> !Before(y.name, x.name) && (x.name == y.name ==> !Before(y.id, x.id))
  {
    NotBefore(x.name, y.name);
    NotBefore(x.id, y.id);
  }

  lemma ByNameTransitive(x: Item, y: Item, z: Item)
    requires ByName(x, y) && ByName(y, z)
    ensures ByName(x, z)
  {
    LeTotal(x.name, y.name);
    LeTotal(y.name, z.name);
    if x.name == y.name == z.name {
      LeTransitive(x.id, y.id, z.id);
    } else if x.name != y.name && y.name != z.name {
      LeTransitive(x.name, y.name, z.name);
    }
  }

  lemma ByNameOrders()
    ensures TotalPreorder(ByName)
  {
    forall x: Item, y: Item ensures ByName(x, y) || ByName(y, x) {
      LeTotal(x.name, y.name);
      LeTotal(x.id, y.id);
    }
    forall x: Item, y: Item, z: Item | ByName(x, y) && ByName(y, z) ensures ByName(x, z) {
      ByNameTransitive(x, y, z);
    }
  }

  /** `_children`: the untrashed rows of a folder, by name and id. */
  method Children(d: Drive, parent: Id) returns (rows: seq<Item>)
    ensures forall x :: x in rows <==> RowOf(d, parent, x)
    ensures Ascending(rows, ByName)
    ensures forall i, j :: 0 <= i < j < |rows| ==>
              !Before(rows[j].name, rows[i].name) && (rows[i].name == rows[j].name ==> !Before(rows[j].id, rows[i].id))
  {
    var found: seq<Item> := [];
    for i := 0 to |d|
      invariant forall x ::
                  x in found <==> x in d[..i] && x.parent == parent && !x.trashed && x.id != "" && x.name != ""
    {
      assert d[..i + 1] == d[..i] + [d[i]];
      if d[i].parent == parent && !d[i].trashed && d[i].id != "" && d[i].name != "" {
        found := found + [d[i]];
      }
    }
    assert d[..|d|] == d;
    SortedMembers(found, ByName);
    ByNameOrders();
    SortedAscends(found, ByName);
    rows := Sorted(found, ByName);
    forall i, j | 0 <= i < j < |rows|
      ensures !Before(rows[j].name, rows[i].name) && (rows[i].name == rows[j].name ==> !Before(rows[j].id, rows[i].id))
    {
      ByNameIs(rows[i], rows[j]);
    }
  }

  // ---------------------------------------------------------------- one month folder

  function TooDeepSkip(x: Item): Skip { Skip(x.name, "depth-limit-or-unknown-folder") }

  function UnknownSkip(x: Item): Skip { Skip(x.name, "unknown-legacy-folder") }

  /** A file in the month folder `m` of `legacy`. */
  ghost predicate InMonth(d: Drive, legacy: Item, m: Item, e: Entry) {
    RowOf(d, m.id, e.item) && !e.item.folder && e.path == legacy.name + "/" + m.name
  }

  ghost predicate HasFolder(d: Drive, id: Id) { exists x :: RowOf(d, id, x) && x.folder }

  ghost predicate DeepIn(d: Drive, id: Id, s: Skip) { exists x :: RowOf(d, id, x) && x.folder && s == TooDeepSkip(x) }

  /** What a month folder's first rows amount to. */
  ghost predicate MonthRows(rows: seq<Item>, path: string, files: seq<Entry>, blocked: bool, skips: seq<Skip>) {
    && (forall e :: e in files <==> e.item in rows && !e.item.folder && e.path == path)
    && (blocked <==> exists x :: x in rows && x.folder)
    && (forall s :: s in skips <==> exists x :: x in rows && x.folder && s == TooDeepSkip(x))
  }

  lemma MonthRowsNext(rows: seq<Item>, x: Item, path: string, files: seq<Entry>, blocked: bool, skips: seq<Skip>)
    requires MonthRows(rows, path, files, blocked, skips)
    ensures x.folder ==> MonthRows(rows + [x], path, files, true, skips + [TooDeepSkip(x)])
    ensures !x.folder ==> MonthRows(rows + [x], path, files + [Entry(x, path)], blocked, skips)
  {
    assert forall y :: y in rows + [x] <==> y in rows || y == x;
  }

  method ScanMonth(d: Drive, legacy: Item, month: Item) returns (files: seq<Entry>, blocked: bool, skips: seq<Skip>)
    ensures forall e :: e in files <==> InMonth(d, legacy, month, e)
    ensures blocked <==> HasFolder(d, month.id)
    ensures forall s :: s in skips <==> DeepIn(d, month.id, s)
  {
    files, blocked, skips := [], false, [];
    var rows := Children(d, month.id);
    var path := legacy.name + "/" + month.name;
    for i := 0 to |rows|
      invariant MonthRows(rows[..i], path, files, blocked, skips)
    {
      assert rows[..i + 1] == rows[..i] + [rows[i]];
      MonthRowsNext(rows[..i], rows[i], path, files, blocked, skips);
      if rows[i].folder {
        skips := skips + [TooDeepSkip(rows[i])];
        blocked := true;
      } else {
        files := files + [Entry(rows[i], path)];
      }
    }
    assert rows[..|rows|] == rows;
  }

  // ---------------------------------------------------------------- one row of a legacy folder

  predicate IsMonth(m: Item) { m.folder && MonthName(m.name) }

  ghost predicate FileOfRow(d: Drive, legacy: Item, x: Item, e: Entry) {
    (!x.folder && e == Entry(x, legacy.name)) || (IsMonth(x) && InMonth(d, legacy, x, e))
  }

  ghost predicate FolderOfRow(d: Drive, legacy: Item, x: Item, c: Candidate) {
    IsMonth(x) && !HasFolder(d, x.id) && c == Candidate(Entry(x, legacy.name), 2)
  }

  ghost predicate SkipOfRow(d: Drive, x: Item, s: Skip) {
    x.folder && if MonthName(x.name) then DeepIn(d, x.id, s) else s == UnknownSkip(x)
  }

  ghost predicate Stops(d: Drive, x: Item) { x.folder && (!MonthName(x.name) || HasFolder(d, x.id)) }

  ghost predicate RowScan(d: Drive, legacy: Item, x: Item, files: seq<Entry>, folders: seq<Candidate>,
                          skips: seq<Skip>, blocked: bool) {
    && (forall e :: e in files <==> FileOfRow(d, legacy, x, e))
    && (forall c :: c in folders <==> FolderOfRow(d, legacy, x, c))
    && (forall s :: s in skips <==> SkipOfRow(d, x, s))
    && (blocked <==> Stops(d, x))
  }

  method ScanRow(d: Drive, legacy: Item, x: Item)
    returns (files: seq<Entry>, folders: seq<Candidate>, skips: seq<Skip>, blocked: bool)
    ensures RowScan(d, legacy, x, files, folders, skips, blocked)
  {
    files, folders, skips, blocked := [], [], [], false;
    if !x.folder {
      files := [Entry(x, legacy.name)];
    } else if !MonthName(x.name) {
      skips := [UnknownSkip(x)];
      blocked := true;
    } else {
      files, blocked, skips := ScanMonth(d, legacy, x);
      if !blocked {
        folders := [Candidate(Entry(x, legacy.name), 2)];
      }
    }
  }

  // ---------------------------------------------------------------- one legacy folder

  /** What the rows of a legacy folder contribute. */
  ghost predicate RowsScan(d: Drive, legacy: Item, rows: seq<Item>, files: seq<Entry>, folders: seq<Candidate>,
                           skips: seq<Skip>, blocked: bool) {
    && (forall e :: e in files <==> exists x :: x in rows && FileOfRow(d, legacy, x, e))
    && (forall c :: c in folders <==> exists x :: x in rows && FolderOfRow(d, legacy, x, c))
    && (forall s :: s in skips <==> exists x :: x in rows && SkipOfRow(d, x, s))
    && (blocked <==> exists x :: x in rows && Stops(d, x))
  }

  lemma RowsScanNext(d: Drive, legacy: Item, rows: seq<Item>, x: Item,
                     files: seq<Entry>, folders: seq<Candidate>, skips: seq<Skip>, blocked: bool,
                     f: seq<Entry>, g: seq<Candidate>, s: seq<Skip>, stop: bool)
    requires RowsScan(d, legacy, rows, files, folders, skips, blocked) && RowScan(d, legacy, x, f, g, s, stop)
    ensures RowsScan(d, legacy, rows + [x], files + f, folders + g, skips + s, blocked || stop)
  {
    assert forall y :: y in rows + [x] <==> y in rows || y == x;
  }

  ghost predicate LegacyHolds(d: Drive, l: Item, e: Entry) { exists x :: RowOf(d, l.id, x) && FileOfRow(d, l, x, e) }

  ghost predicate LegacyStops(d: Drive, l: Item) { exists x :: RowOf(d, l.id, x) && Stops(d, x) }

  ghost predicate LegacyFolders(d: Drive, l: Item, c: Candidate) {
    || (c == Candidate(Entry(l, ROOT), 1) && !LegacyStops(d, l))
    || exists x :: RowOf(d, l.id, x) && FolderOfRow(d, l, x, c)
  }

  ghost predicate LegacySkips(d: Drive, l: Item, s: Skip) { exists x :: RowOf(d, l.id, x) && SkipOfRow(d, x, s) }

  ghost predicate ScanOf(d: Drive, l: Item, files: seq<Entry>, folders: seq<Candidate>, skips: seq<Skip>) {
    && (forall e :: e in files <==> LegacyHolds(d, l, e))
    && (forall c :: c in folders <==> LegacyFolders(d, l, c))
    && (forall s :: s in skips <==> LegacySkips(d, l, s))
  }

  lemma RowsScanAll(d: Drive, l: Item, rows: seq<Item>, files: seq<Entry>, folders: seq<Candidate>, skips: seq<Skip>,
                    blocked: bool)
    requires RowsScan(d, l, rows, files, folders, skips, blocked) && forall x :: x in rows <==> RowOf(d, l.id, x)
    ensures ScanOf(d, l, files, folders + if blocked then [] else [Candidate(Entry(l, ROOT), 1)], skips)
  {
    assert blocked <==> LegacyStops(d, l);
  }

  method ScanLegacy(d: Drive, legacy: Item) returns (files: seq<Entry>, folders: seq<Candidate>, skips: seq<Skip>)
    ensures ScanOf(d, legacy, files, folders, skips)
  {
    files, folders, skips := [], [], [];
    var blocked := false;
    var rows := Children(d, legacy.id);
    for i := 0 to |rows|
      invariant RowsScan(d, legacy, rows[..i], files, folders, skips, blocked)
    {
      assert rows[..i + 1] == rows[..i] + [rows[i]];
      var f, g, s, stop := ScanRow(d, legacy, rows[i]);
      RowsScanNext(d, legacy, rows[..i], rows[i], files, folders, skips, blocked, f, g, s, stop);
      files, folders, skips, blocked := files + f, folders + g, skips + s, blocked || stop;
    }
    assert rows[..|rows|] == rows;
    RowsScanAll(d, legacy, rows, files, folders, skips, blocked);
    folders := folders + if blocked then [] else [Candidate(Entry(legacy, ROOT), 1)];
  }

  // ---------------------------------------------------------------- all legacy folders

  predicate IsLegacy(x: Item) { x.folder && x.name in KINDS }

  ghost predicate LegacyRow(d: Drive, l: Item) { RowOf(d, ROOT, l) && IsLegacy(l) }

  /** What the legacy folders among `roots` contribute. */
  ghost predicate RootsScan(d: Drive, roots: seq<Item>, files: seq<Entry>, folders: seq<Candidate>, skips: seq<Skip>) {
    && (forall e :: e in files <==> exists l :: l in roots && IsLegacy(l) && LegacyHolds(d, l, e))
    && (forall c :: c in folders <==> exists l :: l in roots && IsLegacy(l) && LegacyFolders(d, l, c))
    && (forall s :: s in skips <==> exists l :: l in roots && IsLegacy(l) && LegacySkips(d, l, s))
  }

  lemma RootsScanNext(d: Drive, roots: seq<Item>, l: Item, files: seq<Entry>, folders: seq<Candidate>, skips: seq<Skip>,
                      f: seq<Entry>, g: seq<Candidate>, s: seq<Skip>)
    requires RootsScan(d, roots, files, folders, skips)
    requires if IsLegacy(l) then ScanOf(d, l, f, g, s) else f == [] && g == [] && s == []
    ensures RootsScan(d, roots + [l], files + f, folders + g, skips + s)
  {
    assert forall y :: y in roots + [l] <==> y in roots || y == l;
  }

  ghost predicate ListedFile(d: Drive, e: Entry) { exists l :: LegacyRow(d, l) && LegacyHolds(d, l, e) }

  ghost predicate ListedFolder(d: Drive, c: Candidate) { exists l :: LegacyRow(d, l) && LegacyFolders(d, l, c) }

  ghost predicate ListedSkip(d: Drive, s: Skip) { exists l :: LegacyRow(d, l) && LegacySkips(d, l, s) }

  ghost predicate Listed(d: Drive, files: seq<Entry>, folders: seq<Candidate>, skips: seq<Skip>) {
    && (forall e :: e in files <==> ListedFile(d, e))
    && (forall c :: c in folders <==> ListedFolder(d, c))
    && (forall s :: s in skips <==> ListedSkip(d, s))
  }

  lemma RootsScanAll(d: Drive, roots: seq<Item>, files: seq<Entry>, folders: seq<Candidate>, skips: seq<Skip>)
    requires RootsScan(d, roots, files, folders, skips) && forall l :: l in roots <==> RowOf(d, ROOT, l)
    ensures Listed(d, files, folders, skips)
  {
    assert forall l :: LegacyRow(d, l) <==> l in roots && IsLegacy(l);
  }

  method LegacyEntries(d: Drive) returns (files: seq<Entry>, folders: seq<Candidate>, skips: seq<Skip>)
    ensures Listed(d, files, folders, skips)
  {
    files, folders, skips := [], [], [];
    var roots := Children(d, ROOT);
    for i := 0 to |roots|
      invariant RootsScan(d, roots[..i], files, folders, skips)
    {
      assert roots[..i + 1] == roots[..i] + [roots[i]];
      var f: seq<Entry>, g: seq<Candidate>, s: seq<Skip> := [], [], [];
      if IsLegacy(roots[i]) {
        f, g, s := ScanLegacy(d, roots[i]);
      }
      RootsScanNext(d, roots[..i], roots[i], files, folders, skips, f, g, s);
      files, folders, skips := files + f, folders + g, skips + s;
    }
    assert roots[..|roots|] == roots;
    RootsScanAll(d, roots, files, folders, skips);
  }

  // ---------------------------------------------------------------- what was listed, by index

  ghost predicate FileEntry(d: Drive, i: int, e: Entry) {
    LegacyFile(d, i) && e.item == d[i] && FilePath(d, i, e.path)
  }

  ghost predicate MonthOf(d: Drive, i: int, name: string) {
    Month(d, i) && exists l :: 0 <= l < |d| && LegacyRoot(d, l) && d[i].parent == d[l].id && name == d[l].name
  }

  ghost predicate FolderEntry(d: Drive, i: int, c: Candidate) {
    || (LegacyRoot(d, i) && !RootBlocked(d, i) && c == Candidate(Entry(d[i], ROOT), 1))
    || (MonthOf(d, i, c.entry.path) && !MonthBlocked(d, i) && c == Candidate(Entry(d[i], c.entry.path), 2))
  }

  lemma IndexOfItem(d: Drive, x: Item) returns (i: nat)
    requires x in d
    ensures i < |d| && d[i] == x
  {
    i :| i < |d| && d[i] == x;
  }

  /** A row of a folder listing is an untrashed item whose parent is that folder. */
  lemma RowIndex(d: Drive, parent: Id, x: Item) returns (i: nat)
    requires RowOf(d, parent, x)
    ensures i < |d| && d[i] == x && x.parent == parent && !x.trashed
  {
    i := IndexOfItem(d, x);
  }

  lemma IndexRow(d: Drive, i: nat, parent: Id)
    requires DriveValid(d) && i < |d| && d[i].parent == parent && !d[i].trashed
    ensures RowOf(d, parent, d[i])
  {
  }

  lemma HasFolderIs(d: Drive, m: nat)
    requires DriveValid(d) && m < |d|
    ensures HasFolder(d, d[m].id) <==> MonthBlocked(d, m)
  {
    if HasFolder(d, d[m].id) {
      var x :| RowOf(d, d[m].id, x) && x.folder;
      var c := RowIndex(d, d[m].id, x);
      assert LiveFolder(d, c);
    }
    if MonthBlocked(d, m) {
      var c :| 0 <= c < |d| && LiveFolder(d, c) && d[c].parent == d[m].id;
      IndexRow(d, c, d[m].id);
    }
  }

  lemma StopsIs(d: Drive, l: nat)
    requires DriveValid(d) && l < |d|
    ensures LegacyStops(d, d[l]) <==> RootBlocked(d, l)
  {
    if LegacyStops(d, d[l]) {
      var x :| RowOf(d, d[l].id, x) && Stops(d, x);
      var c := RowIndex(d, d[l].id, x);
      HasFolderIs(d, c);
      assert Blocks(d, c, l);
    }
    if RootBlocked(d, l) {
      var c :| 0 <= c < |d| && Blocks(d, c, l);
      HasFolderIs(d, c);
      IndexRow(d, c, d[l].id);
      assert Stops(d, d[c]);
    }
  }

  lemma FileIsListed(d: Drive, i: int, e: Entry)
    requires DriveValid(d) && FileEntry(d, i, e)
    ensures ListedFile(d, e)
  {
    var p :| 0 <= p < |d| && FolderPath(d, p, e.path) && d[i].parent == d[p].id;
    IndexRow(d, i, d[p].id);
    if LegacyRoot(d, p) {
      IndexRow(d, p, ROOT);
      RootPath(d, p, e.path);
      assert FileOfRow(d, d[p], d[i], e);
      assert LegacyRow(d, d[p]) && LegacyHolds(d, d[p], e);
    } else {
      var l :| 0 <= l < |d| && LegacyRoot(d, l) && d[p].parent == d[l].id && e.path == d[l].name + "/" + d[p].name;
      IndexRow(d, l, ROOT);
      IndexRow(d, p, d[l].id);
      assert FileOfRow(d, d[l], d[p], e);
      assert LegacyRow(d, d[l]) && LegacyHolds(d, d[l], e);
    }
  }

  lemma RootPath(d: Drive, p: int, path: string)
    requires DriveValid(d) && LegacyRoot(d, p) && FolderPath(d, p, path)
    ensures path == d[p].name
  {
    FolderPathUnique(d, p, path, d[p].name);
  }

  lemma RootRow(d: Drive, x: Item) returns (l: nat)
    requires LegacyRow(d, x)
    ensures LegacyRoot(d, l) && d[l] == x
  {
    l := RowIndex(d, ROOT, x);
  }

  lemma MonthRow(d: Drive, l: nat, m: Item) returns (p: nat)
    requires LegacyRoot(d, l) && RowOf(d, d[l].id, m) && IsMonth(m)
    ensures Month(d, p) && d[p] == m && MonthOf(d, p, d[l].name) && FolderPath(d, p, d[l].name + "/" + m.name)
  {
    p := RowIndex(d, d[l].id, m);
  }

  lemma FileRow(d: Drive, p: nat, x: Item, path: string) returns (i: nat)
    requires LegacyFolder(d, p) && FolderPath(d, p, path) && RowOf(d, d[p].id, x) && !x.folder
    ensures FileEntry(d, i, Entry(x, path))
  {
    i := RowIndex(d, d[p].id, x);
  }

  lemma ListedIsFile(d: Drive, e: Entry) returns (i: nat)
    requires ListedFile(d, e)
    ensures FileEntry(d, i, e)
  {
    var x :| LegacyRow(d, x) && LegacyHolds(d, x, e);
    var l := RootRow(d, x);
    var m :| RowOf(d, x.id, m) && FileOfRow(d, x, m, e);
    if m.folder {
      var p := MonthRow(d, l, m);
      i := FileRow(d, p, e.item, e.path);
    } else {
      i := FileRow(d, l, e.item, e.path);
    }
  }

  lemma FolderIsListed(d: Drive, i: int, c: Candidate)
    requires DriveValid(d) && FolderEntry(d, i, c)
    ensures ListedFolder(d, c)
  {
    if LegacyRoot(d, i) && !RootBlocked(d, i) && c == Candidate(Entry(d[i], ROOT), 1) {
      StopsIs(d, i);
      IndexRow(d, i, ROOT);
      assert LegacyRow(d, d[i]) && LegacyFolders(d, d[i], c);
    } else {
      var l :| 0 <= l < |d| && LegacyRoot(d, l) && d[i].parent == d[l].id && c.entry.path == d[l].name;
      HasFolderIs(d, i);
      IndexRow(d, l, ROOT);
      IndexRow(d, i, d[l].id);
      assert FolderOfRow(d, d[l], d[i], c);
      assert LegacyRow(d, d[l]) && LegacyFolders(d, d[l], c);
    }
  }

  lemma ListedIsFolder(d: Drive, c: Candidate) returns (i: nat)
    requires DriveValid(d) && ListedFolder(d, c)
    ensures FolderEntry(d, i, c)
  {
    var x :| LegacyRow(d, x) && LegacyFolders(d, x, c);
    i := RootRow(d, x);
    StopsIs(d, i);
    if m :| RowOf(d, x.id, m) && FolderOfRow(d, x, m, c) {
      i := MonthRow(d, i, m);
      HasFolderIs(d, i);
    }
  }

  ghost predicate FilesOf(d: Drive, files: seq<Entry>) {
    forall e {:trigger e in files} :: e in files <==> exists i :: FileEntry(d, i, e)
  }

  ghost predicate FoldersOf(d: Drive, folders: seq<Candidate>) {
    forall c {:trigger c in folders} :: c in folders <==> exists i :: FolderEntry(d, i, c)
  }

  lemma ListingByIndex(d: Drive, files: seq<Entry>, folders: seq<Candidate>)
    requires DriveValid(d) && forall e :: e in files <==> ListedFile(d, e)
    requires forall c :: c in folders <==> ListedFolder(d, c)
    ensures FilesOf(d, files) && FoldersOf(d, folders)
  {
    forall e ensures e in files <==> exists i :: FileEntry(d, i, e) {
      if e in files {
        var i := ListedIsFile(d, e);
      }
      if i :| FileEntry(d, i, e) {
        FileIsListed(d, i, e);
      }
    }
    forall c ensures c in folders <==> exists i :: FolderEntry(d, i, c) {
      if c in folders {
        var i := ListedIsFolder(d, c);
      }
      if i :| FolderEntry(d, i, c) {
        FolderIsListed(d, i, c);
      }
    }
  }

  ghost predicate FoundSkip(d: Drive, s: Skip) {
    (exists i :: UnknownAt(d, i, s)) || (exists i :: TooDeepAt(d, i, s))
  }

  lemma FoundIsListed(d: Drive, s: Skip)
    requires DriveValid(d) && FoundSkip(d, s)
    ensures ListedSkip(d, s)
  {
    if i :| UnknownAt(d, i, s) {
      var l :| 0 <= l < |d| && LegacyRoot(d, l) && d[i].parent == d[l].id;
      IndexRow(d, l, ROOT);
      IndexRow(d, i, d[l].id);
      assert SkipOfRow(d, d[i], s);
      assert LegacyRow(d, d[l]) && LegacySkips(d, d[l], s);
    } else {
      var i :| TooDeepAt(d, i, s);
      var m :| 0 <= m < |d| && Month(d, m) && d[i].parent == d[m].id;
      var l :| 0 <= l < |d| && LegacyRoot(d, l) && d[m].parent == d[l].id;
      IndexRow(d, l, ROOT);
      IndexRow(d, m, d[l].id);
      IndexRow(d, i, d[m].id);
      assert SkipOfRow(d, d[m], s);
      assert LegacyRow(d, d[l]) && LegacySkips(d, d[l], s);
    }
  }

  lemma ListedIsFound(d: Drive, s: Skip)
    requires ListedSkip(d, s)
    ensures FoundSkip(d, s)
  {
    var x :| LegacyRow(d, x) && LegacySkips(d, x, s);
    var l := RootRow(d, x);
    var m :| RowOf(d, x.id, m) && SkipOfRow(d, m, s);
    if MonthName(m.name) {
      var p := MonthRow(d, l, m);
      var y :| RowOf(d, m.id, y) && y.folder && s == TooDeepSkip(y);
      var i := RowIndex(d, m.id, y);
      assert TooDeepAt(d, i, s);
    } else {
      var i := RowIndex(d, x.id, m);
      assert UnknownAt(d, i, s);
    }
  }

  ghost predicate SkipsOf(d: Drive, skips: seq<Skip>) { forall s :: s in skips <==> FoundSkip(d, s) }

  lemma SkipsByIndex(d: Drive, skips: seq<Skip>)
    requires DriveValid(d) && forall s :: s in skips <==> ListedSkip(d, s)
    ensures SkipsOf(d, skips)
  {
    forall s ensures s in skips <==> FoundSkip(d, s) {
      if s in skips { ListedIsFound(d, s); }
      if FoundSkip(d, s) { FoundIsListed(d, s); }
    }
  }

  // ---------------------------------------------------------------- winners and duplicates

  /** The files of each name, and the names in the order they were met. */
  method GroupByName(files: seq<Entry>) returns (names: seq<string>, groups: map<string, seq<Entry>>)
    ensures forall n :: n in names <==> n in groups
    ensures forall n :: n in groups ==> groups[n] != []
    ensures forall n, e :: n in groups ==> (e in groups[n] <==> e in files && e.item.name == n)
    ensures forall e :: e in files ==> e.item.name in groups
  {
    names, groups := [], map[];
    for i := 0 to |files|
      invariant forall n :: n in names <==> n in groups
      invariant forall n :: n in groups ==> groups[n] != []
      invariant forall n, e :: n in groups ==> (e in groups[n] <==> e in files[..i] && e.item.name == n)
      invariant forall e :: e in files[..i] ==> e.item.name in groups
    {
      var name := files[i].item.name;
      assert files[..i + 1] == files[..i] + [files[i]];
      if name !in groups {
        names, groups := names + [name], groups[name := []];
      }
      groups := groups[name := groups[name] + [files[i]]];
    }
    assert files[..|files|] == files;
  }

  /** `max(entries, key=...)` */
  method Newest(entries: seq<Entry>) returns (w: Entry)
    requires entries != []
    ensures w in entries && forall e :: e in entries ==> Older(e.item, w.item)
    ensures forall e :: e in entries ==> !Before(w.item.modified, e.item.modified)
    ensures forall e :: e in entries && e.item.modified == w.item.modified ==> !Before(w.item.id, e.item.id)
  {
    w := entries[0];
    OlderTotal(w.item, w.item);
    for i := 1 to |entries|
      invariant w in entries[..i] && forall e :: e in entries[..i] ==> Older(e.item, w.item)
    {
      var x := entries[i];
      assert entries[..i + 1] == entries[..i] + [x];
      OlderTotal(x.item, w.item);
      OlderTotal(x.item, x.item);
      KeyLeIs(x.item, w.item);
      if !KeyLe(x.item, w.item) {
        forall e | e in entries[..i] ensures Older(e.item, x.item) {
          OlderTransitive(e.item, w.item, x.item);
        }
        w := x;
      }
    }
    assert entries[..|entries|] == entries;
    forall e | e in entries
      ensures !Before(w.item.modified, e.item.modified)
      ensures e.item.modified == w.item.modified ==> !Before(w.item.id, e.item.id)
    {
      NothingNewer(e.item, w.item);
    }
  }

  ghost predicate Best(files: seq<Entry>, e: Entry) {
    e in files && forall f :: f in files && f.item.name == e.item.name ==> Older(f.item, e.item)
  }

  ghost predicate Distinct(files: seq<Entry>) {
    forall e, f :: e in files && f in files && e.item.id == f.item.id ==> e == f
  }

  lemma BestUnique(files: seq<Entry>, w: Entry, e: Entry)
    requires Distinct(files) && Best(files, w) && e in files && e.item.name == w.item.name
    ensures Best(files, e) <==> e == w
    ensures e.item.id == w.item.id <==> e == w
  {
    OlderTotal(w.item, e.item);
  }

  method Others(entries: seq<Entry>, w: Entry) returns (r: seq<Entry>)
    ensures forall e :: e in r <==> e in entries && e.item.id != w.item.id
  {
    r := [];
    for i := 0 to |entries|
      invariant forall e :: e in r <==> e in entries[..i] && e.item.id != w.item.id
    {
      assert entries[..i + 1] == entries[..i] + [entries[i]];
      if entries[i].item.id != w.item.id {
        r := r + [entries[i]];
      }
    }
    assert entries[..|entries|] == entries;
  }

  /** The newest file of every name wins; every other file is a duplicate. */
  method PickWinners(files: seq<Entry>) returns (winners: seq<Entry>, duplicates: seq<Entry>)
    requires Distinct(files)
    ensures forall e :: e in winners <==> Best(files, e)
    ensures forall e :: e in duplicates <==> e in files && !Best(files, e)
  {
    var names, groups := GroupByName(files);
    winners, duplicates := [], [];
    for i := 0 to |names|
      invariant forall e :: e in winners <==> Best(files, e) && e.item.name in names[..i]
      invariant forall e :: e in duplicates <==> e in files && !Best(files, e) && e.item.name in names[..i]
    {
      assert names[..i + 1] == names[..i] + [names[i]];
      var w := Newest(groups[names[i]]);
      var rest := Others(groups[names[i]], w);
      assert Best(files, w);
      forall e | e in files && e.item.name == w.item.name
        ensures (Best(files, e) <==> e == w) && (e.item.id == w.item.id <==> e == w)
      {
        BestUnique(files, w, e);
      }
      winners, duplicates := winners + [w], duplicates + rest;
    }
    assert names[..|names|] == names;
  }
}
