/** `walk` of `automation/drive_reference.py`: a bounded breadth-first listing of a folder graph,
    checked against a recursive unfolding of the same graph. */
module ReferenceWalk {
  import opened DriveNames
  import opened Sorting
  import opened MigrationModel

  /** `raw` is the stored name, `name` its NFC form. */
  datatype Row = Row(id: Id, raw: string, name: string, folder: bool)

  datatype File = File(id: Id, name: string, path: string)

  datatype Entry = Entry(id: Id, path: string, depth: int)

  datatype Note = FolderLimit | DepthLimit | FileLimit

  /** What each folder lists. */
  type Graph = map<Id, seq<Row>>

  predicate ByRawName(x: Row, y: Row) { Le(x.raw, y.raw) }

  function Rows(g: Graph, id: Id): seq<Row> { if id in g then g[id] else [] }

  /** The listing with every folder's rows in name order. */
  function InOrder(drive: Graph): Graph { map id | id in drive :: Sorted(drive[id], ByRawName) }

  /** The same rows, however ordered. */
  lemma InOrderRows(drive: Graph, id: Id)
    ensures multiset(Rows(InOrder(drive), id)) == multiset(Rows(drive, id))
    ensures forall row :: row in Rows(InOrder(drive), id) <==> row in Rows(drive, id)
  {
    if id in drive {
      SortedElements(drive[id], ByRawName);
      SortedMembers(drive[id], ByRawName);
    }
  }

  lemma ByRawNameOrders()
    ensures TotalPreorder(ByRawName)
  {
    forall x: Row, y: Row ensures ByRawName(x, y) || ByRawName(y, x) {
      LeTotal(x.raw, y.raw);
    }
    forall x: Row, y: Row, z: Row | ByRawName(x, y) && ByRawName(y, z) ensures ByRawName(x, z) {
      LeTransitive(x.raw, y.raw, z.raw);
    }
  }

  /** No row's stored name comes before that of an earlier row. */
  lemma InOrderRises(drive: Graph, id: Id)
    ensures var rows := Rows(InOrder(drive), id);
            forall i, j :: 0 <= i < j < |rows| ==> !Before(rows[j].raw, rows[i].raw)
  {
    if id in drive {
      ByRawNameOrders();
      SortedAscends(drive[id], ByRawName);
      var rows := Sorted(drive[id], ByRawName);
      forall i, j | 0 <= i < j < |rows| ensures !Before(rows[j].raw, rows[i].raw) {
        assert ByRawName(rows[i], rows[j]);
        NotBefore(rows[i].raw, rows[j].raw);
      }
    }
  }

  predicate Named(row: Row) { row.name != "" && row.id != "" }

  function Under(path: string, row: Row): string { path + "/" + row.name }

  function FileOf(path: string, row: Row): File { File(row.id, row.name, Under(path, row)) }

  // ---------------------------------------------------------------- the unfolding, `left` levels deep

  ghost function RowFiles(g: Graph, row: Row, path: string, left: nat): multiset<File>
    decreases left, 1
  {
    if !Named(row) then multiset{}
    else if !row.folder then multiset{FileOf(path, row)}
    else if left == 0 then multiset{}
    else FilesIn(g, Rows(g, row.id), Under(path, row), left - 1)
  }

  ghost function FilesIn(g: Graph, rows: seq<Row>, path: string, left: nat): multiset<File>
    decreases left, 2, |rows|
  {
    if rows == [] then multiset{} else RowFiles(g, rows[0], path, left) + FilesIn(g, rows[1..], path, left)
  }

  ghost function RowFolders(g: Graph, row: Row, left: nat): nat
    decreases left, 1
  {
    if !Named(row) || !row.folder || left == 0 then 0 else 1 + FoldersIn(g, Rows(g, row.id), left - 1)
  }

  ghost function FoldersIn(g: Graph, rows: seq<Row>, left: nat): nat
    decreases left, 2, |rows|
  {
    if rows == [] then 0 else RowFolders(g, rows[0], left) + FoldersIn(g, rows[1..], left)
  }

  /** No named folder lies deeper than `left` levels. */
  ghost predicate RowShallow(g: Graph, row: Row, left: nat)
    decreases left, 1
  {
    Named(row) && row.folder ==> left > 0 && ShallowIn(g, Rows(g, row.id), left - 1)
  }

  ghost predicate ShallowIn(g: Graph, rows: seq<Row>, left: nat)
    decreases left, 2, |rows|
  {
    rows == [] || (RowShallow(g, rows[0], left) && ShallowIn(g, rows[1..], left))
  }

  function Left(maxDepth: int, depth: int): nat { if depth < maxDepth then maxDepth - depth else 0 }

  ghost function PendingFiles(g: Graph, maxDepth: int, queue: seq<Entry>): multiset<File> {
    if queue == [] then multiset{}
    else
      var e := queue[0];
      FilesIn(g, Rows(g, e.id), e.path, Left(maxDepth, e.depth)) + PendingFiles(g, maxDepth, queue[1..])
  }

  ghost function PendingFolders(g: Graph, maxDepth: int, queue: seq<Entry>): nat {
    if queue == [] then 0
    else
      var e := queue[0];
      1 + FoldersIn(g, Rows(g, e.id), Left(maxDepth, e.depth)) + PendingFolders(g, maxDepth, queue[1..])
  }

  ghost predicate PendingShallow(g: Graph, maxDepth: int, queue: seq<Entry>) {
    queue == []
    || (ShallowIn(g, Rows(g, queue[0].id), Left(maxDepth, queue[0].depth)) && PendingShallow(g, maxDepth, queue[1..]))
  }

  lemma {:induction false} PendingAppend(g: Graph, maxDepth: int, queue: seq<Entry>, e: Entry)
    ensures PendingFiles(g, maxDepth, queue + [e])
         == PendingFiles(g, maxDepth, queue) + FilesIn(g, Rows(g, e.id), e.path, Left(maxDepth, e.depth))
    ensures PendingFolders(g, maxDepth, queue + [e])
         == PendingFolders(g, maxDepth, queue) + 1 + FoldersIn(g, Rows(g, e.id), Left(maxDepth, e.depth))
    ensures PendingShallow(g, maxDepth, queue + [e])
       <==> PendingShallow(g, maxDepth, queue) && ShallowIn(g, Rows(g, e.id), Left(maxDepth, e.depth))
  {
    if queue == [] {
      assert (queue + [e])[1..] == [];
    } else {
      PendingAppend(g, maxDepth, queue[1..], e);
      assert (queue + [e])[1..] == queue[1..] + [e];
    }
  }

  // ---------------------------------------------------------------- the walk

  ghost function AllFiles(g: Graph, id: Id, top: string, maxDepth: int): multiset<File> {
    FilesIn(g, Rows(g, id), top, Left(maxDepth, 1))
  }

  ghost function AllFolders(g: Graph, id: Id, maxDepth: int): nat { 1 + FoldersIn(g, Rows(g, id), Left(maxDepth, 1)) }

  ghost predicate Shallow(g: Graph, id: Id, maxDepth: int) { ShallowIn(g, Rows(g, id), Left(maxDepth, 1)) }

  ghost predicate WithinLimits(g: Graph, id: Id, top: string, maxDepth: int, maxFolders: int, maxFiles: int) {
    && Shallow(g, id, maxDepth) && AllFolders(g, id, maxDepth) <= maxFolders
    && (|AllFiles(g, id, top, maxDepth)| <= maxFiles || AllFiles(g, id, top, maxDepth) == multiset{})
  }

  /** All that a walk has found or still has before it. */
  datatype Load = Load(files: multiset<File>, folders: nat, shallow: bool)

  /** `rest` are the rows of `e` still to come. */
  ghost function LoadOf(g: Graph, maxDepth: int, found: seq<File>, e: Entry, rest: seq<Row>, queue: seq<Entry>): Load {
    var left := Left(maxDepth, e.depth);
    Load(multiset(found) + FilesIn(g, rest, e.path, left) + PendingFiles(g, maxDepth, queue),
         FoldersIn(g, rest, left) + PendingFolders(g, maxDepth, queue),
         ShallowIn(g, rest, left) && PendingShallow(g, maxDepth, queue))
  }

  ghost function QueueLoad(g: Graph, maxDepth: int, found: seq<File>, queue: seq<Entry>): Load {
    Load(multiset(found) + PendingFiles(g, maxDepth, queue),
         PendingFolders(g, maxDepth, queue),
         PendingShallow(g, maxDepth, queue))
  }

  lemma LoadOpened(g: Graph, maxDepth: int, found: seq<File>, queue: seq<Entry>)
    requires queue != []
    ensures var l := LoadOf(g, maxDepth, found, queue[0], Rows(g, queue[0].id), queue[1..]);
            var q := QueueLoad(g, maxDepth, found, queue);
            l.files == q.files && l.folders + 1 == q.folders && l.shallow == q.shallow
  {
  }

  lemma LoadClosed(g: Graph, maxDepth: int, found: seq<File>, e: Entry, queue: seq<Entry>)
    ensures LoadOf(g, maxDepth, found, e, [], queue) == QueueLoad(g, maxDepth, found, queue)
  {
  }

  /** The first row, apart from the others. */
  lemma HeadLoad(g: Graph, rest: seq<Row>, path: string, left: nat)
    requires rest != []
    ensures FilesIn(g, rest, path, left) == RowFiles(g, rest[0], path, left) + FilesIn(g, rest[1..], path, left)
    ensures FoldersIn(g, rest, left) == RowFolders(g, rest[0], left) + FoldersIn(g, rest[1..], left)
    ensures ShallowIn(g, rest, left) <==> RowShallow(g, rest[0], left) && ShallowIn(g, rest[1..], left)
  {
  }

  lemma StartLoad(g: Graph, id: Id, top: string, maxDepth: int)
    ensures QueueLoad(g, maxDepth, [], [Entry(id, top, 1)])
         == Load(AllFiles(g, id, top, maxDepth), AllFolders(g, id, maxDepth), Shallow(g, id, maxDepth))
  {
    PendingAppend(g, maxDepth, [], Entry(id, top, 1));
    assert [] + [Entry(id, top, 1)] == [Entry(id, top, 1)];
  }

  lemma FileLoad(g: Graph, maxDepth: int, found: seq<File>, e: Entry, rest: seq<Row>, queue: seq<Entry>)
    requires rest != [] && Named(rest[0]) && !rest[0].folder
    ensures LoadOf(g, maxDepth, found + [FileOf(e.path, rest[0])], e, rest[1..], queue)
      == LoadOf(g, maxDepth, found, e, rest, queue)
    ensures |LoadOf(g, maxDepth, found, e, rest, queue).files| > |found|
  {
    var left := Left(maxDepth, e.depth);
    HeadLoad(g, rest, e.path, left);
    var one := multiset{FileOf(e.path, rest[0])};
    var more := FilesIn(g, rest[1..], e.path, left) + PendingFiles(g, maxDepth, queue);
    assert LoadOf(g, maxDepth, found, e, rest, queue).files == multiset(found) + one + more;
    assert |multiset(found) + one + more| == |found| + 1 + |more|;
  }

  function EntryOf(e: Entry, row: Row): Entry { Entry(row.id, Under(e.path, row), e.depth + 1) }

  /** Queueing a folder row moves its share from the rows to the queue. */
  lemma FolderQueued(g: Graph, maxDepth: int, e: Entry, rest: seq<Row>, queue: seq<Entry>)
    requires rest != [] && Named(rest[0]) && rest[0].folder && e.depth < maxDepth
    ensures var left, more := Left(maxDepth, e.depth), queue + [EntryOf(e, rest[0])];
            && PendingFiles(g, maxDepth, more) == PendingFiles(g, maxDepth, queue) + RowFiles(g, rest[0], e.path, left)
            && PendingFolders(g, maxDepth, more) == PendingFolders(g, maxDepth, queue) + RowFolders(g, rest[0], left)
            && (PendingShallow(g, maxDepth, more)
              <==> PendingShallow(g, maxDepth, queue) && RowShallow(g, rest[0], left))
  {
    PendingAppend(g, maxDepth, queue, EntryOf(e, rest[0]));
    RowOpens(g, rest[0], e.path, Left(maxDepth, e.depth));
  }

  lemma FolderLoad(g: Graph, maxDepth: int, found: seq<File>, e: Entry, rest: seq<Row>, queue: seq<Entry>)
    requires rest != [] && Named(rest[0]) && rest[0].folder && e.depth < maxDepth
    ensures LoadOf(g, maxDepth, found, e, rest[1..], queue + [EntryOf(e, rest[0])])
      == LoadOf(g, maxDepth, found, e, rest, queue)
  {
    var left, more := Left(maxDepth, e.depth), queue + [EntryOf(e, rest[0])];
    HeadLoad(g, rest, e.path, left);
    FolderQueued(g, maxDepth, e, rest, queue);
    var head, tail := RowFiles(g, rest[0], e.path, left), FilesIn(g, rest[1..], e.path, left);
    var pending, after := PendingFiles(g, maxDepth, queue), PendingFiles(g, maxDepth, more);
    Rearrange(multiset(found), head, tail, pending);
    assert after == pending + head;
  }

  lemma RowOpens(g: Graph, row: Row, path: string, left: nat)
    requires Named(row) && row.folder && left > 0
    ensures RowFiles(g, row, path, left) == FilesIn(g, Rows(g, row.id), Under(path, row), left - 1)
    ensures RowFolders(g, row, left) == 1 + FoldersIn(g, Rows(g, row.id), left - 1)
    ensures RowShallow(g, row, left) <==> ShallowIn(g, Rows(g, row.id), left - 1)
  {
  }

  lemma Rearrange<T>(found: multiset<T>, head: multiset<T>, tail: multiset<T>, pending: multiset<T>)
    ensures found + tail + (pending + head) == found + (head + tail) + pending
  {
  }

  lemma DeepLoad(g: Graph, maxDepth: int, found: seq<File>, e: Entry, rest: seq<Row>, queue: seq<Entry>)
    requires rest != [] && Named(rest[0]) && rest[0].folder && e.depth >= maxDepth
    ensures var l, m := LoadOf(g, maxDepth, found, e, rest, queue), LoadOf(g, maxDepth, found, e, rest[1..], queue);
            !l.shallow && m.files == l.files && m.folders == l.folders
  {
    HeadLoad(g, rest, e.path, Left(maxDepth, e.depth));
  }

  lemma UnnamedLoad(g: Graph, maxDepth: int, found: seq<File>, e: Entry, rest: seq<Row>, queue: seq<Entry>)
    requires rest != [] && !Named(rest[0])
    ensures LoadOf(g, maxDepth, found, e, rest[1..], queue) == LoadOf(g, maxDepth, found, e, rest, queue)
  {
    HeadLoad(g, rest, e.path, Left(maxDepth, e.depth));
  }

  // ---------------------------------------------------------------- breadth first, row by row

  /** A row, met while listing a folder. */
  datatype Step = Step(at: Entry, row: Row)

  function AtLeast0(n: int): nat { if n > 0 then n else 0 }

  ghost function StepsOf(e: Entry, rows: seq<Row>): (r: seq<Step>)
    ensures |r| == |rows|
  {
    if rows == [] then [] else StepsOf(e, rows[..|rows| - 1]) + [Step(e, rows[|rows| - 1])]
  }

  /** The files, and the entries to list later, that come from one row. */
  ghost function NewFiles(e: Entry, row: Row): seq<File> {
    if Named(row) && !row.folder then [FileOf(e.path, row)] else []
  }

  ghost function NewEntries(e: Entry, row: Row, maxDepth: int): seq<Entry> {
    if Named(row) && row.folder && e.depth < maxDepth then [EntryOf(e, row)] else []
  }

  ghost function FilesOf(steps: seq<Step>): seq<File> {
    if steps == [] then []
    else
      var last := steps[|steps| - 1];
      FilesOf(steps[..|steps| - 1]) + NewFiles(last.at, last.row)
  }

  /** The folders to list later. */
  ghost function Below(steps: seq<Step>, maxDepth: int): seq<Entry> {
    if steps == [] then []
    else
      var last := steps[|steps| - 1];
      Below(steps[..|steps| - 1], maxDepth) + NewEntries(last.at, last.row, maxDepth)
  }

  /** The rows of the first `n` folders in breadth-first order. */
  ghost function AllSteps(g: Graph, maxDepth: int, queue: seq<Entry>, n: nat): seq<Step>
    decreases n
  {
    if n == 0 || queue == [] then []
    else
      var steps := StepsOf(queue[0], Rows(g, queue[0].id));
      steps + AllSteps(g, maxDepth, queue[1..] + Below(steps, maxDepth), n - 1)
  }

  ghost predicate TooDeep(step: Step, maxDepth: int) {
    Named(step.row) && step.row.folder && step.at.depth >= maxDepth
  }

  /** A folder that is too deep comes before the first file beyond the limit. */
  ghost predicate DeepSeen(steps: seq<Step>, maxDepth: int, maxFiles: int) {
    exists k :: 0 <= k < |steps| && DeepAt(steps, k, maxDepth, maxFiles)
  }

  ghost predicate DeepAt(steps: seq<Step>, k: nat, maxDepth: int, maxFiles: int)
    requires k < |steps|
  {
    TooDeep(steps[k], maxDepth) && |FilesOf(steps[..k])| <= AtLeast0(maxFiles)
  }

  lemma {:induction false} FilesOfConcat(a: seq<Step>, b: seq<Step>)
    ensures FilesOf(a + b) == FilesOf(a) + FilesOf(b)
  {
    if b == [] {
      assert a + b == a;
    } else {
      var front := b[..|b| - 1];
      FilesOfConcat(a, front);
      assert (a + b)[..|a + b| - 1] == a + front && (a + b)[|a + b| - 1] == b[|b| - 1];
    }
  }

  /** One more step. */
  lemma DeepMore(steps: seq<Step>, step: Step, maxDepth: int, maxFiles: int)
    ensures DeepSeen(steps + [step], maxDepth, maxFiles)
       <==> DeepSeen(steps, maxDepth, maxFiles)
            || (TooDeep(step, maxDepth) && |FilesOf(steps)| <= AtLeast0(maxFiles))
  {
    var more := steps + [step];
    assert more[..|steps|] == steps;
    forall k | 0 <= k < |steps|
      ensures DeepAt(more, k, maxDepth, maxFiles) <==> DeepAt(steps, k, maxDepth, maxFiles)
    {
      assert more[..k] == steps[..k];
    }
    assert DeepAt(more, |steps|, maxDepth, maxFiles)
      <==> TooDeep(step, maxDepth) && |FilesOf(steps)| <= AtLeast0(maxFiles);
  }

  /** Nothing that comes after the file limit was exceeded is seen. */
  lemma {:induction false} DeepOver(steps: seq<Step>, rest: seq<Step>, maxDepth: int, maxFiles: int)
    requires |FilesOf(steps)| > AtLeast0(maxFiles)
    ensures DeepSeen(steps + rest, maxDepth, maxFiles) <==> DeepSeen(steps, maxDepth, maxFiles)
  {
    if rest == [] {
      assert steps + rest == steps;
    } else {
      var front, last := rest[..|rest| - 1], rest[|rest| - 1];
      DeepOver(steps, front, maxDepth, maxFiles);
      assert steps + rest == (steps + front) + [last];
      FilesOfConcat(steps, front);
      DeepMore(steps + front, last, maxDepth, maxFiles);
    }
  }

  /** What has been listed: the files found and whether a folder was too deep. */
  ghost predicate Seen(steps: seq<Step>, found: seq<File>, deep: bool, maxDepth: int, maxFiles: int) {
    && found == FilesOf(steps) && |found| <= AtLeast0(maxFiles)
    && (deep <==> DeepSeen(steps, maxDepth, maxFiles))
  }

  /** Listing stopped at a file beyond the limit, somewhere in these steps. */
  ghost predicate Stopped(steps: seq<Step>, found: seq<File>, deep: bool, maxDepth: int, maxFiles: int) {
    && |FilesOf(steps)| > AtLeast0(maxFiles) && found == FilesOf(steps)[..AtLeast0(maxFiles)]
    && (deep <==> DeepSeen(steps, maxDepth, maxFiles))
  }

  lemma StoppedMore(steps: seq<Step>, rest: seq<Step>, found: seq<File>, deep: bool, maxDepth: int, maxFiles: int)
    requires Stopped(steps, found, deep, maxDepth, maxFiles)
    ensures Stopped(steps + rest, found, deep, maxDepth, maxFiles)
  {
    FilesOfConcat(steps, rest);
    DeepOver(steps, rest, maxDepth, maxFiles);
  }

  /** The next row, whatever it is, unless it is a file beyond the limit. */
  lemma SeenMore(steps: seq<Step>, step: Step, found: seq<File>, deep: bool, maxDepth: int, maxFiles: int)
    requires Seen(steps, found, deep, maxDepth, maxFiles)
    ensures var file := Named(step.row) && !step.row.folder;
            if file && |found| >= AtLeast0(maxFiles) then Stopped(steps + [step], found, deep, maxDepth, maxFiles)
            else Seen(steps + [step], found + NewFiles(step.at, step.row), deep || TooDeep(step, maxDepth), maxDepth,
                      maxFiles)
  {
    DeepMore(steps, step, maxDepth, maxFiles);
    assert (steps + [step])[..|steps|] == steps;
  }

  lemma StepsMore(e: Entry, rows: seq<Row>, i: nat)
    requires i < |rows|
    ensures StepsOf(e, rows[..i + 1]) == StepsOf(e, rows[..i]) + [Step(e, rows[i])]
  {
    assert rows[..i + 1][..i] == rows[..i];
  }

  lemma {:induction false} StepsAhead(e: Entry, rows: seq<Row>, i: nat)
    requires i <= |rows|
    ensures exists rest :: StepsOf(e, rows) == StepsOf(e, rows[..i]) + rest
    decreases |rows|
  {
    if i == |rows| {
      assert rows[..i] == rows;
      assert StepsOf(e, rows) == StepsOf(e, rows[..i]) + [];
    } else {
      var front := rows[..|rows| - 1];
      StepsAhead(e, front, i);
      assert front[..i] == rows[..i];
      var rest :| StepsOf(e, front) == StepsOf(e, rows[..i]) + rest;
      assert StepsOf(e, rows) == StepsOf(e, rows[..i]) + (rest + [Step(e, rows[|rows| - 1])]);
    }
  }

  lemma BelowMore(steps: seq<Step>, step: Step, maxDepth: int)
    ensures Below(steps + [step], maxDepth) == Below(steps, maxDepth) + NewEntries(step.at, step.row, maxDepth)
  {
    assert (steps + [step])[..|steps|] == steps;
  }

  ghost predicate SameLoad(start: Load, now: Load, deep: bool) {
    && now.files == start.files && now.folders == start.folders
    && (if deep then !start.shallow else now.shallow == start.shallow)
  }

  // ---------------------------------------------------------------- the steps against the unfolding

  ghost predicate AnyDeep(steps: seq<Step>, maxDepth: int) {
    exists k :: 0 <= k < |steps| && TooDeep(steps[k], maxDepth)
  }

  lemma AnyDeepMore(steps: seq<Step>, step: Step, maxDepth: int)
    ensures AnyDeep(steps + [step], maxDepth) <==> AnyDeep(steps, maxDepth) || TooDeep(step, maxDepth)
  {
    assert (steps + [step])[|steps|] == step;
    assert forall k :: 0 <= k < |steps| ==> (steps + [step])[k] == steps[k];
  }

  lemma AnyDeepConcat(a: seq<Step>, b: seq<Step>, maxDepth: int)
    ensures AnyDeep(a + b, maxDepth) <==> AnyDeep(a, maxDepth) || AnyDeep(b, maxDepth)
  {
    assert forall k :: 0 <= k < |a| ==> (a + b)[k] == a[k];
    assert forall k :: 0 <= k < |b| ==> (a + b)[|a| + k] == b[k];
  }

  lemma RowLoad(g: Graph, maxDepth: int, found: seq<File>, e: Entry, rest: seq<Row>, queue: seq<Entry>)
    requires rest != []
    ensures var row := rest[0];
            SameLoad(LoadOf(g, maxDepth, found, e, rest, queue),
                     LoadOf(g, maxDepth, found + NewFiles(e, row), e, rest[1..], queue + NewEntries(e, row, maxDepth)),
                     TooDeep(Step(e, row), maxDepth))
  {
    assert found + [] == found && queue + [] == queue;
    if !Named(rest[0]) {
      UnnamedLoad(g, maxDepth, found, e, rest, queue);
    } else if !rest[0].folder {
      FileLoad(g, maxDepth, found, e, rest, queue);
    } else if e.depth < maxDepth {
      FolderLoad(g, maxDepth, found, e, rest, queue);
    } else {
      DeepLoad(g, maxDepth, found, e, rest, queue);
    }
  }

  /** What listing the first `i` rows of a folder leaves to be done. */
  ghost function LoadAfter(g: Graph, maxDepth: int, e: Entry, rows: seq<Row>, i: nat, waiting: seq<Entry>): Load
    requires i <= |rows|
  {
    var steps := StepsOf(e, rows[..i]);
    LoadOf(g, maxDepth, FilesOf(steps), e, rows[i..], waiting + Below(steps, maxDepth))
  }

  lemma OneRow(e: Entry, rows: seq<Row>, i: nat, maxDepth: int, waiting: seq<Entry>)
    requires i < |rows|
    ensures FilesOf(StepsOf(e, rows[..i + 1])) == FilesOf(StepsOf(e, rows[..i])) + NewFiles(e, rows[i])
    ensures waiting + Below(StepsOf(e, rows[..i + 1]), maxDepth)
         == waiting + Below(StepsOf(e, rows[..i]), maxDepth) + NewEntries(e, rows[i], maxDepth)
  {
    var steps, step := StepsOf(e, rows[..i]), Step(e, rows[i]);
    StepsMore(e, rows, i);
    BelowMore(steps, step, maxDepth);
    assert (steps + [step])[..|steps|] == steps;
    var next := NewEntries(e, rows[i], maxDepth);
    assert Below(steps + [step], maxDepth) == Below(steps, maxDepth) + next;
    assert waiting + (Below(steps, maxDepth) + next) == waiting + Below(steps, maxDepth) + next;
  }

  lemma OneMore(g: Graph, maxDepth: int, e: Entry, rows: seq<Row>, i: nat, waiting: seq<Entry>)
    requires i < |rows|
    ensures SameLoad(LoadAfter(g, maxDepth, e, rows, i, waiting), LoadAfter(g, maxDepth, e, rows, i + 1, waiting),
                     TooDeep(Step(e, rows[i]), maxDepth))
  {
    var steps := StepsOf(e, rows[..i]);
    OneRow(e, rows, i, maxDepth, waiting);
    RowLoad(g, maxDepth, FilesOf(steps), e, rows[i..], waiting + Below(steps, maxDepth));
    assert rows[i..][1..] == rows[i + 1..];
  }

  /** Listing moves a folder's share to the files found and to the queue. */
  lemma {:induction false} Opened(g: Graph, maxDepth: int, e: Entry, rows: seq<Row>, i: nat, waiting: seq<Entry>)
    requires i <= |rows|
    ensures SameLoad(LoadAfter(g, maxDepth, e, rows, 0, waiting), LoadAfter(g, maxDepth, e, rows, i, waiting),
                     AnyDeep(StepsOf(e, rows[..i]), maxDepth))
  {
    if i > 0 {
      Opened(g, maxDepth, e, rows, i - 1, waiting);
      OneMore(g, maxDepth, e, rows, i - 1, waiting);
      StepsMore(e, rows, i - 1);
      AnyDeepMore(StepsOf(e, rows[..i - 1]), Step(e, rows[i - 1]), maxDepth);
    }
  }

  lemma OpenedAll(g: Graph, maxDepth: int, e: Entry, rows: seq<Row>, waiting: seq<Entry>)
    ensures var steps := StepsOf(e, rows);
            SameLoad(LoadOf(g, maxDepth, [], e, rows, waiting),
                     QueueLoad(g, maxDepth, FilesOf(steps), waiting + Below(steps, maxDepth)), AnyDeep(steps, maxDepth))
  {
    Opened(g, maxDepth, e, rows, |rows|, waiting);
    assert rows[..0] == [] && rows[0..] == rows && rows[..|rows|] == rows && rows[|rows|..] == [];
    assert waiting + [] == waiting;
    LoadClosed(g, maxDepth, FilesOf(StepsOf(e, rows)), e, waiting + Below(StepsOf(e, rows), maxDepth));
  }

  /** Listing the first folder of the queue. */
  lemma Listed(g: Graph, maxDepth: int, queue: seq<Entry>)
    requires queue != []
    ensures var steps := StepsOf(queue[0], Rows(g, queue[0].id));
            var next := queue[1..] + Below(steps, maxDepth);
            && PendingFiles(g, maxDepth, queue) == multiset(FilesOf(steps)) + PendingFiles(g, maxDepth, next)
            && PendingFolders(g, maxDepth, queue) == 1 + PendingFolders(g, maxDepth, next)
            && (if AnyDeep(steps, maxDepth) then !PendingShallow(g, maxDepth, queue)
                else PendingShallow(g, maxDepth, queue) == PendingShallow(g, maxDepth, next))
  {
    LoadOpened(g, maxDepth, [], queue);
    OpenedAll(g, maxDepth, queue[0], Rows(g, queue[0].id), queue[1..]);
    assert multiset([]) + PendingFiles(g, maxDepth, queue) == PendingFiles(g, maxDepth, queue);
  }

  lemma ListedFolders(g: Graph, maxDepth: int, queue: seq<Entry>)
    requires queue != []
    ensures PendingFolders(g, maxDepth, queue)
         == 1 + PendingFolders(g, maxDepth, queue[1..] + Below(StepsOf(queue[0], Rows(g, queue[0].id)), maxDepth))
  {
    Listed(g, maxDepth, queue);
  }

  /** Rows hold part of the unfolding, or all of it when they are enough. */
  ghost predicate Share(steps: seq<Step>, maxDepth: int, files: multiset<File>, shallow: bool, all: bool) {
    && multiset(FilesOf(steps)) <= files && (AnyDeep(steps, maxDepth) ==> !shallow)
    && (all ==> multiset(FilesOf(steps)) == files && (AnyDeep(steps, maxDepth) || shallow))
  }

  lemma ShareMore(steps: seq<Step>, rest: seq<Step>, maxDepth: int, files: multiset<File>, more: multiset<File>,
                  shallow: bool, later: bool, all: bool)
    requires Share(rest, maxDepth, more, later, all) && files == multiset(FilesOf(steps)) + more
    requires if AnyDeep(steps, maxDepth) then !shallow else shallow == later
    ensures Share(steps + rest, maxDepth, files, shallow, all)
  {
    FilesOfConcat(steps, rest);
    AnyDeepConcat(steps, rest, maxDepth);
    assert multiset(FilesOf(steps) + FilesOf(rest)) == multiset(FilesOf(steps)) + multiset(FilesOf(rest));
  }

  /** Rows of the first `n` folders hold their share of what the queue still has before it. */
  ghost predicate Covers(g: Graph, maxDepth: int, queue: seq<Entry>, n: nat, steps: seq<Step>) {
    Share(steps, maxDepth, PendingFiles(g, maxDepth, queue), PendingShallow(g, maxDepth, queue),
          PendingFolders(g, maxDepth, queue) <= n)
  }

  lemma CoversMore(g: Graph, maxDepth: int, queue: seq<Entry>, n: nat, steps: seq<Step>, rest: seq<Step>,
                   next: seq<Entry>)
    requires n > 0 && queue != [] && steps == StepsOf(queue[0], Rows(g, queue[0].id))
    requires next == queue[1..] + Below(steps, maxDepth) && Covers(g, maxDepth, next, n - 1, rest)
    ensures Covers(g, maxDepth, queue, n, steps + rest)
  {
    Listed(g, maxDepth, queue);
    ShareMore(steps, rest, maxDepth, PendingFiles(g, maxDepth, queue), PendingFiles(g, maxDepth, next),
              PendingShallow(g, maxDepth, queue), PendingShallow(g, maxDepth, next),
              PendingFolders(g, maxDepth, queue) <= n);
  }

  lemma CoversNone(g: Graph, maxDepth: int, queue: seq<Entry>, n: nat)
    requires n == 0 || queue == []
    ensures Covers(g, maxDepth, queue, n, [])
  {
    assert FilesOf([]) == [] && multiset(FilesOf([])) == multiset{};
  }

  lemma {:induction false} StepsLoad(g: Graph, maxDepth: int, queue: seq<Entry>, n: nat)
    ensures Covers(g, maxDepth, queue, n, AllSteps(g, maxDepth, queue, n))
    decreases n
  {
    if n > 0 && queue != [] {
      var steps := StepsOf(queue[0], Rows(g, queue[0].id));
      var next := queue[1..] + Below(steps, maxDepth);
      StepsLoad(g, maxDepth, next, n - 1);
      CoversMore(g, maxDepth, queue, n, steps, AllSteps(g, maxDepth, next, n - 1), next);
    } else {
      CoversNone(g, maxDepth, queue, n);
    }
  }

  /** Within the file limit all that is too deep is seen. */
  lemma DeepWithin(steps: seq<Step>, maxDepth: int, maxFiles: int)
    requires |FilesOf(steps)| <= AtLeast0(maxFiles)
    ensures DeepSeen(steps, maxDepth, maxFiles) <==> AnyDeep(steps, maxDepth)
  {
    forall k | 0 <= k < |steps| ensures DeepAt(steps, k, maxDepth, maxFiles) <==> TooDeep(steps[k], maxDepth) {
      FilesOfConcat(steps[..k], steps[k..]);
      assert steps == steps[..k] + steps[k..];
    }
  }

  // ---------------------------------------------------------------- the loops

  /** What a folder's first rows turned the files found and the queue into. */
  ghost predicate Scanned(done: seq<Step>, e: Entry, rows: seq<Row>, maxDepth: int, maxFiles: int, waiting: seq<Entry>,
                          found: seq<File>, queue: seq<Entry>, deep: bool) {
    && Seen(done + StepsOf(e, rows), found, deep, maxDepth, maxFiles)
    && queue == waiting + Below(StepsOf(e, rows), maxDepth)
  }

  lemma NothingScanned(done: seq<Step>, e: Entry, maxDepth: int, maxFiles: int, waiting: seq<Entry>, found: seq<File>,
                       deep: bool)
    requires Seen(done, found, deep, maxDepth, maxFiles)
    ensures Scanned(done, e, [], maxDepth, maxFiles, waiting, found, waiting, deep)
  {
    assert done + [] == done && waiting + [] == waiting;
  }

  lemma ScannedMore(done: seq<Step>, e: Entry, rows: seq<Row>, i: nat, maxDepth: int, maxFiles: int,
                    waiting: seq<Entry>, found: seq<File>, queue: seq<Entry>, deep: bool)
    requires i < |rows| && Scanned(done, e, rows[..i], maxDepth, maxFiles, waiting, found, queue, deep)
    requires Named(rows[i]) && !rows[i].folder ==> |found| < AtLeast0(maxFiles)
    ensures Scanned(done, e, rows[..i + 1], maxDepth, maxFiles, waiting, found + NewFiles(e, rows[i]),
                    queue + NewEntries(e, rows[i], maxDepth), deep || TooDeep(Step(e, rows[i]), maxDepth))
  {
    var steps, step := StepsOf(e, rows[..i]), Step(e, rows[i]);
    StepsMore(e, rows, i);
    SeenMore(done + steps, step, found, deep, maxDepth, maxFiles);
    assert done + (steps + [step]) == done + steps + [step];
    OneRow(e, rows, i, maxDepth, waiting);
  }

  lemma StoppedAt(done: seq<Step>, e: Entry, rows: seq<Row>, i: nat, maxDepth: int, maxFiles: int,
                  waiting: seq<Entry>, found: seq<File>, queue: seq<Entry>, deep: bool)
    requires i < |rows| && Scanned(done, e, rows[..i], maxDepth, maxFiles, waiting, found, queue, deep)
    requires Named(rows[i]) && !rows[i].folder && |found| >= AtLeast0(maxFiles)
    ensures Stopped(done + StepsOf(e, rows[..i + 1]), found, deep, maxDepth, maxFiles)
  {
    var steps, step := StepsOf(e, rows[..i]), Step(e, rows[i]);
    StepsMore(e, rows, i);
    SeenMore(done + steps, step, found, deep, maxDepth, maxFiles);
    assert done + (steps + [step]) == done + steps + [step];
  }

  lemma StoppedHere(done: seq<Step>, e: Entry, rows: seq<Row>, i: nat, found: seq<File>, deep: bool, maxDepth: int,
                    maxFiles: int)
    requires i <= |rows| && Stopped(done + StepsOf(e, rows[..i]), found, deep, maxDepth, maxFiles)
    ensures Stopped(done + StepsOf(e, rows), found, deep, maxDepth, maxFiles)
  {
    StepsAhead(e, rows, i);
    var rest :| StepsOf(e, rows) == StepsOf(e, rows[..i]) + rest;
    StoppedMore(done + StepsOf(e, rows[..i]), rest, found, deep, maxDepth, maxFiles);
    assert done + StepsOf(e, rows) == done + StepsOf(e, rows[..i]) + rest;
  }

  /** The body of the walk: one folder's rows go to the files found or to the end of the queue. */
  method ListFolder(e: Entry, rows: seq<Row>, maxDepth: int, maxFiles: int, before: seq<File>, waiting: seq<Entry>,
                    ghost done: seq<Step>, ghost seen: bool)
    returns (found: seq<File>, queue: seq<Entry>, deep: bool, full: bool)
    requires Seen(done, before, seen, maxDepth, maxFiles)
    ensures if full then Stopped(done + StepsOf(e, rows), found, seen || deep, maxDepth, maxFiles)
            else Scanned(done, e, rows, maxDepth, maxFiles, waiting, found, queue, seen || deep)
  {
    found, queue, deep, full := before, waiting, false, false;
    NothingScanned(done, e, maxDepth, maxFiles, waiting, found, seen);
    assert rows[..0] == [];
    for i := 0 to |rows|
      invariant !full && Scanned(done, e, rows[..i], maxDepth, maxFiles, waiting, found, queue, seen || deep)
    {
      var row := rows[i];
      if Named(row) && !row.folder && |found| >= maxFiles {
        full := true;
        StoppedAt(done, e, rows, i, maxDepth, maxFiles, waiting, found, queue, seen || deep);
        StoppedHere(done, e, rows, i + 1, found, seen || deep, maxDepth, maxFiles);
        return;
      }
      ScannedMore(done, e, rows, i, maxDepth, maxFiles, waiting, found, queue, seen || deep);
      assert found + [] == found && queue + [] == queue;
      if !Named(row) {
        continue;
      }
      if row.folder {
        if e.depth < maxDepth {
          queue := queue + [EntryOf(e, row)];
        } else {
          deep := true;
        }
        continue;
      }
      found := found + [FileOf(e.path, row)];
    }
    assert rows[..|rows|] == rows;
  }

  lemma NotesAre(notes: seq<Note>)
    ensures notes == [] <==> FileLimit !in notes && FolderLimit !in notes && DepthLimit !in notes
  {
    if notes != [] {
      assert notes[0] in notes && (notes[0] == FileLimit || notes[0] == FolderLimit || notes[0] == DepthLimit);
    }
  }

  /** What stays fixed during a walk: the graph, the limits, the rows of all folders that may be listed. */
  datatype Frame = Frame(g: Graph, maxDepth: int, maxFiles: int, most: nat, steps: seq<Step>, folders: nat)

  ghost function FrameOf(g: Graph, id: Id, top: string, maxDepth: int, maxFolders: int, maxFiles: int): Frame {
    var most := AtLeast0(maxFolders);
    Frame(g, maxDepth, maxFiles, most, AllSteps(g, maxDepth, [Entry(id, top, 1)], most), AllFolders(g, id, maxDepth))
  }

  /** What is returned, told from the rows of the folders that may be listed: the first files, the file limit when
      there are more of them, else the folder limit when there are more folders, and the depth limit when a folder
      too deep came before the end. */
  ghost predicate Reported(f: Frame, found: seq<File>, notes: seq<Note>) {
    var files, most := FilesOf(f.steps), AtLeast0(f.maxFiles);
    && found == (if |files| <= most then files else files[..most])
    && (FileLimit in notes <==> |files| > most)
    && (FolderLimit in notes <==> |files| <= most && f.folders > f.most)
    && (DepthLimit in notes <==> DeepSeen(f.steps, f.maxDepth, f.maxFiles))
    && |notes| <= 2
  }

  lemma StartShare(g: Graph, id: Id, top: string, maxDepth: int, n: nat)
    ensures Share(AllSteps(g, maxDepth, [Entry(id, top, 1)], n), maxDepth, AllFiles(g, id, top, maxDepth),
                  Shallow(g, id, maxDepth), AllFolders(g, id, maxDepth) <= n)
  {
    var queue := [Entry(id, top, 1)];
    StartLoad(g, id, top, maxDepth);
    StepsLoad(g, maxDepth, queue, n);
    assert PendingFiles(g, maxDepth, queue) == multiset([]) + PendingFiles(g, maxDepth, queue);
  }

  lemma ReportedShare(f: Frame, all: multiset<File>, shallow: bool, found: seq<File>, notes: seq<Note>)
    requires Reported(f, found, notes) && Share(f.steps, f.maxDepth, all, shallow, f.folders <= f.most)
    ensures multiset(found) <= all && |found| <= AtLeast0(f.maxFiles)
    ensures notes == [] <==> shallow && f.folders <= f.most && |all| <= AtLeast0(f.maxFiles)
    ensures notes == [] ==> multiset(found) == all
  {
    var files := FilesOf(f.steps);
    assert files == found + files[|found|..];
    assert multiset(files) == multiset(found) + multiset(files[|found|..]);
    assert |multiset(files)| == |files|;
    if |files| <= AtLeast0(f.maxFiles) {
      DeepWithin(f.steps, f.maxDepth, f.maxFiles);
    }
    NotesAre(notes);
  }

  /** No file is returned more often than the unfolding holds it; the walk is silent exactly when the graph is within
      all three limits, and then it returned everything. */
  lemma ReportedWhole(g: Graph, id: Id, top: string, found: seq<File>, notes: seq<Note>, maxDepth: int,
                      maxFolders: int, maxFiles: int)
    requires Reported(FrameOf(g, id, top, maxDepth, maxFolders, maxFiles), found, notes)
    ensures multiset(found) <= AllFiles(g, id, top, maxDepth) && |found| <= AtLeast0(maxFiles)
    ensures notes == [] <==> WithinLimits(g, id, top, maxDepth, maxFolders, maxFiles)
    ensures notes == [] ==> multiset(found) == AllFiles(g, id, top, maxDepth)
  {
    var f, all := FrameOf(g, id, top, maxDepth, maxFolders, maxFiles), AllFiles(g, id, top, maxDepth);
    StartShare(g, id, top, maxDepth, AtLeast0(maxFolders));
    ReportedShare(f, all, Shallow(g, id, maxDepth), found, notes);
    assert |all| == 0 <==> all == multiset{};
  }

  /** Where the walk stands: what it has listed, and what is left of the folders that it may list. */
  ghost predicate Standing(f: Frame, done: seq<Step>, queue: seq<Entry>, listed: nat, found: seq<File>, deep: bool) {
    && listed <= f.most && listed + PendingFolders(f.g, f.maxDepth, queue) == f.folders
    && Seen(done, found, deep, f.maxDepth, f.maxFiles)
    && f.steps == done + AllSteps(f.g, f.maxDepth, queue, f.most - listed)
  }

  lemma Starting(g: Graph, id: Id, top: string, maxDepth: int, maxFolders: int, maxFiles: int)
    ensures Standing(FrameOf(g, id, top, maxDepth, maxFolders, maxFiles), [], [Entry(id, top, 1)], 0, [], false)
  {
    var queue := [Entry(id, top, 1)];
    StartLoad(g, id, top, maxDepth);
    var steps := AllSteps(g, maxDepth, queue, AtLeast0(maxFolders));
    assert [] + steps == steps;
  }

  lemma NextSteps(f: Frame, done: seq<Step>, queue: seq<Entry>, left: nat)
    requires queue != [] && left > 0 && f.steps == done + AllSteps(f.g, f.maxDepth, queue, left)
    ensures var here := StepsOf(queue[0], Rows(f.g, queue[0].id));
            f.steps == done + here + AllSteps(f.g, f.maxDepth, queue[1..] + Below(here, f.maxDepth), left - 1)
  {
    var here := StepsOf(queue[0], Rows(f.g, queue[0].id));
    var rest := AllSteps(f.g, f.maxDepth, queue[1..] + Below(here, f.maxDepth), left - 1);
    assert done + (here + rest) == done + here + rest;
  }

  lemma FolderListed(f: Frame, done: seq<Step>, queue: seq<Entry>, listed: nat, found: seq<File>, deep: bool,
                     more: seq<File>, next: seq<Entry>, deeper: bool)
    requires queue != [] && listed < f.most && Standing(f, done, queue, listed, found, deep)
    requires Scanned(done, queue[0], Rows(f.g, queue[0].id), f.maxDepth, f.maxFiles, queue[1..], more, next, deeper)
    ensures Standing(f, done + StepsOf(queue[0], Rows(f.g, queue[0].id)), next, listed + 1, more, deeper)
    ensures PendingFolders(f.g, f.maxDepth, next) < PendingFolders(f.g, f.maxDepth, queue)
  {
    ListedFolders(f.g, f.maxDepth, queue);
    NextSteps(f, done, queue, f.most - listed);
  }

  lemma FolderStopped(f: Frame, done: seq<Step>, queue: seq<Entry>, left: nat, here: seq<Step>, more: seq<File>,
                      deeper: bool)
    requires queue != [] && left > 0 && f.steps == done + AllSteps(f.g, f.maxDepth, queue, left)
    requires here == StepsOf(queue[0], Rows(f.g, queue[0].id))
    requires Stopped(done + here, more, deeper, f.maxDepth, f.maxFiles)
    ensures Reported(f, more, Notes(deeper, [FileLimit]))
  {
    var rest := AllSteps(f.g, f.maxDepth, queue[1..] + Below(here, f.maxDepth), left - 1);
    NextSteps(f, done, queue, left);
    StoppedInAll(f, done + here, rest, more, deeper);
  }

  lemma StoppedInAll(f: Frame, first: seq<Step>, rest: seq<Step>, more: seq<File>, deeper: bool)
    requires f.steps == first + rest && Stopped(first, more, deeper, f.maxDepth, f.maxFiles)
    ensures Reported(f, more, Notes(deeper, [FileLimit]))
  {
    StoppedMore(first, rest, more, deeper, f.maxDepth, f.maxFiles);
  }

  function Notes(deep: bool, limit: seq<Note>): seq<Note> { (if deep then [DepthLimit] else []) + limit }

  /** Listing ended with the queue, or with the folders that may be listed. */
  lemma EndReported(f: Frame, done: seq<Step>, queue: seq<Entry>, listed: nat, found: seq<File>, deep: bool)
    requires Standing(f, done, queue, listed, found, deep) && (queue == [] || listed == f.most)
    ensures Reported(f, found, Notes(deep, if queue == [] then [] else [FolderLimit]))
  {
    assert f.steps == done + [] == done;
  }

  /** List the first folder of the queue. */
  method Visit(drive: Graph, ghost f: Frame, queue: seq<Entry>, listed: nat, found: seq<File>, deep: bool,
               maxDepth: int, maxFiles: int, ghost done: seq<Step>)
    returns (more: seq<File>, next: seq<Entry>, deeper: bool, full: bool, ghost after: seq<Step>)
    requires queue != [] && listed < f.most && Standing(f, done, queue, listed, found, deep)
    requires f.g == InOrder(drive) && f.maxDepth == maxDepth && f.maxFiles == maxFiles
    ensures deep ==> deeper
    ensures full ==> Reported(f, more, Notes(deeper, [FileLimit]))
    ensures !full ==> Standing(f, after, next, listed + 1, more, deeper)
    ensures !full ==> PendingFolders(f.g, f.maxDepth, next) < PendingFolders(f.g, f.maxDepth, queue)
  {
    var e := queue[0];
    var rows := if e.id in drive then Sorted(drive[e.id], ByRawName) else [];
    after := done + StepsOf(e, rows);
    more, next, deeper, full := ListFolder(e, rows, maxDepth, maxFiles, found, queue[1..], done, deep);
    deeper := deep || deeper;
    if full {
      FolderStopped(f, done, queue, f.most - listed, StepsOf(e, rows), more, deeper);
    } else {
      FolderListed(f, done, queue, listed, found, deep, more, next, deeper);
    }
  }

  /** The walk lists at most `maxFolders` folders, breadth first, and returns the first `maxFiles` files that it meets.
      The notes say which limit cut it short. */
  method Walk(drive: Graph, id: Id, top: string, maxDepth: int, maxFolders: int, maxFiles: int)
    returns (found: seq<File>, notes: seq<Note>, listed: nat)
    ensures listed <= AtLeast0(maxFolders)
    ensures Reported(FrameOf(InOrder(drive), id, top, maxDepth, maxFolders, maxFiles), found, notes)
  {
    found, notes, listed := [], [], 0;
    var queue, deep := [Entry(id, top, 1)], false;
    ghost var done, f := [], FrameOf(InOrder(drive), id, top, maxDepth, maxFolders, maxFiles);
    Starting(InOrder(drive), id, top, maxDepth, maxFolders, maxFiles);
    while queue != []
      invariant listed <= AtLeast0(maxFolders) && notes == Notes(deep, [])
      invariant Standing(f, done, queue, listed, found, deep)
      decreases PendingFolders(f.g, f.maxDepth, queue)
    {
      if listed + 1 > maxFolders {
        EndReported(f, done, queue, listed, found, deep);
        notes := notes + [FolderLimit];
        return;
      }
      var full;
      found, queue, deep, full, done := Visit(drive, f, queue, listed, found, deep, maxDepth, maxFiles, done);
      listed := listed + 1;
      notes := if deep then [DepthLimit] else [];
      if full {
        notes := notes + [FileLimit];
        return;
      }
    }
    EndReported(f, done, queue, listed, found, deep);
  }
}
