/** `automation/p5_backup.py` and `automation/p5_remove.py`: back up an account, then remove its jobs and
    files, with a crash possible between any two steps and any number of retries.  A home is a map
    from names to fingerprints; a saved file is written in one step. */
module Removal {
  import opened Text

  type Files = map<string, string>
  type Jobs = map<string, string>

  /** One backup folder: the export of the jobs, the archive, its index, the mark of completion. */
  datatype Folder = Folder(exported: Option<Jobs>, archive: Option<Files>, index: Option<Files>, complete: bool)

  datatype Event =
    | FileDeleted(head: string, name: string, mark: string)
    | UnitsStopped(head: string, present: Files)
    | UnitDown(head: string, name: string)
    | JobRemoved(head: string, id: string, job: string, present: Files)
    | LateJobRemoved(id: string, job: string)
    | Retired(left: Files, jobs: Jobs)

  datatype Outcome = Done | Refused | Crashed

  // ---------------------------------------------------------------- names and trees

  predicate Under(root: string, name: string) { name == root || root + "/" <= name }

  predicate UnderAny(roots: seq<string>, name: string) {
    exists k :: 0 <= k < |roots| && Under(roots[k], name)
  }

  /** A home is a file tree: the directories above an entry are entries. */
  ghost predicate TreeLike(home: Files) {
    forall name, i :: name in home && 0 <= i < |name| && name[i] == '/' ==> name[..i] in home
  }

  function Inventory(home: Files, roots: seq<string>): Files {
    map name | name in home && UnderAny(roots, name) :: home[name]
  }

  function Entries(home: Files, root: string): set<string> { set name | name in home && Under(root, name) }

  function Without(home: Files, root: string): Files { map name | name in home && !Under(root, name) :: home[name] }

  predicate Subset(a: map<string, string>, b: map<string, string>) { forall k :: k in a ==> k in b && b[k] == a[k] }

  /** What lies at `root` is what was backed up from there. */
  predicate Whole(home: Files, root: string, expected: Files) {
    Inventory(home, [root]) == Inventory(expected, [root])
  }

  lemma NothingBelowMissing(home: Files, root: string)
    requires TreeLike(home) && root !in home
    ensures Entries(home, root) == {} && Without(home, root) == home
  {
    forall name | name in home ensures !Under(root, name) {
      NotBelowMissing(home, root, name);
    }
  }

  lemma NotBelowMissing(home: Files, root: string, name: string)
    requires TreeLike(home) && root !in home && name in home
    ensures !Under(root, name)
  {
    if |root| < |name| && name[|root|] == '/' {
      var front := name[..|root|];
      assert front in home;
      assert root + "/" <= name ==> root == front;
    }
  }

  lemma UnderTransitive(a: string, b: string, c: string)
    requires Under(a, b) && Under(b, c)
    ensures Under(a, c)
  {
    if a + "/" <= b && b + "/" <= c {
      assert c[..|a| + 1] == b[..|a| + 1];
    }
  }

  /** Two directories that share an entry lie one in the other. */
  lemma UnderBoth(p: string, q: string, name: string)
    requires Under(p, name) && Under(q, name)
    ensures Under(p, q) || Under(q, p)
  {
    if name != p && name != q {
      assert name[..|p|] == p && name[|p|] == '/' && name[..|q|] == q && name[|q|] == '/';
      if |p| < |q| {
        assert q[..|p| + 1] == name[..|p| + 1] == p + "/";
      } else if |q| < |p| {
        assert p[..|q| + 1] == name[..|q| + 1] == q + "/";
      }
    }
  }

  predicate IsLeaf(names: set<string>, name: string) {
    name in names && forall other :: other in names && Under(name, other) ==> other == name
  }

  /** The longest name of a set is a leaf of it. */
  lemma {:induction false} LongestIn(names: set<string>) returns (name: string)
    requires names != {}
    ensures name in names && forall other :: other in names ==> |other| <= |name|
  {
    name :| name in names;
    if names != {name} {
      var longest := LongestIn(names - {name});
      assert forall other :: other in names ==> other == name || other in names - {name};
      if |longest| > |name| {
        name := longest;
      }
    }
  }

  lemma LeafExists(names: set<string>)
    requires names != {}
    ensures exists name :: IsLeaf(names, name)
  {
    var name := LongestIn(names);
    assert IsLeaf(names, name);
  }

  /** Taking a leaf out of a directory leaves a tree. */
  lemma LeafGoes(home: Files, root: string, name: string)
    requires TreeLike(home) && IsLeaf(Entries(home, root), name)
    ensures TreeLike(home - {name})
  {
    forall other, i | other in home - {name} && 0 <= i < |other| && other[i] == '/'
      ensures other[..i] in home - {name}
    {
      if other[..i] == name {
        BelowBoth(root, name, other, i);
      }
    }
  }

  lemma BelowBoth(root: string, name: string, other: string, i: nat)
    requires i < |other| && other[i] == '/' && other[..i] == name && Under(root, name)
    ensures Under(name, other) && Under(root, other) && other != name
  {
    assert name + "/" <= other;
    UnderTransitive(root, name, other);
  }

  lemma EntryIn(files: Files, root: string, name: string)
    ensures name in Inventory(files, [root]) <==> name in files && Under(root, name)
    ensures name in files && Under(root, name) ==> Inventory(files, [root])[name] == files[name]
  {
    assert Under(root, name) <==> Under([root][0], name);
  }

  lemma WholeEntries(home: Files, root: string, expected: Files)
    requires Whole(home, root, expected)
    ensures forall name :: name in Entries(home, root) ==> name in expected && expected[name] == home[name]
    ensures Entries(home, root) == Entries(expected, root)
  {
    forall name ensures name in Entries(home, root) <==> name in Entries(expected, root)
                ensures name in Entries(home, root) ==> name in expected && expected[name] == home[name]
    {
      EntryIn(home, root, name);
      EntryIn(expected, root, name);
    }
  }

  lemma MissingIsNotWhole(home: Files, root: string, expected: Files, name: string)
    requires name in expected && Under(root, name) && name !in home
    ensures !Whole(home, root, expected)
  {
    EntryIn(home, root, name);
    EntryIn(expected, root, name);
  }

  ghost predicate SameUnder(a: Files, b: Files, root: string) { Inventory(a, [root]) == Inventory(b, [root]) }

  lemma SameRoot(a: Files, b: Files, root: string)
    requires SameUnder(a, b, root)
    ensures root in a <==> root in b
  {
    EntryIn(a, root, root);
    EntryIn(b, root, root);
  }

  /** Whole paths hold nothing that was not backed up. */
  lemma WholeIsSubset(home: Files, selected: seq<string>, expected: Files)
    requires forall p :: p in selected ==> Whole(home, p, expected)
    ensures Subset(Inventory(home, selected), expected)
  {
    forall name | name in Inventory(home, selected) ensures name in expected && expected[name] == home[name] {
      var k :| 0 <= k < |selected| && Under(selected[k], name);
      assert selected[k] in selected;
      WholeEntries(home, selected[k], expected);
    }
  }

  /** What is taken from one directory is not taken from another that lies apart. */
  lemma ApartStays(a: Files, b: Files, p: string, q: string)
    requires Without(a, q) == Without(b, q) && !Under(p, q) && !Under(q, p)
    ensures SameUnder(a, b, p)
  {
    forall name ensures name in Inventory(a, [p]) <==> name in Inventory(b, [p])
                ensures name in Inventory(a, [p]) ==> Inventory(a, [p])[name] == Inventory(b, [p])[name]
    {
      EntryIn(a, p, name);
      EntryIn(b, p, name);
      if Under(p, name) {
        if Under(q, name) { UnderBoth(p, q, name); }
        assert name in a <==> name in Without(a, q);
        assert name in b <==> name in Without(b, q);
      }
    }
  }

  // ---------------------------------------------------------------- what is kept

  predicate Sound(f: Folder) {
    && (f.index.Some? ==> f.archive == f.index && f.exported.Some?)
    && (f.complete ==> f.index.Some?)
  }

  /** No folder but that of `head` changes. */
  ghost predicate OthersKept(a: map<string, Folder>, b: map<string, Folder>, head: string) {
    forall h :: h != head ==> (h in a <==> h in b) && (h in a ==> b[h] == a[h])
  }

  /** A saved export, and a saved index with its archive, are never written again. */
  predicate Grows(a: map<string, Folder>, b: map<string, Folder>) {
    forall h :: h in a ==>
      && h in b && (a[h].exported.Some? ==> b[h].exported == a[h].exported)
      && (a[h].index.Some? ==> b[h].index == a[h].index && b[h].archive == a[h].archive)
  }

  /** What went is in a verified backup; units stopped and jobs went while the selected files were as
      backed up; the account retired with nothing selected left.  Late jobs are another matter. */
  ghost predicate Covered(folders: map<string, Folder>, e: Event) {
    match e
    case FileDeleted(head, name, mark) =>
      && head in folders && folders[head].index.Some? && folders[head].archive == folders[head].index
      && name in folders[head].index.value && folders[head].index.value[name] == mark
    case UnitsStopped(head, present) =>
      head in folders && folders[head].index.Some? && Subset(present, folders[head].index.value)
    case UnitDown(_, _) => true
    case JobRemoved(head, id, job, present) =>
      && head in folders && folders[head].index.Some? && folders[head].exported.Some?
      && Subset(present, folders[head].index.value)
      && id in folders[head].exported.value && folders[head].exported.value[id] == job
    case LateJobRemoved(_, _) => true
    case Retired(left, jobs) => left == map[] && jobs == map[]
  }

  ghost predicate AllCovered(folders: map<string, Folder>, log: seq<Event>) {
    && (forall h :: h in folders ==> Sound(folders[h]))
    && (forall k :: 0 <= k < |log| ==> Covered(folders, log[k]))
  }

  lemma CoveredGrows(a: map<string, Folder>, b: map<string, Folder>, log: seq<Event>)
    requires AllCovered(a, log) && Grows(a, b) && forall h :: h in b ==> Sound(b[h])
    ensures AllCovered(b, log)
  {
  }

  // ---------------------------------------------------------------- units before jobs and files

  /** The event belongs to the pass of this head. */
  ghost predicate OfHead(e: Event, head: string) {
    match e
    case FileDeleted(h, _, _) => h == head
    case UnitsStopped(h, _) => h == head
    case UnitDown(h, _) => h == head
    case JobRemoved(h, _, _, _) => h == head
    case LateJobRemoved(_, _) => false
    case Retired(_, _) => true
  }

  ghost predicate AllOfHead(log: seq<Event>, from: nat, head: string) {
    forall k :: from <= k < |log| ==> OfHead(log[k], head)
  }

  /** Something of the account goes for good. */
  ghost predicate Goes(e: Event) { e.FileDeleted? || e.JobRemoved? || e.Retired? }

  ghost predicate WentDown(log: seq<Event>, from: nat, to: nat, head: string, unit: string) {
    exists j :: from <= j < to <= |log| && log[j] == UnitDown(head, unit)
  }

  /** Between the two places the units of the head were stopped, and every one of them was seen down. */
  ghost predicate UnitsWereDown(log: seq<Event>, from: nat, to: nat, head: string, units: seq<string>) {
    && (exists j :: from <= j < to <= |log| && log[j].UnitsStopped? && log[j].head == head)
    && forall u :: u in units ==> WentDown(log, from, to, head, u)
  }

  /** Whatever went from `from` to `to` went after all units of the head had been seen down. */
  ghost predicate UnitsFirst(log: seq<Event>, from: nat, to: nat, head: string, units: seq<string>) {
    forall k :: from <= k < to <= |log| && Goes(log[k]) ==> UnitsWereDown(log, from, k, head, units)
  }

  lemma WentDownLater(mid: seq<Event>, log: seq<Event>, from: nat, to: nat, head: string, unit: string)
    requires mid <= log && |mid| <= to <= |log| && WentDown(mid, from, |mid|, head, unit)
    ensures WentDown(log, from, to, head, unit)
  {
    var j :| from <= j < |mid| && mid[j] == UnitDown(head, unit);
    assert log[j] == mid[j];
  }

  lemma DownLater(mid: seq<Event>, log: seq<Event>, from: nat, to: nat, head: string, units: seq<string>)
    requires mid <= log && |mid| <= to <= |log| && UnitsWereDown(mid, from, |mid|, head, units)
    ensures UnitsWereDown(log, from, to, head, units)
  {
    var j :| from <= j < |mid| && mid[j].UnitsStopped? && mid[j].head == head;
    assert log[j] == mid[j];
    forall u | u in units ensures WentDown(log, from, to, head, u) {
      WentDownLater(mid, log, from, to, head, u);
    }
  }

  /** What comes after the units were seen down comes after them. */
  lemma UnitsCameFirst(mid: seq<Event>, log: seq<Event>, from: nat, head: string, units: seq<string>)
    requires from <= |mid| && mid <= log && UnitsWereDown(mid, from, |mid|, head, units)
    requires forall k :: from <= k < |mid| ==> !Goes(mid[k])
    ensures UnitsFirst(log, from, |log|, head, units)
  {
    assert forall k :: 0 <= k < |mid| ==> log[k] == mid[k];
    forall k | from <= k < |log| && Goes(log[k]) ensures UnitsWereDown(log, from, k, head, units) {
      DownLater(mid, log, from, k, head, units);
    }
  }

  /** No selected path lies in another one. */
  predicate Apart(roots: seq<string>) {
    forall i, j :: 0 <= i < |roots| && 0 <= j < |roots| && Under(roots[i], roots[j]) ==> roots[i] == roots[j]
  }

  /** A job that was listed is gone. */
  ghost predicate Removes(e: Event, listing: Jobs, left: Jobs) {
    e.LateJobRemoved? && e.id in listing && listing[e.id] == e.job && e.id !in left
  }

  ghost predicate RemovedSince(log: seq<Event>, from: nat, listing: Jobs, left: Jobs) {
    forall k :: from <= k < |log| ==> Removes(log[k], listing, left)
  }

  lemma RemovedMore(before: seq<Event>, log: seq<Event>, from: nat, listing: Jobs, left: Jobs, next: Jobs)
    requires from <= |before| && RemovedSince(before, from, listing, left) && Subset(next, left)
    requires |log| == |before| + 1 && log[..|before|] == before && Removes(log[|before|], listing, next)
    ensures RemovedSince(log, from, listing, next)
  {
    forall k | from <= k < |log| ensures Removes(log[k], listing, next) {
      if k < |before| {
        assert log[k] == before[k];
      }
    }
  }

  class Account {
    var home: Files
    var jobs: Jobs
    var folders: map<string, Folder>
    /** The listing that the late folder of each head holds. */
    var late: map<string, Jobs>
    var retired: bool
    /** The units that are active. */
    var running: set<string>
    /** Commands that do what they are asked, and no crash. */
    const reliable: bool
    ghost var log: seq<Event>

    constructor (files: Files, active: Jobs, backups: map<string, Folder>, gone: bool, up: set<string>, sound: bool)
      requires TreeLike(files) && forall h :: h in backups ==> Sound(backups[h])
      ensures home == files && jobs == active && folders == backups && late == map[] && retired == gone && log == []
      ensures reliable == sound && running == up && Valid()
    {
      home, jobs, folders, late, retired, reliable := files, active, backups, map[], gone, sound;
      running := up;
      log := [];
    }

    ghost predicate Valid() reads this { TreeLike(home) && AllCovered(folders, log) }

    // ------------------------------------------------------------ backing up

    /** `jobs()`: the paused jobs, or a refusal. */
    method ListJobs() returns (r: Option<Jobs>)
      ensures r.Some? ==> r.value == jobs
      ensures reliable ==> r.Some?
    {
      var readable: bool := *;
      r := if readable || reliable then Some(jobs) else None;
    }

    method Crash() returns (crash: bool)
      ensures reliable ==> !crash
    {
      crash := *;
      crash := crash && !reliable;
    }

    method Present(roots: seq<string>) returns (r: seq<string>)
      ensures forall p :: p in r <==> p in roots && p in home
    {
      r := [];
      for i := 0 to |roots|
        invariant forall p :: p in r <==> p in roots[..i] && p in home
      {
        assert roots[..i + 1] == roots[..i] + [roots[i]];
        if roots[i] in home {
          r := r + [roots[i]];
        }
      }
      assert roots[..|roots|] == roots;
    }

    /** The exports are saved once, and only when the jobs are as many as the role should have. */
    method Export(head: string, current: Jobs, expectedJobs: nat, jobsFile: set<string>) returns (r: Outcome)
      requires AllCovered(folders, log)
      modifies this`folders
      ensures Grows(old(folders), folders) && AllCovered(folders, log) && (reliable ==> r != Crashed)
      ensures r == Done
        ==> head in folders && folders[head].exported.Some? && Subset(current, folders[head].exported.value)
      ensures OthersKept(old(folders), folders, head) && (r != Done ==> (Exported(head) <==> old(Exported(head))))
      ensures old(Exported(head)) ==> folders == old(folders)
      ensures old(Exported(head)) ==> (r == Done <==> Subset(current, folders[head].exported.value))
      ensures !old(Exported(head)) && r == Done ==> folders[head].index.None? && folders[head].exported == Some(current)
      ensures !old(Exported(head)) && reliable
        ==> (r == Done <==> |current| == expectedJobs && jobsFile == current.Keys)
    {
      ghost var before := folders;
      if head !in folders {
        folders := folders[head := Folder(None, None, None, false)];
      }
      if folders[head].exported.None? {
        if |current| != expectedJobs || jobsFile != current.Keys {
          CoveredGrows(before, folders, log);
          return Refused;
        }
        var crash := Crash();
        if crash {
          CoveredGrows(before, folders, log);
          return Crashed;
        }
        folders := folders[head := folders[head].(exported := Some(current))];
      }
      CoveredGrows(before, folders, log);
      if !Subset(current, folders[head].exported.value) {
        return Refused;
      }
      r := Done;
    }

    predicate Exported(head: string) reads this { head in folders && folders[head].exported.Some? }

    /** `backup`: created once, verified on every use. */
    method Backup(head: string, selected: seq<string>) returns (r: Outcome, expected: Files)
      requires AllCovered(folders, log) && Exported(head)
      modifies this`folders
      ensures Grows(old(folders), folders) && AllCovered(folders, log) && head in folders
      ensures OthersKept(old(folders), folders, head) && (reliable ==> r == Done)
      ensures old(folders)[head].index.None? && r == Done ==> expected == Inventory(home, selected)
      ensures folders[head].exported == old(folders)[head].exported
      ensures r == Done ==> folders[head].index == Some(expected)
      ensures old(folders)[head].index.Some? ==> r == Done && folders == old(folders)
    {
      ghost var before := folders;
      r, expected := Refused, map[];
      if folders[head].index.Some? {
        if folders[head].archive == folders[head].index {
          r, expected := Done, folders[head].index.value;
        }
        return;
      }
      var readable: bool := *;
      if !readable && !reliable {
        return;
      }
      expected := Inventory(home, selected);
      var stored: Files := *; // what the archive reads back as
      if reliable {
        stored := expected;
      }
      if stored != expected {
        return;
      }
      folders := folders[head := folders[head].(archive := Some(stored))];
      CoveredGrows(before, folders, log);
      var crash := Crash();
      if crash {
        return Crashed, expected;
      }
      folders := folders[head := folders[head].(index := Some(expected))];
      CoveredGrows(before, folders, log);
      r := Done;
    }

    // ------------------------------------------------------------ removing

    /** Every unit that is loaded is disabled, and is seen down before the next one. */
    method StopEach(head: string, units: seq<string>) returns (ok: bool)
      requires Valid()
      modifies this`running, this`log
      ensures Valid() && old(log) <= log && running <= old(running) && (reliable ==> ok)
      ensures forall k :: |old(log)| <= k < |log| ==> log[k].UnitDown? && log[k].head == head
      ensures ok ==> forall u :: u in units ==> u !in running && WentDown(log, |old(log)|, |log|, head, u)
    {
      for i := 0 to |units|
        invariant Valid() && old(log) <= log && running <= old(running)
        invariant forall k :: |old(log)| <= k < |log| ==> log[k].UnitDown? && log[k].head == head
        invariant forall u :: u in units[..i] ==> u !in running && WentDown(log, |old(log)|, |log|, head, u)
      {
        assert units[..i + 1] == units[..i] + [units[i]];
        var stopped: bool := *;
        var loaded := *;
        if loaded || units[i] in running {
          if stopped || reliable {
            running := running - {units[i]};
          }
          var crash := Crash(); // or the command failed
          if crash || units[i] in running {
            return false;
          }
        }
        ghost var before := log;
        log := log + [UnitDown(head, units[i])];
        assert log[|before|] == UnitDown(head, units[i]);
        forall u | u in units[..i] ensures WentDown(log, |old(log)|, |log|, head, u) {
          WentDownLater(before, log, |old(log)|, |log|, head, u);
        }
      }
      assert units[..|units|] == units;
      ok := true;
    }

    /** Stopping units takes its time and may leave another home; a working stop only removes links that
        enabled the units.  Jobs and backups are touched by commands of this tool alone. */
    method StopUnits(head: string, units: seq<string>, selected: seq<string>, stopped: Files, unlinked: set<string>)
      returns (ok: bool)
      requires Valid() && TreeLike(stopped) && head in folders && folders[head].index.Some?
      requires Subset(Inventory(home, selected), folders[head].index.value)
      modifies this`home, this`running, this`log
      ensures Valid() && old(log) <= log && running <= old(running)
      ensures AllOfHead(log, |old(log)|, head) && forall k :: |old(log)| <= k < |log| ==> !Goes(log[k])
      ensures ok ==> UnitsWereDown(log, |old(log)|, |log|, head, units) && forall u :: u in units ==> u !in running
      ensures reliable ==> ok
      ensures reliable ==> home == old(home) - Links(old(home), selected, folders[head].index.value, unlinked)
    {
      log := log + [UnitsStopped(head, Inventory(home, selected))];
      ghost var begun := log;
      ok := StopEach(head, units);
      assert log[|begun| - 1] == begun[|begun| - 1];
      forall u | ok && u in units ensures WentDown(log, |old(log)|, |log|, head, u) {
        var j :| |begun| <= j < |log| && log[j] == UnitDown(head, u);
      }
      if reliable {
        LinksGo(home, selected, folders[head].index.value, unlinked);
        home := home - Links(home, selected, folders[head].index.value, unlinked);
      } else {
        home := stopped;
      }
    }

    method RemoveJob(head: string, id: string, selected: seq<string>) returns (ok: bool)
      requires AllCovered(folders, log) && head in folders && folders[head].index.Some? && folders[head].exported.Some?
      requires Subset(jobs, folders[head].exported.value)
      requires Subset(Inventory(home, selected), folders[head].index.value)
      modifies this`jobs, this`log
      ensures AllCovered(folders, log) && Subset(jobs, old(jobs)) && old(log) <= log
      ensures AllOfHead(log, |old(log)|, head)
      ensures jobs == old(jobs) - {id} || jobs == old(jobs)
      ensures (ok ==> id !in jobs) && (reliable ==> ok)
    {
      var taken: bool := *;
      if (taken || reliable) && id in jobs {
        log := log + [JobRemoved(head, id, jobs[id], Inventory(home, selected))];
        jobs := jobs - {id};
      }
      ok := id !in jobs; // read back
      var crash := Crash();
      ok := ok && !crash;
    }

    method RemoveJobs(head: string, selected: seq<string>) returns (r: Outcome)
      requires AllCovered(folders, log) && head in folders && folders[head].index.Some? && folders[head].exported.Some?
      requires Subset(jobs, folders[head].exported.value)
      requires Subset(Inventory(home, selected), folders[head].index.value)
      modifies this`jobs, this`log
      ensures AllCovered(folders, log) && old(log) <= log && (r == Done ==> jobs == map[]) && (reliable ==> r == Done)
      ensures Subset(jobs, old(jobs)) && AllOfHead(log, |old(log)|, head)
    {
      while jobs != map[]
        invariant AllCovered(folders, log) && old(log) <= log && Subset(jobs, folders[head].exported.value)
        invariant Subset(jobs, old(jobs)) && AllOfHead(log, |old(log)|, head)
        decreases |jobs|
      {
        var id :| id in jobs;
        var ok := RemoveJob(head, id, selected);
        if !ok {
          return Refused;
        }
      }
      r := Done;
    }

    method DeleteEntry(head: string, name: string, expected: Files)
      requires AllCovered(folders, log) && head in folders && folders[head].index == Some(expected)
      requires name in home && name in expected && expected[name] == home[name]
      modifies this`home, this`log
      ensures AllCovered(folders, log) && log == old(log) + [FileDeleted(head, name, old(home)[name])]
      ensures home == old(home) - {name}
    {
      log := log + [FileDeleted(head, name, home[name])];
      home := home - {name};
    }

    /** Delete some leaf of a path; the path itself goes last. */
    method DeleteLeaf(head: string, root: string, left: set<string>, expected: Files) returns (name: string)
      requires Valid() && head in folders && folders[head].index == Some(expected)
      requires left == Entries(home, root) && root in left
      requires forall name :: name in left ==> name in expected && expected[name] == home[name]
      modifies this`home, this`log
      ensures Valid() && name in left && log == old(log) + [FileDeleted(head, name, old(home)[name])]
      ensures home == old(home) - {name} && Entries(home, root) == left - {name}
      ensures Without(home, root) == Without(old(home), root) && (left != {name} ==> name != root)
    {
      LeafExists(left);
      name :| IsLeaf(left, name);
      LeafGoes(home, root, name);
      LeafTaken(home, root, name);
      DeleteEntry(head, name, expected);
    }

    /** Delete one selected path, leaf by leaf, if it is still what was backed up.  A crash comes right
        after `lifetime` deletions; 0 is none. */
    method DeletePath(head: string, root: string, expected: Files, lifetime: nat) returns (r: Outcome)
      requires Valid() && head in folders && folders[head].index == Some(expected)
      modifies this`home, this`log
      ensures Valid() && old(log) <= log && Subset(home, old(home)) && AllOfHead(log, |old(log)|, head)
      ensures r == Refused <==> root in old(home) && !Whole(old(home), root, expected)
      ensures r == Crashed <==> root in old(home) && Whole(old(home), root, expected)
                                && 1 <= lifetime <= |Entries(old(home), root)|
      ensures r == Refused ==> home == old(home) && log == old(log)
      ensures AllLogged(log, head, old(home), home)
      ensures r == Done ==> home == Without(old(home), root)
      ensures r == Crashed ==> Without(home, root) == Without(old(home), root)
      ensures r == Crashed ==> |Entries(home, root)| == |Entries(old(home), root)| - lifetime
      ensures r == Crashed ==> (root in home <==> Entries(home, root) != {})
      ensures r == Crashed ==> root in home ==> !Whole(home, root, expected)
    {
      if root !in home {
        NothingBelowMissing(home, root);
        return Done;
      }
      if Inventory(home, [root]) != Inventory(expected, [root]) {
        return Refused;
      }
      WholeEntries(home, root, expected);
      ghost var all := Entries(home, root);
      var left := Entries(home, root);
      var deleted := 0;
      assert root in left;
      while left != {}
        invariant Valid() && old(log) <= log && Subset(home, old(home)) && AllOfHead(log, |old(log)|, head)
        invariant left == Entries(home, root) && Without(home, root) == Without(old(home), root)
        invariant forall name :: name in left ==> name in expected && expected[name] == home[name]
        invariant AllLogged(log, head, old(home), home)
        invariant left != {} ==> root in left
        invariant deleted + |left| == |all| && (lifetime == 0 || deleted < lifetime)
        decreases |left|
      {
        ghost var before := home;
        ghost var logged := log;
        var name := DeleteLeaf(head, root, left, expected);
        LoggedMore(logged, log, head, old(home), before, name);
        left, deleted := left - {name}, deleted + 1;
        if deleted == lifetime {
          MissingIsNotWhole(home, root, expected, name);
          return Crashed;
        }
      }
      NothingLeft(home, root);
      r := Done;
    }

    method DeletePaths(head: string, selected: seq<string>, expected: Files) returns (r: Outcome)
      requires Valid() && head in folders && folders[head].index == Some(expected)
      modifies this`home, this`log
      ensures Valid() && old(log) <= log && Subset(home, old(home)) && (reliable ==> r != Crashed)
      ensures AllOfHead(log, |old(log)|, head)
      ensures r == Done ==> forall p :: p in selected ==> p !in home
      ensures reliable && Apart(selected) ==>
                (r == Done <==> forall p :: p in selected && p in old(home) ==> Whole(old(home), p, expected))
      ensures reliable && Apart(selected) ==> TornStay(old(home), home, selected, expected)
    {
      for i := 0 to |selected|
        invariant Valid() && old(log) <= log && Subset(home, old(home)) && AllOfHead(log, |old(log)|, head)
        invariant forall p :: p in selected[..i] ==> p !in home
        invariant Apart(selected) ==> forall p :: p in selected ==> p in selected[..i] || SameUnder(old(home), home, p)
        invariant reliable && Apart(selected) ==>
                    forall p :: p in selected[..i] && p in old(home) ==> Whole(old(home), p, expected)
      {
        assert selected[..i + 1] == selected[..i] + [selected[i]];
        var lifetime: nat := *;
        if reliable {
          lifetime := 0;
        }
        ghost var before := home;
        r := DeletePath(head, selected[i], expected, lifetime);
        if Apart(selected) {
          PathsApart(old(home), before, home, selected, i);
          if selected[i] !in selected[..i] {
            SameRoot(old(home), before, selected[i]);
          }
        }
        if r != Done {
          return;
        }
      }
      assert selected[..|selected|] == selected;
      r := Done;
    }

    /** When a call with working commands completes: on a new head the jobs are those expected; on a head
        with an export no unknown job is there, and, once its backup is saved, every selected path is
        whole or gone. */
    predicate Completes(head: string, roots: seq<string>, expectedJobs: nat, jobsFile: set<string>) reads this {
      if !Exported(head) then |jobs| == expectedJobs && jobsFile == jobs.Keys
      else
        && Subset(jobs, folders[head].exported.value)
        && (folders[head].index.Some? ==>
              forall p :: p in roots && p in home ==> Whole(home, p, folders[head].index.value))
    }

    /** Export, backup and the check that the backup is of what is there. */
    method Prepare(head: string, roots: seq<string>, expectedJobs: nat, jobsFile: set<string>)
      returns (r: Outcome, selected: seq<string>, expected: Files)
      requires Valid()
      modifies this`folders
      ensures Valid() && Grows(old(folders), folders) && OthersKept(old(folders), folders, head)
      ensures r == Done ==> Exported(head) && folders[head].index == Some(expected)
      ensures r == Done ==> Subset(jobs, folders[head].exported.value) && Subset(Inventory(home, selected), expected)
      ensures r == Done ==> forall p :: p in selected <==> p in roots && p in home
      ensures reliable ==> r != Crashed
      ensures reliable && old(Completes(head, roots, expectedJobs, jobsFile)) ==>
                r == Done && forall p :: p in selected ==> Whole(home, p, expected)
      ensures reliable && !old(Completes(head, roots, expectedJobs, jobsFile)) ==>
                && (Exported(head) <==> old(Exported(head))) && (old(Exported(head)) ==> folders == old(folders))
                && (r == Done ==> exists p :: p in selected && !Whole(home, p, expected))
    {
      selected, expected := [], map[];
      var listing := ListJobs();
      if listing.None? {
        return Refused, selected, expected;
      }
      r := Export(head, listing.value, expectedJobs, jobsFile);
      if r != Done {
        return;
      }
      selected := Present(roots);
      ghost var before := folders;
      r, expected := Backup(head, selected);
      if r != Done {
        return;
      }
      if before[head].index.None? {
        FreshIsWhole(home, selected);
      }
      if forall p :: p in selected ==> Whole(home, p, expected) {
        WholeIsSubset(home, selected, expected);
      }
      if !Subset(Inventory(home, selected), expected) {
        r := Refused;
      }
    }

    /** Stop the units, then remove the jobs, then delete the files, then retire. */
    method Carry(head: string, units: seq<string>, selected: seq<string>, expected: Files, stopped: Files,
                 unlinked: set<string>)
      returns (r: Outcome)
      requires Valid() && !retired && TreeLike(stopped) && Exported(head) && folders[head].index == Some(expected)
      requires Subset(jobs, folders[head].exported.value) && Subset(Inventory(home, selected), expected)
      requires forall p :: p in selected ==> p in home
      modifies this`home, this`jobs, this`folders, this`retired, this`running, this`log
      ensures Valid() && old(log) <= log && Grows(old(folders), folders) && Subset(jobs, old(jobs))
      ensures UnitsFirst(log, |old(log)|, |log|, head, units) && AllOfHead(log, |old(log)|, head)
      ensures running <= old(running) && (retired ==> forall u :: u in units ==> u !in running)
      ensures r == Done ==> retired && head in folders && folders[head].complete
      ensures retired ==> r != Refused && jobs == map[] && Retired(map[], map[]) in log
      ensures reliable ==> r != Crashed && (r == Done <==> retired) && (r != Done ==> folders == old(folders))
      ensures reliable && Apart(selected)
        ==> (r == Done <==> forall p :: p in selected ==> Whole(old(home), p, expected))
      ensures reliable && Apart(selected) ==> TornStay(old(home), home, selected, expected)
    {
      var ok := StopUnits(head, units, selected, stopped, unlinked);
      ghost var mid, down := home, log;
      var remaining := Present(selected);
      if reliable {
        LinksLeave(old(home), mid, selected, expected, unlinked);
      }
      RemainingSubset(home, selected, remaining, expected);
      if !ok || !Subset(Inventory(home, remaining), expected) {
        return Refused;
      }
      r := Clear(head, selected, remaining, expected);
      UnitsCameFirst(down, log, |old(log)|, head, units);
      if reliable && Apart(selected) {
        ThroughLinks(old(home), mid, home, selected, expected);
      }
    }

    /** Remove the jobs, delete the files, retire. */
    method Clear(head: string, selected: seq<string>, remaining: seq<string>, expected: Files) returns (r: Outcome)
      requires Valid() && !retired && Exported(head) && folders[head].index == Some(expected)
      requires Subset(jobs, folders[head].exported.value) && Subset(Inventory(home, remaining), expected)
      modifies this`home, this`jobs, this`folders, this`retired, this`log
      ensures Valid() && old(log) <= log && Grows(old(folders), folders) && Subset(jobs, old(jobs))
      ensures AllOfHead(log, |old(log)|, head)
      ensures r == Done ==> retired && head in folders && folders[head].complete
      ensures retired ==> r != Refused && jobs == map[] && Retired(map[], map[]) in log
      ensures reliable ==> r != Crashed && (r == Done <==> retired) && (r != Done ==> folders == old(folders))
      ensures reliable && Apart(selected) ==>
                (r == Done <==> forall p :: p in selected && p in old(home) ==> Whole(old(home), p, expected))
      ensures reliable && Apart(selected) ==> TornStay(old(home), home, selected, expected)
    {
      r := RemoveJobs(head, remaining);
      if r != Done {
        return;
      }
      r := DeletePaths(head, selected, expected);
      if r != Done {
        return;
      }
      r := Finish(head, selected);
    }

    /** The first pass of `remove`: everything that goes is covered, and goes only after every unit of the
        account was stopped and seen down in this pass, whatever stops it.  With working
        commands it completes exactly when `Completes` says; if not, a torn path stays as it is and no
        export or backup is added. */
    method FirstPass(head: string, units: seq<string>, roots: seq<string>, expectedJobs: nat, jobsFile: set<string>,
                     stopped: Files, unlinked: set<string>)
      returns (r: Outcome)
      requires Valid() && !retired && TreeLike(stopped)
      modifies this
      ensures Valid() && old(log) <= log && Grows(old(folders), folders) && late == old(late) && Subset(jobs, old(jobs))
      ensures UnitsFirst(log, |old(log)|, |log|, head, units) && AllOfHead(log, |old(log)|, head)
      ensures running <= old(running) && (retired ==> forall u :: u in units ==> u !in running)
      ensures r == Done ==> retired && head in folders && folders[head].complete
      ensures retired ==> r != Refused && jobs == map[] && Retired(map[], map[]) in log
      ensures reliable && Apart(roots) ==> (r == Done <==> old(Completes(head, roots, expectedJobs, jobsFile)))
      ensures reliable && Apart(roots) && r != Done ==>
                && !retired && r == Refused && SameExports(old(folders), folders)
                && !Completes(head, roots, expectedJobs, jobsFile)
      ensures reliable && Apart(roots) && r != Done ==>
                forall p :: p in roots && p in old(home) && Torn(old(folders), head, old(home), p) ==>
                  p in home && SameUnder(old(home), home, p)
    {
      var selected, expected;
      r, selected, expected := Prepare(head, roots, expectedJobs, jobsFile);
      if r != Done {
        return;
      }
      ApartOf(roots, selected);
      r := Carry(head, units, selected, expected, stopped, unlinked);
      if reliable && Apart(roots) && r == Refused {
        StillTorn(old(home), home, selected, expected);
      }
    }

    method Finish(head: string, selected: seq<string>) returns (r: Outcome)
      requires Valid() && !retired && head in folders && folders[head].index.Some?
      requires forall p :: p in selected ==> p !in home
      modifies this`retired, this`folders, this`log
      ensures Valid() && old(log) <= log && Grows(old(folders), folders) && AllOfHead(log, |old(log)|, head)
      ensures r == Done ==> retired && head in folders && folders[head].complete
      ensures retired ==> r != Refused && jobs == map[] && Retired(map[], map[]) in log
      ensures reliable && jobs == map[] ==> r == Done
    {
      var listing := ListJobs();
      if listing.None? || listing.value != map[] {
        return Refused;
      }
      ghost var before := folders;
      NothingSelected(home, selected);
      log := log + [Retired(Inventory(home, selected), jobs)];
      retired := true;
      assert log[|log| - 1] == Retired(map[], map[]);
      var crash := Crash();
      if crash {
        return Crashed;
      }
      folders := folders[head := folders[head].(complete := true)];
      CoveredGrows(before, folders, log);
      r := Done;
    }

    predicate Completed() reads this { exists h :: h in folders && folders[h].complete }

    /** A pass after retirement: jobs registered since are listed in the late folder of the head, over
        whatever it held, and then removed one by one; at most `takes` removals succeed. */
    method LatePass(head: string, takes: nat) returns (r: Outcome)
      requires Valid() && retired
      modifies this`jobs, this`late, this`log
      ensures Valid() && old(log) <= log && Subset(jobs, old(jobs)) && (r == Done ==> jobs == map[])
      ensures late == old(late) || late == old(late)[head := old(jobs)]
      ensures log != old(log) ==> late == old(late)[head := old(jobs)]
      ensures RemovedSince(log, |old(log)|, old(jobs), jobs)
      ensures reliable && Completed() && jobs != map[] ==> late == old(late)[head := old(jobs)]
      ensures reliable && Completed() ==> |log| == |old(log)| + |old(jobs)| - |jobs|
      ensures reliable && Completed() ==> |jobs| == if takes < |old(jobs)| then |old(jobs)| - takes else 0
    {
      var listing := ListJobs();
      if listing.None? || !Completed() {
        return Refused;
      }
      if listing.value == map[] {
        return Done;
      }
      late := late[head := listing.value];
      r := RemoveAllLate(takes);
    }

    method RemoveAllLate(takes: nat) returns (r: Outcome)
      requires Valid()
      modifies this`jobs, this`log
      ensures Valid() && old(log) <= log && Subset(jobs, old(jobs)) && (r == Done ==> jobs == map[])
      ensures RemovedSince(log, |old(log)|, old(jobs), jobs)
      ensures |log| == |old(log)| + |old(jobs)| - |jobs|
      ensures |jobs| == if takes < |old(jobs)| then |old(jobs)| - takes else 0
    {
      var removed := 0;
      while jobs != map[]
        invariant Valid() && old(log) <= log && Subset(jobs, old(jobs))
        invariant removed <= takes && |log| == |old(log)| + removed && |jobs| == |old(jobs)| - removed
        invariant RemovedSince(log, |old(log)|, old(jobs), jobs)
        decreases |jobs|
      {
        if removed == takes {
          return Refused;
        }
        var id :| id in jobs;
        ghost var before, left := log, jobs;
        RemoveLate(id, old(jobs));
        RemovedMore(before, log, |old(log)|, old(jobs), left, jobs);
        removed := removed + 1;
      }
      r := Done;
    }

    method RemoveLate(id: string, ghost listing: Jobs)
      requires Valid() && id in jobs && Subset(jobs, listing)
      modifies this`jobs, this`log
      ensures Valid() && log == old(log) + [LateJobRemoved(id, old(jobs)[id])] && jobs == old(jobs) - {id}
      ensures |jobs| == |old(jobs)| - 1 && Subset(jobs, listing) && Removes(log[|log| - 1], listing, jobs)
    {
      log := log + [LateJobRemoved(id, jobs[id])];
      jobs := jobs - {id};
      assert old(jobs) == jobs[id := old(jobs)[id]];
    }
  }

  /** Every entry that is gone is in the log, with its fingerprint. */
  ghost predicate AllLogged(log: seq<Event>, head: string, before: Files, after: Files) {
    forall name :: name in before && name !in after ==> FileDeleted(head, name, before[name]) in log
  }

  // ---------------------------------------------------------------- lemmas of the loops

  lemma LoggedMore(log: seq<Event>, more: seq<Event>, head: string, start: Files, before: Files, name: string)
    requires AllLogged(log, head, start, before) && Subset(before, start) && name in before
    requires more == log + [FileDeleted(head, name, before[name])]
    ensures AllLogged(more, head, start, before - {name})
  {
    assert more[|log|] == FileDeleted(head, name, start[name]);
    forall other | other in start && other !in before - {name} ensures FileDeleted(head, other, start[other]) in more {
      if other != name {
        assert FileDeleted(head, other, start[other]) in log;
      }
    }
  }

  /** The exported heads, with their backups, are the same. */
  ghost predicate SameExports(a: map<string, Folder>, b: map<string, Folder>) {
    && (forall h :: h in a ==> h in b && (a[h].exported.Some? ==> b[h] == a[h]))
    && (forall h :: h in b && b[h].exported.Some? ==> h in a && a[h] == b[h])
  }

  /** The path is not what the head's backup has, or the head has none. */
  predicate Torn(folders: map<string, Folder>, head: string, home: Files, p: string) {
    && (head in folders && folders[head].exported.Some? ==>
          folders[head].index.Some? && !Whole(home, p, folders[head].index.value))
  }

  /** What was just backed up is whole. */
  lemma FreshIsWhole(home: Files, selected: seq<string>)
    ensures forall p :: p in selected ==> Whole(home, p, Inventory(home, selected))
  {
    forall p | p in selected ensures Whole(home, p, Inventory(home, selected)) {
      var k :| 0 <= k < |selected| && selected[k] == p;
      forall name ensures name in Inventory(home, [p]) <==> name in Inventory(Inventory(home, selected), [p]) {
        EntryIn(home, p, name);
        EntryIn(Inventory(home, selected), p, name);
        assert Under(selected[k], name) ==> UnderAny(selected, name);
      }
    }
  }

  // ---------------------------------------------------------------- links that stopping removes

  /** Selected paths that are one entry, backed up as it is. */
  function Links(home: Files, selected: seq<string>, expected: Files, unlinked: set<string>): set<string> {
    set p | p in selected && p in unlinked && p in home && Entries(home, p) == {p} && Whole(home, p, expected)
  }

  lemma LinksGo(home: Files, selected: seq<string>, expected: Files, unlinked: set<string>)
    requires TreeLike(home)
    ensures TreeLike(home - Links(home, selected, expected, unlinked))
  {
    var links := Links(home, selected, expected, unlinked);
    forall name, i | name in home - links && 0 <= i < |name| && name[i] == '/' ensures name[..i] in home - links {
      if name[..i] in links {
        BelowIsEntry(home, name[..i], name, i);
      }
    }
  }

  lemma BelowIsEntry(home: Files, p: string, name: string, i: nat)
    requires name in home && i < |name| && name[i] == '/' && name[..i] == p
    ensures name in Entries(home, p) && name != p
  {
    BelowBoth(p, p, name, i);
  }

  /** A selected path is a removed link, or is as it was. */
  lemma LinkOrSame(home: Files, selected: seq<string>, expected: Files, unlinked: set<string>, q: string)
    requires Apart(selected) && q in selected
    ensures var links := Links(home, selected, expected, unlinked);
            q in links || SameUnder(home, home - links, q)
  {
    var links := Links(home, selected, expected, unlinked);
    if q !in links {
      forall name ensures name in Inventory(home, [q]) <==> name in Inventory(home - links, [q]) {
        EntryIn(home, q, name);
        EntryIn(home - links, q, name);
      }
    }
  }

  /** A path that is there and not whole is left as it is. */
  ghost predicate TornStay(before: Files, after: Files, selected: seq<string>, expected: Files) {
    forall p :: p in selected && p in before && !Whole(before, p, expected) ==> SameUnder(before, after, p)
  }

  /** Removing links first makes no difference to what is whole and what is torn. */
  lemma ThroughLinks(before: Files, mid: Files, after: Files, selected: seq<string>, expected: Files)
    requires forall p :: p in selected ==> p in before
    requires forall p :: p in selected && p !in mid ==> Whole(before, p, expected)
    requires forall p :: p in selected && p in mid ==> SameUnder(before, mid, p)
    requires TornStay(mid, after, selected, expected)
    ensures (forall p :: p in selected && p in mid ==> Whole(mid, p, expected))
       <==> (forall p :: p in selected ==> Whole(before, p, expected))
    ensures TornStay(before, after, selected, expected)
  {
    forall p | p in selected ensures Whole(before, p, expected) <==> p !in mid || Whole(mid, p, expected) {
    }
    forall p | p in selected && !Whole(before, p, expected) ensures SameUnder(before, after, p) {
      assert p in mid && !Whole(mid, p, expected);
    }
  }

  lemma LinksLeave(before: Files, after: Files, selected: seq<string>, expected: Files, unlinked: set<string>)
    requires after == before - Links(before, selected, expected, unlinked)
    requires (forall p :: p in selected ==> p in before) && Subset(Inventory(before, selected), expected)
    ensures Subset(Inventory(after, selected), expected)
    ensures Apart(selected) ==> forall p :: p in selected && p !in after ==> Whole(before, p, expected)
    ensures Apart(selected) ==> forall p :: p in selected && p in after ==> SameUnder(before, after, p)
  {
    forall name | name in Inventory(after, selected) ensures name in Inventory(before, selected) {
    }
    if Apart(selected) {
      forall p | p in selected && p in after ensures SameUnder(before, after, p) {
        LinkOrSame(before, selected, expected, unlinked, p);
      }
    }
  }

  lemma ApartOf(roots: seq<string>, selected: seq<string>)
    requires forall p :: p in selected ==> p in roots
    ensures Apart(roots) ==> Apart(selected)
  {
    if Apart(roots) {
      forall i, j | 0 <= i < |selected| && 0 <= j < |selected| && Under(selected[i], selected[j])
        ensures selected[i] == selected[j]
      {
        assert selected[i] in roots && selected[j] in roots;
      }
    }
  }

  lemma RemainingSubset(home: Files, selected: seq<string>, remaining: seq<string>, expected: Files)
    requires forall p :: p in remaining ==> p in selected
    ensures Subset(Inventory(home, selected), expected) ==> Subset(Inventory(home, remaining), expected)
  {
    forall name | name in Inventory(home, remaining) ensures name in Inventory(home, selected) {
      var k :| 0 <= k < |remaining| && Under(remaining[k], name);
      assert remaining[k] in selected;
    }
  }

  /** A path that was not whole, and was left alone, is there and not whole. */
  lemma StillTorn(before: Files, after: Files, selected: seq<string>, expected: Files)
    requires forall p :: p in selected ==> p in before
    requires TornStay(before, after, selected, expected)
    ensures forall p :: p in selected && !Whole(before, p, expected) ==> p in after && !Whole(after, p, expected)
  {
    forall p | p in selected && !Whole(before, p, expected) ensures p in after && !Whole(after, p, expected) {
      SameRoot(before, after, p);
    }
  }

  lemma LeafTaken(home: Files, root: string, name: string)
    requires IsLeaf(Entries(home, root), name)
    ensures Entries(home - {name}, root) == Entries(home, root) - {name}
    ensures Without(home - {name}, root) == Without(home, root)
    ensures root in Entries(home, root) && Entries(home, root) != {name} ==> name != root
  {
    if name == root {
      assert forall other :: other in Entries(home, root) ==> other == name;
      assert Entries(home, root) == {name};
    }
  }

  lemma NothingLeft(home: Files, root: string)
    requires Entries(home, root) == {}
    ensures home == Without(home, root) && root !in home
  {
    assert root in home ==> root in Entries(home, root);
    assert forall name :: name in home && Under(root, name) ==> name in Entries(home, root);
  }

  lemma NothingSelected(home: Files, selected: seq<string>)
    requires TreeLike(home) && forall p :: p in selected ==> p !in home
    ensures Inventory(home, selected) == map[]
  {
    forall name | name in home ensures !UnderAny(selected, name) {
      forall k | 0 <= k < |selected| ensures !Under(selected[k], name) {
        NothingBelowMissing(home, selected[k]);
        assert selected[k] in selected;
      }
    }
  }

  /** Deleting one of several paths that lie apart leaves the others as they were. */
  lemma PathsApart(start: Files, before: Files, after: Files, selected: seq<string>, i: nat)
    requires Apart(selected) && i < |selected| && Without(after, selected[i]) == Without(before, selected[i])
    requires forall p :: p in selected ==> p in selected[..i] || SameUnder(start, before, p)
    ensures forall p :: p in selected ==> p in selected[..i + 1] || SameUnder(start, after, p)
  {
    forall p | p in selected && p !in selected[..i + 1] ensures SameUnder(start, after, p) {
      assert selected[..i + 1] == selected[..i] + [selected[i]];
      var j :| 0 <= j < |selected| && selected[j] == p;
      ApartStays(before, after, p, selected[i]);
    }
  }
}
