/** Whole runs of the removal: deletion safety, what a crash in the middle of a directory does to every
    retry, and which late jobs are still on record. */
module RemovalRuns {
  import opened Text
  import opened Removal

  // ---------------------------------------------------------------- deletion safety

  /** One call, with the home and the jobs that it finds and the home that stopping units leaves. */
  datatype Call = Call(head: string, units: seq<string>, roots: seq<string>, expectedJobs: nat, jobsFile: set<string>,
                       home: Files, jobs: Jobs, running: set<string>, stopped: Files, unlinked: set<string>, takes: nat)

  /** `marks[i]` is where call `i` starts in the log: whatever goes in a call goes after its units were seen down. */
  ghost predicate InOrder(log: seq<Event>, marks: seq<nat>, calls: seq<Call>, i: nat)
    requires i < |calls| && i + 1 < |marks|
  {
    marks[i] <= marks[i + 1] <= |log| && UnitsFirst(log, marks[i], marks[i + 1], calls[i].head, calls[i].units)
  }

  ghost predicate UnitsFirstEver(log: seq<Event>, marks: seq<nat>, calls: seq<Call>, done: nat) {
    && done <= |calls| && |marks| == done + 1 && marks[done] == |log|
    && forall i :: 0 <= i < done ==> InOrder(log, marks, calls, i)
  }

  lemma UnitsFirstMore(before: seq<Event>, log: seq<Event>, marks: seq<nat>, calls: seq<Call>, done: nat)
    requires done < |calls| && UnitsFirstEver(before, marks, calls, done) && before <= log
    requires UnitsFirst(log, |before|, |log|, calls[done].head, calls[done].units)
    ensures UnitsFirstEver(log, marks + [|log|], calls, done + 1)
  {
    forall i | 0 <= i < done ensures InOrder(log, marks + [|log|], calls, i) {
      assert InOrder(before, marks, calls, i);
      UnitsFirstLonger(before, log, marks[i], marks[i + 1], calls[i].head, calls[i].units);
    }
  }

  lemma UnitsFirstLonger(before: seq<Event>, log: seq<Event>, from: nat, to: nat, head: string, units: seq<string>)
    requires before <= log && to <= |before| && UnitsFirst(before, from, to, head, units)
    ensures UnitsFirst(log, from, to, head, units)
  {
    forall k | from <= k < to && Goes(log[k]) ensures UnitsWereDown(log, from, k, head, units) {
      assert before[k] == log[k];
      DownStays(before, log, from, k, head, units);
    }
  }

  lemma DownStays(before: seq<Event>, log: seq<Event>, from: nat, k: nat, head: string, units: seq<string>)
    requires before <= log && k <= |before| && UnitsWereDown(before, from, k, head, units)
    ensures UnitsWereDown(log, from, k, head, units)
  {
    var j :| from <= j < k && before[j].UnitsStopped? && before[j].head == head;
    assert log[j] == before[j];
    forall u | u in units ensures WentDown(log, from, k, head, u) {
      var i :| from <= i < k && before[i] == UnitDown(head, u);
      assert log[i] == before[i];
    }
  }

  /** Deletion safety over every run: however many calls, wherever each stops, and whatever changes the
      home, the jobs and the units in between. */
  method Serve(account: Account, calls: seq<Call>) returns (ghost marks: seq<nat>)
    requires account.Valid() && forall k :: 0 <= k < |calls| ==> TreeLike(calls[k].home) && TreeLike(calls[k].stopped)
    modifies account
    ensures account.Valid() && Grows(old(account.folders), account.folders) && old(account.log) <= account.log
    ensures UnitsFirstEver(account.log, marks, calls, |calls|) && marks[0] == |old(account.log)|
  {
    marks := [|account.log|];
    for i := 0 to |calls|
      invariant account.Valid() && Grows(old(account.folders), account.folders) && old(account.log) <= account.log
      invariant UnitsFirstEver(account.log, marks, calls, i) && marks[0] == |old(account.log)|
    {
      var c := calls[i];
      ghost var before := account.log;
      account.home, account.jobs, account.running := c.home, c.jobs, c.running;
      if account.retired {
        ghost var listing := account.jobs;
        var r := account.LatePass(c.head, c.takes);
        OnlyLate(account.log, |before|, listing, account.jobs);
      } else {
        var r := account.FirstPass(c.head, c.units, c.roots, c.expectedJobs, c.jobsFile, c.stopped, c.unlinked);
      }
      UnitsFirstMore(before, account.log, marks, calls, i);
      marks := marks + [|account.log|];
    }
  }

  lemma OnlyLate(log: seq<Event>, from: nat, listing: Jobs, left: Jobs)
    requires RemovedSince(log, from, listing, left)
    ensures forall k :: from <= k < |log| ==> !Goes(log[k])
  {
    forall k | from <= k < |log| ensures !Goes(log[k]) {
      assert Removes(log[k], listing, left);
    }
  }

  // ---------------------------------------------------------------- retries after a crash

  ghost predicate CompletesNow(account: Account, c: Call) reads account {
    account.Completes(c.head, c.roots, c.expectedJobs, c.jobsFile)
  }

  /** With working commands and a home that nobody else touches, repeating a call retires the account if and
      only if the first call completes: a refusal is for good. */
  method Retry(account: Account, c: Call, times: nat)
    requires account.Valid() && account.reliable && !account.retired && Apart(c.roots) && TreeLike(c.stopped)
    modifies account
    ensures account.Valid()
    ensures account.retired <==> times > 0 && old(CompletesNow(account, c))
  {
    for i := 0 to times
      invariant account.Valid()
      invariant account.retired <==> i > 0 && old(CompletesNow(account, c))
      invariant !account.retired ==> (CompletesNow(account, c) <==> old(CompletesNow(account, c)))
    {
      if account.retired {
        var r := account.LatePass(c.head, c.takes);
      } else {
        var r := account.FirstPass(c.head, c.units, c.roots, c.expectedJobs, c.jobsFile, c.stopped, c.unlinked);
      }
    }
  }

  /** No job is left, and at `p` lies something that is in no head's backup as it is. */
  ghost predicate StuckAt(folders: map<string, Folder>, jobs: Jobs, home: Files, p: string) {
    && jobs == map[] && p in home
    && forall h :: h in folders && folders[h].exported.Some? ==>
         folders[h].index.Some? && !Whole(home, p, folders[h].index.value)
  }

  /** A call that selects `p` and, on a new head, expects jobs. */
  ghost predicate CallsFor(p: string, c: Call) {
    p in c.roots && Apart(c.roots) && c.expectedJobs > 0 && TreeLike(c.stopped)
  }

  lemma StuckOn(a: map<string, Folder>, b: map<string, Folder>, before: Files, after: Files, p: string)
    requires StuckAt(a, map[], before, p) && SameExports(a, b) && p in after && SameUnder(before, after, p)
    ensures StuckAt(b, map[], after, p)
  {
  }

  /** Then no sequence of calls under any heads retires the account: a saved head finds the path changed, and
      a new head finds none of the jobs that it expects. */
  method StuckUnderAnyHead(account: Account, p: string, calls: seq<Call>)
    requires account.Valid() && account.reliable && !account.retired
    requires StuckAt(account.folders, account.jobs, account.home, p)
    requires forall k :: 0 <= k < |calls| ==> CallsFor(p, calls[k])
    modifies account
    ensures account.Valid() && !account.retired && StuckAt(account.folders, account.jobs, account.home, p)
    ensures old(account.log) <= account.log
  {
    for i := 0 to |calls|
      invariant account.Valid() && !account.retired && StuckAt(account.folders, account.jobs, account.home, p)
      invariant old(account.log) <= account.log
    {
      var c := calls[i];
      ghost var folders, home := account.folders, account.home;
      assert !CompletesNow(account, c);
      var r := account.FirstPass(c.head, c.units, c.roots, c.expectedJobs, c.jobsFile, c.stopped, c.unlinked);
      assert Torn(folders, c.head, home, p);
      assert account.jobs == map[];
      StuckOn(folders, account.folders, home, account.home, p);
    }
  }

  /** The saved backups agree about a path. */
  ghost predicate Agree(folders: map<string, Folder>, expected: Files, p: string) {
    forall h :: h in folders && folders[h].exported.Some? ==>
      folders[h].index.Some? && SameUnder(folders[h].index.value, expected, p)
  }

  /** A crash inside a directory, after the jobs are gone: no calls under any heads retire the account. */
  method CrashThenRetry(account: Account, head: string, root: string, lifetime: nat, calls: seq<Call>)
    returns (r: Outcome, ghost left: Files)
    requires account.Valid() && account.reliable && !account.retired && account.jobs == map[]
    requires account.Exported(head) && account.folders[head].index.Some?
    requires Agree(account.folders, account.folders[head].index.value, root)
    requires forall k :: 0 <= k < |calls| ==> CallsFor(root, calls[k])
    modifies account
    ensures r == Crashed <==> root in old(account.home)
                              && Whole(old(account.home), root, old(account.folders)[head].index.value)
                              && 1 <= lifetime <= |Entries(old(account.home), root)|
    ensures r == Crashed ==> |Entries(left, root)| == |Entries(old(account.home), root)| - lifetime
    ensures r == Crashed && lifetime < |Entries(old(account.home), root)| ==> !account.retired && root in account.home
  {
    r := account.DeletePath(head, root, account.folders[head].index.value, lifetime);
    left := account.home;
    if r == Crashed && root in account.home {
      assert StuckAt(account.folders, account.jobs, account.home, root);
      StuckUnderAnyHead(account, root, calls);
    }
  }

  const SMALL: Files := map["d" := "directory", "d/x" := "f"]

  lemma SmallHome()
    ensures TreeLike(SMALL) && Entries(SMALL, "d") == {"d", "d/x"} && Whole(SMALL, "d", SMALL)
  {
    assert "d/x"[..1] == "d" && "d/x"[0] != '/' && "d/x"[2] != '/' && "d"[0] != '/';
    assert Under("d", "d/x");
  }

  lemma SmallCrash(home: Files)
    requires Without(home, "d") == Without(SMALL, "d") && |Entries(home, "d")| == 1 && "d" in home
    requires Subset(home, SMALL)
    ensures home.Keys == {"d"} && Entries(home, "d") == {"d"}
  {
    SmallHome();
    var entries := Entries(home, "d");
    assert "d" in entries;
    assert |entries - {"d"}| == 0;
    forall name | name in home ensures name == "d" {
      assert name in Without(home, "d") || name in entries;
      assert name == "d" || name in entries - {"d"} || name in Without(SMALL, "d");
    }
  }

  /** The same at one home: a directory with one file, a crash after the file, and any calls after that. */
  method StuckForever(calls: seq<Call>) returns (account: Account, r: Outcome, left: set<string>)
    requires forall k :: 0 <= k < |calls| ==>
               calls[k].roots == ["d"] && calls[k].expectedJobs > 0 && TreeLike(calls[k].stopped)
    ensures r == Crashed && left == {"d"} && FileDeleted("h", "d/x", "f") in account.log
    ensures !account.retired && "d" in account.home
  {
    SmallHome();
    var backups := map["h" := Folder(Some(map[]), Some(SMALL), Some(SMALL), false)];
    account := new Account(SMALL, map[], backups, false, {}, true);
    r := account.DeletePath("h", "d", SMALL, 1);
    left := account.home.Keys;
    SmallCrash(account.home);
    ghost var log := account.log;
    assert FileDeleted("h", "d/x", "f") in log;
    StuckUnderAnyHead(account, "d", calls);
  }

  // ---------------------------------------------------------------- late jobs

  /** Some late folder lists the job. */
  ghost predicate OnRecord(late: map<string, Jobs>, id: string, job: string) {
    exists h :: h in late && id in late[h] && late[h][id] == job
  }

  ghost predicate AllOnRecord(late: map<string, Jobs>, log: seq<Event>) {
    forall k :: 0 <= k < |log| && log[k].LateJobRemoved? ==> OnRecord(late, log[k].id, log[k].job)
  }

  /** Every late-removed job is on record after a pass if and only if each one removed before is listed
      under another head or is listed again now: the pass writes over its own head's listing. */
  lemma OnRecordExactly(late: map<string, Jobs>, log: seq<Event>, head: string, listing: Jobs, left: Jobs,
                        after: seq<Event>)
    requires log <= after && RemovedSince(after, |log|, listing, left)
    ensures AllOnRecord(late[head := listing], after)
       <==> forall k :: 0 <= k < |log| && log[k].LateJobRemoved? ==>
              OnRecord(late - {head}, log[k].id, log[k].job)
                || (log[k].id in listing && listing[log[k].id] == log[k].job)
  {
    var next := late[head := listing];
    forall id, job
      ensures OnRecord(next, id, job) <==> OnRecord(late - {head}, id, job) || (id in listing && listing[id] == job)
    {
      RecordAfter(late, head, listing, id, job);
    }
    forall k | 0 <= k < |log| ensures after[k] == log[k] {
    }
  }

  lemma RecordAfter(late: map<string, Jobs>, head: string, listing: Jobs, id: string, job: string)
    ensures OnRecord(late[head := listing], id, job)
       <==> OnRecord(late - {head}, id, job) || (id in listing && listing[id] == job)
  {
    var next := late[head := listing];
    if OnRecord(next, id, job) {
      var h :| h in next && id in next[h] && next[h][id] == job;
      assert h != head ==> h in late - {head} && (late - {head})[h] == next[h];
    }
    if OnRecord(late - {head}, id, job) {
      var h :| h in late - {head} && id in (late - {head})[h] && (late - {head})[h][id] == job;
      assert next[h] == late[h];
    }
    if id in listing && listing[id] == job {
      assert head in next && next[head] == listing;
    }
  }

  /** With a new head for every pass, all late-removed jobs stay on record over any number of passes that
      stop anywhere. */
  method ServeLate(account: Account, calls: seq<Call>)
    requires account.Valid() && account.retired && AllOnRecord(account.late, account.log)
    requires forall i, j :: 0 <= i < j < |calls| ==> calls[i].head != calls[j].head
    requires forall i :: 0 <= i < |calls| ==> calls[i].head !in account.late
    modifies account
    ensures AllOnRecord(account.late, account.log)
  {
    for i := 0 to |calls|
      invariant account.Valid() && account.retired && AllOnRecord(account.late, account.log)
      invariant forall j :: i <= j < |calls| ==> calls[j].head !in account.late
    {
      var c := calls[i];
      account.jobs := c.jobs;
      ghost var late, log := account.late, account.log;
      var r := account.LatePass(c.head, c.takes);
      if account.late == late[c.head := c.jobs] {
        OnRecordExactly(late, log, c.head, c.jobs, account.jobs, account.log);
        assert late - {c.head} == late;
      }
    }
  }

  /** A second pass under the same head writes over the listing of an interrupted one: of two jobs, the
      first one removed is on no record. */
  method RecordIsLost() returns (account: Account)
    ensures !AllOnRecord(account.late, account.log)
  {
    var backups := map["p" := Folder(Some(map[]), Some(map[]), Some(map[]), true)];
    account := new Account(map[], map["a" := "mail", "b" := "news"], backups, true, {}, true);
    assert "p" in account.folders && account.Completed();
    ghost var listing := account.jobs;
    var first := account.LatePass("h", 1);
    ghost var middle, log := account.jobs, account.log;
    assert |log| == 1 && Removes(log[0], listing, middle);
    assert "p" in account.folders && account.Completed();
    var second := account.LatePass("h", 1);
    assert account.log[0] == log[0];
    assert account.late == map["h" := listing]["h" := middle] == map["h" := middle];
  }
}
