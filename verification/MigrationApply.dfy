/** `apply_plan`: the requests in order, each of which may fail before or after it took effect; and
    what a whole migration guarantees wherever it stops. */
module MigrationApply {
  import opened DriveNames
  import opened Text
  import opened MigrationModel
  import opened MigrationSteps
  import opened MigrationSafety
  import opened MigrationPlan
  import opened MigrationBuild
  import MigrationTheorems
  import MigrationFixpoint

  // ---------------------------------------------------------------- prefixes of the requests

  lemma {:induction false} DiscardPrefix(trashes: seq<TrashOrder>, depth: nat, i: nat)
    requires i <= |trashes|
    ensures DiscardOps(trashes[..i], depth) <= DiscardOps(trashes, depth)
    decreases |trashes| - i
  {
    if i == |trashes| {
      assert trashes[..i] == trashes;
    } else {
      assert Front(trashes[..i + 1]) == trashes[..i];
      DiscardPrefix(trashes, depth, i + 1);
    }
  }

  lemma {:induction false} MovePrefix(moves: seq<Move>, i: nat)
    requires i <= |moves| && ThreeDeep(moves)
    ensures AllMoveOps(moves[..i]) <= AllMoveOps(moves)
    decreases |moves| - i
  {
    if i == |moves| {
      assert moves[..i] == moves;
    } else {
      assert Front(moves[..i + 1]) == moves[..i];
      MovePrefix(moves, i + 1);
    }
  }

  ghost function LongId(d: Drive): (r: Id)
    ensures |r| > 4 && forall i :: 0 <= i < |d| ==> |d[i].id| < |r|
  {
    if d == [] then "fresh"
    else
      var r := LongId(Front(d));
      if |r| <= |Last(d).id| then Last(d).id + "x" else r
  }

  lemma RunsMore(d: Drive, ops: seq<Op>, mid: Drive, op: Op, e: Drive)
    requires Runs(d, ops, mid) && Step(mid, op, e)
    ensures Runs(d, ops + [op], e)
  {
    assert Front(ops + [op]) == ops;
  }

  /** Requests sent after `before`, when `done` and then some of `next` went out of `all`. */
  lemma PrefixOn<T>(before: seq<T>, done: seq<T>, next: seq<T>, all: seq<T>, log: seq<T>)
    requires log <= before + done + next && done + next <= all
    ensures log <= before + all
  {
    assert before + done + next == before + (done + next);
    assert before + all == before + (done + next) + all[|done + next|..];
  }

  lemma FourParts<T>(log: seq<T>, a: seq<T>, b: seq<T>, c: seq<T>, d: seq<T>)
    ensures log + (a + b + c + d) == log + a + b + c + d
    ensures log + a <= log + a + b + c + d && log + a + b <= log + a + b + c + d
  {
  }

  lemma ThreeMore<T>(log: seq<T>, x: T, y: T, z: T)
    ensures log + [x, y, z] == log + [x] + [y] + [z]
    ensures log + [x] <= log + [x] + [y] + [z] && log + [x] + [y] <= log + [x] + [y] + [z]
  {
  }

  lemma AppendThird<T>(a: seq<T>, b: seq<T>, c: seq<T>)
    ensures (a + b) + c == a + (b + c)
  {
  }

  // ---------------------------------------------------------------- the account

  class Account {
    ghost var items: Drive
    /** The requests that took effect so far. */
    ghost var log: seq<Op>
    ghost const start: Drive

    constructor (d: Drive)
      ensures items == d && start == d && log == [] && Valid()
    {
      items, start, log := d, d, [];
    }

    ghost predicate Valid() reads this { Runs(start, log, items) }

    // Each request takes effect and is logged, or fails and changes nothing; it may also take effect
    // and still report a failure.

    /** The service acts on a request. */
    ghost method Act(op: Op, next: Drive)
      requires Valid() && Step(items, op, next)
      modifies this
      ensures Valid() && log == old(log) + [op] && items == next
    {
      RunsMore(start, log, items, op, next);
      items, log := next, log + [op];
    }

    method TrashFile(id: Id) returns (ok: bool)
      requires Valid()
      modifies this
      ensures Valid() && (log == old(log) ==> items == old(items))
      ensures log <= old(log) + [Discard(id)] && (ok ==> log == old(log) + [Discard(id)])
    {
      ok := *;
      var late: bool := *;
      if ok || late {
        Act(Discard(id), Trashed(items, id));
      }
    }

    method EnsureFolder(parts: seq<string>) returns (ok: bool)
      requires Valid() && parts != [] && Locate(items, Front(parts)).Some?
      modifies this
      ensures Valid() && (log == old(log) ==> items == old(items)) && (ok ==> Locate(items, parts).Some?)
      ensures log <= old(log) + [Ensure(parts)] && (ok ==> log == old(log) + [Ensure(parts)])
    {
      ok := *;
      var late: bool := *;
      if ok || late {
        ghost var parent, name := Locate(items, Front(parts)).value, Last(parts);
        ghost var long := LongId(items);
        assert Fresh(items, long);
        ghost var id :| Fresh(items, id);
        ghost var found := FindFolder(items, name, parent).Some?;
        ghost var next := if found then items else items + [NewFolder(id, name, parent)];
        assert EnsuredIn(items, name, parent, next);
        EnsuredLocates(items, parts, next);
        Act(Ensure(parts), next);
      }
    }

    method MoveFile(id: Id, parts: seq<string>) returns (ok: bool)
      requires Valid() && Locate(items, parts).Some?
      modifies this
      ensures Valid() && (log == old(log) ==> items == old(items))
      ensures log <= old(log) + [MoveTo(id, parts)] && (ok ==> log == old(log) + [MoveTo(id, parts)])
    {
      ok := *;
      var late: bool := *;
      if ok || late {
        Act(MoveTo(id, parts), WithParent(items, id, Locate(items, parts).value));
      }
    }

    method RenameFile(id: Id, name: string) returns (ok: bool)
      requires Valid()
      modifies this
      ensures Valid() && (log == old(log) ==> items == old(items))
      ensures log <= old(log) + [Rename(id, name)] && (ok ==> log == old(log) + [Rename(id, name)])
    {
      ok := *;
      var late: bool := *;
      if ok || late {
        Act(Rename(id, name), WithName(items, id, name));
      }
    }

    method EnsureFolderPath(parts: seq<string>) returns (ok: bool)
      requires Valid() && |parts| == 3
      modifies this
      ensures Valid()
      ensures log <= old(log) + [Ensure(parts[..1]), Ensure(parts[..2]), Ensure(parts)]
      ensures ok
        ==> Locate(items, parts).Some? && log == old(log) + [Ensure(parts[..1]), Ensure(parts[..2]), Ensure(parts)]
    {
      assert Front(parts[..1]) == [] && Front(parts[..2]) == parts[..1] && Front(parts) == parts[..2];
      ThreeMore(log, Ensure(parts[..1]), Ensure(parts[..2]), Ensure(parts));
      ok := EnsureFolder(parts[..1]);
      if !ok { return; }
      ok := EnsureFolder(parts[..2]);
      if !ok { return; }
      ok := EnsureFolder(parts);
    }

    method MoveOne(m: Move) returns (ok: bool)
      requires Valid() && |m.destination| == 3
      modifies this
      ensures Valid() && log <= old(log) + MoveOps(m) && (ok ==> log == old(log) + MoveOps(m))
    {
      ok := EnsureFolderPath(m.destination);
      if !ok { return; }
      ok := MoveFile(m.entry.id, m.destination);
      if !ok { return; }
      if m.newName.Some? {
        ok := RenameFile(m.entry.id, m.newName.value);
        if !ok { return; }
      }
      ok := *; // the owner-only verification
    }

    method TrashAll(trashes: seq<TrashOrder>, depth: nat) returns (ok: bool)
      requires Valid()
      modifies this
      ensures Valid() && log <= old(log) + DiscardOps(trashes, depth)
      ensures ok ==> log == old(log) + DiscardOps(trashes, depth)
    {
      ok := true;
      for i := 0 to |trashes|
        invariant Valid() && log == old(log) + DiscardOps(trashes[..i], depth)
      {
        assert Front(trashes[..i + 1]) == trashes[..i];
        DiscardPrefix(trashes, depth, i + 1);
        if trashes[i].depth == depth {
          ok := TrashFile(trashes[i].entry.id);
          if !ok { return; }
        }
      }
      assert trashes[..|trashes|] == trashes;
      ok := true;
    }

    method MoveAll(moves: seq<Move>) returns (ok: bool)
      requires Valid() && ThreeDeep(moves)
      modifies this
      ensures Valid() && log <= old(log) + AllMoveOps(moves)
      ensures ok ==> log == old(log) + AllMoveOps(moves)
    {
      ok := true;
      for i := 0 to |moves|
        invariant Valid() && log == old(log) + AllMoveOps(moves[..i])
      {
        assert Front(moves[..i + 1]) == moves[..i];
        MovePrefix(moves, i + 1);
        ok := MoveOne(moves[i]);
        PrefixOn(old(log), AllMoveOps(moves[..i]), MoveOps(moves[i]), AllMoveOps(moves), log);
        AppendThird(old(log), AllMoveOps(moves[..i]), MoveOps(moves[i]));
        if !ok { return; }
      }
      assert moves[..|moves|] == moves;
      ok := true;
    }

    /** Wherever it stops, a prefix of the plan's requests took effect; all of them if it succeeds. */
    method ApplyPlan(plan: Plan) returns (ok: bool)
      requires Valid() && ThreeDeep(plan.moves)
      modifies this
      ensures Valid() && log <= old(log) + Ops(plan)
      ensures ok ==> log == old(log) + Ops(plan)
    {
      ghost var a, b := DiscardOps(plan.trashes, 0), AllMoveOps(plan.moves);
      ghost var c, d := DiscardOps(plan.trashes, 2), DiscardOps(plan.trashes, 1);
      FourParts(old(log), a, b, c, d);
      ok := TrashAll(plan.trashes, 0);
      if !ok { return; }
      ok := MoveAll(plan.moves);
      if !ok { return; }
      ok := TrashAll(plan.trashes, 2);
      if !ok { return; }
      ok := TrashAll(plan.trashes, 1);
    }
  }

  // ---------------------------------------------------------------- a whole migration

  /** Every winner survives, only older copies and emptied folders are gone, all else is as it was. */
  ghost predicate Conserved(d0: Drive, d: Drive) {
    && |d0| <= |d| && TrashClosed(d)
    && (forall i :: 0 <= i < |d0| && Winner(d0, i) ==> !d[i].trashed)
    && (forall i :: 0 <= i < |d0| && d[i].trashed && !d0[i].trashed ==> Duplicate(d0, i) || Goes(d0, i))
    && (forall i :: 0 <= i < |d0| && !Duplicate(d0, i) && !Moved(d0, i) && !Goes(d0, i) ==> d[i] == d0[i])
  }

  /** Plan and apply, with requests that may fail at any point.  The listing is truthful. */
  method Migrate(account: Account, o: string, listing: Drive) returns (ok: bool)
    requires account.Valid() && account.log == [] && listing == account.items == account.start
    requires DriveValid(listing) && o != "" && o !in KINDS
    modifies account
    ensures Conserved(listing, account.items)
    ensures ok ==> MigrationFixpoint.Finished(o, listing, account.items)
    ensures ok ==> forall again :: PlanFor(o, account.items, again) ==> again.moves == [] && again.trashes == []
  {
    var plan := BuildPlan(o, listing);
    MigrationTheorems.PlanThreeDeep(o, listing, plan);
    ok := account.ApplyPlan(plan);
    ghost var d := account.items;
    ghost var k := |account.log|;
    assert account.log == Ops(plan)[..k];
    MigrationTheorems.Conservation(o, listing, plan, k, d);
    if ok {
      assert Ops(plan)[..k] == Ops(plan);
      MigrationFixpoint.CompleteRun(o, listing, plan, d);
      forall again | PlanFor(o, d, again) ensures again.moves == [] && again.trashes == [] {
        MigrationFixpoint.Fixpoint(o, listing, plan, d, again);
      }
    }
  }
}
