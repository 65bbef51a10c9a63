/** `automation/cron_timer.py`: a job changes hands between Hermes cron and a systemd timer.
    Every command may fail, with or without effect; what is read back is true. */
module TimerHandover {
  import opened Text

  datatype JobRow = JobRow(id: string, state: string)

  /** The Hermes jobs of one name, what systemctl answers for the timer, the unit files, the marker. */
  datatype State = State(jobs: seq<JobRow>, enabled: string, active: string,
                         service: Option<string>, timer: Option<string>, marker: Option<string>)

  /** A result, or the exit code of the `TimerError`. */
  datatype Outcome<T> = Done(value: T) | Failed(code: int)

  /** `enable --now` or `disable --now`: the code, and how the timer is seen afterwards. */
  datatype UnitAnswer = UnitAnswer(rc: int, enabled: string, active: string)

  /** What a call meets: the lock is free, the first listing is readable, pausing or resuming takes, the second
      listing is readable, `daemon-reload` answers, the timer is switched. */
  datatype Answers = Answers(locked: bool, first: bool, taken: bool, second: bool, reload: int, unit: UnitAnswer)

  datatype Units = Units(service: string, timer: string)

  datatype Action = Action(changed: bool, hermes: string)

  predicate HermesLive(s: State) { exists j :: 0 <= j < |s.jobs| && s.jobs[j].state == "active" }

  predicate TimerLive(s: State) { s.active == "active" }

  /** The job is not live in both schedulers. */
  predicate Exclusive(s: State) { !(HermesLive(s) && TimerLive(s)) }

  ghost predicate AllExclusive(trace: seq<State>) { forall k :: 0 <= k < |trace| ==> Exclusive(trace[k]) }

  function WithState(jobs: seq<JobRow>, id: string, state: string): (r: seq<JobRow>)
    ensures |r| == |jobs|
    ensures forall k :: 0 <= k < |jobs| ==> r[k] == if jobs[k].id == id then jobs[k].(state := state) else jobs[k]
  {
    seq(|jobs|, k requires 0 <= k < |jobs| => if jobs[k].id == id then jobs[k].(state := state) else jobs[k])
  }

  // ---------------------------------------------------------------- what success means

  /** The one job, if there is one, is paused; the marker names it if it was not paused before. */
  ghost predicate PausedFrom(s: State, t: State) {
    && |s.jobs| <= 1
    && (if s.jobs == [] then t.jobs == [] && t.marker == s.marker
        else
          && t.jobs == [s.jobs[0].(state := "paused")]
          && t.marker == if s.jobs[0].state == "paused" then s.marker else Some(s.jobs[0].id))
  }

  /** What a successful `converge` turns `s` into. */
  ghost predicate ConvergedTo(off: bool, units: Units, s: State, t: State) {
    && PausedFrom(s, t)
    && (off ==> t.enabled == "disabled" && t.active == "inactive" && t.service == s.service && t.timer == s.timer)
    && (!off ==> t.enabled == "enabled" && t.active == "active")
    && (!off ==> t.service == Some(units.service) && t.timer == Some(units.timer))
  }

  /** Disabling starts nothing. */
  function AfterDisable(active: string, u: UnitAnswer): string { if u.active == "active" then active else u.active }

  const STARTED := UnitAnswer(0, "enabled", "active")

  /** Pausing ends with a job that is absent or read back as paused. */
  predicate Pauses(s: State, a: Answers) {
    a.first && |s.jobs| <= 1 && (s.jobs == [] || s.jobs[0].state == "paused" || (a.taken && a.second))
  }

  /** The timer is switched as it should be. */
  predicate Switches(off: bool, s: State, a: Answers) {
    if off then a.unit.rc == 0 && a.unit.enabled == "disabled" && AfterDisable(s.active, a.unit) == "inactive"
    else a.reload == 0 && a.unit == STARTED
  }

  /** The timer is out of the way, the job is known, and a job that is handed back comes back. */
  predicate HandsBack(s: State, a: Answers) {
    && AfterDisable(s.active, a.unit) != "active" && a.first && |s.jobs| <= 1
    && (Ours(s) ==> a.taken && a.second)
  }

  /** Commands that do what they are asked. */
  predicate Working(off: bool, a: Answers) {
    && a.locked && a.first && a.taken && a.second && a.reload == 0
    && a.unit == if off then UnitAnswer(0, "disabled", "inactive") else STARTED
  }

  /** How the Hermes job is left by `revert`. */
  function Handed(s: State): string {
    if s.jobs == [] then "absent"
    else if s.jobs[0].state != "paused" then s.jobs[0].state
    else if s.marker != Some(s.jobs[0].id) then "paused-by-someone-else"
    else "resumed"
  }

  /** One job that is not paused. */
  predicate Unpaused(s: State) { |s.jobs| == 1 && s.jobs[0].state != "paused" }

  predicate Ours(s: State) { |s.jobs| == 1 && s.jobs[0].state == "paused" && s.marker == Some(s.jobs[0].id) }

  /** What a successful `revert` turns `s` into. */
  ghost predicate RevertedTo(s: State, t: State) {
    && |s.jobs| <= 1 && t.active != "active" && t.service == s.service && t.timer == s.timer
    && (if Ours(s) then t.jobs == [s.jobs[0].(state := "active")] && t.marker == None
        else t.jobs == s.jobs && t.marker == s.marker)
  }

  datatype Verdict = Fine | Absent | Stale | Unknown

  /** `check`; `readable` is about the Hermes listing. */
  function Judge(off: bool, units: Units, readable: bool, s: State): Verdict {
    if off then (if s.enabled == "disabled" && s.active == "inactive" then Fine else Stale)
    else if s.service.None? && s.timer.None? then Absent
    else if s.service != Some(units.service) || s.timer != Some(units.timer) then Stale
    else if s.enabled != "enabled" || s.active != "active" then Stale
    else if !readable || |s.jobs| > 1 then Unknown
    else if s.jobs != [] && s.jobs[0].state != "paused" then Stale
    else Fine
  }

  // ---------------------------------------------------------------- the account

  class Node {
    var jobs: seq<JobRow>
    var enabled: string
    var active: string
    var service: Option<string>
    var timer: Option<string>
    var marker: Option<string>
    /** The unit files that systemd has read. */
    var loaded: (Option<string>, Option<string>)
    /** Files written so far. */
    ghost var writes: nat
    /** Every state so far, up to the present one. */
    ghost var trace: seq<State>

    ghost function Now(): State reads this { State(jobs, enabled, active, service, timer, marker) }

    ghost predicate Valid() reads this { trace != [] && trace[|trace| - 1] == Now() }

    /** Never, up to now, live in both. */
    ghost predicate Safe() reads this { AllExclusive(trace) }

    constructor (s: State)
      ensures Valid() && Now() == s && trace == [s]
    {
      jobs, enabled, active, service, timer, marker := s.jobs, s.enabled, s.active, s.service, s.timer, s.marker;
      loaded, trace, writes := (None, None), [s], 0;
    }

    // Commands.  The state they leave is recorded.

    method HermesSet(id: string, state: string, taken: bool)
      requires Valid()
      modifies this`jobs, this`trace
      ensures Valid() && old(trace) <= trace && jobs == (if taken then WithState(old(jobs), id, state) else old(jobs))
      ensures old(Safe()) && (state != "active" || active != "active") ==> Safe()
    {
      if taken {
        jobs := WithState(jobs, id, state);
        assert state != "active" && HermesLive(Now()) ==> HermesLive(old(Now()));
      }
      trace := trace + [Now()];
    }

    /** `enable --now`: anything may come of it. */
    method UnitEnable(u: UnitAnswer) returns (rc: int)
      requires Valid()
      modifies this`enabled, this`active, this`trace
      ensures Valid() && old(trace) <= trace && (old(Safe()) && !HermesLive(Now()) ==> Safe())
      ensures rc == u.rc && enabled == u.enabled && active == u.active
    {
      rc, enabled, active := u.rc, u.enabled, u.active;
      trace := trace + [Now()];
    }

    /** `disable --now` starts nothing. */
    method UnitDisable(u: UnitAnswer) returns (rc: int)
      requires Valid()
      modifies this`enabled, this`active, this`trace
      ensures Valid() && old(trace) <= trace && (old(Safe()) ==> Safe())
      ensures rc == u.rc && enabled == u.enabled && active == AfterDisable(old(active), u)
    {
      rc, enabled, active := u.rc, u.enabled, AfterDisable(active, u);
      trace := trace + [Now()];
    }

    method DaemonReload(answer: int) returns (rc: int)
      modifies this`loaded
      ensures rc == answer && (rc == 0 ==> loaded == (service, timer))
    {
      rc := answer;
      if rc == 0 {
        loaded := (service, timer);
      }
    }

    method WriteMarker(text: string)
      requires Valid()
      modifies this`marker, this`trace, this`writes
      ensures Valid() && old(trace) <= trace && marker == Some(text) && (old(Safe()) ==> Safe())
      ensures old(marker) == Some(text) ==> writes == old(writes)
    {
      if marker != Some(text) {
        marker, writes := Some(text), writes + 1;
        trace := trace + [Now()];
      }
    }

    method WriteService(text: string) returns (changed: bool)
      requires Valid()
      modifies this`service, this`trace, this`writes
      ensures Valid() && old(trace) <= trace && service == Some(text) && (old(Safe()) ==> Safe())
      ensures (changed <==> old(service) != Some(text)) && (!changed ==> writes == old(writes))
    {
      changed := service != Some(text);
      if changed {
        service, writes := Some(text), writes + 1;
        trace := trace + [Now()];
      }
    }

    method WriteTimer(text: string) returns (changed: bool)
      requires Valid()
      modifies this`timer, this`trace, this`writes
      ensures Valid() && old(trace) <= trace && timer == Some(text) && (old(Safe()) ==> Safe())
      ensures (changed <==> old(timer) != Some(text)) && (!changed ==> writes == old(writes))
    {
      changed := timer != Some(text);
      if changed {
        timer, writes := Some(text), writes + 1;
        trace := trace + [Now()];
      }
    }

    method RemoveMarker()
      requires Valid()
      modifies this`marker, this`trace
      ensures Valid() && old(trace) <= trace && marker == None && (old(Safe()) ==> Safe())
    {
      marker := None;
      trace := trace + [Now()];
    }

    /** `_one(hermes_jobs(...))` */
    method One(readable: bool) returns (r: Outcome<Option<JobRow>>)
      ensures r.Done? <==> readable && |jobs| <= 1
      ensures r.Done? ==> (r.value == if jobs == [] then None else Some(jobs[0]))
      ensures r.Failed? ==> r.code == if readable then 7 else 4
    {
      if !readable {
        return Failed(4);
      }
      if |jobs| > 1 {
        return Failed(7);
      }
      r := Done(if jobs == [] then None else Some(jobs[0]));
    }

    /** Success is only reported once Hermes itself says that the job is paused.  A failure may leave it
        paused: code 4 says that nothing changed, which is so unless the pause took. */
    method PauseHermes(a: Answers) returns (r: Outcome<string>)
      requires Valid()
      modifies this`jobs, this`marker, this`trace, this`writes
      ensures Valid() && old(trace) <= trace && (old(Safe()) ==> Safe())
      ensures r.Done? <==> old(Pauses(Now(), a))
      ensures r.Done? ==> PausedFrom(old(Now()), Now()) && r.value == if jobs == [] then "absent" else "paused"
      ensures r.Done? && old(jobs) == jobs ==> writes == old(writes) && marker == old(marker)
      ensures r.Failed? ==> marker == old(marker) && writes == old(writes) && r.code in {4, 5, 7}
      ensures r.Failed? ==> (Now() == old(Now()) <==> !a.first || r.code == 7 || !a.taken)
      ensures r == Failed(4) <==> !a.first || (!a.second && old(Unpaused(Now())))
      ensures r.Failed? && Now() != old(Now()) ==> |old(jobs)| == 1 && jobs == [old(jobs)[0].(state := "paused")]
    {
      var found := One(a.first);
      if found.Failed? {
        return Failed(found.code);
      }
      if found.value.None? {
        return Done("absent");
      }
      var row := found.value.value;
      if row.state != "paused" {
        HermesSet(row.id, "paused", a.taken);
        var again := One(a.second);
        if again.Failed? {
          return Failed(again.code);
        }
        if again.value.None? || again.value.value.state != "paused" {
          return Failed(5);
        }
        WriteMarker(row.id);
      }
      r := Done("paused");
    }

    /** `check`, without any effect. */
    method Check(off: bool, units: Units, readable: bool) returns (v: Verdict)
      ensures v == Judge(off, units, readable, Now())
    {
      if off {
        return if enabled == "disabled" && active == "inactive" then Fine else Stale;
      }
      if service.None? && timer.None? {
        return Absent;
      }
      if service != Some(units.service) || timer != Some(units.timer) {
        return Stale;
      }
      if enabled != "enabled" || active != "active" {
        return Stale;
      }
      var found := One(readable);
      if found.Failed? {
        return Unknown;
      }
      v := if found.value.Some? && found.value.value.state != "paused" then Stale else Fine;
    }

    /** Exclusion is kept at every step; success leaves the state that `check` calls fine, and is answered exactly
        when the job is well formed and deployed, the lock is free, the job is paused and the timer is switched. */
    method Converge(wellFormed: bool, off: bool, deployed: bool, rendered: Option<Units>, a: Answers)
      returns (r: Outcome<Action>)
      requires Valid()
      modifies this
      ensures Valid() && old(trace) <= trace && (old(Safe()) ==> Safe())
      ensures r.Done? <==> && wellFormed && (off || (deployed && rendered.Some?)) && a.locked
                           && old(Pauses(Now(), a)) && Switches(off, old(Now()), a)
      ensures r == Failed(2) <==> !wellFormed || (!off && deployed && rendered.None?)
      ensures r == Failed(6) <==> wellFormed && (off || (deployed && rendered.Some?)) && !a.locked
      ensures r.Done? && off ==> forall u :: ConvergedTo(true, u, old(Now()), Now())
      ensures r.Done? && !off ==> rendered.Some? && ConvergedTo(false, rendered.value, old(Now()), Now())
      ensures r.Done? && !off ==> loaded == (service, timer)
      ensures r.Done? && !off ==> r.value.changed == (old(service) != service || old(timer) != timer)
      ensures r.Done? ==> r.value.hermes == if jobs == [] then "absent" else "paused"
      ensures r.Done? && old(jobs) == jobs && old(service) == service && old(timer) == timer ==> writes == old(writes)
      ensures r.Failed? && r.code in {2, 6, 7} ==> Now() == old(Now())
      ensures r == Failed(4) ==> (Now() == old(Now()) <==> !a.first || !a.taken)
    {
      if !wellFormed {
        return Failed(2);
      }
      if !off && !deployed {
        return Failed(7);
      }
      if !off && rendered.None? {
        return Failed(2);
      }
      if !a.locked {
        return Failed(6);
      }
      var paused := PauseHermes(a);
      if paused.Failed? {
        return Failed(paused.code);
      }
      if off {
        var rc := UnitDisable(a.unit);
        if rc != 0 || enabled != "disabled" || active != "inactive" {
          return Failed(5);
        }
        return Done(Action(false, paused.value));
      }
      r := Start(rendered.value, paused.value, a);
    }

    /** Units, then the timer: only ever called with the Hermes job out of the way. */
    method Start(units: Units, hermes: string, a: Answers) returns (r: Outcome<Action>)
      requires Valid() && !HermesLive(Now())
      modifies this`service, this`timer, this`loaded, this`enabled, this`active, this`trace, this`writes
      ensures Valid() && old(trace) <= trace && (old(Safe()) ==> Safe())
      ensures r.Done?
        ==> service == Some(units.service) && timer == Some(units.timer) && enabled == "enabled" && active == "active"
      ensures r.Done? ==> loaded == (service, timer)
      ensures r.Done? ==> r.value == Action(old(service) != service || old(timer) != timer, hermes)
      ensures old(service) == Some(units.service) && old(timer) == Some(units.timer) ==> writes == old(writes)
      ensures if a.reload == 0 && a.unit == STARTED then r.Done? else r == Failed(5)
    {
      var first := WriteService(units.service);
      var second := WriteTimer(units.timer);
      var reload := DaemonReload(a.reload);
      if reload != 0 {
        return Failed(5);
      }
      var rc := UnitEnable(a.unit);
      if rc != 0 || enabled != "enabled" || active != "active" {
        return Failed(5);
      }
      r := Done(Action(first || second, hermes));
    }

    /** Exclusion is kept at every step: Hermes is only resumed once the timer is seen not active.  A job that is
        handed back must come back for success. */
    method Revert(wellFormed: bool, a: Answers) returns (r: Outcome<string>)
      requires Valid()
      modifies this
      ensures Valid() && old(trace) <= trace && (old(Safe()) ==> Safe())
      ensures r.Done? <==> wellFormed && a.locked && old(HandsBack(Now(), a))
      ensures r.Done? ==> RevertedTo(old(Now()), Now()) && r.value == old(Handed(Now()))
      ensures r.Failed? ==> service == old(service) && timer == old(timer) && marker == old(marker)
      ensures r.Failed? && r.code in {2, 6} ==> Now() == old(Now())
    {
      if !wellFormed {
        return Failed(2);
      }
      if !a.locked {
        return Failed(6);
      }
      var rc := UnitDisable(a.unit);
      if active == "active" {
        return Failed(5);
      }
      var found := One(a.first);
      if found.Failed? {
        return Failed(found.code);
      }
      if found.value.None? {
        return Done("absent");
      }
      var row := found.value.value;
      if row.state != "paused" {
        return Done(row.state);
      }
      if marker != Some(row.id) {
        return Done("paused-by-someone-else");
      }
      HermesSet(row.id, "active", a.taken);
      var again := One(a.second);
      if again.Failed? {
        return Failed(again.code);
      }
      if again.value.None? || again.value.value.state != "active" {
        return Failed(5);
      }
      RemoveMarker();
      r := Done("resumed");
    }
  }

  // ---------------------------------------------------------------- laws

  /** A successful `converge` is fine by `check`, and both schedulers are never live after it, whatever
      the state before. */
  lemma ConvergedIsFine(off: bool, units: Units, s: State, t: State)
    requires ConvergedTo(off, units, s, t)
    ensures Judge(off, units, true, t) == Fine && Exclusive(t)
  {
  }

  /** What `check` calls fine is, for a job that is not off, exactly what a repeated `converge` keeps. */
  lemma FineIsFixed(units: Units, s: State, t: State)
    requires ConvergedTo(false, units, s, t)
    ensures Judge(false, units, true, s) == Fine <==> s == t
  {
    if Judge(false, units, true, s) == Fine && s.jobs != [] {
      assert s.jobs == [s.jobs[0]];
    }
  }

  ghost predicate Converged(s: State, t: State) { exists off, units :: ConvergedTo(off, units, s, t) }

  ghost predicate Converges(states: seq<State>) {
    forall k {:trigger states[k]} :: 0 < k < |states| ==> Converged(states[k - 1], states[k])
  }

  lemma PausedOnce(s: State, t: State, v: State)
    requires PausedFrom(s, t) && PausedFrom(t, v)
    ensures PausedFrom(s, v)
  {
  }

  lemma {:induction false} PausedByAll(states: seq<State>)
    requires |states| >= 2 && Converges(states)
    ensures PausedFrom(states[0], states[|states| - 1])
  {
    var n := |states|;
    assert Converged(states[n - 2], states[n - 1]);
    if n > 2 {
      PausedByAll(states[..n - 1]);
      PausedOnce(states[0], states[n - 2], states[n - 1]);
    }
  }

  /** The job was absent, active, or paused by someone whom the marker does not name. */
  predicate Restorable(s: State) {
    s.jobs == [] || s.jobs[0].state == "active" || (s.jobs[0].state == "paused" && s.marker != Some(s.jobs[0].id))
  }

  /** `revert` undoes any positive number of `converge` calls, on exactly the restorable states; the
      timer is inactive in any case. */
  lemma RevertUndoes(states: seq<State>, t: State)
    requires |states| >= 2 && Converges(states) && RevertedTo(states[|states| - 1], t)
    ensures t.active != "active" && Exclusive(t)
    ensures t.jobs == states[0].jobs <==> Restorable(states[0])
    ensures Restorable(states[0]) && states[0].marker == None ==> t.marker == None
  {
    PausedByAll(states);
    var s := states[0];
    if s.jobs != [] {
      assert s.jobs == [s.jobs[0]];
    }
  }

  /** A job that had completed comes back as active. */
  lemma CompletedResumes(s: State, t: State, v: State)
    requires s.jobs == [JobRow("a1", "completed")] && s.marker == None
    requires ConvergedTo(false, Units("", ""), s, t) && RevertedTo(t, v)
    ensures v.jobs == [JobRow("a1", "active")]
  {
  }

  /** A marker left from an earlier hand-over makes `revert` resume a job that the owner had paused. */
  lemma StaleMarkerResumes(s: State, t: State, v: State)
    requires s.jobs == [JobRow("a1", "paused")] && s.marker == Some("a1")
    requires ConvergedTo(false, Units("", ""), s, t) && RevertedTo(t, v)
    ensures v.jobs == [JobRow("a1", "active")]
  {
  }

  /** Exit code 4 says that nothing changed, while the job went from active to paused. */
  method PausedBehindTheMessage() returns (node: Node, r: Outcome<string>)
    ensures node.Valid() && node.trace[0].jobs == [JobRow("a1", "active")]
    ensures r == Failed(4) && node.jobs == [JobRow("a1", "paused")]
  {
    node := new Node(State([JobRow("a1", "active")], "disabled", "inactive", None, None, None));
    r := node.PauseHermes(Answers(true, true, true, false, 0, STARTED));
  }

  // ---------------------------------------------------------------- whole runs

  datatype Call =
    | ConvergeCall(wellFormed: bool, off: bool, deployed: bool, rendered: Option<Units>, answers: Answers)
    | RevertCall(wellFormed: bool, answers: Answers)

  /** Exclusion over every lock-serialized run: in no state between any two commands of any sequence of
      calls, whichever of them fail, is the job live in both schedulers. */
  method Serve(start: State, calls: seq<Call>) returns (node: Node)
    requires Exclusive(start)
    ensures node.Valid() && node.trace[0] == start && AllExclusive(node.trace)
  {
    node := new Node(start);
    for i := 0 to |calls|
      invariant node.Valid() && node.Safe() && node.trace[0] == start
    {
      match calls[i]
      case ConvergeCall(wellFormed, off, deployed, rendered, answers) =>
        var r := node.Converge(wellFormed, off, deployed, rendered, answers);
      case RevertCall(wellFormed, answers) =>
        var r := node.Revert(wellFormed, answers);
    }
  }

  lemma ConvergesMore(states: seq<State>, t: State)
    requires |states| > 0 && Converges(states) && Converged(states[|states| - 1], t)
    ensures Converges(states + [t])
  {
  }

  /** Hand-overs, one for each set of answers; with working commands all of them succeed. */
  method HandOver(node: Node, answers: seq<Answers>, off: bool, units: Units)
    returns (ok: bool, ghost states: seq<State>)
    requires node.Valid()
    modifies node
    ensures node.Valid() && states != [] && states[0] == old(node.Now())
    ensures ok ==> |states| == |answers| + 1 && states[|answers|] == node.Now() && Converges(states)
    ensures (forall k :: 0 <= k < |answers| ==> Working(off, answers[k])) && |old(node.jobs)| <= 1 ==> ok
    ensures ok && answers != [] ==> |old(node.jobs)| <= 1
  {
    states := [node.Now()];
    for i := 0 to |answers|
      invariant node.Valid() && |states| == i + 1 && states[0] == old(node.Now()) && states[i] == node.Now()
      invariant Converges(states) && (|node.jobs| <= 1 <==> |old(node.jobs)| <= 1) && (i > 0 ==> |node.jobs| <= 1)
    {
      ghost var before := node.Now();
      var r := node.Converge(true, off, true, Some(units), answers[i]);
      if r.Failed? {
        return false, states;
      }
      assert ConvergedTo(off, units, before, node.Now());
      ConvergesMore(states, node.Now());
      states := states + [node.Now()];
    }
    ok := true;
  }

  /** Handing over any positive number of times and then back: with working commands and at most one job of the name
      every call succeeds, and the job is as it was on exactly the restorable states. */
  method ThereAndBack(start: State, answers: seq<Answers>, back: Answers, off: bool, units: Units)
    returns (node: Node, ok: bool)
    requires answers != []
    ensures ok ==> node.active != "active" && (node.jobs == start.jobs <==> Restorable(start))
    ensures ok && Restorable(start) && start.marker == None ==> node.marker == None
    ensures (forall k :: 0 <= k < |answers| ==> Working(off, answers[k])) && Working(true, back)
      ==> (ok <==> |start.jobs| <= 1)
  {
    node := new Node(start);
    ghost var states;
    ok, states := HandOver(node, answers, off, units);
    if ok {
      var back := node.Revert(true, back);
      ok := back.Done?;
      if ok {
        RevertUndoes(states, node.Now());
      }
    }
  }
}
