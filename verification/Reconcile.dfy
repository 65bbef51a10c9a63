/** `automation/deploy_reconcile.py`: the incident and notice machine of the reconciler.  Time is in
    whole seconds; converging and delivering are answers that come with each tick. */
module Reconcile {
  import opened Text

  const LOCK_CONTENTION_RC := 5
  const FAILED_RELEASE_RC := 6
  const FAILURE_NOTICE_THRESHOLD := 3
  const DRIFT_NOTICE_SECONDS := 600

  datatype Notice =
    | Drift(origin: string, current: string, failures: int, elapsed: int)
    | Recovery(at: string)

  datatype State = State(failures: int, driftSince: Option<int>, notified: Option<string>, pending: Option<Notice>,
                         incidentOpen: bool, skipReason: Option<string>)

  /** Nothing is wrong. */
  const CLEAN := State(0, None, None, None, false, None)

  /** `queued` answers the sending of a queued notice, `direct` that of one composed in this tick. */
  datatype Input = Input(current: string, now: int, rc: int, queued: bool, direct: bool)

  datatype Sending = Sending(notice: Notice, delivered: bool)

  datatype Ticked = Ticked(state: State, sendings: seq<Sending>)

  function Queue(notice: Notice, delivered: bool): Option<Notice> { if delivered then None else Some(notice) }

  /** `reconcile_tick`, without a release backlog. */
  function Tick(before: State, origin: string, t: Input): Ticked {
    var flushed := if before.pending.Some? then [Sending(before.pending.value, t.queued)] else [];
    var s := if before.pending.Some? && t.queued then before.(pending := None) else before;
    if origin == t.current then Met(s, t, flushed)
    else if t.rc == FAILED_RELEASE_RC then RolledBack(s, origin, t, flushed)
    else Unmet(s, origin, t, flushed)
  }

  function Met(s: State, t: Input, flushed: seq<Sending>): Ticked {
    if s.incidentOpen && !t.direct then
      Ticked(s.(pending := Some(Recovery(t.current)), incidentOpen := false),
             flushed + [Sending(Recovery(t.current), false)])
    else
      Ticked(CLEAN, flushed + if s.incidentOpen then [Sending(Recovery(t.current), true)] else [])
  }

  function RolledBack(s: State, origin: string, t: Input, flushed: seq<Sending>): Ticked {
    var same := s.skipReason == Some("rollback-pending");
    var failures := if same then s.failures + 1 else 1;
    var since := if same && s.driftSince.Some? then s.driftSince.value else t.now;
    var key := "rollback:" + origin;
    var next := s.(failures := failures, driftSince := Some(since), incidentOpen := true,
                   skipReason := Some("rollback-pending"));
    if failures < FAILURE_NOTICE_THRESHOLD || s.notified == Some(key) then Ticked(next, flushed)
    else
      var notice := Drift(origin, t.current, failures, t.now - since);
      Ticked(next.(notified := Some(key), pending := Queue(notice, t.direct)), flushed + [Sending(notice, t.direct)])
  }

  function Unmet(s: State, origin: string, t: Input, flushed: seq<Sending>): Ticked {
    var reset := s.skipReason.Some? || s.driftSince.None?;
    var since := if reset then t.now else s.driftSince.value;
    var base := if s.skipReason.Some? then 0 else s.failures;
    var failures := if t.rc == 0 || t.rc == LOCK_CONTENTION_RC then base else base + 1;
    var elapsed := t.now - since;
    var next := s.(failures := failures, driftSince := Some(since), skipReason := None);
    if (failures >= FAILURE_NOTICE_THRESHOLD || elapsed >= DRIFT_NOTICE_SECONDS) && s.notified != Some(origin) then
      var notice := Drift(origin, t.current, failures, elapsed);
      Ticked(next.(notified := Some(origin), incidentOpen := true, pending := Queue(notice, t.direct)),
             flushed + [Sending(notice, t.direct)])
    else Ticked(next, flushed)
  }

  /** The state after all ticks, from a clean start. */
  function Run(origin: string, ticks: seq<Input>): State {
    if ticks == [] then CLEAN else Tick(Run(origin, ticks[..|ticks| - 1]), origin, ticks[|ticks| - 1]).state
  }

  /** What tick `k` sends. */
  function SendingsAt(origin: string, ticks: seq<Input>, k: nat): seq<Sending>
    requires k < |ticks|
  {
    Tick(Run(origin, ticks[..k]), origin, ticks[k]).sendings
  }

  // ---------------------------------------------------------------- an independent account of the same run

  predicate Hard(rc: int) { rc != 0 && rc != LOCK_CONTENTION_RC }

  function HardFailures(ticks: seq<Input>): nat {
    if ticks == [] then 0 else HardFailures(ticks[..|ticks| - 1]) + if Hard(ticks[|ticks| - 1].rc) then 1 else 0
  }

  /** Three hard failures, or ten minutes of drift. */
  predicate DueAt(ticks: seq<Input>, k: nat)
    requires k < |ticks|
  {
    HardFailures(ticks[..k + 1]) >= FAILURE_NOTICE_THRESHOLD || ticks[k].now - ticks[0].now >= DRIFT_NOTICE_SECONDS
  }

  predicate QuietUntil(ticks: seq<Input>, n: nat) { n <= |ticks| && forall j :: 0 <= j < n ==> !DueAt(ticks, j) }

  predicate FirstDue(ticks: seq<Input>, n: nat) { n < |ticks| && DueAt(ticks, n) && QuietUntil(ticks, n) }

  /** The notice that the first due tick composes. */
  function NoticeOf(origin: string, ticks: seq<Input>, n: nat): Notice
    requires n < |ticks|
  {
    Drift(origin, ticks[n].current, HardFailures(ticks[..n + 1]), ticks[n].now - ticks[0].now)
  }

  /** The answer to sending that notice in tick `j`. */
  predicate Answer(ticks: seq<Input>, n: nat, j: nat)
    requires n <= j < |ticks|
  {
    if j == n then ticks[j].direct else ticks[j].queued
  }

  predicate DeliveredBy(ticks: seq<Input>, n: nat, k: nat)
    requires k <= |ticks|
  {
    exists j :: n <= j < k && Answer(ticks, n, j)
  }

  /** Production stays behind a fixed origin, and no release is rolled back. */
  predicate Behind(origin: string, ticks: seq<Input>) {
    forall k :: 0 <= k < |ticks| ==> ticks[k].current != origin && ticks[k].rc != FAILED_RELEASE_RC
  }

  // ---------------------------------------------------------------- proofs

  lemma RunNext(origin: string, ticks: seq<Input>, k: nat)
    requires k < |ticks|
    ensures Run(origin, ticks[..k + 1]) == Tick(Run(origin, ticks[..k]), origin, ticks[k]).state
    ensures HardFailures(ticks[..k + 1]) == HardFailures(ticks[..k]) + if Hard(ticks[k].rc) then 1 else 0
  {
    assert ticks[..k + 1][..k] == ticks[..k];
  }

  function QuietState(ticks: seq<Input>, k: nat): State
    requires k <= |ticks|
  {
    CLEAN.(failures := HardFailures(ticks[..k]), driftSince := if k == 0 then None else Some(ticks[0].now))
  }

  /** Before anything is due the machine only counts. */
  lemma {:induction false} QuietRun(origin: string, ticks: seq<Input>, k: nat)
    requires k <= |ticks| && Behind(origin, ticks) && QuietUntil(ticks, k)
    ensures Run(origin, ticks[..k]) == QuietState(ticks, k)
  {
    if k > 0 {
      QuietRun(origin, ticks, k - 1);
      RunNext(origin, ticks, k - 1);
      assert !DueAt(ticks, k - 1);
    }
  }

  function ToldState(origin: string, ticks: seq<Input>, n: nat, k: nat): State
    requires n < k <= |ticks|
  {
    State(HardFailures(ticks[..k]), Some(ticks[0].now), Some(origin),
          Queue(NoticeOf(origin, ticks, n), DeliveredBy(ticks, n, k)), true, None)
  }

  lemma DeliveredNext(ticks: seq<Input>, n: nat, k: nat)
    requires n <= k < |ticks|
    ensures DeliveredBy(ticks, n, k + 1) <==> DeliveredBy(ticks, n, k) || Answer(ticks, n, k)
  {
  }

  /** Once told about an origin, a tick counts and retries, and composes nothing. */
  lemma ToldTick(s: State, origin: string, t: Input)
    requires s.notified == Some(origin) && s.skipReason.None? && s.driftSince.Some?
    requires t.current != origin && t.rc != FAILED_RELEASE_RC
    ensures Tick(s, origin, t) == Ticked(
      s.(failures := s.failures + if Hard(t.rc) then 1 else 0, pending := if t.queued then None else s.pending),
      if s.pending.Some? then [Sending(s.pending.value, t.queued)] else [])
  {
  }

  lemma DueTick(origin: string, ticks: seq<Input>, n: nat)
    requires Behind(origin, ticks) && FirstDue(ticks, n)
    ensures var notice := NoticeOf(origin, ticks, n);
            Tick(QuietState(ticks, n), origin, ticks[n]) == Ticked(
              State(HardFailures(ticks[..n + 1]), Some(ticks[0].now), Some(origin),
                    Queue(notice, ticks[n].direct), true, None),
              [Sending(notice, ticks[n].direct)])
  {
    RunNext(origin, ticks, n);
  }

  /** From the first due tick on, only the delivery of its notice is open. */
  lemma {:induction false} ToldRun(origin: string, ticks: seq<Input>, n: nat, k: nat)
    requires n < k <= |ticks| && Behind(origin, ticks) && FirstDue(ticks, n)
    ensures Run(origin, ticks[..k]) == ToldState(origin, ticks, n, k)
  {
    RunNext(origin, ticks, k - 1);
    DeliveredNext(ticks, n, k - 1);
    if k == n + 1 {
      QuietRun(origin, ticks, n);
      DueTick(origin, ticks, n);
    } else {
      ToldRun(origin, ticks, n, k - 1);
      ToldTick(ToldState(origin, ticks, n, k - 1), origin, ticks[k - 1]);
    }
  }

  /** Nothing is sent before a tick is due; the first due tick composes the notice and sends it; every
      later tick sends that same notice until one sending succeeds, and nothing ever after. */
  lemma OneNotice(origin: string, ticks: seq<Input>, n: nat, k: nat)
    requires Behind(origin, ticks) && FirstDue(ticks, n) && k < |ticks|
    ensures SendingsAt(origin, ticks, k)
         == if k < n || DeliveredBy(ticks, n, k) then [] else [Sending(NoticeOf(origin, ticks, n), Answer(ticks, n, k))]
  {
    if k < n {
      QuietTick(origin, ticks, k);
    } else if k == n {
      QuietRun(origin, ticks, n);
      DueTick(origin, ticks, n);
    } else {
      ToldRun(origin, ticks, n, k);
      ToldTick(ToldState(origin, ticks, n, k), origin, ticks[k]);
    }
  }

  lemma QuietTick(origin: string, ticks: seq<Input>, k: nat)
    requires Behind(origin, ticks) && k < |ticks| && QuietUntil(ticks, k + 1)
    ensures SendingsAt(origin, ticks, k) == []
  {
    QuietRun(origin, ticks, k);
    RunNext(origin, ticks, k);
    assert !DueAt(ticks, k);
  }

  /** A run in which nothing is ever due sends nothing. */
  lemma NoNotice(origin: string, ticks: seq<Input>, k: nat)
    requires Behind(origin, ticks) && QuietUntil(ticks, |ticks|) && k < |ticks|
    ensures SendingsAt(origin, ticks, k) == []
  {
    QuietTick(origin, ticks, k);
  }

  function Deliveries(origin: string, ticks: seq<Input>, k: nat): nat
    requires k <= |ticks|
  {
    if k == 0 then 0
    else Deliveries(origin, ticks, k - 1) + Delivered(SendingsAt(origin, ticks, k - 1))
  }

  function Delivered(sendings: seq<Sending>): nat {
    if sendings == [] then 0 else Delivered(sendings[1..]) + if sendings[0].delivered then 1 else 0
  }

  /** The owner is told once: one delivery from the first success on, none before. */
  lemma {:induction false} DeliveredOnce(origin: string, ticks: seq<Input>, n: nat, k: nat)
    requires Behind(origin, ticks) && FirstDue(ticks, n) && k <= |ticks|
    ensures Deliveries(origin, ticks, k) == if DeliveredBy(ticks, n, k) then 1 else 0
  {
    if k > 0 {
      DeliveredOnce(origin, ticks, n, k - 1);
      OneNotice(origin, ticks, n, k - 1);
      if n < k {
        DeliveredNext(ticks, n, k - 1);
        var one := [Sending(NoticeOf(origin, ticks, n), Answer(ticks, n, k - 1))];
        assert one[1..] == [] && Delivered(one) == if Answer(ticks, n, k - 1) then 1 else 0;
      } else {
        assert !DeliveredBy(ticks, n, k);
      }
    }
  }

  /** Codes 0 and 5 never count: with no other code, only ten minutes of drift make a notice. */
  lemma {:induction false} SoftCodesNeverCount(ticks: seq<Input>)
    requires forall k :: 0 <= k < |ticks| ==> !Hard(ticks[k].rc)
    ensures HardFailures(ticks) == 0
  {
    if ticks != [] {
      SoftCodesNeverCount(ticks[..|ticks| - 1]);
    }
  }

  lemma OnlyDrift(ticks: seq<Input>, k: nat)
    requires k < |ticks| && forall j :: 0 <= j < |ticks| ==> !Hard(ticks[j].rc)
    ensures DueAt(ticks, k) <==> ticks[k].now - ticks[0].now >= DRIFT_NOTICE_SECONDS
  {
    SoftCodesNeverCount(ticks[..k + 1]);
  }

  /** What is left open when production catches up. */
  function OpenNotice(origin: string, ticks: seq<Input>, n: nat, answer: bool): seq<Sending>
    requires n < |ticks|
  {
    if DeliveredBy(ticks, n, |ticks|) then [] else [Sending(NoticeOf(origin, ticks, n), answer)]
  }

  /** The recovery is queued in place of whatever was. */
  function Recovering(origin: string, ticks: seq<Input>, n: nat): State
    requires n < |ticks|
  {
    ToldState(origin, ticks, n, |ticks|).(pending := Some(Recovery(origin)), incidentOpen := false)
  }

  /** When production catches up after an incident had become due, its notice is tried once more if it is still open,
      and then the recovery is sent.  The machine is clean again as soon as the sender takes the recovery; until
      then the recovery is queued in place of the notice. */
  lemma Recovers(origin: string, ticks: seq<Input>, n: nat, last: Input)
    requires Behind(origin, ticks) && FirstDue(ticks, n) && last.current == origin
    ensures var r := Tick(Run(origin, ticks), origin, last);
            && r.sendings == OpenNotice(origin, ticks, n, last.queued) + [Sending(Recovery(origin), last.direct)]
            && r.state == if last.direct then CLEAN else Recovering(origin, ticks, n)
  {
    ToldRun(origin, ticks, n, |ticks|);
    assert ticks[..|ticks|] == ticks;
  }

  /** A recovery that was not taken is sent by the next tick, and once only if that tick finds production caught up:
      then the machine is clean, whatever the answer. */
  lemma RecoveryAgain(origin: string, ticks: seq<Input>, n: nat, last: Input, next: Input)
    requires Behind(origin, ticks) && FirstDue(ticks, n) && last.current == origin && !last.direct
    ensures var r := Tick(Tick(Run(origin, ticks), origin, last).state, origin, next);
            && r.sendings != [] && r.sendings[0] == Sending(Recovery(origin), next.queued)
            && (next.current == origin ==> r == Ticked(CLEAN, [Sending(Recovery(origin), next.queued)]))
  {
    Recovers(origin, ticks, n, last);
  }

  lemma RecoversInSilence(origin: string, ticks: seq<Input>, last: Input)
    requires Behind(origin, ticks) && QuietUntil(ticks, |ticks|) && last.current == origin
    ensures Tick(Run(origin, ticks), origin, last) == Ticked(CLEAN, [])
  {
    QuietRun(origin, ticks, |ticks|);
    assert ticks[..|ticks|] == ticks;
  }

  // ---------------------------------------------------------------- a release that is rolled back

  /** Production stays behind a release that was rolled back. */
  predicate Rolling(origin: string, ticks: seq<Input>) {
    forall k :: 0 <= k < |ticks| ==> ticks[k].current != origin && ticks[k].rc == FAILED_RELEASE_RC
  }

  /** The notice of the third tick. */
  function RollbackNotice(origin: string, ticks: seq<Input>): Notice
    requires |ticks| >= 3
  {
    Drift(origin, ticks[2].current, 3, ticks[2].now - ticks[0].now)
  }

  function RollbackState(origin: string, ticks: seq<Input>, k: nat): State
    requires k <= |ticks|
  {
    if k == 0 then CLEAN
    else
      State(k, Some(ticks[0].now), if k < 3 then None else Some("rollback:" + origin),
            if k < 3 then None else Queue(RollbackNotice(origin, ticks), DeliveredBy(ticks, 2, k)), true,
            Some("rollback-pending"))
  }

  /** One more rollback tick, whatever the state. */
  lemma RollbackTick(origin: string, ticks: seq<Input>, k: nat)
    requires k < |ticks| && Rolling(origin, ticks)
    ensures Tick(RollbackState(origin, ticks, k), origin, ticks[k])
         == Ticked(RollbackState(origin, ticks, k + 1),
                   if k < 2 || DeliveredBy(ticks, 2, k) then []
                   else [Sending(RollbackNotice(origin, ticks), Answer(ticks, 2, k))])
  {
    if k >= 2 {
      DeliveredNext(ticks, 2, k);
      assert !DeliveredBy(ticks, 2, 2);
    }
  }

  lemma {:induction false} RollbackRun(origin: string, ticks: seq<Input>, k: nat)
    requires k <= |ticks| && Rolling(origin, ticks)
    ensures Run(origin, ticks[..k]) == RollbackState(origin, ticks, k)
  {
    if k > 0 {
      RollbackRun(origin, ticks, k - 1);
      RunNext(origin, ticks, k - 1);
      RollbackTick(origin, ticks, k - 1);
    }
  }

  /** The third tick that finds the release rolled back composes the notice, under a key of its own, and sends it;
      every later one sends that same notice until it is taken, and nothing after. */
  lemma OneRollbackNotice(origin: string, ticks: seq<Input>, k: nat)
    requires k < |ticks| && Rolling(origin, ticks)
    ensures SendingsAt(origin, ticks, k)
         == if k < 2 || DeliveredBy(ticks, 2, k) then []
            else [Sending(RollbackNotice(origin, ticks), Answer(ticks, 2, k))]
    ensures Run(origin, ticks[..k + 1]).notified == if k < 2 then None else Some("rollback:" + origin)
  {
    RollbackRun(origin, ticks, k);
    RollbackRun(origin, ticks, k + 1);
    RollbackTick(origin, ticks, k);
  }

  /** After a rollback, converging that fails otherwise is counted and timed from now on. */
  lemma CountsAnew(origin: string, ticks: seq<Input>, t: Input)
    requires ticks != [] && Rolling(origin, ticks) && t.current != origin && t.rc != FAILED_RELEASE_RC
    ensures var s := Tick(Run(origin, ticks), origin, t).state;
            s.failures == (if Hard(t.rc) then 1 else 0) && s.driftSince == Some(t.now) && s.skipReason == None
  {
    RollbackRun(origin, ticks, |ticks|);
    assert ticks[..|ticks|] == ticks;
  }

  /** Catching up with a release that had been rolled back is always told, even before its notice was due. */
  lemma RecoversFromRollback(origin: string, ticks: seq<Input>, last: Input)
    requires ticks != [] && Rolling(origin, ticks) && last.current == origin
    ensures var r := Tick(Run(origin, ticks), origin, last);
            && r.sendings != [] && r.sendings[|r.sendings| - 1] == Sending(Recovery(origin), last.direct)
            && (if last.direct then r.state == CLEAN else r.state.pending == Some(Recovery(origin)))
  {
    RollbackRun(origin, ticks, |ticks|);
    assert ticks[..|ticks|] == ticks;
  }
}
