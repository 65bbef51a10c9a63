/** The alerts of `automation/cron_timer_run.py`: one for each kind of trouble, one every six hours
    while it lasts, one when it is over.  Moments are in microseconds, saved stamps in seconds. */
module AlertMachine {
  import opened Text

  const REALERT := 21600
  const SECOND := 1000000

  datatype Trouble = Trouble(kind: string, reason: string)

  /** `quiet`: a clean run without output.  `configured`: there is a token and a channel.
      `posts`: sending succeeds, rather than raising. */
  datatype Run = Run(found: Option<Trouble>, now: int, quiet: bool, configured: bool, posts: bool)

  datatype State = Calm | Troubled(kind: string, reason: string, since: int, count: nat, sentAt: Option<int>)

  datatype Alert =
    | First(kind: string, reason: string)
    | Again(kind: string, lasted: int, count: nat, reason: string)
    | Recovery(failing: bool, runs: int, lasted: int)

  predicate IsFail(kind: string) { "fail" <= kind }

  function Stamp(now: int): int { now / SECOND }

  /** `alert_text` */
  function AlertText(found: Option<Trouble>, s: State, now: int): Option<Alert> {
    if found.None? then
      if s.Calm? || s.sentAt.None? then None else Some(Recovery(IsFail(s.kind), s.count, now - s.since * SECOND))
    else if s.Calm? || s.kind != found.value.kind || s.sentAt.None? then
      Some(First(found.value.kind, found.value.reason))
    else if now - s.sentAt.value * SECOND < REALERT * SECOND then None
    else Some(Again(found.value.kind, now - s.since * SECOND, s.count + 1, found.value.reason))
  }

  /** `_next_state` */
  function NextState(found: Option<Trouble>, s: State, now: int, posted: bool): State {
    if found.None? then Calm
    else
      var same := s.Troubled? && s.kind == found.value.kind;
      Troubled(found.value.kind, found.value.reason,
               if s.Troubled? then s.since else Stamp(now),
               if s.Troubled? then s.count + 1 else 1,
               if posted then Some(Stamp(now)) else if same then s.sentAt else None)
  }

  // ---------------------------------------------------------------- an independent account: episodes

  function Kind(r: Run): string { if r.found.Some? then r.found.value.kind else "" }

  /** The run starts an episode or is of another kind than the run before it. */
  predicate OtherKind(e: seq<Run>, r: Run) { e == [] || Kind(r) != Kind(e[|e| - 1]) }

  /** An alert is due after the troubled runs `e`: one of another kind, or six hours since the last. */
  predicate DueAfter(e: seq<Run>, r: Run) {
    e == [] || Kind(r) != Kind(e[|e| - 1]) || Stamp(r.now) - LastSent(e) >= REALERT
  }

  /** The second of the last alert in an episode, going by kinds and times alone. */
  function LastSent(e: seq<Run>): int
    requires e != []
  {
    var front, last := e[..|e| - 1], e[|e| - 1];
    if front == [] || Kind(last) != Kind(front[|front| - 1]) || Stamp(last.now) - LastSent(front) >= REALERT
    then Stamp(last.now)
    else LastSent(front)
  }

  /** Something is to be posted: an alert, or a recovery line when an episode is open. */
  predicate Posts(e: seq<Run>, r: Run) { if r.found.None? then e != [] else DueAfter(e, r) }

  /** The recorded troubled runs since the last clean one.  A run that cannot post is not recorded. */
  function Episode(history: seq<Run>): seq<Run> {
    if history == [] then []
    else
      var e, r := Episode(history[..|history| - 1]), history[|history| - 1];
      if !r.configured || (Posts(e, r) && !r.posts) then e else if r.found.None? then [] else e + [r]
  }

  /** What is on disk, told from the episode. */
  function SavedFor(e: seq<Run>): State {
    if e == [] then Calm
    else
      var last := e[|e| - 1];
      var reason := if last.found.Some? then last.found.value.reason else "";
      Troubled(Kind(last), reason, Stamp(e[0].now), |e|, Some(LastSent(e)))
  }

  predicate AllTroubled(e: seq<Run>) { forall k :: 0 <= k < |e| ==> e[k].found.Some? }

  lemma {:induction false} EpisodeTroubled(history: seq<Run>)
    ensures AllTroubled(Episode(history))
  {
    if history != [] {
      EpisodeTroubled(history[..|history| - 1]);
    }
  }

  // ---------------------------------------------------------------- what the channel sees

  /** A line that went out: when, and about which kind of trouble, or that the trouble is over. */
  datatype Post = Post(at: int, kind: string, over: bool)

  /** Lines about one kind of trouble that follow each other are six hours apart; a line that trouble is
      over follows a line about trouble. */
  predicate Spaced(posts: seq<Post>) {
    && (forall i :: 0 < i < |posts| && !posts[i].over && !posts[i - 1].over && posts[i].kind == posts[i - 1].kind ==>
          posts[i].at - posts[i - 1].at >= REALERT)
    && (forall i :: 0 <= i < |posts| && posts[i].over ==> i > 0 && !posts[i - 1].over)
  }

  /** The last line is the one that the episode remembers. */
  predicate Current(posts: seq<Post>, e: seq<Run>) {
    if e == [] then posts == [] || posts[|posts| - 1].over
    else posts != [] && posts[|posts| - 1] == Post(LastSent(e), Kind(e[|e| - 1]), false)
  }

  function PostOf(r: Run): Post { Post(Stamp(r.now), Kind(r), r.found.None?) }

  lemma PostKeeps(posts: seq<Post>, e: seq<Run>, r: Run)
    requires Spaced(posts) && Current(posts, e) && Posts(e, r)
    ensures Spaced(posts + [PostOf(r)])
    ensures r.found.None? ==> Current(posts + [PostOf(r)], [])
    ensures r.found.Some? ==> Current(posts + [PostOf(r)], e + [r])
  {
    var more := posts + [PostOf(r)];
    assert forall i :: 0 <= i < |posts| ==> more[i] == posts[i];
    assert (e + [r])[..|e|] == e;
  }

  lemma SilenceKeeps(posts: seq<Post>, e: seq<Run>, r: Run)
    requires Current(posts, e) && !Posts(e, r)
    ensures r.found.None? ==> e == []
    ensures r.found.Some? ==> Current(posts, e + [r])
  {
    assert (e + [r])[..|e|] == e;
  }

  // ---------------------------------------------------------------- the saved state

  class AlertFile {
    var state: State
    ghost var history: seq<Run>
    ghost var posts: seq<Post>

    /** The file says what the episode says; in particular every saved state has a send time. */
    ghost predicate Valid() reads this {
      state == SavedFor(Episode(history)) && Spaced(posts) && Current(posts, Episode(history))
    }

    constructor ()
      ensures Valid() && history == [] && posts == []
    {
      state, history, posts := Calm, [], [];
    }

    /** The alert part of `deliver`.  `Err` is an exception that leaves the file alone. */
    method Deliver(r: Run) returns (alert: Result<Option<Alert>>)
      requires Valid()
      modifies this
      ensures Valid() && history == old(history) + [r]
      ensures alert.Err? ==> state == old(state)
      ensures posts == if alert.Ok? && alert.value.Some? then old(posts) + [PostOf(r)] else old(posts)
      ensures alert.Ok? ==> (alert.value.Some? <==> Posts(Episode(old(history)), r))
      ensures alert.Ok? && alert.value.Some? ==> alert.value.value == LineFor(Episode(old(history)), r)
      ensures alert.Ok? && r.found.Some? && OtherKind(Episode(old(history)), r)
        ==> alert.value == Some(First(r.found.value.kind, r.found.value.reason))
      ensures alert.Ok? && r.found.None? && Episode(old(history)) != []
        ==> alert.value.Some? && alert.value.value.Recovery? && alert.value.value.runs == |Episode(old(history))|
      ensures alert.Ok? && r.found.Some? ==> Episode(history) == Episode(old(history)) + [r]
      ensures alert.Ok? && r.found.None? ==> Episode(history) == []
    {
      history := history + [r];
      assert history[..|history| - 1] == old(history);
      EpisodeTroubled(old(history));
      AlertTextIs(Episode(old(history)), r);
      NextStateIs(Episode(old(history)), r);
      if r.found.None? && r.quiet && state.Calm? {
        return Ok(None);
      }
      if !r.configured {
        return Err;
      }
      var text := AlertText(r.found, state, r.now);
      if text.Some? && !r.posts {
        return Err;
      }
      if text.Some? {
        PostKeeps(posts, Episode(old(history)), r);
        posts := posts + [PostOf(r)];
      } else {
        SilenceKeeps(posts, Episode(old(history)), r);
      }
      if r.found.Some? || state.Troubled? {
        state := NextState(r.found, state, r.now, text.Some?);
      }
      alert := Ok(text);
    }
  }

  /** The line that an episode calls for: which trouble it is, for how long, for how many recorded runs. */
  function LineFor(e: seq<Run>, r: Run): Alert {
    if e == [] then First(Kind(r), if r.found.Some? then r.found.value.reason else "")
    else
      var lasted := r.now - Stamp(e[0].now) * SECOND;
      if r.found.None? then Recovery(IsFail(Kind(e[|e| - 1])), |e|, lasted)
      else if Kind(r) != Kind(e[|e| - 1]) then First(Kind(r), r.found.value.reason)
      else Again(Kind(r), lasted, |e| + 1, r.found.value.reason)
  }

  /** Six hours less a part of a second are six hours in whole seconds, not yet passed. */
  lemma WholeSeconds(now: int, sent: int)
    ensures now - sent * SECOND < REALERT * SECOND <==> Stamp(now) - sent < REALERT
  {
  }

  lemma AlertTextIs(e: seq<Run>, r: Run)
    requires AllTroubled(e)
    ensures AlertText(r.found, SavedFor(e), r.now).Some? <==> Posts(e, r)
    ensures Posts(e, r) ==> AlertText(r.found, SavedFor(e), r.now) == Some(LineFor(e, r))
  {
    if e != [] {
      WholeSeconds(r.now, LastSent(e));
    }
  }

  lemma NextStateIs(e: seq<Run>, r: Run)
    requires AllTroubled(e)
    ensures NextState(r.found, SavedFor(e), r.now, Posts(e, r)) == if r.found.None? then Calm else SavedFor(e + [r])
  {
    if r.found.Some? {
      assert (e + [r])[..|e|] == e;
    }
  }

  // ---------------------------------------------------------------- laws of episodes

  predicate AlertedAt(e: seq<Run>, i: nat)
    requires i < |e|
  {
    DueAfter(e[..i], e[i])
  }

  /** Up to the next alert, the last one sent is the last one alerted. */
  lemma {:induction false} LastSentIs(e: seq<Run>, i: nat, j: nat)
    requires i < j <= |e| && AlertedAt(e, i) && forall k :: i < k < j ==> !AlertedAt(e, k)
    ensures LastSent(e[..j]) == Stamp(e[i].now)
    decreases j
  {
    assert e[..j][..j - 1] == e[..j - 1];
    if j > i + 1 {
      LastSentIs(e, i, j - 1);
      assert !AlertedAt(e, j - 1);
    }
  }

  /** While the kind stays, consecutive alerts of an episode are at least six hours apart. */
  lemma SixHoursApart(e: seq<Run>, i: nat, j: nat)
    requires i < j < |e| && AlertedAt(e, i) && AlertedAt(e, j)
    requires forall k :: i < k < j ==> !AlertedAt(e, k)
    requires Kind(e[j]) == Kind(e[j - 1])
    ensures Stamp(e[j].now) - Stamp(e[i].now) >= REALERT
  {
    LastSentIs(e, i, j);
  }

  /** No kind is silent for six hours: a troubled run that long after the last alert is alerted. */
  lemma NeverSilentForLong(e: seq<Run>, i: nat, j: nat)
    requires i < j < |e| && AlertedAt(e, i) && Stamp(e[j].now) - Stamp(e[i].now) >= REALERT
    ensures exists k :: i < k <= j && AlertedAt(e, k)
  {
    if forall k :: i < k < j ==> !AlertedAt(e, k) {
      LastSentIs(e, i, j);
      assert AlertedAt(e, j);
    } else {
      var k :| i < k < j && AlertedAt(e, k);
    }
  }

  /** Over every run of deliveries, whichever of them fail: what the channel sees is spaced, and stands
      for what the runs call for. */
  method Serve(runs: seq<Run>) returns (file: AlertFile)
    ensures file.Valid() && file.history == runs && Spaced(file.posts) && Current(file.posts, Episode(runs))
  {
    file := new AlertFile();
    for i := 0 to |runs|
      invariant file.Valid() && file.history == runs[..i]
    {
      assert runs[..i + 1] == runs[..i] + [runs[i]];
      var alert := file.Deliver(runs[i]);
    }
    assert runs[..|runs|] == runs;
  }
}
