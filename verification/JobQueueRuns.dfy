/**
 Every interleaving of the statements on the job table: enqueuers, a poller,
 workers that may be slow or crash, the reaper, deleted flashcards and time.
 A worker's completion is not guarded by the row's state, so a worker whose
 claim was reaped still writes.
 */
module JobQueueRuns {
  import opened Basics
  import opened JobQueue

  /** The rows; the claims workers still hold; how often each row was claimed. */
  datatype System = System(jobs: Jobs, nextId: nat, now: int, held: multiset<nat>, claims: map<nat, nat>)

  const EMPTY := System(map[], 0, 0, multiset{}, map[])

  datatype Event =
    | Enqueue(fcId: nat, prio: int)
    | Claim(n: nat, ids: set<nat>)
    | Finish(id: nat, ok: bool)
    | Requeue(id: nat)
    | Crash(id: nat)
    | Reap
    | Delete(fcId: nat)
    | Tick(seconds: nat)

  function Count(claims: map<nat, nat>, id: nat): nat {
    if id in claims then claims[id] else 0
  }

  ghost predicate Enabled(s: System, e: Event) {
    match e
    case Claim(n, ids) => IsClaim(s.jobs, n, ids)
    case Finish(id, _) => id in s.held
    case Requeue(id) => id in s.held
    case Crash(id) => id in s.held
    case _ => true
  }

  function After(s: System, e: Event): System {
    match e
    case Enqueue(fcId, prio) =>
      s.(jobs := Enqueued(s.jobs, s.nextId, fcId, prio, s.now), nextId := s.nextId + 1)
    case Claim(_, ids) =>
      s.(jobs := Claimed(s.jobs, ids, s.now),
         held := s.held + multiset(ids),
         claims := map i | i in s.claims.Keys + ids :: if i in ids then Count(s.claims, i) + 1 else Count(s.claims, i))
    case Finish(id, ok) =>
      s.(jobs := WithState(s.jobs, id, if ok then Done else Failed), held := s.held - multiset{id})
    case Requeue(id) => s.(jobs := Requeued(s.jobs, id), held := s.held - multiset{id})
    case Crash(id) => s.(held := s.held - multiset{id})
    case Reap => s.(jobs := Reaped(s.jobs, s.now))
    case Delete(fcId) => s.(jobs := WithoutFlashcard(s.jobs, fcId))
    case Tick(seconds) => s.(now := s.now + seconds)
  }

  ghost predicate Possible(s: System, run: seq<Event>)
    decreases |run|
  {
    run == [] || (Enabled(s, run[0]) && Possible(After(s, run[0]), run[1..]))
  }

  function AfterAll(s: System, run: seq<Event>): System
    decreases |run|
  {
    if run == [] then s else AfterAll(After(s, run[0]), run[1..])
  }

  // ----- the invariant -----

  /** One row against the workers and the claim count. */
  ghost predicate RowInv(s: System, id: nat)
    requires id in s.jobs
  {
    var j := s.jobs[id];
    && id < s.nextId
    && j.attempts <= MAX_ATTEMPTS
    && s.held[id] <= Count(s.claims, id) <= j.attempts + 1
    && (j.state == Pending ==> Count(s.claims, id) <= j.attempts)
    && (j.state == Running ==> j.startedAt.Some? && j.startedAt.value <= s.now)
  }

  ghost predicate Inv(s: System) {
    && OneInFlight(s.jobs)
    && (forall id | id in s.jobs :: RowInv(s, id))
    && (forall id | id >= s.nextId :: id !in s.claims && id !in s.held)
  }

  lemma EnqueueKeepsInv(s: System, fcId: nat, prio: int)
    requires Inv(s)
    ensures Inv(After(s, Enqueue(fcId, prio)))
  {
    var t := After(s, Enqueue(fcId, prio));
    forall id | id in t.jobs
      ensures RowInv(t, id)
    {
      if id in s.jobs {
        assert RowInv(s, id);
      }
    }
  }

  lemma ClaimKeepsRow(s: System, n: nat, ids: set<nat>, id: nat)
    requires Inv(s) && IsClaim(s.jobs, n, ids) && id in s.jobs
    ensures RowInv(After(s, Claim(n, ids)), id)
  {
    assert RowInv(s, id);
    assert multiset(ids)[id] == if id in ids then 1 else 0;
  }

  lemma ClaimKeepsOneInFlight(jobs: Jobs, n: nat, ids: set<nat>, now: int)
    requires OneInFlight(jobs) && IsClaim(jobs, n, ids)
    ensures OneInFlight(Claimed(jobs, ids, now))
  {
    assert forall i | i in jobs :: InFlight(Claimed(jobs, ids, now)[i]) <==> InFlight(jobs[i]);
  }

  lemma ClaimKeepsInv(s: System, n: nat, ids: set<nat>)
    requires Inv(s) && IsClaim(s.jobs, n, ids)
    ensures Inv(After(s, Claim(n, ids)))
  {
    ClaimKeepsOneInFlight(s.jobs, n, ids, s.now);
    ClaimKeepsRows(s, n, ids);
    assert forall id | id in ids :: RowInv(s, id);
  }

  lemma ClaimKeepsRows(s: System, n: nat, ids: set<nat>)
    requires Inv(s) && IsClaim(s.jobs, n, ids)
    ensures forall id | id in s.jobs :: RowInv(After(s, Claim(n, ids)), id)
  {
    forall id | id in s.jobs
      ensures RowInv(After(s, Claim(n, ids)), id)
    {
      ClaimKeepsRow(s, n, ids, id);
    }
  }

  lemma WorkerKeepsInv(s: System, e: Event)
    requires Inv(s) && Enabled(s, e) && (e.Finish? || e.Requeue? || e.Crash?)
    ensures Inv(After(s, e))
  {
    var t := After(s, e);
    forall id | id in t.jobs
      ensures RowInv(t, id)
    {
      assert RowInv(s, id);
    }
  }

  lemma ReapKeepsInv(s: System)
    requires Inv(s)
    ensures Inv(After(s, Reap))
  {
    var t := After(s, Reap);
    forall id | id in t.jobs
      ensures RowInv(t, id)
    {
      assert RowInv(s, id);
    }
  }

  lemma OtherKeepsInv(s: System, e: Event)
    requires Inv(s) && (e.Delete? || e.Tick?)
    ensures Inv(After(s, e))
  {
    var t := After(s, e);
    forall id | id in t.jobs
      ensures RowInv(t, id)
    {
      assert RowInv(s, id);
    }
  }

  lemma StepKeepsInv(s: System, e: Event)
    requires Inv(s) && Enabled(s, e)
    ensures Inv(After(s, e))
  {
    match e
    case Enqueue(fcId, prio) => EnqueueKeepsInv(s, fcId, prio);
    case Claim(n, ids) => ClaimKeepsInv(s, n, ids);
    case Finish(_, _) => WorkerKeepsInv(s, e);
    case Requeue(_) => WorkerKeepsInv(s, e);
    case Crash(_) => WorkerKeepsInv(s, e);
    case Reap => ReapKeepsInv(s);
    case Delete(_) => OtherKeepsInv(s, e);
    case Tick(_) => OtherKeepsInv(s, e);
  }

  lemma {:induction false} RunKeepsInv(s: System, run: seq<Event>)
    requires Inv(s) && Possible(s, run)
    ensures Inv(AfterAll(s, run))
    decreases |run|
  {
    if run != [] {
      StepKeepsInv(s, run[0]);
      RunKeepsInv(After(s, run[0]), run[1..]);
    }
  }

  // ----- what the ghost counters count -----

  /** The events of `run` that claim row `id`. */
  ghost function ClaimsOf(run: seq<Event>, id: nat): set<nat> {
    set k: nat | k < |run| && run[k].Claim? && id in run[k].ids
  }

  /** The events of `run` in which a worker lets go of row `id`. */
  ghost function ReleasesOf(run: seq<Event>, id: nat): set<nat> {
    set k: nat | k < |run| && (run[k] == Requeue(id) || run[k] == Crash(id) || (run[k].Finish? && run[k].id == id))
  }

  lemma EventsSnoc(run: seq<Event>, e: Event, id: nat)
    ensures ClaimsOf(run + [e], id) == ClaimsOf(run, id) + if e.Claim? && id in e.ids then {|run|} else {}
    ensures ReleasesOf(run + [e], id) ==
            ReleasesOf(run, id)
            + if e == Requeue(id) || e == Crash(id) || (e.Finish? && e.id == id) then {|run|} else {}
  {
  }

  lemma {:induction false} LastEvent(s: System, run: seq<Event>, e: Event)
    requires Possible(s, run + [e])
    ensures Possible(s, run) && Enabled(AfterAll(s, run), e)
    ensures AfterAll(s, run + [e]) == After(AfterAll(s, run), e)
    decreases |run|
  {
    if run == [] {
      assert [] + [e] == [e] && [e][1..] == [];
    } else {
      assert (run + [e])[0] == run[0] && (run + [e])[1..] == run[1..] + [e];
      LastEvent(After(s, run[0]), run[1..], e);
    }
  }

  /** One event, counted. */
  lemma CountStep(s: System, e: Event, id: nat)
    requires Enabled(s, e)
    ensures Count(After(s, e).claims, id) == Count(s.claims, id) + if e.Claim? && id in e.ids then 1 else 0
    ensures After(s, e).held[id] == s.held[id]
            + (if e.Claim? && id in e.ids then 1 else 0)
            - (if e == Requeue(id) || e == Crash(id) || (e.Finish? && e.id == id) then 1 else 0)
  {
    if e.Claim? {
      assert multiset(e.ids)[id] == if id in e.ids then 1 else 0;
    }
  }

  /** A row's claim count is the number of claim events, and its holders are those that did not let go since. */
  lemma {:induction false} CountersCountEvents(run: seq<Event>, id: nat)
    requires Possible(EMPTY, run)
    ensures var s := AfterAll(EMPTY, run);
            && Count(s.claims, id) == |ClaimsOf(run, id)|
            && s.held[id] == |ClaimsOf(run, id)| - |ReleasesOf(run, id)|
    decreases |run|
  {
    if run != [] {
      var before, e := run[..|run| - 1], run[|run| - 1];
      assert before + [e] == run;
      LastEvent(EMPTY, before, e);
      CountersCountEvents(before, id);
      CountStep(AfterAll(EMPTY, before), e, id);
      EventsSnoc(before, e, id);
    } else {
      assert ClaimsOf([], id) == {} && ReleasesOf([], id) == {};
    }
  }

  /**
   In every reachable state: one in-flight row per flashcard; a row was claimed
   at most attempts + 1 times, and at most attempts while it is pending; no more
   workers hold it than that.
   */
  lemma EveryRun(run: seq<Event>)
    requires Possible(EMPTY, run)
    ensures var s := AfterAll(EMPTY, run);
            && (forall i, k | i in s.jobs && k in s.jobs && s.jobs[i].fcId == s.jobs[k].fcId
                              && s.jobs[i].state in {Pending, Running}
                              && s.jobs[k].state in {Pending, Running} :: i == k)
            && forall id | id in s.jobs ::
                 && s.held[id] <= |ClaimsOf(run, id)| <= s.jobs[id].attempts + 1
                 && (s.jobs[id].state == Pending ==> |ClaimsOf(run, id)| <= s.jobs[id].attempts)
  {
    RunKeepsInv(EMPTY, run);
    var s := AfterAll(EMPTY, run);
    forall id | id in s.jobs
      ensures s.held[id] <= |ClaimsOf(run, id)| <= s.jobs[id].attempts + 1
      ensures s.jobs[id].state == Pending ==> |ClaimsOf(run, id)| <= s.jobs[id].attempts
    {
      assert RowInv(s, id);
      CountersCountEvents(run, id);
    }
  }

  // ----- what one statement does for its flashcard -----

  /**
   An enqueue leaves the flashcard with exactly one in-flight row: the one it
   had, at the higher of the two priorities, or a new pending one. All other
   rows are as they were.
   */
  lemma EnqueueLeavesOneJob(s: System, fcId: nat, prio: int) returns (id: nat)
    requires Inv(s)
    ensures var jobs := After(s, Event.Enqueue(fcId, prio)).jobs;
            && id in jobs && jobs[id].state in {Pending, Running} && jobs[id].fcId == fcId && jobs[id].priority >= prio
            && (forall i | i in jobs && jobs[i].state in {Pending, Running} && jobs[i].fcId == fcId :: i == id)
            && (forall i | i in s.jobs && i != id :: i in jobs && jobs[i] == s.jobs[i])
            && jobs.Keys == s.jobs.Keys + {id}
            && (if id in s.jobs
                then jobs[id] == s.jobs[id].(priority := jobs[id].priority)
                     && (jobs[id].priority == prio || jobs[id].priority == s.jobs[id].priority >= prio)
                else jobs[id] == Job(fcId, prio, Pending, 0, s.now, None))
  {
    EnqueueKeepsInv(s, fcId, prio);
    if i :| i in s.jobs && InFlight(s.jobs[i]) && s.jobs[i].fcId == fcId {
      id := i;
    } else {
      id := s.nextId;
      assert id in s.jobs ==> RowInv(s, id);
    }
  }

  /** A requeued job yields: it is never claimed ahead of a pending job of higher priority than a retry's. */
  lemma RequeuedJobYields(jobs: Jobs, id: nat, n: nat, ids: set<nat>, other: nat)
    requires CanRequeue(jobs, id) && IsClaim(Requeued(jobs, id), n, ids) && id in ids
    requires other in jobs && other != id && jobs[other].state == Pending && jobs[other].priority > 0
    ensures other in ids
  {
    var after := Requeued(jobs, id);
    assert other in PendingIds(after);
    assert Beats(after[other], after[id]);
  }

  // ----- recovery -----

  /**
   No running row is taken from its worker early: up to five minutes after a
   claim, a reap leaves every claimed row as the claim left it.
   */
  lemma FreshClaimSurvivesReap(run: seq<Event>, n: nat, ids: set<nat>, wait: nat)
    requires Possible(EMPTY, run) && IsClaim(AfterAll(EMPTY, run).jobs, n, ids) && wait <= 300
    ensures var s := AfterAll(EMPTY, run);
            var t := After(After(After(s, Claim(n, ids)), Tick(wait)), Reap);
            forall id | id in ids ::
              && id in s.jobs && id in t.jobs
              && t.jobs[id] == s.jobs[id].(state := Running, startedAt := Some(s.now))
  {
    ReapSparesFresh(AfterAll(EMPTY, run), n, ids, wait);
  }

  lemma ReapSparesFresh(s: System, n: nat, ids: set<nat>, wait: nat)
    requires IsClaim(s.jobs, n, ids) && wait <= 300
    ensures var t := After(After(After(s, Claim(n, ids)), Tick(wait)), Reap);
            forall id | id in ids ::
              && id in s.jobs && id in t.jobs
              && t.jobs[id] == s.jobs[id].(state := Running, startedAt := Some(s.now))
  {
    ClaimedRows(s.jobs, n, ids, s.now);
  }

  /**
   No running row is beyond the reaper: after more than five minutes a reap
   leaves none running, unless some stuck row's counter is full, when it does
   nothing at all.
   */
  lemma ReapRecoversEveryRow(run: seq<Event>, wait: nat)
    requires Possible(EMPTY, run) && wait > 300
    ensures var s := After(AfterAll(EMPTY, run), Tick(wait));
            if forall id | id in s.jobs && s.jobs[id].state == Running :: s.jobs[id].attempts < 32767
            then forall id | id in s.jobs :: After(s, Reap).jobs[id].state != Running
            else After(s, Reap) == s
  {
    RunKeepsInv(EMPTY, run);
    var s := After(AfterAll(EMPTY, run), Tick(wait));
    forall id | id in s.jobs
      ensures Stuck(s.jobs[id], s.now) <==> s.jobs[id].state == Running
    {
      assert RowInv(AfterAll(EMPTY, run), id);
    }
  }

  // ----- terminal states -----

  /** A done or failed row is changed by a worker still holding it, or goes with its flashcard; by nothing else. */
  lemma TerminalRowChangesExactlyBy(s: System, e: Event, id: nat)
    requires Inv(s) && Enabled(s, e) && id in s.jobs && s.jobs[id].state in {Done, Failed}
    ensures !(id in After(s, e).jobs && After(s, e).jobs[id] == s.jobs[id]) <==>
            || (e == Requeue(id) && CanRequeue(s.jobs, id))
            || (e.Finish? && e.id == id && e.ok != (s.jobs[id].state == Done))
            || (e.Delete? && e.fcId == s.jobs[id].fcId)
  {
    assert RowInv(s, id);
  }

  /** Once no worker holds it, a done or failed row keeps its contents as long as it exists. */
  lemma {:induction false} ReleasedTerminalRowIsFinal(s: System, run: seq<Event>, id: nat)
    requires Inv(s) && Possible(s, run) && id in s.jobs && s.jobs[id].state in {Done, Failed} && s.held[id] == 0
    ensures id in AfterAll(s, run).jobs ==> AfterAll(s, run).jobs[id] == s.jobs[id]
    decreases |run|
  {
    if run != [] {
      var t := After(s, run[0]);
      StepKeepsInv(s, run[0]);
      TerminalRowChangesExactlyBy(s, run[0], id);
      assert RowInv(s, id);
      if id in t.jobs {
        ReleasedTerminalRowIsFinal(t, run[1..], id);
      } else {
        DeletedRowStaysAway(t, run[1..], id);
      }
    }
  }

  lemma {:induction false} DeletedRowStaysAway(s: System, run: seq<Event>, id: nat)
    requires id !in s.jobs && id < s.nextId && Possible(s, run)
    ensures id !in AfterAll(s, run).jobs
    decreases |run|
  {
    if run != [] {
      DeletedRowStaysAway(After(s, run[0]), run[1..], id);
    }
  }

  ghost predicate Reaches(run: seq<Event>, s: System) {
    Possible(EMPTY, run) && AfterAll(EMPTY, run) == s
  }

  lemma {:induction false} Extend(from: System, run: seq<Event>, e: Event)
    requires Possible(from, run) && Enabled(AfterAll(from, run), e)
    ensures Possible(from, run + [e]) && AfterAll(from, run + [e]) == After(AfterAll(from, run), e)
    decreases |run|
  {
    if run == [] {
      assert [e][1..] == [];
    } else {
      assert (run + [e])[1..] == run[1..] + [e];
      Extend(After(from, run[0]), run[1..], e);
    }
  }

  lemma OnlyRowIsClaimed(run: seq<Event>, s: System)
    requires Reaches(run, s) && 0 in s.jobs && PendingIds(s.jobs) == {0}
    ensures Reaches(run + [Claim(1, {0})], After(s, Claim(1, {0})))
  {
    Extend(EMPTY, run, Claim(1, {0}));
  }

  /** A claim of the only row is reaped five minutes later; the worker still holds it. */
  lemma ClaimIsReaped(run: seq<Event>, s: System, j: Job) returns (reaped: seq<Event>, t: System)
    requires Reaches(run, s) && s.jobs == map[0 := Started(j, s.now)] && j == Job(7, 1, Pending, 0, 0, None)
    ensures Reaches(reaped, t) && t.jobs == map[0 := j.(attempts := 1)] && t.held == s.held
  {
    var wait := Tick(STUCK_AFTER + 1);
    Extend(EMPTY, run, wait);
    Extend(EMPTY, run + [wait], Reap);
    reaped, t := run + [wait] + [Reap], After(After(s, wait), Reap);
    assert Stuck(s.jobs[0], s.now + STUCK_AFTER + 1);
    assert t.jobs == map[0 := j.(attempts := 1)];
  }

  lemma OneJobIsClaimed(j: Job) returns (run: seq<Event>, s: System)
    requires j == Job(7, 1, Pending, 0, 0, None)
    ensures Reaches(run, s) && s.jobs == map[0 := Started(j, s.now)] && s.held == multiset{0}
  {
    Extend(EMPTY, [], Enqueue(7, 1));
    assert [] + [Enqueue(7, 1)] == [Enqueue(7, 1)];
    var s0 := After(EMPTY, Enqueue(7, 1));
    assert s0.jobs == map[0 := j];
    OnlyRowIsClaimed([Enqueue(7, 1)], s0);
    run, s := [Enqueue(7, 1)] + [Claim(1, {0})], After(s0, Claim(1, {0}));
    assert s.jobs == map[0 := Started(j, s.now)];
  }

  /** Terminal states are not absorbing: a worker whose claim was reaped can put a done row back to pending. */
  lemma StaleWorkerRevivesDoneRow() returns (run: seq<Event>, last: Event)
    ensures Possible(EMPTY, run) && Enabled(AfterAll(EMPTY, run), last)
    ensures var s := AfterAll(EMPTY, run);
            && 0 in s.jobs && s.jobs[0].state == Done
            && 0 in After(s, last).jobs && After(s, last).jobs[0].state == Pending
  {
    var j := Job(7, 1, Pending, 0, 0, None);
    var claimed, s := OneJobIsClaimed(j);
    var reaped, t := ClaimIsReaped(claimed, s, j);
    OnlyRowIsClaimed(reaped, t);
    var u := After(t, Claim(1, {0}));
    assert u.held[0] == 2;
    Extend(EMPTY, reaped + [Claim(1, {0})], Finish(0, true));
    run, last := reaped + [Claim(1, {0})] + [Finish(0, true)], Requeue(0);
    assert CanRequeue(After(u, Finish(0, true)).jobs, 0);
  }
}
