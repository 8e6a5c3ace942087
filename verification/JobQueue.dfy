/**
 The keyword-extraction job table: every statement the service runs against it.
 At most one row per flashcard may be pending or running (a partial unique
 index); a statement that would break that, or overflow the attempt counter,
 fails and changes nothing.
 */
module JobQueue {
  import opened Basics

  datatype JobState = Pending | Running | Done | Failed

  datatype Job = Job(fcId: nat, priority: int, state: JobState, attempts: nat, enqueuedAt: int, startedAt: Option<int>)

  type Jobs = map<nat, Job>

  /** Largest value of the attempts column. */
  const MAX_ATTEMPTS := 32767

  /** Seconds after which a running row counts as stuck. */
  const STUCK_AFTER := 300

  predicate InFlight(j: Job) {
    j.state == Pending || j.state == Running
  }

  /** The partial unique index. */
  ghost predicate OneInFlight(jobs: Jobs) {
    forall i, j | i in jobs && j in jobs && InFlight(jobs[i]) && InFlight(jobs[j]) ::
      jobs[i].fcId == jobs[j].fcId ==> i == j
  }

  predicate HasInFlight(jobs: Jobs, fcId: nat) {
    exists i | i in jobs :: InFlight(jobs[i]) && jobs[i].fcId == fcId
  }

  function PendingIds(jobs: Jobs): set<nat> {
    set i | i in jobs && jobs[i].state == Pending
  }

  /** The pick-up order: higher priority first, then earlier enqueued. */
  predicate Beats(a: Job, b: Job) {
    a.priority > b.priority || (a.priority == b.priority && a.enqueuedAt < b.enqueuedAt)
  }

  // ----- the statements, as functions of the rows -----

  function Merged(jobs: Jobs, fcId: nat, prio: int): Jobs {
    map i | i in jobs ::
      if InFlight(jobs[i]) && jobs[i].fcId == fcId && prio > jobs[i].priority then jobs[i].(priority := prio)
      else jobs[i]
  }

  function Enqueued(jobs: Jobs, id: nat, fcId: nat, prio: int, now: int): Jobs {
    if HasInFlight(jobs, fcId) then Merged(jobs, fcId, prio)
    else jobs[id := Job(fcId, prio, Pending, 0, now, None)]
  }

  function Started(j: Job, now: int): Job {
    j.(state := Running, startedAt := Some(now))
  }

  function Claimed(jobs: Jobs, ids: set<nat>, now: int): Jobs {
    map i | i in jobs :: if i in ids then Started(jobs[i], now) else jobs[i]
  }

  ghost predicate NoneBeats(jobs: Jobs, left: set<nat>, taken: set<nat>)
    requires left <= jobs.Keys && taken <= jobs.Keys
  {
    forall i, j | i in taken && j in left :: !Beats(jobs[j], jobs[i])
  }

  /** A claim takes as many pending rows as it can up to `n`, and leaves none that beats one it took. */
  ghost predicate IsClaim(jobs: Jobs, n: nat, ids: set<nat>) {
    && ids <= PendingIds(jobs)
    && |ids| == (if n < |PendingIds(jobs)| then n else |PendingIds(jobs)|)
    && NoneBeats(jobs, PendingIds(jobs) - ids, ids)
  }

  function WithState(jobs: Jobs, id: nat, state: JobState): Jobs {
    if id in jobs then jobs[id := jobs[id].(state := state)] else jobs
  }

  /** Back to pending is refused when another row of the flashcard is in flight, or the counter is full. */
  predicate CanRequeue(jobs: Jobs, id: nat) {
    && id in jobs
    && jobs[id].attempts < MAX_ATTEMPTS
    && !exists i | i in jobs :: i != id && InFlight(jobs[i]) && jobs[i].fcId == jobs[id].fcId
  }

  function Requeued(jobs: Jobs, id: nat): Jobs {
    if CanRequeue(jobs, id)
    then jobs[id := jobs[id].(state := Pending, priority := 0, attempts := jobs[id].attempts + 1, startedAt := None)]
    else jobs
  }

  predicate Stuck(j: Job, now: int) {
    j.state == Running && j.startedAt.Some? && j.startedAt.value < now - STUCK_AFTER
  }

  /** One full counter among the stuck rows fails the whole statement. */
  predicate CanReap(jobs: Jobs, now: int) {
    forall i | i in jobs :: Stuck(jobs[i], now) ==> jobs[i].attempts < MAX_ATTEMPTS
  }

  function Reaped(jobs: Jobs, now: int): Jobs {
    if CanReap(jobs, now)
    then map i | i in jobs ::
           if Stuck(jobs[i], now)
           then jobs[i].(state := Pending, attempts := jobs[i].attempts + 1, startedAt := None)
           else jobs[i]
    else jobs
  }

  function WithoutFlashcard(jobs: Jobs, fcId: nat): Jobs {
    map i | i in jobs && jobs[i].fcId != fcId :: jobs[i]
  }

  // ----- the table -----

  datatype ClaimedJob = ClaimedJob(id: nat, fcId: nat, attempts: nat)

  function Handed(jobs: Jobs, id: nat): ClaimedJob
    requires id in jobs
  {
    ClaimedJob(id, jobs[id].fcId, jobs[id].attempts)
  }

  ghost function Ids(cs: seq<ClaimedJob>): set<nat> {
    set c | c in cs :: c.id
  }

  lemma IdsSnoc(cs: seq<ClaimedJob>, c: ClaimedJob)
    ensures Ids(cs + [c]) == Ids(cs) + {c.id}
  {
    assert forall d | d in cs + [c] :: d in cs || d == c;
    assert c in cs + [c] && forall d | d in cs :: d in cs + [c];
  }

  lemma TakeForemost(jobs: Jobs, left: set<nat>, taken: set<nat>, best: nat)
    requires left <= jobs.Keys && taken <= jobs.Keys && best in left
    requires NoneBeats(jobs, left, taken) && forall j | j in left :: !Beats(jobs[j], jobs[best])
    ensures NoneBeats(jobs, left - {best}, taken + {best})
  {
  }

  lemma TakenIsClaim(jobs: Jobs, n: nat, ids: set<nat>, left: set<nat>)
    requires ids <= PendingIds(jobs) && left == PendingIds(jobs) - ids
    requires NoneBeats(jobs, left, ids) && |ids| <= n && (|ids| < n ==> left == {})
    ensures IsClaim(jobs, n, ids)
  {
    assert PendingIds(jobs) == ids + left;
    assert |PendingIds(jobs)| == |ids| + |left|;
  }

  /** A claim under way: `out` is what was picked, `ids` its rows, `left` the pending rows not picked. */
  ghost predicate Picking(jobs: Jobs, out: seq<ClaimedJob>, ids: set<nat>, left: set<nat>) {
    && Ids(out) == ids && |ids| == |out|
    && ids <= PendingIds(jobs) && left == PendingIds(jobs) - ids
    && NoneBeats(jobs, left, ids)
    && forall c | c in out :: c.id in jobs && c == Handed(jobs, c.id)
  }

  lemma PickOne(jobs: Jobs, out: seq<ClaimedJob>, ids: set<nat>, left: set<nat>, best: nat)
    requires Picking(jobs, out, ids, left) && best in left && forall j | j in left :: !Beats(jobs[j], jobs[best])
    ensures Picking(jobs, out + [Handed(jobs, best)], ids + {best}, left - {best})
  {
    IdsSnoc(out, Handed(jobs, best));
    TakeForemost(jobs, left, ids, best);
  }

  /** A claim, row by row and field by field. */
  lemma ClaimedRows(jobs: Jobs, n: nat, ids: set<nat>, now: int)
    requires IsClaim(jobs, n, ids)
    ensures Claimed(jobs, ids, now).Keys == jobs.Keys
    ensures forall i | i in jobs && i !in ids :: Claimed(jobs, ids, now)[i] == jobs[i]
    ensures forall i | i in ids ::
              && i in jobs && jobs[i].state == Pending
              && Claimed(jobs, ids, now)[i] == jobs[i].(state := Running, startedAt := Some(now))
    ensures var pending := set i | i in jobs && jobs[i].state == Pending;
            |ids| == if n < |pending| then n else |pending|
  {
    assert PendingIds(jobs) == set i | i in jobs && jobs[i].state == Pending;
  }

  /** A claim takes pending rows only, as many as asked for, by priority and then by age. */
  lemma ClaimExactlyWhen(jobs: Jobs, n: nat, ids: set<nat>)
    ensures IsClaim(jobs, n, ids) <==>
            var pending := set i | i in jobs && jobs[i].state == Pending;
            && ids <= pending && |ids| == (if n < |pending| then n else |pending|)
            && forall i, j | i in ids && j in pending && j !in ids ::
                 || jobs[i].priority > jobs[j].priority
                 || (jobs[i].priority == jobs[j].priority && jobs[i].enqueuedAt <= jobs[j].enqueuedAt)
  {
    assert PendingIds(jobs) == set i | i in jobs && jobs[i].state == Pending;
    forall i, j | i in ids && ids <= PendingIds(jobs) && j in PendingIds(jobs)
      ensures !Beats(jobs[j], jobs[i]) <==>
              || jobs[i].priority > jobs[j].priority
              || (jobs[i].priority == jobs[j].priority && jobs[i].enqueuedAt <= jobs[j].enqueuedAt)
    {
    }
  }

  class JobTable {
    var jobs: Jobs
    var nextId: nat
    var now: int

    constructor ()
      ensures jobs == map[] && nextId == 0
    {
      jobs, nextId, now := map[], 0, 0;
    }

    method Enqueue(fcId: nat, prio: int)
      modifies this`jobs, this`nextId
      ensures jobs == Enqueued(old(jobs), old(nextId), fcId, prio, now)
      ensures nextId == old(nextId) + 1
      ensures (forall i | i in old(jobs) ::
                 !(old(jobs)[i].fcId == fcId && old(jobs)[i].state in {Pending, Running})) ==>
                jobs == old(jobs)[old(nextId) := Job(fcId, prio, Pending, 0, now, None)]
      ensures (exists i | i in old(jobs) :: old(jobs)[i].fcId == fcId && old(jobs)[i].state in {Pending, Running}) ==>
                && jobs.Keys == old(jobs).Keys
                && forall i | i in jobs ::
                     jobs[i] == if old(jobs)[i].fcId == fcId && old(jobs)[i].state in {Pending, Running}
                                   && old(jobs)[i].priority < prio
                                then old(jobs)[i].(priority := prio) else old(jobs)[i]
    {
      if i :| i in jobs && InFlight(jobs[i]) && jobs[i].fcId == fcId {
        jobs := Merged(jobs, fcId, prio);
      } else {
        jobs := jobs[nextId := Job(fcId, prio, Pending, 0, now, None)];
      }
      nextId := nextId + 1;
    }

    /** One of `ids` that no other of them beats. */
    method Foremost(ids: set<nat>) returns (best: nat)
      requires ids != {} && ids <= jobs.Keys
      ensures best in ids && forall j | j in ids :: !Beats(jobs[j], jobs[best])
    {
      best :| best in ids;
      var rest := ids - {best};
      while rest != {}
        invariant best in ids && rest <= ids
        invariant forall j | j in ids - rest :: !Beats(jobs[j], jobs[best])
        decreases |rest|
      {
        var i :| i in rest;
        if Beats(jobs[i], jobs[best]) {
          best := i;
        }
        rest := rest - {i};
      }
    }

    /** Claims up to `n` pending rows, foremost first. */
    method ClaimPending(n: nat) returns (out: seq<ClaimedJob>)
      modifies this`jobs
      ensures IsClaim(old(jobs), n, Ids(out)) && |Ids(out)| == |out|
      ensures jobs == Claimed(old(jobs), Ids(out), now)
      ensures forall c | c in out :: c.id in old(jobs) && c == Handed(old(jobs), c.id)
      ensures |out| == var pending := |set i | i in old(jobs) && old(jobs)[i].state == Pending|;
                       if n < pending then n else pending
      ensures jobs.Keys == old(jobs).Keys
      ensures forall i | i in old(jobs) && i !in Ids(out) :: jobs[i] == old(jobs)[i]
      ensures forall c | c in out ::
                && old(jobs)[c.id].state == Pending
                && jobs[c.id] == old(jobs)[c.id].(state := Running, startedAt := Some(now))
                && c == ClaimedJob(c.id, old(jobs)[c.id].fcId, old(jobs)[c.id].attempts)
    {
      out := [];
      var ids, left := {}, PendingIds(jobs);
      while |out| < n && left != {}
        invariant jobs == old(jobs) && |out| <= n && Picking(jobs, out, ids, left)
        decreases left
      {
        var best := Foremost(left);
        PickOne(jobs, out, ids, left, best);
        out := out + [Handed(jobs, best)];
        ids := ids + {best};
        left := left - {best};
      }
      TakenIsClaim(jobs, n, ids, left);
      ClaimedRows(jobs, n, ids, now);
      jobs := Claimed(jobs, ids, now);
    }

    method Finish(id: nat, ok: bool)
      modifies this`jobs
      ensures jobs == WithState(old(jobs), id, if ok then Done else Failed)
      ensures jobs == if id in old(jobs)
                      then old(jobs)[id := old(jobs)[id].(state := if ok then Done else Failed)] else old(jobs)
    {
      if id in jobs {
        jobs := jobs[id := jobs[id].(state := if ok then Done else Failed)];
      }
    }

    method RequeueAfterError(id: nat) returns (stored: bool)
      modifies this`jobs
      ensures jobs == Requeued(old(jobs), id)
      ensures stored <==> id !in old(jobs) || CanRequeue(old(jobs), id)
      ensures stored <==>
              || id !in old(jobs)
              || (old(jobs)[id].attempts < 32767
                  && forall i | i in old(jobs) && i != id ::
                       !(old(jobs)[i].fcId == old(jobs)[id].fcId && old(jobs)[i].state in {Pending, Running}))
      ensures jobs == if stored && id in old(jobs)
                      then old(jobs)[id := old(jobs)[id].(state := Pending, priority := 0,
                                                          attempts := old(jobs)[id].attempts + 1, startedAt := None)]
                      else old(jobs)
    {
      if id !in jobs {
        return true;
      }
      var j := jobs[id];
      if j.attempts >= MAX_ATTEMPTS {
        return false;
      }
      if i :| i in jobs && i != id && InFlight(jobs[i]) && jobs[i].fcId == j.fcId {
        return false;
      }
      jobs := jobs[id := j.(state := Pending, priority := 0, attempts := j.attempts + 1, startedAt := None)];
      return true;
    }

    method ReapStuckRunning() returns (stored: bool)
      modifies this`jobs
      ensures jobs == Reaped(old(jobs), now)
      ensures stored <==> CanReap(old(jobs), now)
      ensures !stored <==> exists i | i in old(jobs) ::
                old(jobs)[i].state == Running && old(jobs)[i].startedAt.Some?
                && old(jobs)[i].startedAt.value < now - 300 && old(jobs)[i].attempts >= 32767
      ensures jobs.Keys == old(jobs).Keys
      ensures forall i | i in jobs ::
                jobs[i] == if stored && old(jobs)[i].state == Running && old(jobs)[i].startedAt.Some?
                              && old(jobs)[i].startedAt.value < now - 300
                           then old(jobs)[i].(state := Pending, attempts := old(jobs)[i].attempts + 1,
                                              startedAt := None)
                           else old(jobs)[i]
    {
      if i :| i in jobs && Stuck(jobs[i], now) && jobs[i].attempts >= MAX_ATTEMPTS {
        return false;
      }
      jobs := map i | i in jobs ::
        if Stuck(jobs[i], now)
        then jobs[i].(state := Pending, attempts := jobs[i].attempts + 1, startedAt := None)
        else jobs[i];
      return true;
    }
  }
}
