/** Running one claimed job, and draining the queue job by job. */
module KeywordRunner {
  import opened Basics
  import opened TextFields
  import opened Keywords
  import JobQueue

  datatype Load = Loaded | NoRow | LoadError

  /** What the outside does to one run: the flashcard read, the model's answer, a broken store, a cancelled context. */
  datatype World = World(load: Load, answer: Option<seq<Keyword>>, storeBroken: bool, cancelled: bool)

  datatype Verdict = Succeeded | GaveUp | Interrupted

  /** The keywords of one flashcard are exactly `m` with its weights rounded, all other rows are as before. */
  ghost predicate HoldsExactly(round: real -> real, before: Rows, after: Rows, fcId: nat, m: map<string, real>) {
    && (forall k :: (fcId, k) in after <==> k in m)
    && (forall k | k in m :: (fcId, k) in after && after[(fcId, k)] == round(m[k]))
    && (forall f, k | f != fcId :: (f, k) in after <==> (f, k) in before)
    && (forall f, k | f != fcId && (f, k) in before :: (f, k) in after && after[(f, k)] == before[(f, k)])
  }

  predicate Storable(round: real -> real, m: map<string, real>) {
    m != map[] && forall k | k in m :: 0.0 <= round(m[k]) <= 1.0
  }

  lemma StoredListHoldsExactly(round: real -> real, before: Rows, fcId: nat, out: seq<Keyword>, m: map<string, real>)
    requires Lists(out, m)
    ensures HoldsExactly(round, before, Replaced(round, before, fcId, out), fcId, m)
  {
    ReplacedRows(round, before, fcId, out);
    forall k | k in m
      ensures exists i | 0 <= i < |out| :: out[i].keyword == k && out[i].weight == m[k]
    {
      assert Keyword(k, m[k]) in out;
    }
  }

  /** The row's new contents under each verdict. */
  function Settled(jobs: JobQueue.Jobs, id: nat, v: Verdict): JobQueue.Jobs {
    match v
    case Succeeded => JobQueue.WithState(jobs, id, JobQueue.Done)
    case GaveUp => JobQueue.WithState(jobs, id, JobQueue.Failed)
    case Interrupted => JobQueue.Requeued(jobs, id)
  }

  /** Done on success, failed on giving up; an interrupted job goes back to pending, one attempt older, or stays. */
  lemma SettledRow(jobs: JobQueue.Jobs, id: nat)
    ensures Settled(jobs, id, Succeeded) ==
            if id in jobs then jobs[id := jobs[id].(state := JobQueue.Done)] else jobs
    ensures Settled(jobs, id, GaveUp) ==
            if id in jobs then jobs[id := jobs[id].(state := JobQueue.Failed)] else jobs
    ensures var refused :=
              || id !in jobs || jobs[id].attempts >= 32767
              || exists i | i in jobs && i != id ::
                   jobs[i].fcId == jobs[id].fcId && jobs[i].state in {JobQueue.Pending, JobQueue.Running};
            Settled(jobs, id, Interrupted) ==
            if refused then jobs
            else jobs[id := jobs[id].(state := JobQueue.Pending, priority := 0, attempts := jobs[id].attempts + 1,
                                      startedAt := None)]
  {
  }

  /** What the keyword table holds when a job's keywords were stored, row by row. */
  lemma StoredRow(round: real -> real, before: Rows, after: Rows, fcId: nat, m: map<string, real>, f: nat, k: string)
    requires HoldsExactly(round, before, after, fcId, m) && Storable(round, m)
    ensures (f, k) in after <==> if f == fcId then k in m else (f, k) in before
    ensures (f, k) in after ==> after[(f, k)] == if f == fcId then round(m[k]) else before[(f, k)]
    ensures f == fcId && (f, k) in after ==> 0.0 <= after[(f, k)] <= 1.0
    ensures m != map[]
  {
  }

  method Fail(table: JobQueue.JobTable, id: nat, w: World) returns (v: Verdict)
    modifies table`jobs
    ensures v == if w.cancelled then Interrupted else GaveUp
    ensures table.jobs == Settled(old(table.jobs), id, v)
  {
    if w.cancelled {
      v := Interrupted;
      var stored := table.RequeueAfterError(id);
    } else {
      v := GaveUp;
      table.Finish(id, false);
    }
  }

  /** Replaces the flashcard's keywords by a cleaned, non-empty list, all or nothing. */
  method Store(keywords: KeywordTable, fcId: nat, cleaned: seq<Keyword>, broken: bool, ghost m: map<string, real>)
      returns (stored: bool)
    requires Lists(cleaned, m) && cleaned != []
    modifies keywords
    ensures stored <==> !broken && Storable(keywords.round, m)
    ensures if stored then HoldsExactly(keywords.round, old(keywords.rows), keywords.rows, fcId, m)
            else keywords.rows == old(keywords.rows)
  {
    CleanedFitsExactlyWhen(keywords.round, cleaned, m);
    StoredListHoldsExactly(keywords.round, keywords.rows, fcId, cleaned, m);
    assert cleaned[0].keyword in m;
    if broken {
      return false;
    }
    stored := keywords.ReplaceKeywords(fcId, cleaned);
  }

  /**
   A job succeeds exactly when its flashcard is gone or its cleaned keywords
   were stored; only then do keyword rows change, and then to exactly the best
   weight of every eligible keyword of the answer.
   */
  method RunJob(cc: CharClass, table: JobQueue.JobTable, keywords: KeywordTable, j: JobQueue.ClaimedJob, w: World)
      returns (v: Verdict, ghost m: map<string, real>)
    modifies table`jobs, keywords
    ensures table.jobs == Settled(old(table.jobs), j.id, v)
    ensures w.load == Loaded && w.answer.Some? ==> IsBest(cc, w.answer.value, m)
    ensures var stored := && w.load == Loaded && w.answer.Some? && !w.storeBroken
                          && m != map[] && forall k | k in m :: 0.0 <= keywords.round(m[k]) <= 1.0;
            && (v == Succeeded <==> w.load == NoRow || stored)
            && (v != Succeeded ==> (v == Interrupted <==> w.cancelled))
            && (if stored then HoldsExactly(keywords.round, old(keywords.rows), keywords.rows, j.fcId, m)
                else keywords.rows == old(keywords.rows))
  {
    m := map[];
    if w.load != Loaded {
      if w.load == NoRow {
        table.Finish(j.id, true);
        return Succeeded, m;
      }
      v := Fail(table, j.id, w);
      return;
    }
    if w.answer.None? {
      v := Fail(table, j.id, w);
      return;
    }
    var cleaned := Postprocess(cc, w.answer.value);
    m := Entries(cleaned);
    if |cleaned| == 0 {
      EmptyListsNothing(cleaned, m);
      v := Fail(table, j.id, w);
      return;
    }
    var stored := Store(keywords, j.fcId, cleaned, w.storeBroken, m);
    if !stored {
      v := Fail(table, j.id, w);
      return;
    }
    table.Finish(j.id, true);
    v := Succeeded;
  }

  lemma EmptyListsNothing(out: seq<Keyword>, m: map<string, real>)
    requires Lists(out, m) && out == []
    ensures m == map[]
  {
    assert forall k | k in m :: Keyword(k, m[k]) in out;
    assert m.Keys == {};
  }

  // ----- draining -----

  /** One foremost pending row was claimed and settled; with none pending, nothing. */
  ghost predicate OneJobRun(before: JobQueue.Jobs, after: JobQueue.Jobs, now: int, cancelled: bool) {
    if JobQueue.PendingIds(before) == {} then after == before
    else exists id, v ::
      && JobQueue.IsClaim(before, 1, {id})
      && (v == Interrupted ==> cancelled)
      && after == Settled(JobQueue.Claimed(before, {id}, now), id, v)
  }

  lemma OneClaimed(out: seq<JobQueue.ClaimedJob>)
    requires |out| == 1
    ensures JobQueue.Ids(out) == {out[0].id}
  {
    assert [] + [out[0]] == out;
    JobQueue.IdsSnoc([], out[0]);
    assert JobQueue.Ids([]) == {};
  }

  method RunOnce(cc: CharClass, table: JobQueue.JobTable, keywords: KeywordTable, w: World)
      returns (n: nat, ghost id: nat, ghost v: Verdict, ghost m: map<string, real>)
    modifies table`jobs, keywords
    ensures n == if JobQueue.PendingIds(old(table.jobs)) == {} then 0 else 1
    ensures n == 0 ==> table.jobs == old(table.jobs) && keywords.rows == old(keywords.rows)
    ensures n == 1 ==>
              && JobQueue.IsClaim(old(table.jobs), 1, {id})
              && table.jobs == Settled(JobQueue.Claimed(old(table.jobs), {id}, table.now), id, v)
              && (w.load == Loaded && w.answer.Some? ==> IsBest(cc, w.answer.value, m))
              && var stored := && w.load == Loaded && w.answer.Some? && !w.storeBroken
                               && m != map[] && forall k | k in m :: 0.0 <= keywords.round(m[k]) <= 1.0;
                 && (v == Succeeded <==> w.load == NoRow || stored)
                 && (v != Succeeded ==> (v == Interrupted <==> w.cancelled))
                 && id in old(table.jobs)
                 && (if stored
                     then HoldsExactly(keywords.round, old(keywords.rows), keywords.rows, old(table.jobs)[id].fcId, m)
                     else keywords.rows == old(keywords.rows))
    ensures OneJobRun(old(table.jobs), table.jobs, table.now, w.cancelled)
  {
    ghost var before := table.jobs;
    n, id, v, m := 0, 0, GaveUp, map[];
    var jobs := table.ClaimPending(1);
    if |jobs| == 0 {
      assert JobQueue.Ids(jobs) == {};
      assert table.jobs == before;
      return;
    }
    OneClaimed(jobs);
    n, id := 1, jobs[0].id;
    v, m := RunJob(cc, table, keywords, jobs[0], w);
  }

  lemma OneFewerPending(before: JobQueue.Jobs, after: JobQueue.Jobs, now: int)
    requires OneJobRun(before, after, now, false) && JobQueue.PendingIds(before) != {}
    ensures |JobQueue.PendingIds(after)| == |JobQueue.PendingIds(before)| - 1
  {
    var id, v :| JobQueue.IsClaim(before, 1, {id}) && v != Interrupted
                 && after == Settled(JobQueue.Claimed(before, {id}, now), id, v);
    assert id in JobQueue.PendingIds(before);
    assert JobQueue.PendingIds(after) == JobQueue.PendingIds(before) - {id};
  }

  /**
   Without new jobs and without cancellation, job by job, the queue is empty
   after exactly as many runs as there were pending rows, and not before.
   */
  lemma {:induction false} DrainsInPendingManyRuns(states: seq<JobQueue.Jobs>, nows: seq<int>, k: nat)
    requires k < |states| && |nows| == |states|
    requires forall i | 0 <= i < |states| - 1 :: OneJobRun(states[i], states[i + 1], nows[i], false)
    ensures var p := |JobQueue.PendingIds(states[0])|;
            |JobQueue.PendingIds(states[k])| == if k < p then p - k else 0
    decreases k
  {
    if k > 0 {
      DrainsInPendingManyRuns(states, nows, k - 1);
      assert OneJobRun(states[k - 1], states[k - 1 + 1], nows[k - 1], false);
      if JobQueue.PendingIds(states[k - 1]) != {} {
        OneFewerPending(states[k - 1], states[k], nows[k - 1]);
      }
    }
  }
}
