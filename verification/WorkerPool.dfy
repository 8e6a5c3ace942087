/**
 The worker process around the runner: one poller, a buffered channel and a
 fixed number of consumers, any of which may be told to stop at any point.
 Jobs are named by their row id.
 */
module WorkerPool {

  /** A consumer: waiting for a job, holding one, or gone. */
  datatype Hand = Idle | Holding(job: nat) | Gone

  /**
   `claimed` and `taken` are the poller's claims and the consumers' receipts in
   order; the rest is where a claimed job can be.
   */
  datatype Pool = Pool(
    polling: bool,
    claimed: seq<nat>,
    batch: seq<nat>,
    channel: seq<nat>,
    taken: seq<nat>,
    hands: seq<Hand>,
    finished: multiset<nat>,
    dropped: multiset<nat>)

  function Fresh(workers: nat): Pool {
    Pool(true, [], [], [], [], seq(workers, i => Idle), multiset{}, multiset{})
  }

  datatype Event =
    | Poll(jobs: seq<nat>)
    | HandOn
    | StopPolling
    | Take(consumer: nat)
    | Finish(consumer: nat)
    | LimiterFails(consumer: nat)
    | ChannelEnds(consumer: nat)

  predicate Enabled(p: Pool, e: Event) {
    match e
    case Poll(jobs) => p.polling && p.batch == [] && |jobs| <= |p.hands|
    case HandOn => p.polling && p.batch != [] && |p.channel| < |p.hands|
    case StopPolling => p.polling
    case Take(c) => c < |p.hands| && p.hands[c] == Idle && p.channel != []
    case Finish(c) => c < |p.hands| && p.hands[c].Holding?
    case LimiterFails(c) => c < |p.hands| && p.hands[c].Holding?
    case ChannelEnds(c) => c < |p.hands| && p.hands[c] == Idle && p.channel == [] && !p.polling
  }

  function After(p: Pool, e: Event): Pool
    requires Enabled(p, e)
  {
    match e
    case Poll(jobs) => p.(claimed := p.claimed + jobs, batch := jobs)
    case HandOn => p.(batch := p.batch[1..], channel := p.channel + [p.batch[0]])
    case StopPolling => p.(polling := false, batch := [], dropped := p.dropped + multiset(p.batch))
    case Take(c) =>
      p.(channel := p.channel[1..], taken := p.taken + [p.channel[0]], hands := p.hands[c := Holding(p.channel[0])])
    case Finish(c) => p.(hands := p.hands[c := Idle], finished := p.finished + multiset{p.hands[c].job})
    case LimiterFails(c) => p.(hands := p.hands[c := Gone], dropped := p.dropped + multiset{p.hands[c].job})
    case ChannelEnds(c) => p.(hands := p.hands[c := Gone])
  }

  predicate Possible(p: Pool, run: seq<Event>)
    decreases |run|
  {
    run == [] || (Enabled(p, run[0]) && Possible(After(p, run[0]), run[1..]))
  }

  function AfterAll(p: Pool, run: seq<Event>): Pool
    requires Possible(p, run)
    decreases |run|
  {
    if run == [] then p else AfterAll(After(p, run[0]), run[1..])
  }

  function JobOf(h: Hand): multiset<nat> {
    if h.Holding? then multiset{h.job} else multiset{}
  }

  /** The jobs in the consumers' hands. */
  function InHand(hands: seq<Hand>): multiset<nat>
    decreases |hands|
  {
    if hands == [] then multiset{} else InHand(hands[..|hands| - 1]) + JobOf(hands[|hands| - 1])
  }

  lemma {:induction false} InHandBoth(a: seq<Hand>, b: seq<Hand>)
    ensures InHand(a + b) == InHand(a) + InHand(b)
    decreases |b|
  {
    if b == [] {
      assert a + b == a;
    } else {
      var n := |b| - 1;
      assert (a + b)[..|a + b| - 1] == a + b[..n] && (a + b)[|a + b| - 1] == b[n];
      InHandBoth(a, b[..n]);
    }
  }

  lemma OneInHand(h: Hand)
    ensures InHand([h]) == JobOf(h)
  {
    assert [h][..0] == [];
  }

  lemma InHandAround(a: seq<Hand>, h: Hand, b: seq<Hand>)
    ensures InHand(a + [h] + b) == InHand(a) + JobOf(h) + InHand(b)
  {
    InHandBoth(a, [h]);
    InHandBoth(a + [h], b);
    OneInHand(h);
  }

  /** One consumer's hand changes. */
  lemma HandChanges(hands: seq<Hand>, c: nat, h: Hand)
    requires c < |hands|
    ensures InHand(hands[c := h]) + JobOf(hands[c]) == InHand(hands) + JobOf(h)
  {
    var a, b := hands[..c], hands[c + 1..];
    assert hands == a + [hands[c]] + b && hands[c := h] == a + [h] + b;
    InHandAround(a, hands[c], b);
    InHandAround(a, h, b);
  }

  lemma {:induction false} OneJobAHand(hands: seq<Hand>)
    ensures |InHand(hands)| <= |hands|
    ensures (forall i | 0 <= i < |hands| :: !hands[i].Holding?) ==> InHand(hands) == multiset{}
    decreases |hands|
  {
    if hands != [] {
      OneJobAHand(hands[..|hands| - 1]);
    }
  }

  ghost predicate Accounted(p: Pool) {
    multiset(p.claimed) == multiset(p.batch) + multiset(p.channel) + InHand(p.hands) + p.finished + p.dropped
  }

  ghost predicate InOrder(p: Pool) {
    && (p.polling ==> p.claimed == p.taken + p.channel + p.batch)
    && (!p.polling ==> p.batch == [] && p.taken + p.channel <= p.claimed)
    && |p.batch| <= |p.hands| && |p.channel| <= |p.hands|
  }

  lemma HandOnKeepsOrder(p: Pool)
    requires InOrder(p) && Enabled(p, HandOn)
    ensures InOrder(After(p, HandOn)) && |After(p, HandOn).hands| == |p.hands|
  {
    assert p.batch == [p.batch[0]] + p.batch[1..];
  }

  lemma TakeKeepsOrder(p: Pool, c: nat)
    requires InOrder(p) && Enabled(p, Take(c))
    ensures InOrder(After(p, Take(c))) && |After(p, Take(c)).hands| == |p.hands|
  {
    assert p.channel == [p.channel[0]] + p.channel[1..];
    assert p.taken + [p.channel[0]] + p.channel[1..] == p.taken + p.channel;
  }

  lemma StepKeepsOrder(p: Pool, e: Event)
    requires InOrder(p) && Enabled(p, e)
    ensures InOrder(After(p, e)) && |After(p, e).hands| == |p.hands|
  {
    match e
    case HandOn => HandOnKeepsOrder(p);
    case Take(c) => TakeKeepsOrder(p, c);
    case _ =>
  }

  lemma HandOnKeepsAccount(p: Pool)
    requires Accounted(p) && Enabled(p, HandOn)
    ensures Accounted(After(p, HandOn))
  {
    assert p.batch == [p.batch[0]] + p.batch[1..];
    assert multiset(p.batch) + multiset(p.channel) == multiset(p.batch[1..]) + multiset(p.channel + [p.batch[0]]);
  }

  lemma TakeKeepsAccount(p: Pool, c: nat)
    requires Accounted(p) && Enabled(p, Take(c))
    ensures Accounted(After(p, Take(c)))
  {
    var t := After(p, Take(c));
    assert p.channel == [p.channel[0]] + p.channel[1..];
    HandChanges(p.hands, c, Holding(p.channel[0]));
    assert InHand(t.hands) == InHand(p.hands) + multiset{p.channel[0]};
    assert multiset(t.channel) + InHand(t.hands) == multiset(p.channel) + InHand(p.hands);
  }

  lemma ReleaseKeepsAccount(p: Pool, e: Event)
    requires Accounted(p) && Enabled(p, e) && (e.Finish? || e.LimiterFails?)
    ensures Accounted(After(p, e))
  {
    var t := After(p, e);
    HandChanges(p.hands, e.consumer, t.hands[e.consumer]);
    var job := multiset{p.hands[e.consumer].job};
    assert InHand(t.hands) + job == InHand(p.hands);
    if e.Finish? {
      assert t.finished == p.finished + job;
    } else {
      assert t.dropped == p.dropped + job;
    }
    OutOfHand(multiset(p.batch) + multiset(p.channel), InHand(t.hands), job, p.finished, p.dropped);
  }

  lemma OutOfHand(waiting: multiset<nat>, hands: multiset<nat>, job: multiset<nat>, finished: multiset<nat>,
                  dropped: multiset<nat>)
    ensures waiting + (hands + job) + finished + dropped == waiting + hands + (finished + job) + dropped
    ensures waiting + (hands + job) + finished + dropped == waiting + hands + finished + (dropped + job)
  {
  }

  lemma GoingKeepsAccount(p: Pool, c: nat)
    requires Accounted(p) && Enabled(p, ChannelEnds(c))
    ensures Accounted(After(p, ChannelEnds(c)))
  {
    HandChanges(p.hands, c, Gone);
    assert InHand(p.hands[c := Gone]) + multiset{} == InHand(p.hands[c := Gone]);
    assert InHand(p.hands) + multiset{} == InHand(p.hands);
  }

  lemma StepKeepsAccount(p: Pool, e: Event)
    requires Accounted(p) && Enabled(p, e)
    ensures Accounted(After(p, e))
  {
    match e
    case Poll(_) =>
    case HandOn => HandOnKeepsAccount(p);
    case StopPolling =>
    case Take(c) => TakeKeepsAccount(p, c);
    case Finish(_) => ReleaseKeepsAccount(p, e);
    case LimiterFails(_) => ReleaseKeepsAccount(p, e);
    case ChannelEnds(c) => GoingKeepsAccount(p, c);
  }

  lemma {:induction false} RunKeepsBoth(p: Pool, run: seq<Event>)
    requires Accounted(p) && InOrder(p) && Possible(p, run)
    ensures Accounted(AfterAll(p, run)) && InOrder(AfterAll(p, run)) && |AfterAll(p, run).hands| == |p.hands|
    decreases |run|
  {
    if run != [] {
      StepKeepsOrder(p, run[0]);
      StepKeepsAccount(p, run[0]);
      RunKeepsBoth(After(p, run[0]), run[1..]);
    }
  }

  /**
   Every run of the process: no claimed job is lost sight of or duplicated,
   consumers receive in claim order, and at most three jobs per worker are
   claimed without being finished or dropped.
   */
  lemma EveryRun(workers: nat, run: seq<Event>)
    requires Possible(Fresh(workers), run)
    ensures var p := AfterAll(Fresh(workers), run);
            && multiset(p.claimed) == multiset(p.batch) + multiset(p.channel) + InHand(p.hands) + p.finished + p.dropped
            && p.taken + p.channel <= p.claimed
            && |p.claimed| - |p.finished| - |p.dropped| <= 3 * workers
  {
    OneJobAHand(Fresh(workers).hands);
    RunKeepsBoth(Fresh(workers), run);
    var p := AfterAll(Fresh(workers), run);
    OneJobAHand(p.hands);
    assert |multiset(p.claimed)| == |p.claimed| && |multiset(p.batch)| == |p.batch|;
    assert |multiset(p.channel)| == |p.channel|;
  }

  /** Once polling has stopped and no consumer is left, unfinished jobs were dropped or left in the channel. */
  lemma AfterShutdown(workers: nat, run: seq<Event>)
    requires Possible(Fresh(workers), run)
    requires var p := AfterAll(Fresh(workers), run); !p.polling && forall i | 0 <= i < |p.hands| :: p.hands[i] == Gone
    ensures var p := AfterAll(Fresh(workers), run);
            multiset(p.claimed) == p.finished + p.dropped + multiset(p.channel)
  {
    OneJobAHand(Fresh(workers).hands);
    RunKeepsBoth(Fresh(workers), run);
    OneJobAHand(AfterAll(Fresh(workers), run).hands);
  }

  /** Jobs are finished by consumers only, and dropped only when polling stops or the limiter fails. */
  lemma {:induction false} FinishedAndDroppedBy(p: Pool, run: seq<Event>)
    requires Possible(p, run)
    ensures (forall k | 0 <= k < |run| :: !run[k].Finish?) ==> AfterAll(p, run).finished == p.finished
    ensures (forall k | 0 <= k < |run| :: !run[k].StopPolling? && !run[k].LimiterFails?) ==>
              AfterAll(p, run).dropped == p.dropped
    decreases |run|
  {
    if run != [] {
      FinishedAndDroppedBy(After(p, run[0]), run[1..]);
      assert forall k | 0 <= k < |run| - 1 :: run[1..][k] == run[k + 1];
    }
  }

  // ----- the bound is reached -----

  ghost predicate Leads(p: Pool, run: seq<Event>, q: Pool) {
    Possible(p, run) && AfterAll(p, run) == q
  }

  lemma {:induction false} RunsCompose(p: Pool, a: seq<Event>, q: Pool, b: seq<Event>, r: Pool)
    requires Leads(p, a, q) && Leads(q, b, r)
    ensures Leads(p, a + b, r)
    decreases |a|
  {
    if a == [] {
      assert a + b == b;
    } else {
      assert (a + b)[0] == a[0] && (a + b)[1..] == a[1..] + b;
      RunsCompose(After(p, a[0]), a[1..], q, b, r);
    }
  }

  lemma OneEvent(p: Pool, e: Event)
    requires Enabled(p, e)
    ensures Leads(p, [e], After(p, e))
  {
    assert [e][1..] == [];
  }

  /** The whole batch is handed on while the channel has room. */
  lemma {:induction false} HandOnAll(p: Pool) returns (run: seq<Event>)
    requires p.polling && |p.channel| + |p.batch| <= |p.hands|
    ensures Leads(p, run, p.(batch := [], channel := p.channel + p.batch))
    decreases |p.batch|
  {
    var end := p.(batch := [], channel := p.channel + p.batch);
    if p.batch == [] {
      run := [];
      assert p.channel + p.batch == p.channel;
    } else {
      var q := After(p, HandOn);
      var rest := HandOnAll(q);
      assert q.channel + q.batch == p.channel + p.batch;
      OneEvent(p, HandOn);
      RunsCompose(p, [HandOn], q, rest, end);
      run := [HandOn] + rest;
    }
  }

  /** Idle consumers from `c` on take the whole channel. */
  lemma {:induction false} TakeAll(p: Pool, c: nat) returns (run: seq<Event>, hands: seq<Hand>)
    requires c + |p.channel| == |p.hands| && forall i | c <= i < |p.hands| :: p.hands[i] == Idle
    ensures |hands| == |p.hands|
    ensures Leads(p, run, p.(channel := [], taken := p.taken + p.channel, hands := hands))
    decreases |p.channel|
  {
    if p.channel == [] {
      run, hands := [], p.hands;
      assert p.taken + p.channel == p.taken;
    } else {
      var q := After(p, Take(c));
      var rest;
      rest, hands := TakeAll(q, c + 1);
      assert q.taken + q.channel == p.taken + p.channel;
      OneEvent(p, Take(c));
      RunsCompose(p, [Take(c)], q, rest, p.(channel := [], taken := p.taken + p.channel, hands := hands));
      run := [Take(c)] + rest;
    }
  }

  /** A full poll, handed on completely. */
  lemma PollAndHandOn(p: Pool, jobs: seq<nat>) returns (run: seq<Event>)
    requires p.polling && p.batch == [] && p.channel == [] && |jobs| == |p.hands|
    ensures Leads(p, run, p.(claimed := p.claimed + jobs, channel := jobs))
  {
    var q := After(p, Poll(jobs));
    var rest := HandOnAll(q);
    assert [] + jobs == jobs;
    OneEvent(p, Poll(jobs));
    RunsCompose(p, [Poll(jobs)], q, rest, p.(claimed := p.claimed + jobs, channel := jobs));
    run := [Poll(jobs)] + rest;
  }

  /** Three jobs per worker can be claimed and open at once: in the hands, in the channel, and in the batch. */
  lemma BoundIsReached(workers: nat, a: seq<nat>, b: seq<nat>, c: seq<nat>) returns (run: seq<Event>)
    requires |a| == |b| == |c| == workers
    ensures Possible(Fresh(workers), run)
    ensures var p := AfterAll(Fresh(workers), run);
            |p.claimed| == 3 * workers && p.finished == multiset{} && p.dropped == multiset{}
            && p.batch == c && p.channel == b && p.taken == a
  {
    var p0 := Fresh(workers);
    var r1 := PollAndHandOn(p0, a);
    var p1 := p0.(claimed := p0.claimed + a, channel := a);
    var r2, hands := TakeAll(p1, 0);
    var p2 := p1.(channel := [], taken := p1.taken + p1.channel, hands := hands);
    var r3 := PollAndHandOn(p2, b);
    var p3 := p2.(claimed := p2.claimed + b, channel := b);
    OneEvent(p3, Poll(c));
    RunsCompose(p0, r1, p1, r2, p2);
    RunsCompose(p0, r1 + r2, p2, r3, p3);
    RunsCompose(p0, r1 + r2 + r3, p3, [Poll(c)], After(p3, Poll(c)));
    run := r1 + r2 + r3 + [Poll(c)];
  }
}
