/** Runs that reach the bounds of `QuotaRuns`: calls of one feature, started together. */
module QuotaOverruns {
  import opened Quota
  import opened QuotaRuns

  /** Calls of one feature only: `a` checked, `b` cleared, `c` running, `d` closed. */
  function At(row: Row, feat: Feature, a: nat, b: nat, c: nat, d: nat): Usage {
    Usage(row, Copies(feat, a), Copies(feat, b), Copies(feat, c), Copies(feat, d))
  }

  function Copies(feat: Feature, n: nat): multiset<Feature> {
    multiset{}[feat := n]
  }

  lemma OneCopyMore(feat: Feature, n: nat)
    ensures Copies(feat, n) + multiset{feat} == Copies(feat, n + 1)
    ensures Copies(feat, n + 1) - multiset{feat} == Copies(feat, n)
  {
  }

  lemma CopiesSize(feat: Feature, n: nat)
    ensures |Copies(feat, n)| == n
    decreases n
  {
    if n > 0 {
      OneCopyMore(feat, n - 1);
      CopiesSize(feat, n - 1);
    } else {
      assert Copies(feat, 0) == multiset{};
    }
  }

  lemma Occupied(row: Row, feat: Feature, a: nat, b: nat, c: nat, d: nat)
    ensures var u := At(row, feat, a, b, c, d);
            && InFlight(u, feat) == a + b + c + d && |u.checked| + |u.cleared| == a + b && |u.closed| == d
            && (Generations(u.running) == if Generation(feat) then c else 0)
            && u.checked[feat] == a && u.cleared[feat] == b && u.running[feat] == c && u.closed[feat] == d
  {
    CopiesSize(feat, a);
    CopiesSize(feat, b);
    CopiesSize(feat, d);
  }

  lemma CallsAdd(row: Row, feat: Feature, m: int, n: int)
    ensures AddCalls(AddCalls(row, feat, m), feat, n) == AddCalls(row, feat, m + n)
    ensures AddCalls(row, feat, 0) == row
  {
  }

  // ----- composing runs -----

  lemma RunsCompose(cfg: Config, u: Usage, a: seq<Event>, v: Usage, b: seq<Event>, w: Usage)
    requires Leads(cfg, u, a, v) && Leads(cfg, v, b, w)
    ensures Leads(cfg, u, a + b, w)
  {
    var before :| Path(cfg, before, a) && before[0] == u && before[|a|] == v;
    var after :| Path(cfg, after, b) && after[0] == v && after[|b|] == w;
    var states := before[..|a|] + after;
    forall i | 0 <= i < |a + b| ensures Moves(cfg, states, a + b, i) {
      if i < |a| {
        assert Moves(cfg, before, a, i);
      } else {
        assert Moves(cfg, after, b, i - |a|);
      }
    }
    assert Path(cfg, states, a + b);
  }

  lemma OneStep(cfg: Config, u: Usage, e: Event, v: Usage)
    requires Enabled(cfg, u, e) && After(u, e) == v
    ensures Leads(cfg, u, [e], v)
  {
    assert Moves(cfg, [u, v], [e], 0);
    assert Path(cfg, [u, v], [e]);
  }

  lemma NoStep(cfg: Config, u: Usage)
    ensures Leads(cfg, u, [], u)
  {
    assert Path(cfg, [u], []);
  }

  function Times(part: seq<Event>, n: nat): seq<Event> {
    if n == 0 then [] else part + Times(part, n - 1)
  }

  ghost predicate LeadsOn(cfg: Config, path: seq<Usage>, part: seq<Event>, i: nat)
    requires i + 1 < |path|
  {
    Leads(cfg, path[i], part, path[i + 1])
  }

  /** If `part` leads from each state of `path` to the next, its repetition leads from the first to the last. */
  lemma {:induction false} Repeat(cfg: Config, u: Usage, path: seq<Usage>, part: seq<Event>, n: nat, v: Usage)
    requires |path| == n + 1 && path[0] == u && path[n] == v
    requires forall i :: 0 <= i < n ==> LeadsOn(cfg, path, part, i)
    ensures Leads(cfg, u, Times(part, n), v)
    decreases |path|
  {
    if n > 0 {
      var rest := path[1..];
      forall i | 0 <= i < n - 1 ensures LeadsOn(cfg, rest, part, i) {
        assert LeadsOn(cfg, path, part, i + 1);
      }
      Repeat(cfg, path[1], rest, part, n - 1, v);
      assert LeadsOn(cfg, path, part, 0);
      RunsCompose(cfg, u, part, path[1], Times(part, n - 1), v);
    } else {
      NoStep(cfg, u);
    }
  }

  // ----- the steps of one feature's calls -----

  lemma PassOne(cfg: Config, row: Row, feat: Feature, a: nat, c: nat, d: nat)
    requires CheckAgainstLimits(row, feat, 0, cfg.lim) == Admitted
    requires a + c + d < cfg.maxInFlight && a < cfg.maxAdmitting
    ensures Leads(cfg, At(row, feat, a, 0, c, d), [PassQuota(feat, 0)], At(row, feat, a + 1, 0, c, d))
  {
    Occupied(row, feat, a, 0, c, d);
    OneCopyMore(feat, a);
    OneStep(cfg, At(row, feat, a, 0, c, d), PassQuota(feat, 0), At(row, feat, a + 1, 0, c, d));
  }

  lemma ClearOne(cfg: Config, row: Row, feat: Feature, a: nat, b: nat, c: nat, d: nat)
    requires Generation(feat) ==> c == 0
    ensures Leads(cfg, At(row, feat, a + 1, b, c, d), [PassConcurrency(feat)], At(row, feat, a, b + 1, c, d))
  {
    Occupied(row, feat, a + 1, b, c, d);
    OneCopyMore(feat, a);
    OneCopyMore(feat, b);
    OneStep(cfg, At(row, feat, a + 1, b, c, d), PassConcurrency(feat), At(row, feat, a, b + 1, c, d));
  }

  lemma InsertOne(cfg: Config, row: Row, feat: Feature, b: nat, c: nat, d: nat)
    ensures Leads(cfg, At(row, feat, 0, b + 1, c, d), [Insert(feat)], At(row, feat, 0, b, c + 1, d))
  {
    Occupied(row, feat, 0, b + 1, c, d);
    OneCopyMore(feat, b);
    OneCopyMore(feat, c);
    OneStep(cfg, At(row, feat, 0, b + 1, c, d), Insert(feat), At(row, feat, 0, b, c + 1, d));
  }

  lemma CloseOne(cfg: Config, row: Row, feat: Feature, a: nat, c: nat, d: nat)
    requires d < cfg.maxClosing
    ensures Leads(cfg, At(row, feat, a, 0, c + 1, d), [CloseRow(feat)], At(row, feat, a, 0, c, d + 1))
  {
    Occupied(row, feat, a, 0, c + 1, d);
    OneCopyMore(feat, c);
    OneCopyMore(feat, d);
    OneStep(cfg, At(row, feat, a, 0, c + 1, d), CloseRow(feat), At(row, feat, a, 0, c, d + 1));
  }

  lemma SettleOne(cfg: Config, row: Row, feat: Feature, a: nat, c: nat, d: nat)
    ensures Leads(cfg, At(row, feat, a, 0, c, d + 1), [Settle(feat, true)],
                  At(AddCalls(row, feat, 1), feat, a, 0, c, d))
  {
    Occupied(row, feat, a, 0, c, d + 1);
    OneCopyMore(feat, d);
    OneStep(cfg, At(row, feat, a, 0, c, d + 1), Settle(feat, true), At(AddCalls(row, feat, 1), feat, a, 0, c, d));
  }

  // ----- many calls -----

  lemma PassMany(cfg: Config, row: Row, feat: Feature, c: nat, d: nat, n: nat)
    requires CheckAgainstLimits(row, feat, 0, cfg.lim) == Admitted
    requires n + c + d <= cfg.maxInFlight && n <= cfg.maxAdmitting
    ensures Leads(cfg, At(row, feat, 0, 0, c, d), Times([PassQuota(feat, 0)], n), At(row, feat, n, 0, c, d))
  {
    var path := seq(n + 1, i requires 0 <= i => At(row, feat, i, 0, c, d));
    forall i | 0 <= i < n ensures LeadsOn(cfg, path, [PassQuota(feat, 0)], i) {
      PassOne(cfg, row, feat, i, c, d);
    }
    Repeat(cfg, At(row, feat, 0, 0, c, d), path, [PassQuota(feat, 0)], n, At(row, feat, n, 0, c, d));
  }

  lemma ClearMany(cfg: Config, row: Row, feat: Feature, c: nat, d: nat, n: nat)
    requires Generation(feat) ==> c == 0
    ensures Leads(cfg, At(row, feat, n, 0, c, d), Times([PassConcurrency(feat)], n), At(row, feat, 0, n, c, d))
  {
    var path := seq(n + 1, i requires 0 <= i <= n => At(row, feat, n - i, i, c, d));
    forall i | 0 <= i < n ensures LeadsOn(cfg, path, [PassConcurrency(feat)], i) {
      ClearOne(cfg, row, feat, n - i - 1, i, c, d);
    }
    Repeat(cfg, At(row, feat, n, 0, c, d), path, [PassConcurrency(feat)], n, At(row, feat, 0, n, c, d));
  }

  lemma InsertMany(cfg: Config, row: Row, feat: Feature, c: nat, d: nat, n: nat)
    ensures Leads(cfg, At(row, feat, 0, n, c, d), Times([Insert(feat)], n), At(row, feat, 0, 0, c + n, d))
  {
    var path := seq(n + 1, i requires 0 <= i <= n => At(row, feat, 0, n - i, c + i, d));
    forall i | 0 <= i < n ensures LeadsOn(cfg, path, [Insert(feat)], i) {
      InsertOne(cfg, row, feat, n - i - 1, c + i, d);
    }
    Repeat(cfg, At(row, feat, 0, n, c, d), path, [Insert(feat)], n, At(row, feat, 0, 0, c + n, d));
  }

  /** `n` checked calls go on together: they pass the concurrency check, then get their job rows. */
  function Proceed(feat: Feature, n: nat): seq<Event> {
    Times([PassConcurrency(feat)], n) + Times([Insert(feat)], n)
  }

  lemma ProceedTogether(cfg: Config, row: Row, feat: Feature, c: nat, d: nat, n: nat)
    requires Generation(feat) ==> c == 0
    ensures Leads(cfg, At(row, feat, n, 0, c, d), Proceed(feat, n), At(row, feat, 0, 0, c + n, d))
  {
    ClearMany(cfg, row, feat, c, d, n);
    InsertMany(cfg, row, feat, c, d, n);
    RunsCompose(cfg, At(row, feat, n, 0, c, d), Times([PassConcurrency(feat)], n), At(row, feat, 0, n, c, d),
                Times([Insert(feat)], n), At(row, feat, 0, 0, c + n, d));
  }

  /** `n` calls pass both checks together and run. */
  function Start(feat: Feature, n: nat): seq<Event> {
    Times([PassQuota(feat, 0)], n) + Proceed(feat, n)
  }

  lemma StartMany(cfg: Config, row: Row, feat: Feature, c: nat, d: nat, n: nat)
    requires CheckAgainstLimits(row, feat, 0, cfg.lim) == Admitted && (Generation(feat) ==> c == 0)
    requires n + c + d <= cfg.maxInFlight && n <= cfg.maxAdmitting
    ensures Leads(cfg, At(row, feat, 0, 0, c, d), Start(feat, n), At(row, feat, 0, 0, c + n, d))
  {
    PassMany(cfg, row, feat, c, d, n);
    ProceedTogether(cfg, row, feat, c, d, n);
    RunsCompose(cfg, At(row, feat, 0, 0, c, d), Times([PassQuota(feat, 0)], n), At(row, feat, n, 0, c, d),
                Proceed(feat, n), At(row, feat, 0, 0, c + n, d));
  }

  /** `n` calls start one after the other while those before them still run. */
  lemma StartEach(cfg: Config, row: Row, feat: Feature, d: nat, n: nat)
    requires CheckAgainstLimits(row, feat, 0, cfg.lim) == Admitted && !Generation(feat)
    requires n + d <= cfg.maxInFlight && cfg.maxAdmitting >= 1
    ensures Leads(cfg, At(row, feat, 0, 0, 0, d), Times(Start(feat, 1), n), At(row, feat, 0, 0, n, d))
  {
    var path := seq(n + 1, i requires 0 <= i => At(row, feat, 0, 0, i, d));
    forall i | 0 <= i < n ensures LeadsOn(cfg, path, Start(feat, 1), i) {
      StartMany(cfg, row, feat, i, d, 1);
    }
    Repeat(cfg, At(row, feat, 0, 0, 0, d), path, Start(feat, 1), n, At(row, feat, 0, 0, n, d));
  }

  /** One call starts and its row is closed, but it is not settled. */
  function Linger(feat: Feature): seq<Event> {
    Start(feat, 1) + [CloseRow(feat)]
  }

  lemma LingerOne(cfg: Config, row: Row, feat: Feature, d: nat)
    requires CheckAgainstLimits(row, feat, 0, cfg.lim) == Admitted
    requires d < cfg.maxClosing && d < cfg.maxInFlight && cfg.maxAdmitting >= 1
    ensures Leads(cfg, At(row, feat, 0, 0, 0, d), Linger(feat), At(row, feat, 0, 0, 0, d + 1))
  {
    StartMany(cfg, row, feat, 0, d, 1);
    CloseOne(cfg, row, feat, 0, 0, d);
    RunsCompose(cfg, At(row, feat, 0, 0, 0, d), Start(feat, 1), At(row, feat, 0, 0, 1, d),
                [CloseRow(feat)], At(row, feat, 0, 0, 0, d + 1));
  }

  lemma LingerMany(cfg: Config, row: Row, feat: Feature, n: nat)
    requires CheckAgainstLimits(row, feat, 0, cfg.lim) == Admitted
    requires n <= cfg.maxClosing && n <= cfg.maxInFlight && cfg.maxAdmitting >= 1
    ensures Leads(cfg, At(row, feat, 0, 0, 0, 0), Times(Linger(feat), n), At(row, feat, 0, 0, 0, n))
  {
    var path := seq(n + 1, i requires 0 <= i => At(row, feat, 0, 0, 0, i));
    forall i | 0 <= i < n ensures LeadsOn(cfg, path, Linger(feat), i) {
      LingerOne(cfg, row, feat, i);
    }
    Repeat(cfg, At(row, feat, 0, 0, 0, 0), path, Linger(feat), n, At(row, feat, 0, 0, 0, n));
  }

  /** A closed call is settled and a running one closed in its place. */
  function Replace(feat: Feature): seq<Event> {
    [Settle(feat, true)] + [CloseRow(feat)]
  }

  /** `i` of the calls have been settled; of `n` running ones `n - i` are left, and `d` are closed. */
  function Draining(row: Row, feat: Feature, a: nat, d: nat, n: nat, i: nat): Usage
    requires i <= n
  {
    At(AddCalls(row, feat, i), feat, a, 0, n - i, d)
  }

  lemma DrainNext(cfg: Config, row: Row, feat: Feature, a: nat, d: nat, n: nat, i: nat)
    requires i < n && 1 <= d <= cfg.maxClosing
    ensures Leads(cfg, Draining(row, feat, a, d, n, i), Replace(feat), Draining(row, feat, a, d, n, i + 1))
  {
    var row', row'' := AddCalls(row, feat, i), AddCalls(row, feat, i + 1);
    var c := n - i - 1;
    CallsAdd(row, feat, i, 1);
    SettleOne(cfg, row', feat, a, c + 1, d - 1);
    CloseOne(cfg, row'', feat, a, c, d - 1);
    RunsCompose(cfg, At(row', feat, a, 0, c + 1, d), [Settle(feat, true)], At(row'', feat, a, 0, c + 1, d - 1),
                [CloseRow(feat)], At(row'', feat, a, 0, c, d));
  }

  lemma DrainPath(cfg: Config, row: Row, feat: Feature, a: nat, d: nat, n: nat) returns (path: seq<Usage>)
    requires 1 <= d <= cfg.maxClosing
    ensures path == seq(n + 1, i requires 0 <= i <= n => Draining(row, feat, a, d, n, i))
    ensures forall i :: 0 <= i < n ==> LeadsOn(cfg, path, Replace(feat), i)
  {
    path := seq(n + 1, i requires 0 <= i <= n => Draining(row, feat, a, d, n, i));
    forall i | 0 <= i < n ensures LeadsOn(cfg, path, Replace(feat), i) {
      DrainNext(cfg, row, feat, a, d, n, i);
    }
  }

  /** As many calls are settled as run; `a` calls stay checked and `d` closed. */
  lemma DrainMany(cfg: Config, row: Row, feat: Feature, a: nat, d: nat, n: nat)
    requires 1 <= d <= cfg.maxClosing
    ensures Leads(cfg, At(row, feat, a, 0, n, d), Times(Replace(feat), n), At(AddCalls(row, feat, n), feat, a, 0, 0, d))
  {
    var path := DrainPath(cfg, row, feat, a, d, n);
    CallsAdd(row, feat, 0, 0);
    Repeat(cfg, At(row, feat, a, 0, n, d), path, Replace(feat), n, At(AddCalls(row, feat, n), feat, a, 0, 0, d));
  }

  function Settling(row: Row, feat: Feature, n: nat, i: nat): Usage
    requires i <= n
  {
    At(AddCalls(row, feat, i), feat, 0, 0, 0, n - i)
  }

  lemma SettleNext(cfg: Config, row: Row, feat: Feature, n: nat, i: nat)
    requires i < n
    ensures Leads(cfg, Settling(row, feat, n, i), [Settle(feat, true)], Settling(row, feat, n, i + 1))
  {
    CallsAdd(row, feat, i, 1);
    SettleOne(cfg, AddCalls(row, feat, i), feat, 0, 0, n - i - 1);
  }

  lemma SettlePath(cfg: Config, row: Row, feat: Feature, n: nat) returns (path: seq<Usage>)
    ensures path == seq(n + 1, i requires 0 <= i <= n => Settling(row, feat, n, i))
    ensures forall i :: 0 <= i < n ==> LeadsOn(cfg, path, [Settle(feat, true)], i)
  {
    path := seq(n + 1, i requires 0 <= i <= n => Settling(row, feat, n, i));
    forall i | 0 <= i < n ensures LeadsOn(cfg, path, [Settle(feat, true)], i) {
      SettleNext(cfg, row, feat, n, i);
    }
  }

  lemma SettleMany(cfg: Config, row: Row, feat: Feature, n: nat)
    ensures Leads(cfg, At(row, feat, 0, 0, 0, n), Times([Settle(feat, true)], n),
                  At(AddCalls(row, feat, n), feat, 0, 0, 0, 0))
  {
    var path := SettlePath(cfg, row, feat, n);
    CallsAdd(row, feat, 0, 0);
    Repeat(cfg, At(row, feat, 0, 0, 0, n), path, [Settle(feat, true)], n, At(AddCalls(row, feat, n), feat, 0, 0, 0, 0));
  }

  // ----- the bounds are reached -----

  /** Some calls overlap, and the limit of `feat` leaves room for a call. */
  predicate Possible(cfg: Config, feat: Feature) {
    && Capped(feat) && Limit(cfg.lim, feat) >= 1 && (feat == GenerateFromPDF ==> cfg.lim.pdfPages >= 0)
    && cfg.maxInFlight >= 1 && cfg.maxAdmitting >= 1 && cfg.maxClosing >= 1
  }

  /** Room for one more call of `feat` on a day on which only `feat` was used. */
  lemma HasRoom(cfg: Config, feat: Feature, n: nat)
    requires Capped(feat) && n < Limit(cfg.lim, feat) && (feat == GenerateFromPDF ==> cfg.lim.pdfPages >= 0)
    ensures CheckAgainstLimits(AddCalls(EMPTY, feat, n), feat, 0, cfg.lim) == Admitted
  {
  }

  /** The day so far: `n` debited calls of `feat`, nothing in flight. */
  function UsedSoFar(feat: Feature, n: nat): Usage {
    At(AddCalls(EMPTY, feat, n), feat, 0, 0, 0, 0)
  }

  /** One call from check to debit. */
  function Alone(feat: Feature): seq<Event> {
    Linger(feat) + [Settle(feat, true)]
  }

  lemma OneAlone(cfg: Config, feat: Feature, n: nat)
    requires Possible(cfg, feat) && n < Limit(cfg.lim, feat)
    ensures Leads(cfg, UsedSoFar(feat, n), Alone(feat), UsedSoFar(feat, n + 1))
  {
    var row := AddCalls(EMPTY, feat, n);
    HasRoom(cfg, feat, n);
    LingerOne(cfg, row, feat, 0);
    CallsAdd(EMPTY, feat, n, 1);
    SettleOne(cfg, row, feat, 0, 0, 0);
    RunsCompose(cfg, UsedSoFar(feat, n), Linger(feat), At(row, feat, 0, 0, 0, 1),
                [Settle(feat, true)], UsedSoFar(feat, n + 1));
  }

  lemma OneByOne(cfg: Config, feat: Feature, n: nat)
    requires Possible(cfg, feat) && n <= Limit(cfg.lim, feat)
    ensures Leads(cfg, FRESH, Times(Alone(feat), n), UsedSoFar(feat, n))
  {
    var path := seq(n + 1, i requires 0 <= i => UsedSoFar(feat, i));
    forall i | 0 <= i < n ensures LeadsOn(cfg, path, Alone(feat), i) {
      OneAlone(cfg, feat, i);
    }
    Repeat(cfg, FRESH, path, Alone(feat), n, UsedSoFar(feat, n));
  }

  /** All but one of the limit is used, then `run` follows and adds `n` calls. */
  lemma LastButOne(cfg: Config, feat: Feature, run: seq<Event>, n: nat)
    requires Possible(cfg, feat)
    requires Leads(cfg, UsedSoFar(feat, Limit(cfg.lim, feat) - 1), run, UsedSoFar(feat, Limit(cfg.lim, feat) - 1 + n))
    ensures Leads(cfg, FRESH, Times(Alone(feat), Limit(cfg.lim, feat) - 1) + run,
                  UsedSoFar(feat, Limit(cfg.lim, feat) - 1 + n))
    ensures Used(UsedSoFar(feat, Limit(cfg.lim, feat) - 1 + n).row, feat) == Limit(cfg.lim, feat) - 1 + n
  {
    var l := Limit(cfg.lim, feat) - 1;
    OneByOne(cfg, feat, l);
    RunsCompose(cfg, FRESH, Times(Alone(feat), l), UsedSoFar(feat, l), run, UsedSoFar(feat, l + n));
  }

  /** `n` calls overlap, starting one after the other; all are debited. */
  function Overlapping(feat: Feature, n: nat): seq<Event>
    requires n >= 1
  {
    Linger(feat) + (Times(Start(feat, 1), n - 1) + (Times(Replace(feat), n - 1) + [Settle(feat, true)]))
  }

  lemma DrainToLast(cfg: Config, row: Row, feat: Feature, n: nat)
    requires n >= 1 && cfg.maxClosing >= 1
    ensures Leads(cfg, At(row, feat, 0, 0, n - 1, 1), Times(Replace(feat), n - 1) + [Settle(feat, true)],
                  At(AddCalls(row, feat, n), feat, 0, 0, 0, 0))
  {
    var mid := AddCalls(row, feat, n - 1);
    DrainMany(cfg, row, feat, 0, 1, n - 1);
    CallsAdd(row, feat, n - 1, 1);
    SettleOne(cfg, mid, feat, 0, 0, 0);
    RunsCompose(cfg, At(row, feat, 0, 0, n - 1, 1), Times(Replace(feat), n - 1), At(mid, feat, 0, 0, 0, 1),
                [Settle(feat, true)], At(AddCalls(row, feat, n), feat, 0, 0, 0, 0));
  }

  lemma OverlappingRun(cfg: Config, row: Row, feat: Feature, n: nat)
    requires CheckAgainstLimits(row, feat, 0, cfg.lim) == Admitted && Possible(cfg, feat) && !Generation(feat)
    requires 1 <= n <= cfg.maxInFlight
    ensures Leads(cfg, At(row, feat, 0, 0, 0, 0), Overlapping(feat, n), At(AddCalls(row, feat, n), feat, 0, 0, 0, 0))
  {
    var last := At(AddCalls(row, feat, n), feat, 0, 0, 0, 0);
    var starting, draining, settled := Times(Start(feat, 1), n - 1), Times(Replace(feat), n - 1), [Settle(feat, true)];
    LingerOne(cfg, row, feat, 0);
    StartEach(cfg, row, feat, 1, n - 1);
    DrainToLast(cfg, row, feat, n);
    RunsCompose(cfg, At(row, feat, 0, 0, 0, 1), starting, At(row, feat, 0, 0, n - 1, 1), draining + settled, last);
    RunsCompose(cfg, At(row, feat, 0, 0, 0, 0), Linger(feat), At(row, feat, 0, 0, 0, 1),
                starting + (draining + settled), last);
  }

  /** For checks and plans the overlap bound is exact, even when calls are admitted and settled one at a time. */
  lemma OverrunIsReached(cfg: Config, feat: Feature) returns (run: seq<Event>, u: Usage)
    requires Possible(cfg, feat) && !Generation(feat)
    ensures Leads(cfg, FRESH, run, u) && Used(u.row, feat) == Limit(cfg.lim, feat) - 1 + cfg.maxInFlight
  {
    var l, n := Limit(cfg.lim, feat) - 1, cfg.maxInFlight;
    HasRoom(cfg, feat, l);
    OverlappingRun(cfg, AddCalls(EMPTY, feat, l), feat, n);
    CallsAdd(EMPTY, feat, l, n);
    LastButOne(cfg, feat, Overlapping(feat, n), n);
    run, u := Times(Alone(feat), l) + Overlapping(feat, n), UsedSoFar(feat, l + n);
  }

  /**
   `w` calls wait past the quota check until the `k` running ones have closed,
   then run; `d` are closed throughout and settled at the end.
   */
  function SecondWave(feat: Feature, d: nat, k: nat, w: nat): seq<Event> {
    Times(Replace(feat), k) + (Proceed(feat, w) + (Times(Replace(feat), w) + Times([Settle(feat, true)], d)))
  }

  lemma SecondWaveRun(cfg: Config, row: Row, feat: Feature, d: nat, k: nat, w: nat)
    requires Generation(feat) && 1 <= d <= cfg.maxClosing
    ensures Leads(cfg, At(row, feat, w, 0, k, d), SecondWave(feat, d, k, w),
                  At(AddCalls(row, feat, k + w + d), feat, 0, 0, 0, 0))
  {
    var mid, late := AddCalls(row, feat, k), AddCalls(row, feat, k + w);
    var last := At(AddCalls(row, feat, k + w + d), feat, 0, 0, 0, 0);
    var settled, draining := Times([Settle(feat, true)], d), Times(Replace(feat), w);
    CallsAdd(row, feat, k, w);
    CallsAdd(row, feat, k + w, d);
    DrainMany(cfg, row, feat, w, d, k);
    ProceedTogether(cfg, mid, feat, 0, d, w);
    DrainMany(cfg, mid, feat, 0, d, w);
    SettleMany(cfg, late, feat, d);
    RunsCompose(cfg, At(mid, feat, 0, 0, w, d), draining, At(late, feat, 0, 0, 0, d), settled, last);
    RunsCompose(cfg, At(mid, feat, w, 0, 0, d), Proceed(feat, w), At(mid, feat, 0, 0, w, d), draining + settled, last);
    RunsCompose(cfg, At(row, feat, w, 0, k, d), Times(Replace(feat), k), At(mid, feat, w, 0, 0, d),
                Proceed(feat, w) + (draining + settled), last);
  }

  /** `d` calls linger unsettled, `k` more run, and `w` more pass the quota check. */
  function FirstWave(feat: Feature, d: nat, k: nat, w: nat): seq<Event> {
    Times(Linger(feat), d) + (Start(feat, k) + Times([PassQuota(feat, 0)], w))
  }

  lemma FirstWaveRun(cfg: Config, row: Row, feat: Feature, d: nat, k: nat, w: nat)
    requires CheckAgainstLimits(row, feat, 0, cfg.lim) == Admitted && cfg.maxAdmitting >= 1
    requires k <= cfg.maxAdmitting && w <= cfg.maxAdmitting && d <= cfg.maxClosing && k + w + d <= cfg.maxInFlight
    ensures Leads(cfg, At(row, feat, 0, 0, 0, 0), FirstWave(feat, d, k, w), At(row, feat, w, 0, k, d))
  {
    var waiting := Times([PassQuota(feat, 0)], w);
    LingerMany(cfg, row, feat, d);
    StartMany(cfg, row, feat, 0, d, k);
    PassMany(cfg, row, feat, k, d, w);
    RunsCompose(cfg, At(row, feat, 0, 0, 0, d), Start(feat, k), At(row, feat, 0, 0, k, d),
                waiting, At(row, feat, w, 0, k, d));
    RunsCompose(cfg, At(row, feat, 0, 0, 0, 0), Times(Linger(feat), d), At(row, feat, 0, 0, 0, d),
                Start(feat, k) + waiting, At(row, feat, w, 0, k, d));
  }

  /** For generations the bound is exact as well: all kinds of slots are filled, as far as calls may overlap. */
  lemma GenerationOverrunIsReached(cfg: Config, feat: Feature) returns (run: seq<Event>, u: Usage)
    requires Possible(cfg, feat) && Generation(feat)
    ensures Leads(cfg, FRESH, run, u)
    ensures Used(u.row, feat) == Limit(cfg.lim, feat) - 1 + GenerationOverrun(cfg)
  {
    var l, n := Limit(cfg.lim, feat) - 1, GenerationOverrun(cfg);
    var d := Least(n, cfg.maxClosing);
    var k := Least(n - d, cfg.maxAdmitting);
    var w := n - d - k;
    var row, waves := AddCalls(EMPTY, feat, l), FirstWave(feat, d, k, w) + SecondWave(feat, d, k, w);
    HasRoom(cfg, feat, l);
    FirstWaveRun(cfg, row, feat, d, k, w);
    SecondWaveRun(cfg, row, feat, d, k, w);
    CallsAdd(EMPTY, feat, l, n);
    u := UsedSoFar(feat, l + n);
    RunsCompose(cfg, UsedSoFar(feat, l), FirstWave(feat, d, k, w), At(row, feat, w, 0, k, d),
                SecondWave(feat, d, k, w), u);
    LastButOne(cfg, feat, waves, n);
    run := Times(Alone(feat), l) + waves;
  }
}
