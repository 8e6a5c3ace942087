/**
 Overlapping AI calls of one user. A call passes the quota check, then the
 concurrency check, then gets its job row; the row is closed by the run's end or by
 the reaper, and only then is the call debited, or not. None of these steps is
 atomic with the next, and the results say how far the counters can run past
 their limits.
 */
module QuotaRuns {
  import opened Quota

  predicate Capped(feat: Feature) {
    feat != CrossSubjectRank && feat != ExtractKeywords
  }

  /** The features whose running jobs the concurrency check looks for. */
  predicate Generation(feat: Feature) {
    feat == GenerateFromPrompt || feat == GenerateFromPDF
  }

  function Used(row: Row, feat: Feature): int
    requires Capped(feat)
  {
    match feat
    case GenerateFromPrompt => row.promptCalls
    case GenerateFromPDF => row.pdfCalls
    case CheckFlashcard => row.checkCalls
    case GenerateRevisionPlan => row.planCalls
  }

  function Limit(lim: Limits, feat: Feature): int
    requires Capped(feat)
  {
    match feat
    case GenerateFromPrompt => lim.promptCalls
    case GenerateFromPDF => lim.pdfCalls
    case CheckFlashcard => lim.checkCalls
    case GenerateRevisionPlan => lim.planCalls
  }

  /**
   Today's counters, and the calls in flight: past the quota check, past both
   checks, with a job row that says running, and with a row that no longer does
   but not yet settled.
   */
  datatype Usage = Usage(
    row: Row,
    checked: multiset<Feature>,
    cleared: multiset<Feature>,
    running: multiset<Feature>,
    closed: multiset<Feature>)

  const FRESH := Usage(EMPTY, multiset{}, multiset{}, multiset{}, multiset{})

  datatype Event =
    | PassQuota(feat: Feature, pdfPages: int)
    | PassConcurrency(feat: Feature)
    | Insert(feat: Feature)
    | Refuse(feat: Feature)
    | InsertFails(feat: Feature)
    | CloseRow(feat: Feature)
    | Settle(feat: Feature, debited: bool)
    | Midnight

  /**
   The limits, and how many calls overlap: of one feature, of all features
   between quota check and job row, and of all features closed but not settled.
   */
  datatype Config = Config(lim: Limits, maxInFlight: nat, maxAdmitting: nat, maxClosing: nat)

  function InFlight(u: Usage, feat: Feature): nat {
    u.checked[feat] + u.cleared[feat] + u.running[feat] + u.closed[feat]
  }

  function Generations(calls: multiset<Feature>): nat {
    calls[GenerateFromPrompt] + calls[GenerateFromPDF]
  }

  predicate Enabled(cfg: Config, u: Usage, e: Event) {
    match e
    case PassQuota(feat, pages) =>
      && CheckAgainstLimits(u.row, feat, pages, cfg.lim) == Admitted
      && InFlight(u, feat) < cfg.maxInFlight && |u.checked| + |u.cleared| < cfg.maxAdmitting
    case PassConcurrency(feat) => feat in u.checked && (feat == CheckFlashcard || Generations(u.running) == 0)
    case Insert(feat) => feat in u.cleared
    case Refuse(feat) => feat in u.checked
    case InsertFails(feat) => feat in u.cleared
    case CloseRow(feat) => feat in u.running && |u.closed| < cfg.maxClosing
    case Settle(feat, _) => feat in u.closed
    case Midnight => true
  }

  function After(u: Usage, e: Event): Usage {
    match e
    case PassQuota(feat, _) => u.(checked := u.checked + multiset{feat})
    case PassConcurrency(feat) => u.(checked := u.checked - multiset{feat}, cleared := u.cleared + multiset{feat})
    case Insert(feat) => u.(cleared := u.cleared - multiset{feat}, running := u.running + multiset{feat})
    case Refuse(feat) => u.(checked := u.checked - multiset{feat})
    case InsertFails(feat) => u.(cleared := u.cleared - multiset{feat})
    case CloseRow(feat) => u.(running := u.running - multiset{feat}, closed := u.closed + multiset{feat})
    case Settle(feat, debited) =>
      u.(row := if debited then Debited(u.row, feat, 1, 0) else u.row, closed := u.closed - multiset{feat})
    case Midnight => u.(row := EMPTY)
  }

  ghost predicate Moves(cfg: Config, states: seq<Usage>, run: seq<Event>, i: nat)
    requires i < |run| < |states|
  {
    Enabled(cfg, states[i], run[i]) && states[i + 1] == After(states[i], run[i])
  }

  ghost predicate Path(cfg: Config, states: seq<Usage>, run: seq<Event>) {
    && |states| == |run| + 1
    && forall i :: 0 <= i < |run| ==> Moves(cfg, states, run, i)
  }

  /** `run` can happen from `u` and ends in `v`. */
  ghost predicate Leads(cfg: Config, u: Usage, run: seq<Event>, v: Usage) {
    exists states :: Path(cfg, states, run) && states[0] == u && states[|run|] == v
  }

  /** The first step of a run, and the rest. */
  lemma FirstStep(cfg: Config, u: Usage, run: seq<Event>, v: Usage)
    requires Leads(cfg, u, run, v) && run != []
    ensures Enabled(cfg, u, run[0]) && Leads(cfg, After(u, run[0]), run[1..], v)
  {
    var states :| Path(cfg, states, run) && states[0] == u && states[|run|] == v;
    var rest := states[1..];
    assert Moves(cfg, states, run, 0);
    forall i | 0 <= i < |run| - 1 ensures Moves(cfg, rest, run[1..], i) {
      assert Moves(cfg, states, run, i + 1);
    }
    assert Path(cfg, rest, run[1..]);
  }

  // ----- the bounds -----

  ghost predicate Within(cfg: Config, u: Usage, feat: Feature, slack: nat)
    requires Capped(feat)
  {
    0 <= Used(u.row, feat) && Used(u.row, feat) + InFlight(u, feat) <= Limit(cfg.lim, feat) - 1 + slack
  }

  /** How few generations have a running row follows from how few calls are being admitted at once. */
  ghost predicate FewGenerations(cfg: Config, u: Usage) {
    && |u.checked| + |u.cleared| <= cfg.maxAdmitting
    && Generations(u.cleared) + Generations(u.running) <= cfg.maxAdmitting
    && |u.closed| <= cfg.maxClosing
  }

  function GenerationOverlap(cfg: Config): nat {
    2 * cfg.maxAdmitting + cfg.maxClosing
  }

  lemma GenerationsAreFew(calls: multiset<Feature>)
    ensures Generations(calls) <= |calls|
  {
    var rest := calls[GenerateFromPrompt := 0][GenerateFromPDF := 0];
    var prompts := multiset{}[GenerateFromPrompt := calls[GenerateFromPrompt]];
    var pdfs := multiset{}[GenerateFromPDF := calls[GenerateFromPDF]];
    assert calls == rest + prompts + pdfs;
  }

  lemma StepKeepsFew(cfg: Config, u: Usage, e: Event)
    requires FewGenerations(cfg, u) && Enabled(cfg, u, e)
    ensures FewGenerations(cfg, After(u, e))
  {
    match e
    case PassConcurrency(feat) =>
      GenerationsAreFew(After(u, e).cleared);
    case Insert(feat) =>
      GenerationMoves(u.cleared, feat);
      GenerationMoves(u.running, feat);
    case CloseRow(feat) =>
      GenerationMoves(u.running, feat);
    case _ =>
  }

  lemma GenerationMoves(calls: multiset<Feature>, feat: Feature)
    ensures Generations(calls + multiset{feat}) == Generations(calls) + if Generation(feat) then 1 else 0
    ensures feat in calls ==>
              Generations(calls - multiset{feat}) == Generations(calls) - if Generation(feat) then 1 else 0
  {
  }

  /** A call enters when it passes the quota check and leaves when it is refused or settled; other steps move it. */
  lemma InFlightStep(cfg: Config, u: Usage, e: Event, feat: Feature)
    requires Enabled(cfg, u, e)
    ensures InFlight(After(u, e), feat) - InFlight(u, feat) ==
            if e == Midnight || e.feat != feat || e.PassConcurrency? || e.Insert? || e.CloseRow? then 0
            else if e.PassQuota? then 1 else -1
  {
    if e != Midnight {
      CountsStep(u.checked, e.feat, feat);
      CountsStep(u.cleared, e.feat, feat);
      CountsStep(u.running, e.feat, feat);
      CountsStep(u.closed, e.feat, feat);
    }
  }

  lemma CountsStep(calls: multiset<Feature>, changed: Feature, feat: Feature)
    ensures (calls + multiset{changed})[feat] == calls[feat] + if changed == feat then 1 else 0
    ensures changed in calls ==>
              (calls - multiset{changed})[feat] == calls[feat] - if changed == feat then 1 else 0
  {
  }

  lemma UsedStep(u: Usage, e: Event, feat: Feature)
    requires Capped(feat)
    ensures Used(After(u, e).row, feat) ==
            if e == Midnight then 0
            else if e.Settle? && e.feat == feat && e.debited then Used(u.row, feat) + 1
            else Used(u.row, feat)
  {
  }

  lemma RoomBefore(cfg: Config, u: Usage, feat: Feature, pages: int)
    requires Capped(feat) && CheckAgainstLimits(u.row, feat, pages, cfg.lim) == Admitted
    ensures Used(u.row, feat) <= Limit(cfg.lim, feat) - 1
  {
  }

  lemma StepKeepsWithin(cfg: Config, u: Usage, e: Event, feat: Feature, slack: nat)
    requires Capped(feat) && Limit(cfg.lim, feat) >= 1
    requires Within(cfg, u, feat, slack) && Enabled(cfg, u, e)
    requires InFlight(After(u, e), feat) <= slack
    ensures Within(cfg, After(u, e), feat, slack)
  {
    InFlightStep(cfg, u, e, feat);
    UsedStep(u, e, feat);
    if e.PassQuota? && e.feat == feat {
      RoomBefore(cfg, u, feat, e.pdfPages);
    }
  }

  ghost predicate Bounded(cfg: Config, u: Usage, feat: Feature)
    requires Capped(feat)
  {
    && FewGenerations(cfg, u)
    && InFlight(u, feat) <= cfg.maxInFlight && Within(cfg, u, feat, cfg.maxInFlight)
    && (Generation(feat) ==>
          InFlight(u, feat) <= GenerationOverlap(cfg) && Within(cfg, u, feat, GenerationOverlap(cfg)))
  }

  lemma GenerationsInFlight(cfg: Config, u: Usage, feat: Feature)
    requires FewGenerations(cfg, u) && Generation(feat)
    ensures InFlight(u, feat) <= GenerationOverlap(cfg)
  {
    GenerationsAreFew(u.checked);
    GenerationsAreFew(u.closed);
  }

  lemma StepKeepsOverlap(cfg: Config, u: Usage, e: Event, feat: Feature)
    requires Enabled(cfg, u, e) && InFlight(u, feat) <= cfg.maxInFlight
    ensures InFlight(After(u, e), feat) <= cfg.maxInFlight
  {
    InFlightStep(cfg, u, e, feat);
  }

  lemma StepKeepsBounded(cfg: Config, u: Usage, e: Event, v: Usage, feat: Feature)
    requires Capped(feat) && Limit(cfg.lim, feat) >= 1 && Bounded(cfg, u, feat)
    requires Enabled(cfg, u, e) && v == After(u, e)
    ensures Bounded(cfg, v, feat)
  {
    StepKeepsFew(cfg, u, e);
    StepKeepsOverlap(cfg, u, e, feat);
    StepKeepsWithin(cfg, u, e, feat, cfg.maxInFlight);
    if Generation(feat) {
      GenerationsInFlight(cfg, v, feat);
      StepKeepsWithin(cfg, u, e, feat, GenerationOverlap(cfg));
    }
  }

  lemma {:induction false} RunKeepsBounded(cfg: Config, u: Usage, run: seq<Event>, v: Usage, feat: Feature)
    requires Capped(feat) && Limit(cfg.lim, feat) >= 1 && Bounded(cfg, u, feat) && Leads(cfg, u, run, v)
    ensures Bounded(cfg, v, feat)
    decreases |run|
  {
    if run != [] {
      FirstStep(cfg, u, run, v);
      StepKeepsBounded(cfg, u, run[0], After(u, run[0]), feat);
      RunKeepsBounded(cfg, After(u, run[0]), run[1..], v, feat);
    }
  }

  lemma FreshHolds(cfg: Config, feat: Feature)
    ensures InFlight(FRESH, feat) == 0 && FewGenerations(cfg, FRESH)
    ensures Capped(feat) ==> Used(FRESH.row, feat) == 0
  {
  }

  lemma IdleIsBounded(cfg: Config, u: Usage, feat: Feature)
    requires Capped(feat) && Limit(cfg.lim, feat) >= 1 && FewGenerations(cfg, u)
    requires InFlight(u, feat) == 0 && Used(u.row, feat) == 0
    ensures Bounded(cfg, u, feat)
  {
  }

  lemma FreshIsBounded(cfg: Config, feat: Feature)
    requires Capped(feat) && Limit(cfg.lim, feat) >= 1
    ensures Bounded(cfg, FRESH, feat)
  {
    FreshHolds(cfg, feat);
    IdleIsBounded(cfg, FRESH, feat);
  }

  /** In every run, across midnights: used plus in flight stays within limit - 1 + overlap. */
  lemma OverrunIsBounded(cfg: Config, run: seq<Event>, u: Usage, feat: Feature)
    requires Leads(cfg, FRESH, run, u) && Capped(feat) && Limit(cfg.lim, feat) >= 1
    ensures Used(u.row, feat) + InFlight(u, feat) <= Limit(cfg.lim, feat) - 1 + cfg.maxInFlight
    ensures cfg.maxInFlight == 1 ==> Used(u.row, feat) <= Limit(cfg.lim, feat)
  {
    FreshIsBounded(cfg, feat);
    RunKeepsBounded(cfg, FRESH, run, u, feat);
  }

  function Least(x: nat, y: nat): nat {
    if x < y then x else y
  }

  /** How many generations can be in flight at once. */
  function GenerationOverrun(cfg: Config): nat {
    Least(cfg.maxInFlight, GenerationOverlap(cfg))
  }

  /**
   For prompt and PDF generations the concurrency check bounds the overlap by
   twice the number of calls being admitted at once and the number being settled
   at once, however long the calls run and however many are asked for.
   */
  lemma GenerationOverrunIsBounded(cfg: Config, run: seq<Event>, u: Usage, feat: Feature)
    requires Leads(cfg, FRESH, run, u) && Generation(feat) && Limit(cfg.lim, feat) >= 1
    ensures Generations(u.running) <= cfg.maxAdmitting
    ensures Used(u.row, feat) + InFlight(u, feat) <= Limit(cfg.lim, feat) - 1 + GenerationOverrun(cfg)
  {
    FreshIsBounded(cfg, feat);
    RunKeepsBounded(cfg, FRESH, run, u, feat);
  }

  lemma {:induction false} NoPagesDebited(cfg: Config, u: Usage, run: seq<Event>, v: Usage)
    requires Leads(cfg, u, run, v) && u.row.pdfPages == 0
    ensures v.row.pdfPages == 0
    decreases |run|
  {
    if run != [] {
      FirstStep(cfg, u, run, v);
      NoPagesDebited(cfg, After(u, run[0]), run[1..], v);
    }
  }

  /** No run ever debits a page: the page limit only compares against the request's own pages. */
  lemma PagesAreNeverDebited(cfg: Config, run: seq<Event>, u: Usage, pages: int)
    requires Leads(cfg, FRESH, run, u)
    ensures CheckAgainstLimits(u.row, GenerateFromPDF, pages, cfg.lim) == Admitted
            <==> u.row.pdfCalls < cfg.lim.pdfCalls && pages <= cfg.lim.pdfPages
  {
    NoPagesDebited(cfg, FRESH, run, u);
  }

  /** Debits of `feat` along `run`, starting from `used`; midnight starts over. */
  function Tally(used: int, run: seq<Event>, feat: Feature): int
    decreases |run|
  {
    if run == [] then used
    else match run[0]
      case Midnight => Tally(0, run[1..], feat)
      case Settle(f, debited) => Tally(if f == feat && debited then used + 1 else used, run[1..], feat)
      case _ => Tally(used, run[1..], feat)
  }

  /** Every counter holds exactly the calls debited to its feature since midnight. */
  lemma {:induction false} CountersTallyDebits(cfg: Config, u: Usage, run: seq<Event>, v: Usage, feat: Feature)
    requires Capped(feat) && Leads(cfg, u, run, v)
    ensures Used(v.row, feat) == Tally(Used(u.row, feat), run, feat)
    decreases |run|
  {
    if run != [] {
      FirstStep(cfg, u, run, v);
      UsedStep(u, run[0], feat);
      CountersTallyDebits(cfg, After(u, run[0]), run[1..], v, feat);
    }
  }

  // ----- the table under a run -----

  /** The quota table and the day, as the statements of one user's calls leave them. */
  datatype Table = Table(rows: Rows, day: int)

  /** A quota check ensures the user's row, a debit adds one call to it, midnight starts a new day. */
  function Executed(t: Table, uid: nat, e: Event): Table {
    match e
    case PassQuota(_, _) => t.(rows := WithRow(t.rows, uid, t.day))
    case Settle(feat, debited) =>
      if debited then t.(rows := AfterDebit(t.rows, uid, t.day, feat, 1, 0)) else t
    case Midnight => t.(day := t.day + 1)
    case _ => t
  }

  function AllExecuted(t: Table, uid: nat, run: seq<Event>): Table
    decreases |run|
  {
    if run == [] then t else AllExecuted(Executed(t, uid, run[0]), uid, run[1..])
  }

  /** The user's entry of the day is `row`, or is not there while `row` is all zeros; there is none for a later day. */
  ghost predicate Stores(t: Table, uid: nat, row: Row) {
    && row == (if (uid, t.day) in t.rows then t.rows[(uid, t.day)] else Row(0, 0, 0, 0, 0, 0))
    && forall day | day > t.day :: (uid, day) !in t.rows
  }

  lemma StepIsStored(cfg: Config, t: Table, uid: nat, u: Usage, e: Event)
    requires Stores(t, uid, u.row)
    ensures Stores(Executed(t, uid, e), uid, After(u, e).row)
  {
  }

  /** After every run the table holds exactly the counters that the run's bounds are about. */
  lemma {:induction false} TableHoldsTheCounters(cfg: Config, t: Table, uid: nat, u: Usage, run: seq<Event>, v: Usage)
    requires Leads(cfg, u, run, v)
    requires u.row == if (uid, t.day) in t.rows then t.rows[(uid, t.day)] else Row(0, 0, 0, 0, 0, 0)
    requires forall day | day > t.day :: (uid, day) !in t.rows
    ensures var end := AllExecuted(t, uid, run);
            && v.row == (if (uid, end.day) in end.rows then end.rows[(uid, end.day)] else Row(0, 0, 0, 0, 0, 0))
            && forall other, day | other != uid ::
                 && ((other, day) in end.rows <==> (other, day) in t.rows)
                 && ((other, day) in t.rows ==> end.rows[(other, day)] == t.rows[(other, day)])
    decreases |run|
  {
    if run != [] {
      FirstStep(cfg, u, run, v);
      StepIsStored(cfg, t, uid, u, run[0]);
      TableHoldsTheCounters(cfg, Executed(t, uid, run[0]), uid, After(u, run[0]), run[1..], v);
    }
  }
}
