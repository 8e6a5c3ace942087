/** Which outcomes a stream can have, for every provider behaviour and every moment at which the context ends. */
module RunOutcomes {
  import opened Basics
  import opened Bytes
  import opened StreamParser
  import opened Delivery
  import opened Generation

  // ----- any choice after the end is an outcome -----

  predicate OffersPayloads(polls: seq<Poll>) {
    forall i | 0 <= i < |polls| && polls[i].Offer? :: polls[i].sent.ItemSent? || polls[i].sent.ChapterSent?
  }

  lemma ChunkOffersPayloads(req: Request, chunks: seq<ProviderChunk>, i: nat)
    requires i < |chunks|
    ensures OffersPayloads(ChunkPolls(req, chunks, i))
  {
    var fed, b := Fed(chunks, i), chunks[i].text;
    OffersAreOfRole(ItemRole, req.wellFormed, NewElements(ITEMS, fed, b));
    OffersAreOfRole(ChapterRoleOf(req), req.wellFormed, NewElements(CHAPTERS, fed, b));
  }

  lemma {:induction false} JoinedOffersPayloads(parts: seq<seq<Poll>>, k: nat)
    requires k <= |parts| && forall i | 0 <= i < |parts| :: OffersPayloads(parts[i])
    ensures OffersPayloads(Joined(parts, k))
    decreases k
  {
    if k > 0 {
      JoinedOffersPayloads(parts, k - 1);
    }
  }

  lemma PollsOfferPayloads(req: Request, chunks: seq<ProviderChunk>, k: nat)
    requires k <= |chunks|
    ensures OffersPayloads(Polls(req, chunks, k))
  {
    var parts := AllPolls(req, chunks);
    forall i | 0 <= i < |parts|
      ensures OffersPayloads(parts[i])
    {
      ChunkOffersPayloads(req, chunks, i);
    }
    JoinedOffersPayloads(parts, k);
  }

  lemma {:induction false} ChosenPayloads(polls: seq<Poll>, picks: seq<bool>)
    requires OffersPayloads(polls) && |picks| == |polls|
    ensures PayloadsOnly(Chosen(polls, picks))
    decreases |polls|
  {
    if polls != [] {
      var n := |polls| - 1;
      assert forall i | 0 <= i < n :: polls[..n][i] == polls[i];
      ChosenPayloads(polls[..n], picks[..n]);
    }
  }

  /** Whatever is sent of the offers after the end is a possible state of the channel. */
  lemma AnyPicksAreRelayed(req: Request, chunks: seq<ProviderChunk>, k: nat, live: int, picks: seq<bool>)
    requires k <= |chunks| && Picks(Polls(req, chunks, k), live, picks)
    ensures var body := Chosen(Polls(req, chunks, k), picks);
            Relayed(req, Fed(chunks, k), Polls(req, chunks, k), live, body,
                    |ItemsOf(body)|, MalformedItems(req, Fed(chunks, k)))
  {
    PollsOfferPayloads(req, chunks, k);
    ChosenPayloads(Polls(req, chunks, k), picks);
  }

  // ----- where a stream can be cut short -----

  /** How many chunks come before the one marked last; all if none is. */
  function BeforeLast(chunks: seq<ProviderChunk>): (k: nat)
    ensures k <= |chunks|
    decreases |chunks|
  {
    if chunks == [] || chunks[0].last then 0 else 1 + BeforeLast(chunks[1..])
  }

  lemma {:induction false} BeforeLastIsBefore(chunks: seq<ProviderChunk>)
    ensures NoLast(chunks, BeforeLast(chunks))
    ensures BeforeLast(chunks) < |chunks| ==> chunks[BeforeLast(chunks)].last
    ensures Consumed(chunks) == if BeforeLast(chunks) < |chunks| then BeforeLast(chunks) + 1 else |chunks|
    decreases |chunks|
  {
    if chunks != [] && !chunks[0].last {
      BeforeLastIsBefore(chunks[1..]);
    }
  }

  /** Some outcome is cut short: the stream never finishes, or the end comes before the run's last receiving select. */
  predicate Cuttable(req: Request, chunks: seq<ProviderChunk>, closes: bool, live: int) {
    !Finishes(chunks, closes) || live <= |Polls(req, chunks, BeforeLast(chunks))|
  }

  lemma CutSomewhereExactlyWhen(req: Request, chunks: seq<ProviderChunk>, closes: bool, live: int)
    ensures (exists k: nat :: k <= Consumed(chunks) && CutShort(req, chunks, closes, k, live))
            <==> Cuttable(req, chunks, closes, live)
  {
    var last := BeforeLast(chunks);
    BeforeLastIsBefore(chunks);
    if Cuttable(req, chunks, closes, live) {
      assert CutShort(req, chunks, closes, last, live);
    }
    if k: nat :| k <= Consumed(chunks) && CutShort(req, chunks, closes, k, live) {
      assert k <= last;
      JoinedGrows(AllPolls(req, chunks), k, last);
    }
  }

  // ----- which outcomes there are -----

  function AllPicked(n: nat): seq<bool> {
    seq(n, i => true)
  }

  lemma EverythingIsRelayed(req: Request, chunks: seq<ProviderChunk>, k: nat, live: int)
    requires k <= |chunks|
    ensures var polls := Polls(req, chunks, k);
            Relayed(req, Fed(chunks, k), polls, live, Whole(polls), |ItemsOf(Whole(polls))|,
                    MalformedItems(req, Fed(chunks, k)))
  {
    var polls := Polls(req, chunks, k);
    AllChosen(polls, AllPicked(|polls|));
    AnyPicksAreRelayed(req, chunks, k, live, AllPicked(|polls|));
  }

  /** A run can end as complete exactly when its stream finishes by itself, no matter when the context ends. */
  lemma CompletesExactlyWhen(req: Request, chunks: seq<ProviderChunk>, closes: bool, live: int)
    ensures (exists k: nat, body, e, d :: Streams(req, chunks, closes, k, live, body, e, d, true))
            <==> Finishes(chunks, closes)
  {
    if Finishes(chunks, closes) {
      var k := Consumed(chunks);
      var body := Whole(Polls(req, chunks, k));
      EverythingIsRelayed(req, chunks, k, live);
      assert Streams(req, chunks, closes, k, live, body, |ItemsOf(body)|, MalformedItems(req, Fed(chunks, k)), true);
    }
  }

  /** A run can be cut short by its context exactly when its stream is cuttable. */
  lemma IsCutShortExactlyWhen(req: Request, chunks: seq<ProviderChunk>, closes: bool, live: int)
    ensures (exists k: nat, body, e, d :: Streams(req, chunks, closes, k, live, body, e, d, false))
            <==> Cuttable(req, chunks, closes, live)
  {
    CutSomewhereExactlyWhen(req, chunks, closes, live);
    if k: nat :| k <= Consumed(chunks) && CutShort(req, chunks, closes, k, live) {
      var body := Whole(Polls(req, chunks, k));
      EverythingIsRelayed(req, chunks, k, live);
      assert Streams(req, chunks, closes, k, live, body, |ItemsOf(body)|, MalformedItems(req, Fed(chunks, k)), false);
    }
    if k: nat, body, e, d :| Streams(req, chunks, closes, k, live, body, e, d, false) {
      assert CutShort(req, chunks, closes, k, live);
    }
  }

  /** A context that has ended before the run starts need not show: the run can be complete with nothing sent. */
  lemma EndedRunCanBeComplete(req: Request, chunks: seq<ProviderChunk>, closes: bool)
    requires Finishes(chunks, closes)
    ensures Streams(req, chunks, closes, Consumed(chunks), 0, [], 0,
                    MalformedItems(req, Fed(chunks, Consumed(chunks))), true)
  {
    var k := Consumed(chunks);
    var picks := seq(|Polls(req, chunks, k)|, i => false);
    NoneChosen(Polls(req, chunks, k), picks);
    AnyPicksAreRelayed(req, chunks, k, 0, picks);
  }

  lemma {:induction false} NoneChosen(polls: seq<Poll>, picks: seq<bool>)
    requires |picks| == |polls| && forall i | 0 <= i < |picks| :: !picks[i]
    ensures Chosen(polls, picks) == []
    decreases |polls|
  {
    if polls != [] {
      NoneChosen(polls[..|polls| - 1], picks[..|polls| - 1]);
    }
  }

  // ----- when the outcome is certain -----

  /** The stream finishes by itself, and the end comes after every select that is made. */
  predicate Outlasted(req: Request, chunks: seq<ProviderChunk>, closes: bool, live: int) {
    !Cuttable(req, chunks, closes, live) && live >= |Polls(req, chunks, Consumed(chunks))|
  }

  /** The run succeeded and sent all that it offers. */
  ghost predicate Complete(req: Request, chunks: seq<ProviderChunk>, body: seq<Sent>, done: bool) {
    done && body == Whole(Polls(req, chunks, Consumed(chunks)))
  }

  lemma OutlastedRunIsComplete(req: Request, chunks: seq<ProviderChunk>, closes: bool, k: nat, live: int,
                               body: seq<Sent>, e: int, d: int, done: bool)
    requires Streams(req, chunks, closes, k, live, body, e, d, done) && Outlasted(req, chunks, closes, live)
    ensures Complete(req, chunks, body, done) && k == Consumed(chunks)
  {
    if !done {
      IsCutShortExactlyWhen(req, chunks, closes, live);
      assert false;
    }
    DeliveredExactly(Polls(req, chunks, k), live, body);
  }

  /** A chunk's selects after the first are offers. */
  lemma LaterPollsAreOffers(req: Request, chunks: seq<ProviderChunk>, k: nat)
    requires k < |chunks|
    ensures forall i | 1 <= i < |ChunkPolls(req, chunks, k)| :: ChunkPolls(req, chunks, k)[i].Offer?
  {
    var fed, b := Fed(chunks, k), chunks[k].text;
    OffersAreOfRole(ItemRole, req.wellFormed, NewElements(ITEMS, fed, b));
    OffersAreOfRole(ChapterRoleOf(req), req.wellFormed, NewElements(CHAPTERS, fed, b));
  }

  lemma LastOfJoined(parts: seq<seq<Poll>>, k: nat, live: int)
    requires k < |parts| && |Joined(parts, k)| < live < |Joined(parts, k + 1)|
    requires forall i | 1 <= i < |parts[k]| :: parts[k][i].Offer?
    ensures var polls := Joined(parts, k + 1); polls[|polls| - 1].Offer?
  {
    assert |parts[k]| >= 2;
  }

  lemma LastPollIsOffer(req: Request, chunks: seq<ProviderChunk>, k: nat, live: int)
    requires k < |chunks| && |Polls(req, chunks, k)| < live < |Polls(req, chunks, k + 1)|
    ensures var polls := Polls(req, chunks, k + 1); polls[|polls| - 1].Offer?
  {
    LaterPollsAreOffers(req, chunks, k);
    assert AllPolls(req, chunks)[k] == ChunkPolls(req, chunks, k);
    LastOfJoined(AllPolls(req, chunks), k, live);
  }

  function AllButLast(polls: seq<Poll>): seq<bool>
    requires polls != []
  {
    AllPicked(|polls| - 1) + [false]
  }

  lemma WithoutLast(polls: seq<Poll>, live: int)
    requires polls != [] && polls[|polls| - 1].Offer? && live < |polls|
    ensures Picks(polls, live, AllButLast(polls)) && Chosen(polls, AllButLast(polls)) != Whole(polls)
  {
    var n, picks := |polls| - 1, AllButLast(polls);
    assert picks[..n] == AllPicked(n);
    AllChosen(polls[..n], AllPicked(n));
    assert Chosen(polls, picks) == Whole(polls[..n]);
    assert |Whole(polls)| == |Whole(polls[..n])| + 1;
  }

  /** Some outcome is not complete. */
  ghost predicate CanFail(req: Request, chunks: seq<ProviderChunk>, closes: bool, live: int) {
    exists k: nat, body, e, d, done ::
      Streams(req, chunks, closes, k, live, body, e, d, done) && !Complete(req, chunks, body, done)
  }

  /** Sent without the last payload. */
  lemma LastCanBeMissing(req: Request, chunks: seq<ProviderChunk>, closes: bool, k: nat, polls: seq<Poll>, live: int)
    requires k == Consumed(chunks) && Finishes(chunks, closes) && polls == Polls(req, chunks, k)
    requires polls != [] && polls[|polls| - 1].Offer? && live < |polls|
    ensures CanFail(req, chunks, closes, live)
  {
    var body := Chosen(polls, AllButLast(polls));
    WithoutLast(polls, live);
    AnyPicksAreRelayed(req, chunks, k, live, AllButLast(polls));
    assert Streams(req, chunks, closes, k, live, body, |ItemsOf(body)|, MalformedItems(req, Fed(chunks, k)), true);
  }

  lemma LastPayloadCanFail(req: Request, chunks: seq<ProviderChunk>, closes: bool, live: int, last: nat)
    requires last < |chunks| && Consumed(chunks) == last + 1 && Finishes(chunks, closes)
    requires |Polls(req, chunks, last)| < live < |Polls(req, chunks, last + 1)|
    ensures CanFail(req, chunks, closes, live)
  {
    LastPollIsOffer(req, chunks, last, live);
    LastCanBeMissing(req, chunks, closes, last + 1, Polls(req, chunks, last + 1), live);
  }

  lemma CutCanFail(req: Request, chunks: seq<ProviderChunk>, closes: bool, live: int)
    requires Cuttable(req, chunks, closes, live)
    ensures CanFail(req, chunks, closes, live)
  {
    IsCutShortExactlyWhen(req, chunks, closes, live);
    var k: nat, body, e, d :| Streams(req, chunks, closes, k, live, body, e, d, false);
    assert !Complete(req, chunks, body, false);
  }

  /** The end lies among the selects of the last chunk `last`, and only payloads can be lost. */
  lemma EndInLastChunkCanFail(req: Request, chunks: seq<ProviderChunk>, closes: bool, live: int, last: nat, k: nat)
    requires last <= |chunks| && k == (if last < |chunks| then last + 1 else last)
    requires k == Consumed(chunks) && Finishes(chunks, closes)
    requires |Polls(req, chunks, last)| < live < |Polls(req, chunks, k)|
    ensures CanFail(req, chunks, closes, live)
  {
    if last < |chunks| {
      LastPayloadCanFail(req, chunks, closes, live, last);
    }
  }

  lemma NotOutlastedCanFail(req: Request, chunks: seq<ProviderChunk>, closes: bool, live: int)
    requires !Outlasted(req, chunks, closes, live)
    ensures CanFail(req, chunks, closes, live)
  {
    if Cuttable(req, chunks, closes, live) {
      CutCanFail(req, chunks, closes, live);
    } else {
      BeforeLastIsBefore(chunks);
      EndInLastChunkCanFail(req, chunks, closes, live, BeforeLast(chunks), Consumed(chunks));
    }
  }

  /** Success with everything sent is certain exactly when the context outlasts the run. */
  lemma CompleteForSureExactlyWhen(req: Request, chunks: seq<ProviderChunk>, closes: bool, live: int)
    ensures (forall k: nat, body, e, d, done ::
               Streams(req, chunks, closes, k, live, body, e, d, done) ==> Complete(req, chunks, body, done))
            <==> Outlasted(req, chunks, closes, live)
  {
    if Outlasted(req, chunks, closes, live) {
      forall k: nat, body, e, d, done | Streams(req, chunks, closes, k, live, body, e, d, done)
        ensures Complete(req, chunks, body, done)
      {
        OutlastedRunIsComplete(req, chunks, closes, k, live, body, e, d, done);
      }
    } else {
      NotOutlastedCanFail(req, chunks, closes, live);
    }
  }
}
