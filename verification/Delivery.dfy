/**
 Relating what a parser fired to what the client was sent. Every well-formed
 element is offered in a select against the context's end; the offers made before
 the end can be chosen are all sent, of later ones any may be missing.
 */
module Delivery {
  import opened Bytes
  import opened ProviderErrors

  /** What the client receives, with payloads read out. */
  datatype Sent =
    | ItemSent(text: Text)
    | ChapterSent(text: Text)
    | DoneSent
    | ErrorSent(err: Failure)

  datatype Role = ItemRole | ChapterRole | IgnoreRole

  /** A select against the context's end: for the next chunk, or to send a payload. */
  datatype Poll = Receive | Offer(sent: Sent)

  function Payload(role: Role, e: Text): Sent
    requires !role.IgnoreRole?
  {
    if role.ItemRole? then ItemSent(e) else ChapterSent(e)
  }

  /** The offers that one element leads to: one, unless it is ignored or malformed. */
  function OffersOf(role: Role, wellFormed: Text -> bool, e: Text): seq<Poll> {
    if role.IgnoreRole? || !wellFormed(e) then [] else [Offer(Payload(role, e))]
  }

  function Offers(role: Role, wellFormed: Text -> bool, fired: seq<Text>): seq<Poll>
    decreases |fired|
  {
    if fired == [] then []
    else Offers(role, wellFormed, fired[..|fired| - 1]) + OffersOf(role, wellFormed, fired[|fired| - 1])
  }

  lemma {:induction false} OffersBoth(role: Role, wellFormed: Text -> bool, f: seq<Text>, g: seq<Text>)
    ensures Offers(role, wellFormed, f + g) == Offers(role, wellFormed, f) + Offers(role, wellFormed, g)
    decreases |g|
  {
    if g == [] {
      assert f + g == f;
    } else {
      assert (f + g)[..|f + g| - 1] == f + g[..|g| - 1];
      OffersBoth(role, wellFormed, f, g[..|g| - 1]);
    }
  }

  lemma OffersOfOne(role: Role, wellFormed: Text -> bool, e: Text)
    ensures Offers(role, wellFormed, [e]) == OffersOf(role, wellFormed, e)
  {
    assert [e][..0] == [];
  }

  /** Which polls' payloads were sent: of the first `live` polls all. */
  ghost predicate Picks(polls: seq<Poll>, live: int, picks: seq<bool>) {
    |picks| == |polls| && forall i | 0 <= i < |polls| && i < live :: picks[i]
  }

  function Chosen(polls: seq<Poll>, picks: seq<bool>): seq<Sent>
    requires |picks| == |polls|
    decreases |polls|
  {
    if polls == [] then []
    else
      var before, p := Chosen(polls[..|polls| - 1], picks[..|polls| - 1]), polls[|polls| - 1];
      if p.Offer? && picks[|polls| - 1] then before + [p.sent] else before
  }

  /** `got` are payloads of `polls` in order: all that are offered among the first `live` polls, and any later ones. */
  ghost predicate Kept(polls: seq<Poll>, live: int, got: seq<Sent>) {
    exists picks :: Picks(polls, live, picks) && Chosen(polls, picks) == got
  }

  lemma {:induction false} ChosenBoth(a: seq<Poll>, x: seq<bool>, b: seq<Poll>, y: seq<bool>)
    requires |x| == |a| && |y| == |b|
    ensures Chosen(a + b, x + y) == Chosen(a, x) + Chosen(b, y)
    decreases |b|
  {
    if b == [] {
      assert a + b == a && x + y == x;
    } else {
      var n := |b| - 1;
      assert (a + b)[..|a + b| - 1] == a + b[..n] && (x + y)[..|a + b| - 1] == x + y[..n];
      ChosenBoth(a, x, b[..n], y[..n]);
    }
  }

  lemma KeptBoth(a: seq<Poll>, live: int, x: seq<Sent>, b: seq<Poll>, later: int, y: seq<Sent>)
    requires Kept(a, live, x) && Kept(b, later, y) && later == live - |a|
    ensures Kept(a + b, live, x + y)
  {
    var p :| Picks(a, live, p) && Chosen(a, p) == x;
    var q :| Picks(b, later, q) && Chosen(b, q) == y;
    ChosenBoth(a, p, b, q);
    assert Picks(a + b, live, p + q);
  }

  lemma KeptNothing(live: int)
    ensures Kept([], live, [])
  {
    assert Picks([], live, []);
  }

  /** A single payload is sent, or, once the end can be chosen, not. */
  lemma KeptOne(s: Sent, live: int)
    ensures Kept([Offer(s)], live, [s])
    ensures live <= 0 ==> Kept([Offer(s)], live, [])
  {
    assert Picks([Offer(s)], live, [true]);
    assert Chosen([Offer(s)], [true]) == [s] && Chosen([Offer(s)], [false]) == [] by {
      assert [Offer(s)][..0] == [] && [true][..0] == [] && [false][..0] == [];
    }
    assert live <= 0 ==> Picks([Offer(s)], live, [false]);
  }

  lemma KeptOffers(role: Role, wellFormed: Text -> bool, f: seq<Text>, live: int, t: seq<Sent>,
                   g: seq<Text>, later: int, u: seq<Sent>)
    requires Kept(Offers(role, wellFormed, f), live, t) && Kept(Offers(role, wellFormed, g), later, u)
    requires later == live - |Offers(role, wellFormed, f)|
    ensures Kept(Offers(role, wellFormed, f + g), live, t + u)
  {
    OffersBoth(role, wellFormed, f, g);
    KeptBoth(Offers(role, wellFormed, f), live, t, Offers(role, wellFormed, g), later, u);
  }

  /** All payloads offered. */
  function Whole(polls: seq<Poll>): seq<Sent>
    decreases |polls|
  {
    if polls == [] then []
    else
      var before, p := Whole(polls[..|polls| - 1]), polls[|polls| - 1];
      if p.Offer? then before + [p.sent] else before
  }

  lemma {:induction false} AllChosen(polls: seq<Poll>, picks: seq<bool>)
    requires |picks| == |polls| && forall i | 0 <= i < |polls| :: picks[i]
    ensures Chosen(polls, picks) == Whole(polls)
    decreases |polls|
  {
    if polls != [] {
      AllChosen(polls[..|polls| - 1], picks[..|polls| - 1]);
    }
  }

  /** If the end does not come before the last poll, delivery is complete and determined. */
  lemma DeliveredExactly(polls: seq<Poll>, live: int, got: seq<Sent>)
    requires |polls| <= live
    ensures Kept(polls, live, got) <==> got == Whole(polls)
  {
    forall picks | Picks(polls, live, picks)
      ensures Chosen(polls, picks) == Whole(polls)
    {
      AllChosen(polls, picks);
    }
    assert Picks(polls, live, seq(|polls|, i => true));
  }

  /** What was offered before the end is delivered whole, and first. */
  lemma NothingIsLostBeforeTheEnd(polls: seq<Poll>, live: int, got: seq<Sent>, n: nat)
    requires Kept(polls, live, got) && n <= |polls| && n <= live
    ensures Whole(polls[..n]) <= got
  {
    var picks :| Picks(polls, live, picks) && Chosen(polls, picks) == got;
    assert polls[..n] + polls[n..] == polls && picks[..n] + picks[n..] == picks;
    ChosenBoth(polls[..n], picks[..n], polls[n..], picks[n..]);
    AllChosen(polls[..n], picks[..n]);
  }

  // ----- items and chapters on one channel -----

  function ItemsOf(sent: seq<Sent>): seq<Text>
    decreases |sent|
  {
    if sent == [] then []
    else
      var before, s := ItemsOf(sent[..|sent| - 1]), sent[|sent| - 1];
      if s.ItemSent? then before + [s.text] else before
  }

  function ChaptersOf(sent: seq<Sent>): seq<Text>
    decreases |sent|
  {
    if sent == [] then []
    else
      var before, s := ChaptersOf(sent[..|sent| - 1]), sent[|sent| - 1];
      if s.ChapterSent? then before + [s.text] else before
  }

  predicate PayloadsOnly(sent: seq<Sent>) {
    forall i | 0 <= i < |sent| :: sent[i].ItemSent? || sent[i].ChapterSent?
  }

  lemma {:induction false} ChannelBoth(a: seq<Sent>, b: seq<Sent>)
    ensures ItemsOf(a + b) == ItemsOf(a) + ItemsOf(b)
    ensures ChaptersOf(a + b) == ChaptersOf(a) + ChaptersOf(b)
    decreases |b|
  {
    if b == [] {
      assert a + b == a;
    } else {
      assert (a + b)[..|a + b| - 1] == a + b[..|b| - 1];
      ChannelBoth(a, b[..|b| - 1]);
    }
  }

  lemma {:induction false} WholeBoth(a: seq<Poll>, b: seq<Poll>)
    ensures Whole(a + b) == Whole(a) + Whole(b)
    decreases |b|
  {
    if b == [] {
      assert a + b == a;
    } else {
      assert (a + b)[..|a + b| - 1] == a + b[..|b| - 1];
      WholeBoth(a, b[..|b| - 1]);
    }
  }

  function WellFormedOnly(wellFormed: Text -> bool, fired: seq<Text>): seq<Text>
    decreases |fired|
  {
    if fired == [] then []
    else
      var before, e := WellFormedOnly(wellFormed, fired[..|fired| - 1]), fired[|fired| - 1];
      if wellFormed(e) then before + [e] else before
  }

  lemma {:induction false} WellFormedOfBoth(wellFormed: Text -> bool, f: seq<Text>, g: seq<Text>)
    ensures WellFormedOnly(wellFormed, f + g) == WellFormedOnly(wellFormed, f) + WellFormedOnly(wellFormed, g)
    decreases |g|
  {
    if g == [] {
      assert f + g == f;
    } else {
      assert (f + g)[..|f + g| - 1] == f + g[..|g| - 1];
      WellFormedOfBoth(wellFormed, f, g[..|g| - 1]);
    }
  }

  lemma WholeSnoc(polls: seq<Poll>, s: Sent)
    ensures Whole(polls + [Offer(s)]) == Whole(polls) + [s]
  {
    assert (polls + [Offer(s)])[..|polls|] == polls;
  }

  lemma ChannelSnoc(sent: seq<Sent>, s: Sent)
    ensures ItemsOf(sent + [s]) == if s.ItemSent? then ItemsOf(sent) + [s.text] else ItemsOf(sent)
    ensures ChaptersOf(sent + [s]) == if s.ChapterSent? then ChaptersOf(sent) + [s.text] else ChaptersOf(sent)
  {
    assert (sent + [s])[..|sent|] == sent;
  }

  /** `polls` are offers of this role for the texts `good`. */
  ghost predicate OnChannel(role: Role, polls: seq<Poll>, good: seq<Text>) {
    && |polls| == (if role.IgnoreRole? then 0 else |good|)
    && ItemsOf(Whole(polls)) == (if role.ItemRole? then good else [])
    && ChaptersOf(Whole(polls)) == (if role.ChapterRole? then good else [])
  }

  lemma OneMoreOffer(role: Role, polls: seq<Poll>, good: seq<Text>, e: Text)
    requires OnChannel(role, polls, good) && !role.IgnoreRole?
    ensures OnChannel(role, polls + [Offer(Payload(role, e))], good + [e])
  {
    WholeSnoc(polls, Payload(role, e));
    ChannelSnoc(Whole(polls), Payload(role, e));
  }

  /** One parser's offers, seen on the channel. */
  lemma {:induction false} OffersOnChannel(role: Role, wellFormed: Text -> bool, fired: seq<Text>)
    ensures OnChannel(role, Offers(role, wellFormed, fired), WellFormedOnly(wellFormed, fired))
    decreases |fired|
  {
    if fired != [] {
      var before, e := fired[..|fired| - 1], fired[|fired| - 1];
      OffersOnChannel(role, wellFormed, before);
      if wellFormed(e) && !role.IgnoreRole? {
        OneMoreOffer(role, Offers(role, wellFormed, before), WellFormedOnly(wellFormed, before), e);
      } else {
        assert Offers(role, wellFormed, fired) == Offers(role, wellFormed, before);
      }
    }
  }

  /** Payloads of which kind a parser sends. */
  predicate OfRole(role: Role, got: seq<Sent>) {
    forall i | 0 <= i < |got| :: if role.ItemRole? then got[i].ItemSent? else got[i].ChapterSent?
  }

  predicate OffersRole(role: Role, polls: seq<Poll>) {
    forall i | 0 <= i < |polls| ::
      polls[i].Offer? && if role.ItemRole? then polls[i].sent.ItemSent? else polls[i].sent.ChapterSent?
  }

  lemma {:induction false} OffersAreOfRole(role: Role, wellFormed: Text -> bool, fired: seq<Text>)
    ensures OffersRole(role, Offers(role, wellFormed, fired))
    decreases |fired|
  {
    if fired != [] {
      OffersAreOfRole(role, wellFormed, fired[..|fired| - 1]);
    }
  }

  lemma {:induction false} ChosenOfRole(role: Role, polls: seq<Poll>, picks: seq<bool>)
    requires OffersRole(role, polls) && |picks| == |polls|
    ensures OfRole(role, Chosen(polls, picks))
    decreases |polls|
  {
    if polls != [] {
      assert forall i | 0 <= i < |polls| - 1 :: polls[..|polls| - 1][i] == polls[i];
      ChosenOfRole(role, polls[..|polls| - 1], picks[..|polls| - 1]);
    }
  }

  lemma KeptOfRole(role: Role, wellFormed: Text -> bool, fired: seq<Text>, live: int, got: seq<Sent>)
    requires Kept(Offers(role, wellFormed, fired), live, got)
    ensures OfRole(role, got)
  {
    var polls := Offers(role, wellFormed, fired);
    var picks :| Picks(polls, live, picks) && Chosen(polls, picks) == got;
    OffersAreOfRole(role, wellFormed, fired);
    ChosenOfRole(role, polls, picks);
  }

  lemma {:induction false} CountedItems(role: Role, got: seq<Sent>)
    requires OfRole(role, got)
    ensures |ItemsOf(got)| == (if role.ItemRole? then |got| else 0) && PayloadsOnly(got)
    decreases |got|
  {
    if got != [] {
      var before := got[..|got| - 1];
      assert forall i | 0 <= i < |before| :: before[i] == got[i];
      CountedItems(role, before);
    }
  }
}
