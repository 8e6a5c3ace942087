/** From a JSON document, cut into chunks anyhow, to what the client is sent. */
module EndToEnd {
  import opened Basics
  import opened Bytes
  import opened StreamParser
  import opened FieldSearch
  import opened JsonText
  import opened Delivery
  import opened Generation
  import opened RunOutcomes
  import opened ElementLayout
  import opened JsonNames

  lemma {:induction false} AllWellFormed(wellFormed: Text -> bool, fired: seq<Text>)
    requires forall i | 0 <= i < |fired| :: wellFormed(fired[i])
    ensures WellFormedOnly(wellFormed, fired) == fired
    decreases |fired|
  {
    if fired != [] {
      AllWellFormed(wellFormed, fired[..|fired| - 1]);
    }
  }

  // ----- all that a run offers -----

  /** The first `k` of `xs`, one after the other. */
  function Flat(xs: seq<seq<Text>>, k: nat): seq<Text>
    requires k <= |xs|
  {
    if k == 0 then [] else Flat(xs, k - 1) + xs[k - 1]
  }

  /** The selects of a chunk on which the extractors fire `f` and `g`. */
  function PollsFor(wellFormed: Text -> bool, f: seq<Text>, g: seq<Text>): seq<Poll> {
    [Receive] + (Offers(ItemRole, wellFormed, f) + Offers(ChapterRole, wellFormed, g))
  }

  lemma OffersOfChunk(wellFormed: Text -> bool, f: seq<Text>, g: seq<Text>)
    ensures ItemsOf(Whole(PollsFor(wellFormed, f, g))) == WellFormedOnly(wellFormed, f)
    ensures ChaptersOf(Whole(PollsFor(wellFormed, f, g))) == WellFormedOnly(wellFormed, g)
  {
    var items, chapters := Offers(ItemRole, wellFormed, f), Offers(ChapterRole, wellFormed, g);
    OffersOnChannel(ItemRole, wellFormed, f);
    OffersOnChannel(ChapterRole, wellFormed, g);
    WholeBoth([Receive], items + chapters);
    WholeBoth(items, chapters);
    ChannelBoth(Whole(items), Whole(chapters));
    assert Whole([Receive]) == [] by {
      assert [Receive][..0] == [];
    }
    assert [] + Whole(items + chapters) == Whole(items + chapters);
  }

  ghost predicate Fires(wellFormed: Text -> bool, parts: seq<seq<Poll>>, fs: seq<seq<Text>>, gs: seq<seq<Text>>, i: nat)
    requires i < |parts| && i < |fs| && i < |gs|
  {
    parts[i] == PollsFor(wellFormed, fs[i], gs[i])
  }

  /** One more chunk. */
  lemma OffersOfMore(wellFormed: Text -> bool, before: seq<Poll>, part: seq<Poll>,
                     fs: seq<Text>, f: seq<Text>, gs: seq<Text>, g: seq<Text>)
    requires part == PollsFor(wellFormed, f, g)
    requires ItemsOf(Whole(before)) == WellFormedOnly(wellFormed, fs)
    requires ChaptersOf(Whole(before)) == WellFormedOnly(wellFormed, gs)
    ensures ItemsOf(Whole(before + part)) == WellFormedOnly(wellFormed, fs + f)
    ensures ChaptersOf(Whole(before + part)) == WellFormedOnly(wellFormed, gs + g)
  {
    OffersOfChunk(wellFormed, f, g);
    WholeBoth(before, part);
    ChannelBoth(Whole(before), Whole(part));
    WellFormedOfBoth(wellFormed, fs, f);
    WellFormedOfBoth(wellFormed, gs, g);
  }

  lemma {:induction false} OffersOfParts(wellFormed: Text -> bool, parts: seq<seq<Poll>>,
                                         fs: seq<seq<Text>>, gs: seq<seq<Text>>, k: nat)
    requires |fs| == |gs| == |parts| && k <= |parts|
    requires forall i | 0 <= i < |parts| :: Fires(wellFormed, parts, fs, gs, i)
    ensures ItemsOf(Whole(Joined(parts, k))) == WellFormedOnly(wellFormed, Flat(fs, k))
    ensures ChaptersOf(Whole(Joined(parts, k))) == WellFormedOnly(wellFormed, Flat(gs, k))
    decreases k
  {
    if k > 0 {
      assert Fires(wellFormed, parts, fs, gs, k - 1);
      OffersOfParts(wellFormed, parts, fs, gs, k - 1);
      OffersOfMore(wellFormed, Joined(parts, k - 1), parts[k - 1],
                   Flat(fs, k - 1), fs[k - 1], Flat(gs, k - 1), gs[k - 1]);
    }
  }

  lemma {:induction false} FlatOfNothing(n: nat, k: nat)
    requires k <= n
    ensures Flat(seq(n, i => []), k) == []
    decreases k
  {
    if k > 0 {
      FlatOfNothing(n, k - 1);
    }
  }

  /** What each chunk adds to what is fired. */
  function FiredBy(field: Text, chunks: seq<ProviderChunk>): seq<seq<Text>> {
    seq(|chunks|, i requires 0 <= i < |chunks| => NewElements(field, Fed(chunks, i), chunks[i].text))
  }

  lemma ElementsGrow(field: Text, chunks: seq<ProviderChunk>, i: nat)
    requires i < |chunks|
    ensures Elements(field, Fed(chunks, i + 1)) ==
            Elements(field, Fed(chunks, i)) + NewElements(field, Fed(chunks, i), chunks[i].text)
  {
    RunSplits(field, START, Fed(chunks, i), chunks[i].text);
  }

  lemma FiredAt(field: Text, chunks: seq<ProviderChunk>, i: nat)
    requires i < |chunks|
    ensures FiredBy(field, chunks)[i] == NewElements(field, Fed(chunks, i), chunks[i].text)
  {
  }

  lemma FlatNext(xs: seq<seq<Text>>, k: nat, before: seq<Text>, more: seq<Text>)
    requires k < |xs| && Flat(xs, k) == before && xs[k] == more
    ensures Flat(xs, k + 1) == before + more
  {
  }

  lemma NothingFlat(field: Text, chunks: seq<ProviderChunk>)
    ensures Flat(FiredBy(field, chunks), 0) == [] == Elements(field, Fed(chunks, 0))
  {
  }

  lemma {:induction false} FlatIsElements(field: Text, chunks: seq<ProviderChunk>, k: nat)
    requires k <= |chunks|
    ensures Flat(FiredBy(field, chunks), k) == Elements(field, Fed(chunks, k))
    decreases k
  {
    if k > 0 {
      var i := k - 1;
      FlatIsElements(field, chunks, i);
      FiredAt(field, chunks, i);
      ElementsGrow(field, chunks, i);
      FlatNext(FiredBy(field, chunks), i, Elements(field, Fed(chunks, i)),
               NewElements(field, Fed(chunks, i), chunks[i].text));
    } else {
      NothingFlat(field, chunks);
    }
  }

  lemma {:induction false} NothingOffered(wellFormed: Text -> bool, fired: seq<Text>)
    ensures Offers(IgnoreRole, wellFormed, fired) == []
    decreases |fired|
  {
    if fired != [] {
      NothingOffered(wellFormed, fired[..|fired| - 1]);
    }
  }

  /** The chapters that the request lets through, chunk by chunk. */
  function ChaptersBy(req: Request, chunks: seq<ProviderChunk>): seq<seq<Text>> {
    if req.dropChapters then seq(|chunks|, i => []) else FiredBy(CHAPTERS, chunks)
  }

  lemma PartsFire(req: Request, chunks: seq<ProviderChunk>, i: nat)
    requires i < |chunks|
    ensures Fires(req.wellFormed, AllPolls(req, chunks), FiredBy(ITEMS, chunks), ChaptersBy(req, chunks), i)
  {
    if req.dropChapters {
      NothingOffered(req.wellFormed, NewElements(CHAPTERS, Fed(chunks, i), chunks[i].text));
    }
  }

  /** What of the chapters the client gets to see. */
  function Heeded(req: Request, texts: seq<Text>): seq<Text> {
    if req.dropChapters then [] else texts
  }

  /** What is offered of each kind after the bytes `fed`. */
  ghost predicate OffersMatch(req: Request, fed: Text, sent: seq<Sent>) {
    && ItemsOf(sent) == WellFormedOnly(req.wellFormed, Elements(ITEMS, fed))
    && ChaptersOf(sent) == Heeded(req, WellFormedOnly(req.wellFormed, Elements(CHAPTERS, fed)))
  }

  lemma ChaptersAreHeeded(req: Request, chunks: seq<ProviderChunk>, k: nat)
    requires k <= |chunks|
    ensures WellFormedOnly(req.wellFormed, Flat(ChaptersBy(req, chunks), k)) ==
            Heeded(req, WellFormedOnly(req.wellFormed, Elements(CHAPTERS, Fed(chunks, k))))
  {
    if req.dropChapters {
      FlatOfNothing(|chunks|, k);
    } else {
      FlatIsElements(CHAPTERS, chunks, k);
    }
  }

  /** All that a run offers: the well-formed elements of each extractor alone, whatever the chunks. */
  lemma AllOffers(req: Request, chunks: seq<ProviderChunk>, k: nat)
    requires k <= |chunks|
    ensures OffersMatch(req, Fed(chunks, k), Whole(Polls(req, chunks, k)))
  {
    var fs, gs := FiredBy(ITEMS, chunks), ChaptersBy(req, chunks);
    forall i | 0 <= i < |chunks|
      ensures Fires(req.wellFormed, AllPolls(req, chunks), fs, gs, i)
    {
      PartsFire(req, chunks, i);
    }
    OffersOfParts(req.wellFormed, AllPolls(req, chunks), fs, gs, k);
    FlatIsElements(ITEMS, chunks, k);
    ChaptersAreHeeded(req, chunks, k);
  }

  /** A run that its context outlasts sends, in this order, every well-formed element of both arrays. */
  lemma OutlastedRunSendsAll(req: Request, chunks: seq<ProviderChunk>, closes: bool, k: nat, live: int,
                             body: seq<Sent>, emitted: int, dropped: int, done: bool)
    requires Streams(req, chunks, closes, k, live, body, emitted, dropped, done)
    requires Outlasted(req, chunks, closes, live)
    ensures done && k == Consumed(chunks) && body == Whole(Polls(req, chunks, k))
    ensures OffersMatch(req, Fed(chunks, k), body)
  {
    OutlastedRunIsComplete(req, chunks, closes, k, live, body, emitted, dropped, done);
    AllOffers(req, chunks, k);
  }

  /** The array that is read for `field` has readable items; its printed objects are `es`, all well formed. */
  ghost predicate HasArray(wellFormed: Text -> bool, field: Text, doc: Json, es: seq<Text>) {
    && WellFormed(doc) && Seek(field, doc, false).Opens?
    && var arr := Seek(field, doc, false).arr;
    && ReadableArray(arr) && es == Texts(Core(arr).items)
    && forall i | 0 <= i < |es| :: wellFormed(es[i])
  }

  /**
   From document to client: a run that its context outlasts, whose provider
   streams in any chunks a document with an items array, sends the client exactly
   the items as printed, counts them all as emitted, and drops none.
   */
  lemma UncancelledRunSendsTheItems(req: Request, chunks: seq<ProviderChunk>, closes: bool, k: nat, live: int,
                                    body: seq<Sent>, emitted: int, dropped: int, done: bool,
                                    lead: Text, doc: Json, trail: Text, es: seq<Text>)
    requires Streams(req, chunks, closes, k, live, body, emitted, dropped, done)
    requires Outlasted(req, chunks, closes, live)
    requires Fed(chunks, Consumed(chunks)) == lead + Print(doc) + trail && White(lead)
    requires HasArray(req.wellFormed, ITEMS, doc, es)
    ensures done && ItemsOf(body) == es && emitted == |es| && dropped == 0
  {
    OutlastedRunSendsAll(req, chunks, closes, k, live, body, emitted, dropped, done);
    RoundTrip(ITEMS, lead, doc, trail);
    AllWellFormed(req.wellFormed, es);
  }

  /** The same for chapters, which reach the client only when the request keeps them. */
  lemma UncancelledRunSendsTheChapters(req: Request, chunks: seq<ProviderChunk>, closes: bool, k: nat, live: int,
                                       body: seq<Sent>, emitted: int, dropped: int, done: bool,
                                       lead: Text, doc: Json, trail: Text, es: seq<Text>)
    requires Streams(req, chunks, closes, k, live, body, emitted, dropped, done)
    requires Outlasted(req, chunks, closes, live)
    requires Fed(chunks, Consumed(chunks)) == lead + Print(doc) + trail && White(lead)
    requires HasArray(req.wellFormed, CHAPTERS, doc, es)
    ensures done && ChaptersOf(body) == if req.dropChapters then [] else es
  {
    OutlastedRunSendsAll(req, chunks, closes, k, live, body, emitted, dropped, done);
    RoundTrip(CHAPTERS, lead, doc, trail);
    AllWellFormed(req.wellFormed, es);
  }

  /**
   A document whose items are null, or anything else without a '[': its chapters
   are sent as items, and counted as emitted.
   */
  lemma WithoutItemsTheChaptersAreSentAsItems(
      req: Request, chunks: seq<ProviderChunk>, closes: bool, k: nat, live: int,
      body: seq<Sent>, emitted: int, dropped: int, done: bool,
      lead: Text, items: seq<Unit>, value: Json, chapters: seq<Unit>, arr: Json, trail: Text)
    requires Streams(req, chunks, closes, k, live, body, emitted, dropped, done)
    requires Outlasted(req, chunks, closes, live)
    requires LegalBody(items) && Strip(items) == ITEMS
    requires LegalBody(chapters) && Strip(chapters) == CHAPTERS && NoBracket(Quoted(chapters))
    requires WellFormed(value) && NoBracket(Print(value)) && Found(CHAPTERS, value).None?
    requires WellFormed(arr) && ReadableArray(arr)
    requires forall i | 0 <= i < |Texts(Core(arr).items)| :: req.wellFormed(Texts(Core(arr).items)[i])
    requires White(lead)
    requires Fed(chunks, Consumed(chunks)) == lead + Print(TwoMembers(items, value, chapters, arr)) + trail
    ensures var es := Texts(Core(arr).items);
            && done && ItemsOf(body) == es && emitted == |es| && dropped == 0
            && ChaptersOf(body) == if req.dropChapters then [] else es
  {
    var doc, es := TwoMembers(items, value, chapters, arr), Texts(Core(arr).items);
    NoArrayGivesTheNext(ITEMS, items, value, chapters, arr);
    FoundMatches(CHAPTERS, value);
    TwoMembersAreSought(CHAPTERS, items, value, chapters, arr);
    ArrayIsOpened(CHAPTERS, arr);
    TwoMembersAreWellFormed(items, value, chapters, arr);
    UncancelledRunSendsTheItems(req, chunks, closes, k, live, body, emitted, dropped, done, lead, doc, trail, es);
    UncancelledRunSendsTheChapters(req, chunks, closes, k, live, body, emitted, dropped, done, lead, doc, trail, es);
  }
}
