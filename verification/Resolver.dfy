/**
 One round of the market: bucketing of actions, the update of price, volume and
 sentiment per segment, matching, the change books and the delta payload.

 `Resolve` says in closed form what a round comes to, from the dictionaries it is given;
 the code's loop nest is proved equal to it in the module `ResolverLoop`.
 */
module Resolver {
  import opened Wrappers
  import opened Ordering
  import opened Numbers
  import opened Market
  import opened Matching

  /* ---------- per-segment arithmetic ---------- */

  /** What the bucket of one segment counts. */
  datatype Tally = Tally(actions: nat, buyCount: nat, sellCount: nat, buyIntensity: real, sellIntensity: real)

  const EMPTY_TALLY := Tally(0, 0, 0, 0.0, 0.0)

  function NetPressure(t: Tally): real {
    (t.buyIntensity - t.sellIntensity) / (Max(t.actions, 1) as real)
  }

  function PricePct(t: Tally): real {
    Clamp(NetPressure(t) * 0.05, -0.05, 0.05)
  }

  /** The price moved by its change, before it is cut to an integer. */
  function MovedPrice(s: Segment, t: Tally): real {
    s.medianPrice as real * (1.0 + PricePct(t))
  }

  function NewPrice(s: Segment, t: Tally): int {
    PriceAt(MovedPrice(s, t))
  }

  /** `max(1, int(moved))` */
  function PriceAt(moved: real): int {
    Max(1, Trunc(moved))
  }

  /** How many trades the segment may clear: `matched_transactions`. */
  function Limit(s: Segment, t: Tally): nat {
    Min(t.buyCount, t.sellCount + Max(0, Trunc(s.volume as real * 0.1)))
  }

  function VolumeChange(s: Segment, t: Tally): int {
    Limit(s, t) - s.volume
  }

  function NewVolume(s: Segment, t: Tally): int {
    Max(0, s.volume + Trunc(VolumeChange(s, t) as real * 0.1))
  }

  function NewTrend(t: Tally): Trend {
    if PricePct(t) > 0.001 then Up else if PricePct(t) < -0.001 then Down else Flat
  }

  function NewSentiment(s: Segment, t: Tally): real {
    Clamp(s.sentiment + NetPressure(t) * 0.1, 0.0, 1.0)
  }

  function NewSegment(s: Segment, t: Tally): Segment {
    s.(medianPrice := NewPrice(s, t), volume := NewVolume(s, t), trend := NewTrend(t), sentiment := NewSentiment(s, t))
  }

  function DeltaOf(gu: string, s: Segment, t: Tally): SegmentDelta {
    SegmentDelta(gu, PricePct(t), VolumeChange(s, t), NewPrice(s, t), NewVolume(s, t))
  }

  /* ---------- what a round is, as a specification ---------- */

  /** The three dictionaries a round is resolved from. */
  datatype Round = Round(world: World, people: People, acts: map<string, Action>) {

    /** The action of `p` is not ignored. */
    predicate Accepts(p: string) {
      p in acts && p in people && Supported(acts[p].actionType) && acts[p].target in world
    }

    ghost function Actors(gu: string): set<string> {
      set p | p in acts && Accepts(p) && acts[p].target == gu
    }

    ghost function Buyers(gu: string): set<string> {
      set p | p in Actors(gu) && acts[p].actionType == Buy
    }

    ghost function Sellers(gu: string): set<string> {
      set p | p in Actors(gu) && acts[p].actionType == Sell
    }

    ghost function Confidence(): map<string, real> {
      map p | p in acts :: acts[p].confidence
    }

    ghost function TallyOf(gu: string): Tally {
      Tally(|Actors(gu)|, |Buyers(gu)|, |Sellers(gu)|,
            RealSumOver(Confidence(), Buyers(gu)), RealSumOver(Confidence(), Sellers(gu)))
    }

    /** The segments some accepted action targets. */
    ghost function Active(): set<string> {
      set p | p in acts && Accepts(p) :: acts[p].target
    }

    /** The auction held in `gu`, given the segment's state. */
    ghost function AuctionIn(gu: string, s: Segment): Auction {
      Auction(Buyers(gu), Sellers(gu), Limit(s, TallyOf(gu)), NewPrice(s, TallyOf(gu)))
    }

    ghost function AuctionOf(gu: string): Auction
      requires gu in world
    {
      AuctionIn(gu, world[gu])
    }

    ghost function Cleared(gu: string): nat
      requires gu in world
    {
      AuctionOf(gu).Cleared(people)
    }

    /** Every segment as it would be once settled. */
    ghost function NewWorld(): World {
      map gu | gu in world :: NewSegment(world[gu], TallyOf(gu))
    }

    ghost function Deltas(): map<string, SegmentDelta> {
      map gu | gu in world :: DeltaOf(gu, world[gu], TallyOf(gu))
    }

    ghost function ClearedVolumes(): map<string, int> {
      map gu | gu in world :: Cleared(gu)
    }

    ghost function PriceChanges(): map<string, real> {
      map gu | gu in world :: PricePct(TallyOf(gu))
    }

    ghost predicate Buys(p: string) {
      Accepts(p) && p in AuctionOf(acts[p].target).BuyWinners(people)
    }

    ghost predicate Sells(p: string) {
      Accepts(p) && p in AuctionOf(acts[p].target).SellWinners(people)
    }

    /** The price at which `p` trades. */
    ghost function PriceFor(p: string): int
      requires Accepts(p)
    {
      AuctionOf(acts[p].target).price
    }
  }

  /** Everything the loop over segments updates. */
  datatype Ledger = Ledger(
    world: World, books: Books, segmentDeltas: map<string, SegmentDelta>,
    clearedVolume: map<string, int>, priceChanges: map<string, real>, totalMatched: int)

  /** The ledger after segment `gu`, in state `s` and with tally `t`, has held the auction `a`. */
  ghost function Posted(led: Ledger, gu: string, s: Segment, t: Tally, a: Auction): (led': Ledger)
    ensures led'.world.Keys == led.world.Keys + {gu} && led'.books.people.Keys == led.books.people.Keys
  {
    var n := a.Cleared(led.books.people);
    Ledger(led.world[gu := NewSegment(s, t)], AfterAuction(a, led.books),
           led.segmentDeltas[gu := DeltaOf(gu, s, t)], led.clearedVolume[gu := n],
           led.priceChanges[gu := PricePct(t)], led.totalMatched + n)
  }

  /** One pass of the segment loop. */
  ghost function Settle(r: Round, led: Ledger, gu: string): (led': Ledger)
    requires gu in led.world
    ensures led'.world.Keys == led.world.Keys && led'.books.people.Keys == led.books.people.Keys
  {
    Posted(led, gu, led.world[gu], r.TallyOf(gu), r.AuctionIn(gu, led.world[gu]))
  }

  function OpenLedger(world: World, people: People): Ledger {
    Ledger(world, Books(people, map[], map[]), map[], map[], map[], 0)
  }

  /** `m` restricted to the keys in `done`. */
  function Only<V>(m: map<string, V>, done: set<string>): map<string, V> {
    map k | k in m && k in done :: m[k]
  }

  /** `base` with the keys in `done` taken from `m`. */
  function Overlay<V>(base: map<string, V>, m: map<string, V>, done: set<string>): map<string, V>
    requires base.Keys == m.Keys
  {
    map k | k in base :: if k in done then m[k] else base[k]
  }

  /** The ledger after the segments in `done` are settled, whatever the order. */
  ghost function SettledLedger(r: Round, done: set<string>): Ledger
    requires done <= r.world.Keys
  {
    Ledger(Overlay(r.world, r.NewWorld(), done), SettledBooks(r, done), Only(r.Deltas(), done),
           Only(r.ClearedVolumes(), done), Only(r.PriceChanges(), done), SumOver(r.ClearedVolumes(), done))
  }

  /** Who has traded once the segments in `done` are settled, and at what price. */
  ghost function SettledBooks(r: Round, done: set<string>): Books {
    Books(
      map p | p in r.people ::
        if Traded(r, done, p) then
          if r.Buys(p) then Paid(r.people[p], r.PriceFor(p)) else Sold(r.people[p], r.PriceFor(p))
        else r.people[p],
      map p | p in r.people && Traded(r, done, p) :: if r.Buys(p) then -r.PriceFor(p) else r.PriceFor(p),
      map p | p in r.people && Traded(r, done, p) :: if r.Buys(p) then 1 else -1)
  }

  ghost predicate Traded(r: Round, done: set<string>, p: string) {
    (r.Buys(p) || r.Sells(p)) && r.acts[p].target in done
  }

  lemma WinnersIn(r: Round, gu: string, s: Segment, people: People)
    ensures forall p :: p in r.AuctionIn(gu, s).BuyWinners(people) ==> p in r.Buyers(gu)
    ensures forall p :: p in r.AuctionIn(gu, s).SellWinners(people) ==> p in r.Sellers(gu)
  {
    var a := r.AuctionIn(gu, s);
    var bs, ss := SortedIds(a.Demand(people)), SortedIds(a.Supply(people));
    forall p | p in a.BuyWinners(people) ensures p in r.Buyers(gu) {
      assert p in Elements(bs);
    }
    forall p | p in a.SellWinners(people) ensures p in r.Sellers(gu) {
      assert p in Elements(ss);
    }
  }

  /** Who acts in an unsettled segment stands as at the start of the round. */
  lemma ActorUnmoved(r: Round, done: set<string>, gu: string, p: string)
    requires gu !in done && p in r.Actors(gu)
    ensures p in r.people && SettledBooks(r, done).people.Keys == r.people.Keys
    ensures SettledBooks(r, done).people[p] == r.people[p]
  {
    hide Round.Buys, Round.Sells;
  }

  lemma SettledPeople(r: Round, done: set<string>)
    ensures SettledBooks(r, done).people.Keys == r.people.Keys
  {}

  /** Settling other segments changes nothing an auction looks at. */
  lemma AuctionUnmoved(r: Round, done: set<string>, gu: string)
    requires gu in r.world && gu !in done
    ensures var people := SettledBooks(r, done).people;
            && r.AuctionOf(gu).BuyWinners(people) == r.AuctionOf(gu).BuyWinners(r.people)
            && r.AuctionOf(gu).SellWinners(people) == r.AuctionOf(gu).SellWinners(r.people)
            && r.AuctionOf(gu).Cleared(people) == r.Cleared(gu)
  {
    hide SettledBooks, Auction.BuyWinners, Auction.SellWinners, Auction.Cleared, Limit, NewPrice, Round.TallyOf;
    var a := r.AuctionOf(gu);
    SettledPeople(r, done);
    forall p | p in a.buyers + a.sellers ensures p in r.people && SettledBooks(r, done).people[p] == r.people[p] {
      ActorUnmoved(r, done, gu, p);
    }
    SameAuction(a, r.people, SettledBooks(r, done).people);
  }

  ghost predicate SameAt(b: Books, c: Books, p: string) {
    && (p in b.people <==> p in c.people) && (p in b.people ==> b.people[p] == c.people[p])
    && (p in b.capital <==> p in c.capital) && (p in b.capital ==> b.capital[p] == c.capital[p])
    && (p in b.holdings <==> p in c.holdings) && (p in b.holdings ==> b.holdings[p] == c.holdings[p])
  }

  lemma SameBooks(b: Books, c: Books)
    requires forall p :: SameAt(b, c, p)
    ensures b == c
  {
    forall p ensures p in b.people <==> p in c.people { assert SameAt(b, c, p); }
    forall p | p in b.people ensures b.people[p] == c.people[p] { assert SameAt(b, c, p); }
    forall p ensures p in b.capital <==> p in c.capital { assert SameAt(b, c, p); }
    forall p | p in b.capital ensures b.capital[p] == c.capital[p] { assert SameAt(b, c, p); }
    forall p ensures p in b.holdings <==> p in c.holdings { assert SameAt(b, c, p); }
    forall p | p in b.holdings ensures b.holdings[p] == c.holdings[p] { assert SameAt(b, c, p); }
    assert b.people == c.people && b.capital == c.capital && b.holdings == c.holdings;
  }

  /** Where `p` stands once the segments in `done` are settled, against the start of the round. */
  lemma SettledMoved(r: Round, done: set<string>, p: string, price: int)
    requires Traded(r, done, p) ==> price == r.PriceFor(p)
    ensures Moved(Books(r.people, map[], map[]), SettledBooks(r, done), p,
                  Traded(r, done, p) && r.Buys(p), Traded(r, done, p) && !r.Buys(p), price)
  {
    hide Auction.BuyWinners, Auction.SellWinners, Round.AuctionOf;
  }

  lemma MovedAlike(before: Books, b: Books, c: Books, p: string, buys: bool, sells: bool, sells': bool, price: int)
    requires Moved(before, b, p, buys, sells, price) && Moved(before, c, p, buys, sells', price)
    requires buys || (sells <==> sells')
    ensures SameAt(b, c, p)
  {}

  lemma NotMovedAt(b: Books, c: Books, p: string, price: int, price': int)
    requires Moved(b, c, p, false, false, price)
    ensures Moved(b, c, p, false, false, price')
  {}

  /** A winner of the auction in `gu` trades there. */
  lemma WinnerTrades(r: Round, done: set<string>, gu: string, p: string)
    requires gu in r.world && gu !in done
    requires p in r.AuctionOf(gu).BuyWinners(r.people) || p in r.AuctionOf(gu).SellWinners(r.people)
    ensures r.Accepts(p) && r.PriceFor(p) == r.AuctionOf(gu).price
    ensures r.Buys(p) <==> p in r.AuctionOf(gu).BuyWinners(r.people)
    ensures r.Sells(p) <==> p in r.AuctionOf(gu).SellWinners(r.people)
    ensures !Traded(r, done, p) && Traded(r, done + {gu}, p)
  {
    hide Auction.BuyWinners, Auction.SellWinners;
    WinnersIn(r, gu, r.world[gu], r.people);
    assert r.acts[p].target == gu;
  }

  lemma NoWinnerNoTrade(r: Round, done: set<string>, gu: string, p: string)
    requires gu in r.world
    requires p !in r.AuctionOf(gu).BuyWinners(r.people) && p !in r.AuctionOf(gu).SellWinners(r.people)
    ensures Traded(r, done + {gu}, p) <==> Traded(r, done, p)
  {
    hide Auction.BuyWinners, Auction.SellWinners;
  }

  lemma SettleBooksAt(r: Round, done: set<string>, gu: string, p: string, after: Books)
    requires gu in r.world && gu !in done
    requires var a := r.AuctionOf(gu);
             Moved(SettledBooks(r, done), after, p, p in a.BuyWinners(r.people), p in a.SellWinners(r.people), a.price)
    ensures SameAt(after, SettledBooks(r, done + {gu}), p)
  {
    hide Moved, SameAt, SettledBooks, Traded, Auction.BuyWinners, Auction.SellWinners, Round.AuctionOf, Round.Buys, Round.Sells;
    var a, start, settled := r.AuctionOf(gu), Books(r.people, map[], map[]), SettledBooks(r, done);
    var buys, sells := p in a.BuyWinners(r.people), p in a.SellWinners(r.people);
    if buys || sells {
      WinnerTrades(r, done, gu, p);
      SettledMoved(r, done, p, a.price);
      SettledMoved(r, done + {gu}, p, a.price);
      MovedTwice(start, settled, after, p, false, false, buys, sells, a.price);
      MovedAlike(start, after, SettledBooks(r, done + {gu}), p, buys, sells, !buys, a.price);
    } else {
      NoWinnerNoTrade(r, done, gu, p);
      TradedAccepted(r, done, p);
      var price := if r.Accepts(p) then r.PriceFor(p) else 0;
      var bought, sold := Traded(r, done, p) && r.Buys(p), Traded(r, done, p) && !r.Buys(p);
      SettledMoved(r, done, p, price);
      SettledMoved(r, done + {gu}, p, price);
      NotMovedAt(settled, after, p, a.price, price);
      MovedTwice(start, settled, after, p, bought, sold, false, false, price);
      MovedAlike(start, after, SettledBooks(r, done + {gu}), p, bought, sold, sold, price);
    }
  }

  lemma TradedAccepted(r: Round, done: set<string>, p: string)
    ensures Traded(r, done, p) ==> r.Accepts(p)
  {}

  lemma SettleBooks(r: Round, done: set<string>, gu: string)
    requires gu in r.world && gu !in done
    ensures AfterAuction(r.AuctionOf(gu), SettledBooks(r, done)) == SettledBooks(r, done + {gu})
  {
    hide AfterAuction, SettledBooks, SameAt, Moved, Auction.BuyWinners, Auction.SellWinners, Limit, NewPrice, Round.TallyOf;
    var after := AfterAuction(r.AuctionOf(gu), SettledBooks(r, done));
    AuctionUnmoved(r, done, gu);
    forall p ensures SameAt(after, SettledBooks(r, done + {gu}), p) {
      AuctionAt(r.AuctionOf(gu), SettledBooks(r, done), p);
      SettleBooksAt(r, done, gu, p, after);
    }
    SameBooks(after, SettledBooks(r, done + {gu}));
  }

  lemma OnlyOneMore<V>(m: map<string, V>, done: set<string>, gu: string)
    requires gu in m
    ensures Only(m, done + {gu}) == Only(m, done)[gu := m[gu]]
  {}

  lemma OverlayOneMore<V>(base: map<string, V>, m: map<string, V>, done: set<string>, gu: string)
    requires base.Keys == m.Keys && gu in m && gu !in done
    ensures Overlay(base, m, done + {gu}) == Overlay(base, m, done)[gu := m[gu]]
    ensures Overlay(base, m, done)[gu] == base[gu]
  {}

  lemma SumOneMore(m: map<string, int>, done: set<string>, gu: string)
    requires done <= m.Keys && gu in m && gu !in done
    ensures SumOver(m, done + {gu}) == SumOver(m, done) + m[gu]
  {
    SumOverPick(m, done + {gu}, gu);
    assert done + {gu} - {gu} == done;
  }

  lemma WorldStep(r: Round, done: set<string>, gu: string)
    requires gu in r.world && gu !in done
    ensures gu in Overlay(r.world, r.NewWorld(), done) && Overlay(r.world, r.NewWorld(), done)[gu] == r.world[gu]
    ensures Overlay(r.world, r.NewWorld(), done + {gu}) ==
            Overlay(r.world, r.NewWorld(), done)[gu := NewSegment(r.world[gu], r.TallyOf(gu))]
  {
    OverlayOneMore(r.world, r.NewWorld(), done, gu);
  }

  lemma TablesStep(r: Round, done: set<string>, gu: string)
    requires gu in r.world && gu !in done
    ensures Only(r.Deltas(), done + {gu}) ==
            Only(r.Deltas(), done)[gu := DeltaOf(gu, r.world[gu], r.TallyOf(gu))]
    ensures Only(r.PriceChanges(), done + {gu}) == Only(r.PriceChanges(), done)[gu := PricePct(r.TallyOf(gu))]
    ensures Only(r.ClearedVolumes(), done + {gu}) == Only(r.ClearedVolumes(), done)[gu := r.Cleared(gu)]
  {
    OnlyOneMore(r.Deltas(), done, gu);
    OnlyOneMore(r.PriceChanges(), done, gu);
    OnlyOneMore(r.ClearedVolumes(), done, gu);
  }

  lemma ClearedKeys(r: Round, gu: string)
    requires gu in r.world
    ensures r.ClearedVolumes().Keys == r.world.Keys && r.ClearedVolumes()[gu] == r.Cleared(gu)
  {}

  /** The auction of a segment finds the cleared volume and the books that settling it leaves. */
  lemma AuctionStep(r: Round, done: set<string>, gu: string, led: Ledger)
    requires done <= r.world.Keys && gu in r.world && gu !in done && led.books == SettledBooks(r, done)
    ensures r.AuctionOf(gu).Cleared(led.books.people) == r.Cleared(gu)
    ensures AfterAuction(r.AuctionOf(gu), led.books) == SettledBooks(r, done + {gu})
  {
    hide SettledBooks, AfterAuction, Auction.Cleared, Auction.BuyWinners, Auction.SellWinners, Round.AuctionOf, Round.Cleared;
    AuctionUnmoved(r, done, gu);
    SettleBooks(r, done, gu);
  }

  /** Posting a segment to the ledger of the settled ones gives the ledger with it settled. */
  lemma PostStep(r: Round, done: set<string>, gu: string, led: Ledger)
    requires done <= r.world.Keys && gu in r.world && gu !in done && led == SettledLedger(r, done)
    ensures Posted(led, gu, r.world[gu], r.TallyOf(gu), r.AuctionOf(gu)) == SettledLedger(r, done + {gu})
  {
    hide SettledBooks, AfterAuction, Overlay, Only, SumOver, Auction.Cleared, NewSegment, DeltaOf, PricePct,
      Round.AuctionOf, Round.TallyOf, Round.NewWorld, Round.Deltas, Round.PriceChanges, Round.ClearedVolumes, Round.Cleared;
    WorldStep(r, done, gu);
    TablesStep(r, done, gu);
    ClearedKeys(r, gu);
    SumOneMore(r.ClearedVolumes(), done, gu);
    AuctionStep(r, done, gu, led);
  }

  /** Settling one more segment adds it to the settled set. */
  lemma SettleStep(r: Round, done: set<string>, gu: string)
    requires done <= r.world.Keys && gu in r.world && gu !in done
    ensures gu in SettledLedger(r, done).world
    ensures Settle(r, SettledLedger(r, done), gu) == SettledLedger(r, done + {gu})
  {
    hide SettledBooks, Overlay, Only, SumOver, Posted, Round.TallyOf, Round.NewWorld, Round.Deltas, Round.PriceChanges,
      Round.ClearedVolumes, Limit, NewPrice, Round.Buyers, Round.Sellers, NewSegment;
    WorldStep(r, done, gu);
    PostStep(r, done, gu, SettledLedger(r, done));
  }

  /* ---------- segments in any order ---------- */

  ghost predicate Segments(r: Round, order: seq<string>) {
    Distinct(order) && forall gu :: gu in order ==> gu in r.world
  }

  /** The segment loop over `order`. */
  ghost function SettleAll(r: Round, order: seq<string>): (led: Ledger)
    requires forall gu :: gu in order ==> gu in r.world
    ensures led.world.Keys == r.world.Keys && led.books.people.Keys == r.people.Keys
  {
    if order == [] then OpenLedger(r.world, r.people)
    else Settle(r, SettleAll(r, order[..|order| - 1]), order[|order| - 1])
  }

  lemma SettleAllStep(r: Round, order: seq<string>, k: nat)
    requires k < |order| && forall gu :: gu in order ==> gu in r.world
    ensures order[k] in r.world && SettleAll(r, order[..k + 1]) == Settle(r, SettleAll(r, order[..k]), order[k])
  {
    assert order[..k + 1][..k] == order[..k];
    assert order[k] in order;
  }

  lemma OverlayNothing<V>(base: map<string, V>, m: map<string, V>)
    requires base.Keys == m.Keys
    ensures Overlay(base, m, {}) == base
  {}

  lemma BooksUntouched(r: Round)
    ensures SettledBooks(r, {}) == Books(r.people, map[], map[])
  {
    forall p ensures SameAt(SettledBooks(r, {}), Books(r.people, map[], map[]), p) {
      assert !Traded(r, {}, p);
    }
    SameBooks(SettledBooks(r, {}), Books(r.people, map[], map[]));
  }

  lemma NothingSettled(r: Round)
    ensures SettledLedger(r, {}) == OpenLedger(r.world, r.people)
  {
    OverlayNothing(r.world, r.NewWorld());
    BooksUntouched(r);
  }

  lemma LastApart(order: seq<string>)
    requires order != [] && Distinct(order)
    ensures var init, last := order[..|order| - 1], order[|order| - 1];
            Distinct(init) && last !in Elements(init) && Elements(order) == Elements(init) + {last}
  {
    var init, last := order[..|order| - 1], order[|order| - 1];
    assert order == init + [last];
    assert last !in init;
  }

  /** After the loop the settled ledger depends only on the set of segments. */
  lemma {:induction false} SettleAllClosed(r: Round, order: seq<string>)
    requires Segments(r, order)
    ensures SettleAll(r, order) == SettledLedger(r, Elements(order))
  {
    if order == [] {
      NothingSettled(r);
      assert Elements(order) == {};
    } else {
      hide Settle, SettledLedger;
      var init, last := order[..|order| - 1], order[|order| - 1];
      LastApart(order);
      SettleAllClosed(r, init);
      assert Elements(init) <= r.world.Keys;
      SettleStep(r, Elements(init), last);
    }
  }

  /** Processing the segments in another order gives the same ledger. */
  lemma SegmentOrderIrrelevant(r: Round, order: seq<string>, order': seq<string>)
    requires Segments(r, order) && multiset(order) == multiset(order')
    ensures Segments(r, order') && SettleAll(r, order) == SettleAll(r, order')
  {
    SameElements(order, order');
    forall gu | gu in order' ensures gu in r.world { assert gu in Elements(order); }
    DistinctByCount(order, order');
    SettleAllClosed(r, order);
    SettleAllClosed(r, order');
  }

  lemma DistinctByCount<T>(xs: seq<T>, ys: seq<T>)
    requires Distinct(xs) && multiset(xs) == multiset(ys)
    ensures Distinct(ys)
  {
    forall x | x in ys ensures multiset(ys)[x] == 1 {
      assert x in multiset(xs);
      OccursOnce(xs, x);
    }
    forall i, j | 0 <= i < j < |ys| ensures ys[i] != ys[j] { NotAgain(ys, i, j); }
  }

  lemma NotAgain<T>(ys: seq<T>, i: nat, j: nat)
    requires i < j < |ys| && multiset(ys)[ys[i]] == 1
    ensures ys[j] != ys[i]
  {
    assert ys == ys[..i] + ([ys[i]] + ys[i + 1..]);
    assert multiset(ys) == multiset(ys[..i]) + (multiset{ys[i]} + multiset(ys[i + 1..]));
    assert ys[i] !in multiset(ys[i + 1..]);
    assert ys[j] == ys[i + 1..][j - i - 1];
    assert ys[j] in multiset(ys[i + 1..]);
  }

  lemma {:induction false} OccursOnce<T>(xs: seq<T>, x: T)
    requires Distinct(xs) && x in xs
    ensures multiset(xs)[x] == 1
  {
    var i :| 0 <= i < |xs| && xs[i] == x;
    assert xs == xs[..i] + [x] + xs[i + 1..];
    assert x !in xs[..i] && x !in xs[i + 1..];
    assert multiset(xs) == multiset(xs[..i]) + multiset{x} + multiset(xs[i + 1..]);
    assert x !in multiset(xs[..i]) && x !in multiset(xs[i + 1..]);
  }

  /* ---------- bucketing ---------- */

  datatype Warning =
    | UnknownParticipant(id: string)
    | UnsupportedAction(actionType: ActionType, id: string)
    | UnknownSegment(gu: string)

  datatype Bucket = Bucket(tally: Tally, buyers: seq<string>, sellers: seq<string>)

  type Entry = (string, Action)

  /** The keys of a dictionary are distinct. */
  ghost predicate DictEntries(actions: seq<Entry>) {
    forall i, j :: 0 <= i < j < |actions| ==> actions[i].0 != actions[j].0
  }

  function ActionMap(actions: seq<Entry>): map<string, Action> {
    if actions == [] then map[] else
      ActionMap(actions[..|actions| - 1])[actions[|actions| - 1].0 := actions[|actions| - 1].1]
  }

  function WarningFor(world: World, people: People, e: Entry): Option<Warning> {
    if e.0 !in people then Some(UnknownParticipant(e.0))
    else if !Supported(e.1.actionType) then Some(UnsupportedAction(e.1.actionType, e.0))
    else if e.1.target !in world then Some(UnknownSegment(e.1.target))
    else None
  }

  /** One warning for each ignored action, in the order of the actions. */
  function WarningsFor(world: World, people: People, actions: seq<Entry>): seq<Warning> {
    if actions == [] then [] else
      WarningsFor(world, people, actions[..|actions| - 1]) +
      match WarningFor(world, people, actions[|actions| - 1])
        case Some(w) => [w]
        case None => []
  }

  lemma {:induction false} ActionMapEntries(actions: seq<Entry>)
    requires DictEntries(actions)
    ensures forall k :: 0 <= k < |actions| ==>
      actions[k].0 in ActionMap(actions) && ActionMap(actions)[actions[k].0] == actions[k].1
    ensures forall p :: p in ActionMap(actions) ==> (p, ActionMap(actions)[p]) in actions
  {
    if actions != [] {
      var init := actions[..|actions| - 1];
      ActionMapEntries(init);
      assert actions == init + [actions[|actions| - 1]];
      forall p | p in ActionMap(actions) ensures (p, ActionMap(actions)[p]) in actions {
        if p != actions[|actions| - 1].0 {
          assert (p, ActionMap(init)[p]) in init;
        }
      }
    }
  }

  /** A dictionary is what it contains, whatever its insertion order. */
  lemma SameActionMap(actions: seq<Entry>, actions': seq<Entry>)
    requires DictEntries(actions) && multiset(actions) == multiset(actions')
    ensures DictEntries(actions') && ActionMap(actions) == ActionMap(actions')
  {
    SameElements(actions, actions');
    DistinctByCount(actions, actions');
    forall i, j | 0 <= i < j < |actions'| ensures actions'[i].0 != actions'[j].0 {
      assert actions'[i] in Elements(actions) && actions'[j] in Elements(actions);
      assert actions'[i] == (actions'[i].0, actions'[i].1);
    }
    ActionMapEntries(actions);
    ActionMapEntries(actions');
    forall p | p in ActionMap(actions) ensures p in ActionMap(actions') && ActionMap(actions')[p] == ActionMap(actions)[p] {
      assert (p, ActionMap(actions)[p]) in Elements(actions');
    }
    forall p | p in ActionMap(actions') ensures p in ActionMap(actions) {
      assert (p, ActionMap(actions')[p]) in Elements(actions);
    }
  }

  ghost predicate BucketOf(r: Round, gu: string, b: Bucket) {
    && b.tally == r.TallyOf(gu)
    && Distinct(b.buyers) && Elements(b.buyers) == r.Buyers(gu)
    && Distinct(b.sellers) && Elements(b.sellers) == r.Sellers(gu)
  }

  /* ---------- the result of a round ---------- */

  datatype RoundResult = RoundResult(newWorld: World, newPeople: People, outcome: RoundOutcome, payload: RoundPayload)

  /** Raised when a pydantic validator rejects a delta or the payload. */
  datatype ValidationError = ValidationError

  function ParticipantDeltas(books: Books): map<string, ParticipantDelta>
    requires books.capital.Keys + books.holdings.Keys <= books.people.Keys
  {
    map p | p in books.capital.Keys + books.holdings.Keys ::
      ParticipantDelta(p, Get(books.capital, p), Get(books.holdings, p), books.people[p].capital, books.people[p].holdings)
  }

  function ResultOf(led: Ledger, roundNo: int): RoundResult
    requires led.books.capital.Keys + led.books.holdings.Keys <= led.books.people.Keys
  {
    RoundResult(led.world, led.books.people,
                RoundOutcome(roundNo, led.clearedVolume, led.priceChanges, led.totalMatched),
                RoundPayload(roundNo, led.segmentDeltas, ParticipantDeltas(led.books), led.totalMatched))
  }

  lemma ActiveInWorld(r: Round)
    ensures r.Active() <= r.world.Keys
  {}

  /** What a round comes to, in closed form. */
  ghost function Resolve(r: Round, roundNo: int): RoundResult {
    ActiveInWorld(r);
    ResultOf(SettledLedger(r, r.Active()), roundNo)
  }

  /** The result, unless a validator rejects it. */
  function Checked(result: RoundResult): Result<RoundResult, ValidationError> {
    if result.payload.Valid() then Success(result) else Failure(ValidationError)
  }
}
