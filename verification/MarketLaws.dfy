/** Laws of a single round: conservation, faithful deltas, bounds, and independence of every order. */
module MarketLaws {
  import opened Wrappers
  import opened Ordering
  import opened Numbers
  import opened Market
  import opened Matching
  import opened Resolver

  /* ---------- the order of the actions ---------- */

  lemma {:induction false} WarningsConcat(world: World, people: People, xs: seq<Entry>, ys: seq<Entry>)
    ensures WarningsFor(world, people, xs + ys) == WarningsFor(world, people, xs) + WarningsFor(world, people, ys)
  {
    if ys == [] {
      assert xs + ys == xs;
    } else {
      var init := ys[..|ys| - 1];
      assert (xs + ys)[..|xs + ys| - 1] == xs + init;
      WarningsConcat(world, people, xs, init);
    }
  }

  /** Taking out one action takes out its warning. */
  lemma WarningsWithout(world: World, people: People, ys: seq<Entry>, j: nat)
    requires j < |ys|
    ensures multiset(WarningsFor(world, people, ys)) ==
            multiset(WarningsFor(world, people, ys[..j] + ys[j + 1..])) + multiset(WarningsFor(world, people, [ys[j]]))
  {
    assert ys == ys[..j] + ([ys[j]] + ys[j + 1..]);
    WarningsConcat(world, people, ys[..j], [ys[j]] + ys[j + 1..]);
    WarningsConcat(world, people, [ys[j]], ys[j + 1..]);
    WarningsConcat(world, people, ys[..j], ys[j + 1..]);
  }

  lemma {:induction false} WarningsPermute(world: World, people: People, xs: seq<Entry>, ys: seq<Entry>)
    requires multiset(xs) == multiset(ys)
    ensures multiset(WarningsFor(world, people, xs)) == multiset(WarningsFor(world, people, ys))
    decreases |xs|
  {
    if xs == [] {
      assert |xs| == |multiset(xs)| && |ys| == |multiset(ys)|;
    } else {
      var i := |xs| - 1;
      assert xs[i] in multiset(ys);
      var j :| 0 <= j < |ys| && ys[j] == xs[i];
      Without(xs, i);
      Without(ys, j);
      WarningsPermute(world, people, xs[..i] + xs[i + 1..], ys[..j] + ys[j + 1..]);
      WarningsWithout(world, people, xs, i);
      WarningsWithout(world, people, ys, j);
    }
  }

  /** Permuting `market_actions` changes nothing but the order of the warnings. */
  lemma ActionOrderIrrelevant(world: World, people: People, actions: seq<Entry>, actions': seq<Entry>, roundNo: int)
    requires DictEntries(actions) && multiset(actions) == multiset(actions')
    ensures DictEntries(actions')
    ensures Resolve(Round(world, people, ActionMap(actions)), roundNo) ==
            Resolve(Round(world, people, ActionMap(actions')), roundNo)
    ensures multiset(WarningsFor(world, people, actions)) == multiset(WarningsFor(world, people, actions'))
  {
    SameActionMap(actions, actions');
    WarningsPermute(world, people, actions, actions');
  }

  /** Closing the loop over the segments in any order gives the round's result. */
  lemma AnySegmentOrderResolves(r: Round, order: seq<string>, roundNo: int)
    requires Segments(r, order) && Elements(order) == r.Active()
    ensures SettleAll(r, order).books.capital.Keys + SettleAll(r, order).books.holdings.Keys <= r.people.Keys
    ensures ResultOf(SettleAll(r, order), roundNo) == Resolve(r, roundNo)
  {
    SettleAllClosed(r, order);
  }

  /* ---------- who wins ---------- */

  /** `p` is among the first `n` members of `s` in id order. */
  ghost predicate FirstInIdOrder(s: set<string>, n: nat, p: string) {
    p in s && Rank(Less, s, p) < n
  }

  lemma FirstOfSorted(s: set<string>, n: nat, p: string)
    requires n <= |s|
    ensures p in SortedIds(s)[..n] <==> FirstInIdOrder(s, n, p)
  {
    StringOrder();
    FirstByRank(Less, SortedIds(s), n, p);
    assert p in SortedIds(s) <==> p in Elements(SortedIds(s));
  }

  lemma WinnersByRank(a: Auction, people: People, p: string)
    ensures p in a.BuyWinners(people) <==> FirstInIdOrder(a.Demand(people), a.Cleared(people), p)
    ensures p in a.SellWinners(people) <==> FirstInIdOrder(a.Supply(people), a.Cleared(people), p)
  {
    FirstOfSorted(a.Demand(people), a.Cleared(people), p);
    if a.sellers != {} {
      FirstOfSorted(a.Supply(people), a.Cleared(people), p);
    }
  }

  lemma TradedAtAll(r: Round, p: string)
    ensures Traded(r, r.Active(), p) <==> r.Buys(p) || r.Sells(p)
  {
    assert r.Accepts(p) ==> r.acts[p].target in r.Active();
  }

  lemma SettledPerson(r: Round, done: set<string>, p: string)
    requires p in r.people
    ensures SettledBooks(r, done).people[p] ==
            if Traded(r, done, p) then
              if r.Buys(p) then Paid(r.people[p], r.PriceFor(p)) else Sold(r.people[p], r.PriceFor(p))
            else r.people[p]
  {}

  lemma ResolvedPeople(r: Round, roundNo: int)
    ensures Resolve(r, roundNo).newPeople == SettledBooks(r, r.Active()).people
  {}

  /** After a round, `p` bought a unit, sold a unit, or is exactly as before. */
  lemma RoundMoves(r: Round, roundNo: int, p: string)
    requires p in r.people
    ensures var after := Resolve(r, roundNo).newPeople;
            && after.Keys == r.people.Keys
            && after[p] == (if r.Buys(p) then Paid(r.people[p], r.PriceFor(p))
                            else if r.Sells(p) then Sold(r.people[p], r.PriceFor(p))
                            else r.people[p])
  {
    ResolvedPeople(r, roundNo);
    BooksKeys(r, r.Active());
    SettledPerson(r, r.Active(), p);
    TradedAtAll(r, p);
  }

  /** Who buys and who sells, by rank: the closed form of the greedy matcher. */
  lemma WhoTrades(r: Round, p: string)
    requires r.Accepts(p)
    ensures var gu := r.acts[p].target;
            var a := r.AuctionOf(gu);
            && (r.Buys(p) <==> FirstInIdOrder(r.Buyers(gu) * Payers(r.people, a.price), r.Cleared(gu), p))
            && (r.Sells(p) <==> FirstInIdOrder(r.Sellers(gu) * Stockists(r.people), r.Cleared(gu), p))
  {
    WinnersByRank(r.AuctionOf(r.acts[p].target), r.people, p);
  }

  /** Nobody both buys and sells. */
  lemma OneSide(r: Round, p: string)
    ensures !(r.Buys(p) && r.Sells(p))
  {
    if r.Buys(p) && r.Sells(p) {
      var gu := r.acts[p].target;
      WinnersIn(r, gu, r.world[gu], r.people);
    }
  }

  /* ---------- conservation ---------- */

  function Holdings(people: People): map<string, int> {
    map p | p in people :: people[p].holdings
  }

  function Capital(people: People): map<string, int> {
    map p | p in people :: people[p].capital
  }

  ghost function TotalHoldings(people: People): int {
    SumOver(Holdings(people), people.Keys)
  }

  ghost function TotalCapital(people: People): int {
    SumOver(Capital(people), people.Keys)
  }

  /** Units an auction takes from the market itself rather than from a seller. */
  ghost function Natural(a: Auction, people: People): nat {
    if a.sellers == {} then a.Cleared(people) else 0
  }

  lemma PrefixCount(s: set<string>, n: nat)
    requires n <= |s|
    ensures Elements(SortedIds(s)[..n]) <= s && |Elements(SortedIds(s)[..n])| == n
  {
    DistinctCount(SortedIds(s)[..n]);
    assert forall p :: p in SortedIds(s) ==> p in Elements(SortedIds(s));
  }

  lemma WinnerCounts(a: Auction, people: People)
    requires a.buyers !! a.sellers
    ensures var bw, sw := Elements(a.BuyWinners(people)), Elements(a.SellWinners(people));
            && bw <= people.Keys && sw <= people.Keys && bw !! sw
            && |bw| == a.Cleared(people) && |bw| - |sw| == Natural(a, people)
  {
    PrefixCount(a.Demand(people), a.Cleared(people));
    PrefixCount(a.Supply(people), if a.sellers == {} then 0 else a.Cleared(people));
    assert a.Demand(people) <= a.buyers && a.Supply(people) <= a.sellers;
    assert a.Demand(people) <= people.Keys && a.Supply(people) <= people.Keys;
  }

  lemma Distribute(price: int, x: int, y: int, n: int)
    requires n == x - y
    ensures (-price) * x - (-price) * y == -(price * n)
  {}

  /** Paying `price` for each member of `up` and receiving it for each member of `down`. */
  lemma PaidShift(c: map<string, int>, c': map<string, int>, s: set<string>, up: set<string>, down: set<string>,
                  price: int, n: int)
    requires s <= c.Keys && s <= c'.Keys && up <= s && down <= s && up !! down && |up| - |down| == n
    requires forall p :: p in s ==> c'[p] == c[p] + (if p in up then -price else if p in down then price else 0)
    ensures SumOver(c', s) == SumOver(c, s) - price * n
  {
    SumOverShift(c, c', s, up, down, -price);
    Distribute(price, |up|, |down|, n);
  }

  lemma AuctionMoves(a: Auction, books: Books, p: string)
    requires a.buyers !! a.sellers && p in books.people
    ensures var people, after := books.people, AfterAuction(a, books).people;
            var bw, sw := Elements(a.BuyWinners(people)), Elements(a.SellWinners(people));
            && after[p].holdings == people[p].holdings + (if p in bw then 1 else if p in sw then -1 else 0)
            && after[p].capital == people[p].capital + (if p in bw then -a.price else if p in sw then a.price else 0)
  {
    AuctionAt(a, books, p);
  }

  lemma AuctionHoldings(a: Auction, books: Books)
    requires a.buyers !! a.sellers
    ensures TotalHoldings(AfterAuction(a, books).people) == TotalHoldings(books.people) + Natural(a, books.people)
  {
    var people, after := books.people, AfterAuction(a, books).people;
    var bw, sw := Elements(a.BuyWinners(people)), Elements(a.SellWinners(people));
    WinnerCounts(a, people);
    forall p | p in people
      ensures Holdings(after)[p] == Holdings(people)[p] + (if p in bw then 1 else if p in sw then -1 else 0)
    {
      AuctionMoves(a, books, p);
    }
    SumOverShift(Holdings(people), Holdings(after), people.Keys, bw, sw, 1);
  }

  lemma AuctionCapital(a: Auction, books: Books)
    requires a.buyers !! a.sellers
    ensures TotalCapital(AfterAuction(a, books).people) == TotalCapital(books.people) - a.price * Natural(a, books.people)
  {
    var people, after, price := books.people, AfterAuction(a, books).people, a.price;
    var bw, sw := Elements(a.BuyWinners(people)), Elements(a.SellWinners(people));
    WinnerCounts(a, people);
    forall p | p in people
      ensures Capital(after)[p] == Capital(people)[p] + (if p in bw then -price else if p in sw then price else 0)
    {
      AuctionMoves(a, books, p);
    }
    PaidShift(Capital(people), Capital(after), people.Keys, bw, sw, price, Natural(a, people));
  }

  /** Per segment: the units the market supplied, and what they cost. */
  ghost function NaturalUnits(r: Round): map<string, int> {
    map gu | gu in r.world :: Natural(r.AuctionOf(gu), r.people)
  }

  ghost function NaturalCost(r: Round): map<string, int> {
    map gu | gu in r.world :: r.AuctionOf(gu).price * Natural(r.AuctionOf(gu), r.people)
  }

  lemma SidesApart(r: Round, gu: string)
    ensures r.Buyers(gu) !! r.Sellers(gu)
  {}

  lemma {:induction false} SettlingConserves(r: Round, done: set<string>)
    requires done <= r.world.Keys
    ensures var people := SettledBooks(r, done).people;
            && TotalHoldings(people) == TotalHoldings(r.people) + SumOver(NaturalUnits(r), done)
            && TotalCapital(people) == TotalCapital(r.people) - SumOver(NaturalCost(r), done)
  {
    if done == {} {
      NothingSettled(r);
    } else {
      var gu :| gu in done;
      var rest := done - {gu};
      assert done == rest + {gu};
      SettlingConserves(r, rest);
      SettleBooks(r, rest, gu);
      SidesApart(r, gu);
      AuctionHoldings(r.AuctionOf(gu), SettledBooks(r, rest));
      AuctionCapital(r.AuctionOf(gu), SettledBooks(r, rest));
      AuctionUnmoved(r, rest, gu);
      SumOneMore(NaturalUnits(r), rest, gu);
      SumOneMore(NaturalCost(r), rest, gu);
    }
  }

  /**
   Conservation: total holdings grow by exactly the cleared volume of the segments
   where nobody sells, and total capital falls by exactly what those units cost.
   */
  lemma RoundConserves(r: Round, roundNo: int)
    ensures var after := Resolve(r, roundNo).newPeople;
            && TotalHoldings(after) == TotalHoldings(r.people) + SumOver(NaturalUnits(r), r.Active())
            && TotalCapital(after) == TotalCapital(r.people) - SumOver(NaturalCost(r), r.Active())
  {
    ActiveInWorld(r);
    SettlingConserves(r, r.Active());
  }

  lemma {:induction false} SumOfZeros(m: map<string, int>, s: set<string>)
    requires s <= m.Keys && forall k :: k in s ==> m[k] == 0
    ensures SumOver(m, s) == 0
  {
    if s != {} {
      var k :| k in s;
      SumOverPick(m, s, k);
      SumOfZeros(m, s - {k});
    }
  }

  lemma {:induction false} SumOfNats(m: map<string, int>, s: set<string>)
    requires s <= m.Keys && forall k :: k in s ==> m[k] >= 0
    ensures SumOver(m, s) >= 0
  {
    if s != {} {
      var k :| k in s;
      SumOverPick(m, s, k);
      SumOfNats(m, s - {k});
    }
  }

  lemma SuppliedBySellers(r: Round, gu: string)
    requires gu in r.world && (r.Cleared(gu) > 0 ==> r.Sellers(gu) != {})
    ensures NaturalUnits(r)[gu] == 0 && NaturalCost(r)[gu] == 0
  {
    var n := Natural(r.AuctionOf(gu), r.people);
    assert n == 0;
    TimesZero(r.AuctionOf(gu).price, n);
  }

  lemma TimesZero(x: int, n: int)
    requires n == 0
    ensures x * n == 0
  {}

  lemma NothingNatural(r: Round)
    requires forall gu :: gu in r.Active() && r.Cleared(gu) > 0 ==> r.Sellers(gu) != {}
    ensures r.Active() <= r.world.Keys
    ensures SumOver(NaturalUnits(r), r.Active()) == 0 && SumOver(NaturalCost(r), r.Active()) == 0
  {
    ActiveInWorld(r);
    forall gu | gu in r.Active() ensures NaturalUnits(r)[gu] == 0 && NaturalCost(r)[gu] == 0 {
      SuppliedBySellers(r, gu);
    }
    SumOfZeros(NaturalUnits(r), r.Active());
    SumOfZeros(NaturalCost(r), r.Active());
  }

  /** If every segment that trades has a seller, both totals stay as they are. */
  lemma SellersBalance(r: Round, roundNo: int)
    requires forall gu :: gu in r.Active() && r.Cleared(gu) > 0 ==> r.Sellers(gu) != {}
    ensures var after := Resolve(r, roundNo).newPeople;
            TotalHoldings(after) == TotalHoldings(r.people) && TotalCapital(after) == TotalCapital(r.people)
  {
    NothingNatural(r);
    RoundConserves(r, roundNo);
  }

  lemma PriceAtLeastOne(s: Segment, t: Tally)
    ensures NewPrice(s, t) >= 1
  {}

  /** No round lowers total holdings or raises total capital. */
  lemma TotalsOneWay(r: Round, roundNo: int)
    ensures var after := Resolve(r, roundNo).newPeople;
            TotalHoldings(after) >= TotalHoldings(r.people) && TotalCapital(after) <= TotalCapital(r.people)
  {
    ActiveInWorld(r);
    RoundConserves(r, roundNo);
    forall gu | gu in r.world ensures NaturalCost(r)[gu] >= 0 {
      PriceAtLeastOne(r.world[gu], r.TallyOf(gu));
      var a := r.AuctionOf(gu);
      assert a.price >= 1;
      TimesNat(a.price, Natural(a, r.people));
    }
    SumOfNats(NaturalUnits(r), r.Active());
    SumOfNats(NaturalCost(r), r.Active());
  }

  lemma TimesNat(x: int, n: nat)
    requires x >= 0
    ensures x * n >= 0
  {}

  /* ---------- the payload as a patch ---------- */

  /** A segment as the payload describes it: trend and sentiment are not in a delta. */
  function PatchSegment(s: Segment, d: SegmentDelta): Segment {
    s.(medianPrice := d.newMedianPrice, volume := d.newVolume)
  }

  function PatchPeople(people: People, deltas: map<string, ParticipantDelta>): People {
    map p | p in people ::
      if p in deltas then people[p].(capital := deltas[p].newCapital, holdings := deltas[p].newHoldings) else people[p]
  }

  lemma SegmentPatch(r: Round, roundNo: int, gu: string)
    requires gu in r.world
    ensures var result := Resolve(r, roundNo);
            && result.newWorld.Keys == r.world.Keys && result.payload.segmentDeltas.Keys == r.Active()
            && (if gu in r.Active()
                then PatchSegment(r.world[gu], result.payload.segmentDeltas[gu]) ==
                     result.newWorld[gu].(trend := r.world[gu].trend, sentiment := r.world[gu].sentiment)
                else result.newWorld[gu] == r.world[gu])
  {
    ActiveInWorld(r);
  }

  /** What one participant's delta says about the books. */
  lemma DeltaAt(books: Books, p: string)
    requires books.capital.Keys + books.holdings.Keys <= books.people.Keys && p in books.people
    ensures var deltas := ParticipantDeltas(books);
            && (p in deltas <==> p in books.capital || p in books.holdings)
            && (p in deltas ==>
                  deltas[p] == ParticipantDelta(p, Get(books.capital, p), Get(books.holdings, p),
                                                books.people[p].capital, books.people[p].holdings))
  {}

  lemma SettledAt(r: Round, p: string)
    requires p in r.people
    ensures var books := SettledBooks(r, r.Active());
            var trades := r.Buys(p) || r.Sells(p);
            && (p in books.capital <==> trades) && (p in books.holdings <==> trades)
            && (trades ==> Get(books.capital, p) == (if r.Buys(p) then -r.PriceFor(p) else r.PriceFor(p)))
            && Get(books.holdings, p) == (if r.Buys(p) then 1 else if r.Sells(p) then -1 else 0)
  {
    assert r.Accepts(p) ==> r.acts[p].target in r.Active();
  }

  /** A participant has a delta exactly when they traded, and the delta says how. */
  lemma ParticipantPatch(r: Round, roundNo: int, p: string)
    requires p in r.people
    ensures var result := Resolve(r, roundNo);
            var deltas := result.payload.participantDeltas;
            && result.newPeople.Keys == r.people.Keys && deltas.Keys <= r.people.Keys
            && (p in deltas <==> r.Buys(p) || r.Sells(p))
            && (p !in deltas ==> result.newPeople[p] == r.people[p])
            && (p in deltas ==>
                  && deltas[p].newCapital == result.newPeople[p].capital == r.people[p].capital + deltas[p].capitalChange
                  && deltas[p].newHoldings == result.newPeople[p].holdings == r.people[p].holdings + deltas[p].holdingsChange
                  && deltas[p].holdingsChange == (if r.Buys(p) then 1 else -1))
  {
    RoundMoves(r, roundNo, p);
    SettledAt(r, p);
    DeltaAt(SettledBooks(r, r.Active()), p);
  }

  /** Everyone who has bought once the segments in `done` are settled. */
  ghost function BuyersSettled(r: Round, done: set<string>): set<string> {
    set p | p in r.people && r.Buys(p) && r.acts[p].target in done
  }

  lemma {:induction false} BuyersCount(r: Round, done: set<string>)
    requires done <= r.world.Keys
    ensures |BuyersSettled(r, done)| == SumOver(r.ClearedVolumes(), done)
  {
    if done == {} {
      assert BuyersSettled(r, done) == {};
    } else {
      var gu :| gu in done;
      var rest := done - {gu};
      assert done == rest + {gu};
      BuyersCount(r, rest);
      SumOneMore(r.ClearedVolumes(), rest, gu);
      BuyersOneMore(r, rest, gu);
    }
  }

  lemma BuyersOneMore(r: Round, rest: set<string>, gu: string)
    requires gu in r.world && gu !in rest
    ensures |BuyersSettled(r, rest + {gu})| == |BuyersSettled(r, rest)| + r.Cleared(gu)
  {
    var bw := Elements(r.AuctionOf(gu).BuyWinners(r.people));
    SidesApart(r, gu);
    WinnerCounts(r.AuctionOf(gu), r.people);
    forall p ensures p in bw <==> p in r.people && r.Buys(p) && r.acts[p].target == gu {
      BuysWhere(r, gu, p);
    }
    SettledWith(r, rest, gu, bw);
    assert BuyersSettled(r, rest) !! bw;
  }

  lemma SettledWith(r: Round, rest: set<string>, gu: string, bw: set<string>)
    requires gu in r.world && gu !in rest
    requires forall p :: p in bw <==> p in r.people && r.Buys(p) && r.acts[p].target == gu
    ensures BuyersSettled(r, rest + {gu}) == BuyersSettled(r, rest) + bw && BuyersSettled(r, rest) !! bw
  {
    hide Round.Buys;
  }

  lemma BuysWhere(r: Round, gu: string, p: string)
    requires gu in r.world
    ensures p in r.AuctionOf(gu).BuyWinners(r.people) <==> p in r.people && r.Buys(p) && r.acts[p].target == gu
  {
    WinnersIn(r, gu, r.world[gu], r.people);
  }

  /** The participants whose delta books a gained unit are those who bought. */
  lemma GainersAreBuyers(r: Round, roundNo: int)
    ensures var deltas := Resolve(r, roundNo).payload.participantDeltas;
            (set p | p in deltas && deltas[p].holdingsChange == 1) == BuyersSettled(r, r.Active())
  {
    hide Resolve, BuyersSettled;
    var deltas := Resolve(r, roundNo).payload.participantDeltas;
    forall p ensures p in deltas && deltas[p].holdingsChange == 1 <==> p in BuyersSettled(r, r.Active()) {
      GainerBought(r, roundNo, p);
    }
  }

  lemma GainerBought(r: Round, roundNo: int, p: string)
    ensures var deltas := Resolve(r, roundNo).payload.participantDeltas;
            p in deltas && deltas[p].holdingsChange == 1 <==> p in BuyersSettled(r, r.Active())
  {
    BoughtSettled(r, p);
    if p in r.people {
      ParticipantPatch(r, roundNo, p);
    } else {
      ResultKeys(r, roundNo);
    }
  }

  lemma BoughtSettled(r: Round, p: string)
    ensures p in BuyersSettled(r, r.Active()) <==> p in r.people && r.Buys(p)
  {
    assert r.Accepts(p) ==> r.acts[p].target in r.Active();
  }

  lemma PeoplePatch(r: Round, roundNo: int)
    ensures PatchPeople(r.people, Resolve(r, roundNo).payload.participantDeltas) == Resolve(r, roundNo).newPeople
  {
    ResultKeys(r, roundNo);
    forall p | p in r.people
      ensures PatchPeople(r.people, Resolve(r, roundNo).payload.participantDeltas)[p] == Resolve(r, roundNo).newPeople[p]
    {
      PersonPatch(r, roundNo, p);
    }
  }

  lemma PersonPatch(r: Round, roundNo: int, p: string)
    requires p in r.people
    ensures p in Resolve(r, roundNo).newPeople
    ensures PatchPeople(r.people, Resolve(r, roundNo).payload.participantDeltas)[p] == Resolve(r, roundNo).newPeople[p]
  {
    RoundMoves(r, roundNo, p);
    ParticipantPatch(r, roundNo, p);
  }

  /**
   The payload is a faithful patch: applying the participant deltas to the old
   participants gives exactly the new ones, and the transaction count is the sum of
   the cleared volumes and the number of participants who gained a unit.
   */
  lemma PayloadIsPatch(r: Round, roundNo: int)
    ensures var result := Resolve(r, roundNo);
            var deltas, cleared := result.payload.participantDeltas, result.outcome.clearedVolume;
            && PatchPeople(r.people, deltas) == result.newPeople
            && result.payload.transactions == result.outcome.resolved
            && result.payload.transactions == SumOver(cleared, cleared.Keys)
            && result.payload.transactions == |set p | p in deltas && deltas[p].holdingsChange == 1|
  {
    ActiveInWorld(r);
    PeoplePatch(r, roundNo);
    GainersAreBuyers(r, roundNo);
    BuyersCount(r, r.Active());
    ResultKeys(r, roundNo);
    SumOverSame(Resolve(r, roundNo).outcome.clearedVolume, r.ClearedVolumes(), r.Active());
  }

  lemma OnlyKeys<V>(m: map<string, V>, done: set<string>)
    requires done <= m.Keys
    ensures Only(m, done).Keys == done
  {}

  lemma BooksKeys(r: Round, done: set<string>)
    ensures var books := SettledBooks(r, done);
            books.people.Keys == r.people.Keys && books.capital.Keys + books.holdings.Keys <= r.people.Keys
  {}

  /** The keys of a result, read off the ledger it is made from. */
  lemma ResultOfKeys(led: Ledger, roundNo: int)
    requires led.books.capital.Keys + led.books.holdings.Keys <= led.books.people.Keys
    ensures var result := ResultOf(led, roundNo);
            && result.newPeople == led.books.people && result.newWorld == led.world
            && result.payload.participantDeltas.Keys <= led.books.people.Keys
            && result.payload.segmentDeltas == led.segmentDeltas && result.outcome.clearedVolume == led.clearedVolume
  {}

  lemma LedgerKeys(r: Round, done: set<string>)
    requires done <= r.world.Keys
    ensures var led := SettledLedger(r, done);
            && led.world.Keys == r.world.Keys && led.segmentDeltas.Keys == done && led.clearedVolume.Keys == done
            && led.books == SettledBooks(r, done)
  {
    OnlyKeys(r.Deltas(), done);
    OnlyKeys(r.ClearedVolumes(), done);
  }

  lemma ResultKeys(r: Round, roundNo: int)
    ensures var result := Resolve(r, roundNo);
            && result.newPeople.Keys == r.people.Keys && result.newWorld.Keys == r.world.Keys
            && result.payload.participantDeltas.Keys <= r.people.Keys
            && result.payload.segmentDeltas.Keys == r.Active()
            && result.outcome.clearedVolume.Keys == r.Active()
  {
    ActiveInWorld(r);
    BooksKeys(r, r.Active());
    LedgerKeys(r, r.Active());
    ResultOfKeys(SettledLedger(r, r.Active()), roundNo);
  }

  lemma LedgerTables(r: Round, gu: string)
    requires gu in r.Active()
    ensures gu in r.world
    ensures var led := SettledLedger(r, r.Active());
            && gu in led.segmentDeltas && led.segmentDeltas[gu] == DeltaOf(gu, r.world[gu], r.TallyOf(gu))
            && gu in led.clearedVolume && led.clearedVolume[gu] == r.Cleared(gu)
            && gu in led.priceChanges && led.priceChanges[gu] == PricePct(r.TallyOf(gu))
  {
    ActiveInWorld(r);
  }

  lemma ResolvedTables(r: Round, roundNo: int)
    ensures r.Active() <= r.world.Keys
    ensures var result, led := Resolve(r, roundNo), SettledLedger(r, r.Active());
            && result.outcome.roundNo == result.payload.roundNo == roundNo
            && result.outcome.clearedVolume == led.clearedVolume && result.outcome.priceChanges == led.priceChanges
            && result.payload.segmentDeltas == led.segmentDeltas
  {
    ActiveInWorld(r);
  }

  /** What the outcome and the payload say about a targeted district: the same price change, and its buyers counted. */
  lemma OutcomeTables(r: Round, roundNo: int, gu: string)
    requires gu in r.Active()
    ensures var result := Resolve(r, roundNo);
            && result.outcome.roundNo == result.payload.roundNo == roundNo
            && gu in r.world && gu in result.outcome.clearedVolume && gu in result.outcome.priceChanges
            && gu in result.payload.segmentDeltas
            && result.outcome.clearedVolume[gu] == |BuyersSettled(r, {gu})|
            && result.payload.segmentDeltas[gu].guCode == gu
            && result.payload.segmentDeltas[gu].pricePct == result.outcome.priceChanges[gu] == PricePct(r.TallyOf(gu))
            && result.payload.segmentDeltas[gu].volumeChange == Limit(r.world[gu], r.TallyOf(gu)) - r.world[gu].volume
  {
    hide Resolve, SettledLedger, BuyersSettled;
    ResolvedTables(r, roundNo);
    LedgerTables(r, gu);
    BuyersOneMore(r, {}, gu);
    NoneSettled(r);
    assert {} + {gu} == {gu};
  }

  lemma NoneSettled(r: Round)
    ensures |BuyersSettled(r, {})| == 0
  {
    assert BuyersSettled(r, {}) == {};
  }

  /* ---------- bounds and validators ---------- */

  ghost predicate SoundTally(t: Tally) {
    && t.buyCount + t.sellCount <= t.actions
    && 0.0 <= t.buyIntensity <= t.buyCount as real && 0.0 <= t.sellIntensity <= t.sellCount as real
  }

  lemma TallySound(r: Round, gu: string)
    requires ValidActions(r.acts)
    ensures SoundTally(r.TallyOf(gu))
  {
    RealSumOverBounds(r.Confidence(), r.Buyers(gu));
    RealSumOverBounds(r.Confidence(), r.Sellers(gu));
    SidesApart(r, gu);
    assert r.Buyers(gu) + r.Sellers(gu) <= r.Actors(gu);
    CardinalityMonotone(r.Buyers(gu) + r.Sellers(gu), r.Actors(gu));
  }

  /** Pressure is a share of the actions. */
  lemma PressureBounded(t: Tally)
    requires SoundTally(t)
    ensures -1.0 <= NetPressure(t) <= 1.0
  {
    var n := Max(t.actions, 1) as real;
    ShareOf(t.buyIntensity - t.sellIntensity, n);
  }

  lemma ShareOf(x: real, n: real)
    requires n >= 1.0 && -n <= x <= n
    ensures -1.0 <= x / n <= 1.0
  {
    var q := x / n;
    assert q * n == x;
    if q > 1.0 { TimesMore(q, n); }
    if q < -1.0 { TimesMore(-q, n); }
  }

  lemma TimesMore(q: real, n: real)
    requires n >= 1.0 && q > 1.0
    ensures q * n > n
  {
    assert q * n - n == (q - 1.0) * n;
  }

  /** For valid actions the 5 percent clamp never binds, and 2 percent net pressure makes a trend. */
  lemma PriceFollowsPressure(t: Tally)
    requires SoundTally(t)
    ensures PricePct(t) == NetPressure(t) * 0.05
    ensures NewTrend(t) == Up <==> NetPressure(t) > 0.02
    ensures NewTrend(t) == Down <==> NetPressure(t) < -0.02
  {
    PressureBounded(t);
  }

  lemma PctBounded(t: Tally)
    ensures -0.05 <= PricePct(t) <= 0.05
  {
    hide NetPressure;
  }

  lemma MovedBounds(s: Segment, t: Tally)
    requires s.medianPrice >= 1
    ensures 0.0 <= MovedPrice(s, t) <= s.medianPrice as real * 1.05
    ensures PricePct(t) >= 0.0 ==> s.medianPrice as real <= MovedPrice(s, t)
  {
    hide PricePct;
    PctBounded(t);
    Scaled(s.medianPrice as real, PricePct(t));
  }

  /** The new price is the integer part of the moved price, or 1. */
  lemma PriceTruncates(s: Segment, t: Tally)
    requires s.medianPrice >= 1
    ensures var moved := MovedPrice(s, t);
            if moved < 1.0 then NewPrice(s, t) == 1 else NewPrice(s, t) as real <= moved < NewPrice(s, t) as real + 1.0
  {
    hide PriceAt, MovedPrice;
    MovedBounds(s, t);
    Floored(MovedPrice(s, t));
  }

  lemma Floored(x: real)
    requires x >= 0.0
    ensures if x < 1.0 then PriceAt(x) == 1 else PriceAt(x) as real <= x < PriceAt(x) as real + 1.0
  {
    assert x - 1.0 < x.Floor as real <= x;
  }

  /** The volume closes a tenth of its distance to the trade limit, in whole units. */
  lemma VolumeClosesATenth(s: Segment, t: Tally)
    requires s.volume >= 0
    ensures Limit(s, t) == Min(t.buyCount, t.sellCount + s.volume / 10)
    ensures NewVolume(s, t) == if Limit(s, t) >= s.volume then s.volume + (Limit(s, t) - s.volume) / 10
                               else s.volume - (s.volume - Limit(s, t)) / 10
  {
    Tenth(s.volume);
    if Limit(s, t) >= s.volume { Tenth(Limit(s, t) - s.volume); } else { Tenth(s.volume - Limit(s, t)); }
  }

  lemma Tenth(n: int)
    requires n >= 0
    ensures Trunc(n as real * 0.1) == n / 10
    ensures Trunc((-n) as real * 0.1) == -(n / 10)
  {
    var q, r := n / 10, n % 10;
    assert n as real * 0.1 == q as real + r as real * 0.1;
    assert (n as real * 0.1).Floor == q;
    assert (-n) as real * 0.1 == -(n as real * 0.1);
  }

  /** A round moves a price by at most 5 percent and never below 1. */
  lemma PriceBounds(s: Segment, t: Tally)
    requires s.medianPrice >= 1
    ensures 1 <= NewPrice(s, t) && NewPrice(s, t) as real <= s.medianPrice as real * 1.05
    ensures PricePct(t) >= 0.0 ==> NewPrice(s, t) >= s.medianPrice
  {
    hide PriceAt, MovedPrice, PricePct;
    MovedBounds(s, t);
    PriceAtBounds(MovedPrice(s, t), s.medianPrice, s.medianPrice as real * 1.05);
  }

  lemma PriceAtBounds(moved: real, low: int, high: real)
    requires 0.0 <= moved <= high && 1.0 <= high
    ensures 1 <= PriceAt(moved) && PriceAt(moved) as real <= high
    ensures low as real <= moved ==> PriceAt(moved) >= low
  {
    assert moved - 1.0 < moved.Floor as real <= moved;
  }

  lemma Scaled(p: real, pct: real)
    requires p >= 1.0 && -0.05 <= pct <= 0.05
    ensures 0.0 <= p * (1.0 + pct) <= p * 1.05 && 1.0 <= p * 1.05
    ensures pct >= 0.0 ==> p * (1.0 + pct) >= p
  {
    MulNonNeg(p, 0.05 - pct);
    MulNonNeg(p, pct + 0.05);
    if pct >= 0.0 { MulNonNeg(p, pct); }
    assert p * (0.05 - pct) == p * 0.05 - p * pct;
    assert p * (pct + 0.05) == p * pct + p * 0.05;
    assert p * (1.0 + pct) == p + p * pct;
  }

  /** The volume moves toward the trade limit without passing it. */
  lemma VolumeBounds(s: Segment, t: Tally)
    requires s.volume >= 0
    ensures Min(s.volume, Limit(s, t)) <= NewVolume(s, t) <= Max(s.volume, Limit(s, t))
    ensures 0 <= NewVolume(s, t)
  {
    var change := VolumeChange(s, t);
    TruncWithin(change as real * 0.1, Min(0, change), Max(0, change));
  }

  lemma SegmentStaysSound(s: Segment, t: Tally)
    requires SoundSegment(s)
    ensures SoundSegment(NewSegment(s, t)) && DeltaOf(s.guCode, s, t).Valid()
  {
    PriceBounds(s, t);
    VolumeBounds(s, t);
  }

  /**
   A validator rejects the result exactly when the round number is negative or a
   winning buyer starts with fewer than -1 holdings.
   */
  lemma RejectedExactly(r: Round, roundNo: int)
    ensures Checked(Resolve(r, roundNo)).Success? <==>
              roundNo >= 0 && forall p :: r.Buys(p) ==> r.people[p].holdings >= -1
  {
    var payload := Resolve(r, roundNo).payload;
    assert payload.transactions >= 0 by { PayloadIsPatch(r, roundNo); }
    SegmentDeltasValid(r, roundNo);
    RejectedDeltas(r, roundNo);
    PayloadValid(payload, p => r.Buys(p) && r.people[p].holdings < -1);
  }

  lemma SegmentDeltasValid(r: Round, roundNo: int)
    ensures var deltas := Resolve(r, roundNo).payload.segmentDeltas;
            forall gu :: gu in deltas ==> deltas[gu].Valid()
  {
    ActiveInWorld(r);
    forall gu | gu in r.Active() ensures r.Deltas()[gu].Valid() {
      DeltaValid(gu, r.world[gu], r.TallyOf(gu));
    }
  }

  lemma DeltaValid(gu: string, s: Segment, t: Tally)
    ensures DeltaOf(gu, s, t).Valid()
  {
    hide NetPressure;
  }

  lemma RejectedDeltas(r: Round, roundNo: int)
    ensures var deltas := Resolve(r, roundNo).payload.participantDeltas;
            forall p :: p in deltas && !deltas[p].Valid() <==> r.Buys(p) && r.people[p].holdings < -1
  {
    forall p ensures var deltas := Resolve(r, roundNo).payload.participantDeltas;
                     p in deltas && !deltas[p].Valid() <==> r.Buys(p) && r.people[p].holdings < -1
    {
      ParticipantDeltaValid(r, roundNo, p);
    }
  }

  lemma PayloadValid(payload: RoundPayload, bad: string -> bool)
    requires payload.transactions >= 0
    requires forall gu :: gu in payload.segmentDeltas ==> payload.segmentDeltas[gu].Valid()
    requires forall p :: p in payload.participantDeltas && !payload.participantDeltas[p].Valid() <==> bad(p)
    ensures payload.Valid() <==> payload.roundNo >= 0 && forall p :: !bad(p)
  {
    if p :| bad(p) {
      assert !payload.participantDeltas[p].Valid();
    }
  }

  lemma ParticipantDeltaValid(r: Round, roundNo: int, p: string)
    ensures var deltas := Resolve(r, roundNo).payload.participantDeltas;
            p in deltas && !deltas[p].Valid() <==> r.Buys(p) && r.people[p].holdings < -1
  {
    hide Resolve, Auction.BuyWinners, Auction.SellWinners;
    SellerHolds(r, p);
    ResultKeys(r, roundNo);
    if p in r.people {
      ParticipantPatch(r, roundNo, p);
    }
  }

  lemma SellerHolds(r: Round, p: string)
    ensures r.Sells(p) ==> p in r.people && r.people[p].holdings > 0
    ensures r.Buys(p) ==> p in r.people && r.people[p].capital >= r.PriceFor(p)
  {
    if r.Sells(p) || r.Buys(p) {
      WhoTrades(r, p);
    }
  }

  lemma TradedSound(q: Participant, price: int)
    requires SoundParticipant(q) && price >= 1
    ensures q.capital >= price ==> SoundParticipant(Paid(q, price))
    ensures q.holdings > 0 ==> SoundParticipant(Sold(q, price))
  {}

  lemma PersonStaysSound(r: Round, roundNo: int, p: string)
    requires p in r.people && SoundParticipant(r.people[p])
    ensures p in Resolve(r, roundNo).newPeople && SoundParticipant(Resolve(r, roundNo).newPeople[p])
    ensures r.Buys(p) ==> r.people[p].holdings >= -1
  {
    hide Resolve, SoundParticipant, Paid, Sold, Auction.BuyWinners, Auction.SellWinners, NewPrice;
    RoundMoves(r, roundNo, p);
    SellerHolds(r, p);
    if r.Buys(p) || r.Sells(p) {
      PriceAtLeastOne(r.world[r.acts[p].target], r.TallyOf(r.acts[p].target));
      TradedSound(r.people[p], r.PriceFor(p));
    }
    HoldingsSound(r.people[p]);
  }

  lemma HoldingsSound(q: Participant)
    ensures SoundParticipant(q) ==> q.holdings >= 0
  {}

  lemma SegmentRemainsSound(r: Round, roundNo: int, gu: string)
    requires gu in r.world && SoundSegment(r.world[gu])
    ensures gu in Resolve(r, roundNo).newWorld && SoundSegment(Resolve(r, roundNo).newWorld[gu])
  {
    hide Resolve, SoundSegment, NewSegment;
    SegmentMoves(r, roundNo, gu);
    SegmentStaysSound(r.world[gu], r.TallyOf(gu));
  }

  /** A sound market stays sound through any round, and the round is never rejected. */
  lemma RoundStaysSound(r: Round, roundNo: int)
    requires SoundWorld(r.world) && SoundPeople(r.people) && roundNo >= 0
    ensures var result := Resolve(r, roundNo);
            && Checked(result) == Success(result)
            && SoundWorld(result.newWorld) && SoundPeople(result.newPeople)
            && result.newWorld.Keys == r.world.Keys && result.newPeople.Keys == r.people.Keys
  {
    hide Resolve, SoundSegment, SoundParticipant, Round.AuctionOf, RoundPayload.Valid;
    ResultKeys(r, roundNo);
    RejectedExactly(r, roundNo);
    forall p ensures r.Buys(p) ==> r.people[p].holdings >= -1 {
      SellerHolds(r, p);
      if r.Buys(p) { PersonStaysSound(r, roundNo, p); }
    }
    forall p | p in r.people ensures SoundParticipant(Resolve(r, roundNo).newPeople[p]) { PersonStaysSound(r, roundNo, p); }
    forall gu | gu in r.world ensures SoundSegment(Resolve(r, roundNo).newWorld[gu]) { SegmentRemainsSound(r, roundNo, gu); }
  }

  lemma SegmentMoves(r: Round, roundNo: int, gu: string)
    requires gu in r.world
    ensures var after := Resolve(r, roundNo).newWorld;
            gu in after && after[gu] == if gu in r.Active() then NewSegment(r.world[gu], r.TallyOf(gu)) else r.world[gu]
  {}

  /* ---------- rounds in one segment ---------- */

  lemma SumOverOne(m: map<string, int>, k: string)
    requires k in m
    ensures SumOver(m, {k}) == m[k]
  {
    SumOverPick(m, {k}, k);
    assert {k} - {k} == {};
  }

  /** Without sellers, the one active segment takes all the money, at its new price. */
  lemma CostOfOne(r: Round, key: string, roundNo: int)
    requires key in r.world && r.Active() == {key} && r.Sellers(key) == {}
    ensures var result := Resolve(r, roundNo);
            && key in result.newWorld
            && SumOver(NaturalCost(r), {key}) == result.newWorld[key].medianPrice * result.outcome.resolved
  {
    hide Auction.Cleared, NewPrice, Limit;
    SumOverOne(NaturalCost(r), key);
    SumOverOne(r.ClearedVolumes(), key);
    SegmentMoves(r, roundNo, key);
    ResolvedSum(r, roundNo);
  }

  lemma ResolvedSum(r: Round, roundNo: int)
    ensures r.Active() <= r.world.Keys
    ensures Resolve(r, roundNo).outcome.resolved == SumOver(r.ClearedVolumes(), r.Active())
  {
    ActiveInWorld(r);
  }

  lemma NothingSummed(m: map<string, int>)
    ensures SumOver(m, {}) == 0
  {}

  /* ---------- rounds with no buyer ---------- */

  lemma NoBuyersNoClearing(r: Round, gu: string)
    requires gu in r.world && r.Buyers(gu) == {}
    ensures r.ClearedVolumes()[gu] == 0
    ensures r.AuctionOf(gu).BuyWinners(r.people) == [] && r.AuctionOf(gu).SellWinners(r.people) == []
  {
    assert r.AuctionOf(gu).Demand(r.people) == {};
  }

  /** Without a buyer nothing clears and nobody's position changes. */
  lemma NoBuyersNoTrade(r: Round, roundNo: int)
    requires forall gu :: gu in r.world ==> r.Buyers(gu) == {}
    ensures Resolve(r, roundNo).outcome.resolved == 0 && Resolve(r, roundNo).newPeople == r.people
  {
    ActiveInWorld(r);
    forall gu | gu in r.Active() ensures r.ClearedVolumes()[gu] == 0 { NoBuyersNoClearing(r, gu); }
    SumOfZeros(r.ClearedVolumes(), r.Active());
    ResultKeys(r, roundNo);
    forall p | p in r.people ensures Resolve(r, roundNo).newPeople[p] == r.people[p] {
      RoundMoves(r, roundNo, p);
      if r.Accepts(p) { NoBuyersNoClearing(r, r.acts[p].target); }
    }
  }
}
