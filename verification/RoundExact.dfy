/**
 One round in numbers: what happens to a district and to a participant, read off the
 actions, the district and the participants alone.
 */
module RoundExact {
  import opened Ordering
  import opened Numbers
  import opened Market
  import opened Matching
  import opened Resolver
  import opened MarketLaws

  /* ---------- who acts ---------- */

  /** `p` acts in the district: a known participant with a supported action on a known district. */
  ghost predicate ActsIn(r: Round, gu: string, p: string) {
    && p in r.acts && p in r.people && gu in r.world && r.acts[p].target == gu
    && (r.acts[p].actionType == Buy || r.acts[p].actionType == Sell || r.acts[p].actionType == Hold)
  }

  /** Actors, buyers and sellers of a district, and the districts a round touches. */
  lemma SidesExactly(r: Round, gu: string, p: string)
    ensures p in r.Actors(gu) <==> ActsIn(r, gu, p)
    ensures p in r.Buyers(gu) <==> ActsIn(r, gu, p) && r.acts[p].actionType == Buy
    ensures p in r.Sellers(gu) <==> ActsIn(r, gu, p) && r.acts[p].actionType == Sell
    ensures gu in r.Active() <==> exists q :: ActsIn(r, gu, q)
  {
    if gu in r.Active() {
      var q :| q in r.acts && r.Accepts(q) && r.acts[q].target == gu;
      assert ActsIn(r, gu, q);
    }
  }

  /** An action is ignored for the first of three reasons, with its own warning; the others leave none. */
  lemma IgnoredExactly(world: World, people: People, e: Entry)
    ensures WarningsFor(world, people, [e]) ==
            if e.0 !in people then [UnknownParticipant(e.0)]
            else if e.1.actionType != Buy && e.1.actionType != Sell && e.1.actionType != Hold then
              [UnsupportedAction(e.1.actionType, e.0)]
            else if e.1.target !in world then [UnknownSegment(e.1.target)]
            else []
  {
    assert [e][..0] == [];
  }

  lemma LastIgnored(world: World, people: People, actions: seq<Entry>, e: Entry)
    ensures WarningsFor(world, people, actions + [e]) ==
            WarningsFor(world, people, actions) + WarningsFor(world, people, [e])
    ensures WarningsFor(world, people, []) == []
  {
    hide WarningFor;
    assert (actions + [e])[..|actions|] == actions && [e][..0] == [];
  }

  /** The warnings come in the order of the actions. */
  lemma {:induction false} IgnoredInOrder(world: World, people: People, before: seq<Entry>, after: seq<Entry>)
    ensures WarningsFor(world, people, before + after) ==
            WarningsFor(world, people, before) + WarningsFor(world, people, after)
  {
    hide WarningsFor;
    if after == [] {
      assert before + after == before;
      LastIgnored(world, people, [], ("", Action("", 0, Hold, "", 0.0)));
    } else {
      var n := |after| - 1;
      SplitLast(after);
      assert before + after == (before + after[..n]) + [after[n]];
      IgnoredInOrder(world, people, before, after[..n]);
      LastIgnored(world, people, before + after[..n], after[n]);
      LastIgnored(world, people, after[..n], after[n]);
    }
  }

  /* ---------- the district ---------- */

  /** The confidence bought and sold in a district. */
  ghost function Bought(r: Round, gu: string): real { RealSumOver(r.Confidence(), r.Buyers(gu)) }

  ghost function SoldOff(r: Round, gu: string): real { RealSumOver(r.Confidence(), r.Sellers(gu)) }

  /** Five percent of the balance per actor, and never more than five percent either way. */
  ghost predicate PercentOf(change: real, balance: real, actors: nat) {
    if balance > actors as real then change == 0.05
    else if balance < -(actors as real) then change == -0.05
    else change * actors as real == 0.05 * balance
  }

  /** The integer part of the price `was` after the change, and at least 1. */
  ghost predicate IntegerPart(price: int, was: int, change: real) {
    var moved := was as real * (1.0 + change);
    if moved < 1.0 then price == 1 else price as real <= moved < price as real + 1.0
  }

  /** `x` cut to the unit interval. */
  ghost function InUnit(x: real): real { if x < 0.0 then 0.0 else if x > 1.0 then 1.0 else x }

  /** How many trades a district may clear. */
  ghost function TradeLimit(volume: int, buyers: nat, sellers: nat): nat {
    var supply := sellers + (if volume >= 0 then volume / 10 else 0);
    if buyers < supply then buyers else supply
  }

  /** A tenth of the way to the limit, in whole units, and not below zero. */
  ghost function TenthOfTheWay(volume: int, limit: int): int {
    var moved := if limit >= volume then volume + (limit - volume) / 10 else volume - (volume - limit) / 10;
    if moved < 0 then 0 else moved
  }

  lemma QuotientOf(x: real, n: nat) returns (q: real)
    requires n >= 1
    ensures q == x / n as real && q * n as real == x
    ensures x > n as real <==> q > 1.0
    ensures x < -(n as real) <==> q < -1.0
  {
    q := x / n as real;
    OverOne(q, n as real);
    OverOne(-q, n as real);
  }

  lemma OverOne(q: real, n: real)
    requires n >= 1.0
    ensures q > 1.0 <==> q * n > n
  {
    if q > 1.0 { TimesMore(q, n); }
    if q <= 1.0 { TimesNoMore(q, n); }
  }

  lemma TimesNoMore(q: real, n: real)
    requires n >= 1.0 && q <= 1.0
    ensures q * n <= n
  {
    MulNonNeg(1.0 - q, n);
    assert (1.0 - q) * n == n - q * n;
  }

  lemma ChangeExactly(t: Tally)
    requires t.actions >= 1
    ensures PercentOf(PricePct(t), t.buyIntensity - t.sellIntensity, t.actions)
    ensures NewTrend(t) == (if PricePct(t) > 0.001 then Up else if PricePct(t) < -0.001 then Down else Flat)
  {
    var q := QuotientOf(t.buyIntensity - t.sellIntensity, t.actions);
    assert NetPressure(t) == q;
    assert (q * 0.05) * t.actions as real == 0.05 * (q * t.actions as real);
  }

  lemma SentimentExactly(s: Segment, t: Tally)
    requires t.actions >= 1
    ensures NewSentiment(s, t) == InUnit(s.sentiment + 0.1 * ((t.buyIntensity - t.sellIntensity) / t.actions as real))
  {}

  lemma PriceExactly(s: Segment, t: Tally)
    ensures IntegerPart(NewPrice(s, t), s.medianPrice, PricePct(t))
  {
    hide PricePct, MovedPrice;
    var moved := MovedPrice(s, t);
    assert moved == s.medianPrice as real * (1.0 + PricePct(t)) by { MovedIs(s, t); }
    assert moved - 1.0 < moved.Floor as real <= moved;
  }

  lemma MovedIs(s: Segment, t: Tally)
    ensures MovedPrice(s, t) == s.medianPrice as real * (1.0 + PricePct(t))
  {}

  lemma TenthTruncated(n: int)
    ensures Trunc(n as real * 0.1) == if n >= 0 then n / 10 else -((-n) / 10)
  {
    if n >= 0 { Tenth(n); } else { Tenth(-n); }
  }

  lemma VolumeExactly(s: Segment, t: Tally)
    ensures Limit(s, t) == TradeLimit(s.volume, t.buyCount, t.sellCount)
    ensures NewVolume(s, t) == TenthOfTheWay(s.volume, Limit(s, t))
  {
    hide Trunc;
    TenthTruncated(s.volume);
    TenthTruncated(Limit(s, t) - s.volume);
  }

  /**
   A district that was `s` is `s'` after a round with so many actors, buyers and sellers and
   such a balance of confidence: its price change is 5 percent of the balance per actor, its
   price the integer part of the moved price, its volume a tenth closer to the trade limit,
   its trend and sentiment those of the balance; the payload says the same, and nothing else
   about the district changes.
   */
  ghost predicate DistrictMoved(gu: string, s: Segment, s': Segment, delta: SegmentDelta, change: real, balance: real,
                                actors: nat, buyers: nat, sellers: nat)
    requires actors >= 1
  {
    && PercentOf(change, balance, actors)
    && IntegerPart(s'.medianPrice, s.medianPrice, change)
    && s'.volume == TenthOfTheWay(s.volume, TradeLimit(s.volume, buyers, sellers))
    && s'.trend == (if change > 0.001 then Up else if change < -0.001 then Down else Flat)
    && s'.sentiment == InUnit(s.sentiment + 0.1 * (balance / actors as real))
    && s'.guCode == s.guCode && s'.guName == s.guName && s'.supplyPressure == s.supplyPressure
    && delta == SegmentDelta(gu, change, TradeLimit(s.volume, buyers, sellers) - s.volume, s'.medianPrice, s'.volume)
  }

  lemma SegmentExactly(gu: string, s: Segment, t: Tally)
    requires t.actions >= 1
    ensures DistrictMoved(gu, s, NewSegment(s, t), DeltaOf(gu, s, t), PricePct(t), t.buyIntensity - t.sellIntensity,
                          t.actions, t.buyCount, t.sellCount)
  {
    hide NewPrice, PricePct, NewVolume, NewTrend, NewSentiment, Limit, PercentOf, IntegerPart, TenthOfTheWay, TradeLimit,
      InUnit;
    ChangeExactly(t);
    SentimentExactly(s, t);
    PriceExactly(s, t);
    VolumeExactly(s, t);
  }

  lemma TallyIs(r: Round, gu: string)
    ensures var t := r.TallyOf(gu);
            && t.actions == |r.Actors(gu)| && t.buyCount == |r.Buyers(gu)| && t.sellCount == |r.Sellers(gu)|
            && t.buyIntensity == Bought(r, gu) && t.sellIntensity == SoldOff(r, gu)
  {
    hide RealSumOver;
  }

  /** A district after a round in which someone acts. */
  lemma DistrictAfter(r: Round, roundNo: int, gu: string)
    requires gu in r.Active()
    ensures |r.Actors(gu)| >= 1
    ensures var result := Resolve(r, roundNo);
            && gu in r.world && gu in result.newWorld && gu in result.outcome.priceChanges && gu in result.payload.segmentDeltas
            && DistrictMoved(gu, r.world[gu], result.newWorld[gu], result.payload.segmentDeltas[gu],
                             result.outcome.priceChanges[gu], Bought(r, gu) - SoldOff(r, gu),
                             |r.Actors(gu)|, |r.Buyers(gu)|, |r.Sellers(gu)|)
  {
    hide Resolve, SettledLedger, DistrictMoved, NewSegment, DeltaOf, PricePct, Bought, SoldOff, Round.TallyOf, Round.Actors,
      Round.Buyers, Round.Sellers;
    SomeActor(r, gu);
    TallyIs(r, gu);
    ResolvedTables(r, roundNo);
    LedgerTables(r, gu);
    SegmentMoves(r, roundNo, gu);
    SegmentExactly(gu, r.world[gu], r.TallyOf(gu));
  }

  lemma SomeActor(r: Round, gu: string)
    requires gu in r.Active()
    ensures |r.Actors(gu)| >= 1
  {
    var p :| p in r.acts && r.Accepts(p) && r.acts[p].target == gu;
    assert p in r.Actors(gu);
  }

  lemma BalanceBounded(r: Round, gu: string)
    requires ValidActions(r.acts)
    ensures -(|r.Actors(gu)| as real) <= Bought(r, gu) - SoldOff(r, gu) <= |r.Actors(gu)| as real
  {
    hide RealSumOver;
    TallySound(r, gu);
  }

  lemma TwiceTheChange(change: real, balance: real, n: nat)
    requires n >= 1 && change * n as real == 0.05 * balance
    ensures 0.1 * (balance / n as real) == 2.0 * change
  {
    var q := QuotientOf(balance, n);
    SameQuotient(change, q, n as real);
  }

  lemma SameQuotient(change: real, q: real, n: real)
    requires n >= 1.0 && change * n == 0.05 * (q * n)
    ensures change == 0.05 * q
  {
    var d := change - 0.05 * q;
    assert d * n == change * n - 0.05 * (q * n);
    if d > 0.0 { Above(d, n); }
    if d < 0.0 { Above(-d, n); }
  }

  lemma Above(d: real, n: real)
    requires d > 0.0 && n >= 1.0
    ensures d * n > 0.0
  {}

  /** With validated confidences the five percent are never cut off, and sentiment moves by twice the price change. */
  lemma ValidDistrictAfter(r: Round, roundNo: int, gu: string)
    requires gu in r.Active() && ValidActions(r.acts)
    ensures var result := Resolve(r, roundNo);
            && gu in r.world && gu in result.newWorld && gu in result.outcome.priceChanges
            && var change := result.outcome.priceChanges[gu];
               && change * |r.Actors(gu)| as real == 0.05 * (Bought(r, gu) - SoldOff(r, gu))
               && result.newWorld[gu].sentiment == InUnit(r.world[gu].sentiment + 2.0 * change)
  {
    hide Resolve, InUnit, Bought, SoldOff, IntegerPart, TenthOfTheWay, TradeLimit, Round.Actors;
    hide NewSegment, DeltaOf;
    DistrictAfter(r, roundNo, gu);
    BalanceBounded(r, gu);
    TwiceTheChange(Resolve(r, roundNo).outcome.priceChanges[gu], Bought(r, gu) - SoldOff(r, gu), |r.Actors(gu)|);
  }

  /** Districts nobody acts in stay exactly as they are, and have no entry in the tables. */
  lemma QuietDistrict(r: Round, roundNo: int, gu: string)
    requires gu in r.world && gu !in r.Active()
    ensures var result := Resolve(r, roundNo);
            && gu in result.newWorld && result.newWorld[gu] == r.world[gu]
            && gu !in result.outcome.clearedVolume && gu !in result.outcome.priceChanges
            && gu !in result.payload.segmentDeltas
  {
    ActiveInWorld(r);
    SegmentMoves(r, roundNo, gu);
  }

  /* ---------- who trades ---------- */

  /** The buyers of a district who can pay `price`, and the sellers who have a unit. */
  ghost function CanPay(r: Round, gu: string, price: int): set<string> {
    set p | p in r.people && p in r.Buyers(gu) && r.people[p].capital >= price
  }

  ghost function CanSell(r: Round, gu: string): set<string> {
    set p | p in r.people && p in r.Sellers(gu) && r.people[p].holdings > 0
  }

  /** Trades cleared: within the limit, as many as can pay, and if anyone sells as many as have a unit. */
  ghost predicate Clears(n: int, limit: nat, payers: nat, sellers: nat, holders: nat) {
    && n <= limit && n <= payers && (sellers > 0 ==> n <= holders)
    && (n == limit || n == payers || (sellers > 0 && n == holders))
  }

  lemma TradersAre(r: Round, gu: string)
    requires gu in r.world
    ensures r.AuctionOf(gu).Demand(r.people) == CanPay(r, gu, r.AuctionOf(gu).price)
    ensures r.AuctionOf(gu).Supply(r.people) == CanSell(r, gu)
  {
    hide NewPrice, Limit;
  }

  lemma ClearsExactly(r: Round, gu: string)
    requires gu in r.world
    ensures Clears(r.Cleared(gu), r.AuctionOf(gu).limit, |CanPay(r, gu, r.AuctionOf(gu).price)|, |r.Sellers(gu)|,
                   |CanSell(r, gu)|)
  {
    hide NewPrice, Limit, CanPay, CanSell, Auction.Demand, Auction.Supply;
    TradersAre(r, gu);
  }

  /** What a district clears in a round, at its new price. */
  lemma DistrictClears(r: Round, roundNo: int, gu: string)
    requires gu in r.Active()
    ensures var result := Resolve(r, roundNo);
            && gu in r.world && gu in result.newWorld && gu in result.outcome.clearedVolume
            && Clears(result.outcome.clearedVolume[gu], TradeLimit(r.world[gu].volume, |r.Buyers(gu)|, |r.Sellers(gu)|),
                      |CanPay(r, gu, result.newWorld[gu].medianPrice)|, |r.Sellers(gu)|, |CanSell(r, gu)|)
  {
    hide Resolve, SettledLedger, NewPrice, Limit, NewVolume, NewTrend, NewSentiment, CanPay, CanSell, Clears, Round.Cleared;
    ResolvedTables(r, roundNo);
    LedgerTables(r, gu);
    SegmentMoves(r, roundNo, gu);
    VolumeExactly(r.world[gu], r.TallyOf(gu));
    ClearsExactly(r, gu);
  }

  /** Those of `s` with a smaller id. */
  ghost function Before(s: set<string>, p: string): set<string> {
    set q | q in s && Less(q, p)
  }

  /** `p` is among the first `n` of `s` in the order of ids. */
  ghost predicate AmongFirst(s: set<string>, n: int, p: string) {
    p in s && |Before(s, p)| < n
  }

  /**
   A participant who buys a unit pays the new price of their district and is one of the
   first who can; one who sells is one of the first who have a unit; all else stays.
   */
  lemma ParticipantAfter(r: Round, roundNo: int, gu: string, p: string)
    requires ActsIn(r, gu, p)
    ensures gu in r.Active()
    ensures var result := Resolve(r, roundNo);
            && p in result.newPeople && gu in r.world && gu in result.newWorld && gu in result.outcome.clearedVolume
            && var q, q', price, n := r.people[p], result.newPeople[p], result.newWorld[gu].medianPrice,
                                      result.outcome.clearedVolume[gu];
               var buys := AmongFirst(CanPay(r, gu, price), n, p);
               var sells := AmongFirst(CanSell(r, gu), n, p);
               q' == if buys then q.(capital := q.capital - price, holdings := q.holdings + 1)
                     else if sells then q.(capital := q.capital + price, holdings := q.holdings - 1)
                     else q
  {
    hide Resolve, SettledLedger, NewPrice, Limit, NewVolume, NewTrend, NewSentiment, CanPay, CanSell, Round.Cleared,
      Auction.BuyWinners, Auction.SellWinners;
    SidesExactly(r, gu, p);
    ResolvedTables(r, roundNo);
    LedgerTables(r, gu);
    SegmentMoves(r, roundNo, gu);
    RoundMoves(r, roundNo, p);
    WhoTrades(r, p);
    SetsOfTraders(r, gu, r.AuctionOf(gu).price);
    RanksAre(CanPay(r, gu, r.AuctionOf(gu).price), p);
    RanksAre(CanSell(r, gu), p);
  }

  lemma SetsOfTraders(r: Round, gu: string, price: int)
    ensures r.Buyers(gu) * Payers(r.people, price) == CanPay(r, gu, price)
    ensures r.Sellers(gu) * Stockists(r.people) == CanSell(r, gu)
  {}

  lemma RanksAre(s: set<string>, p: string)
    ensures Rank(Less, s, p) == |Before(s, p)|
  {
    RankCounts(Less, s, p, Before(s, p));
  }

  /** Participants who do not act keep everything. */
  lemma BystanderAfter(r: Round, roundNo: int, p: string)
    requires p in r.people && forall gu :: !ActsIn(r, gu, p)
    ensures p in Resolve(r, roundNo).newPeople && Resolve(r, roundNo).newPeople[p] == r.people[p]
  {
    hide Resolve;
    RoundMoves(r, roundNo, p);
    assert !ActsIn(r, if p in r.acts then r.acts[p].target else "", p);
  }
}
