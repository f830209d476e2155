/** `pure_resolve_round` as the code runs it, proved against the closed form of a round. */
module ResolverLoop {
  import opened Wrappers
  import opened Ordering
  import opened Numbers
  import opened Market
  import opened Matching
  import opened Resolver

  /* ---------- filling the buckets ---------- */

  /** One more action in the dictionary. */
  function Extended(r: Round, e: Entry): Round {
    r.(acts := r.acts[e.0 := e.1])
  }

  function Pushed(b: Bucket, e: Entry): Bucket {
    var t := b.tally.(actions := b.tally.actions + 1);
    match e.1.actionType
    case Buy => Bucket(t.(buyCount := t.buyCount + 1, buyIntensity := t.buyIntensity + e.1.confidence),
                       b.buyers + [e.0], b.sellers)
    case Sell => Bucket(t.(sellCount := t.sellCount + 1, sellIntensity := t.sellIntensity + e.1.confidence),
                        b.buyers, b.sellers + [e.0])
    case _ => b.(tally := t)
  }

  lemma IgnoredAction(r: Round, e: Entry, gu: string)
    requires e.0 !in r.acts && !Extended(r, e).Accepts(e.0)
    ensures Extended(r, e).TallyOf(gu) == r.TallyOf(gu)
    ensures Extended(r, e).Buyers(gu) == r.Buyers(gu) && Extended(r, e).Sellers(gu) == r.Sellers(gu)
  {
    var r' := Extended(r, e);
    assert forall p :: r'.Accepts(p) <==> r.Accepts(p);
    assert r'.Actors(gu) == r.Actors(gu);
    assert r'.Buyers(gu) == r.Buyers(gu) && r'.Sellers(gu) == r.Sellers(gu);
    RealSumOverSame(r.Confidence(), r'.Confidence(), r.Buyers(gu));
    RealSumOverSame(r.Confidence(), r'.Confidence(), r.Sellers(gu));
  }

  lemma ActiveExtended(r: Round, e: Entry)
    requires e.0 !in r.acts
    ensures Extended(r, e).Active() == r.Active() + (if Extended(r, e).Accepts(e.0) then {e.1.target} else {})
  {
    var r' := Extended(r, e);
    forall gu | gu in r.Active() ensures gu in r'.Active() {
      var p :| p in r.acts && r.Accepts(p) && r.acts[p].target == gu;
      assert r'.Accepts(p) && r'.acts[p].target == gu;
    }
    forall gu | gu in r'.Active() && !(r'.Accepts(e.0) && gu == e.1.target) ensures gu in r.Active() {
      var p :| p in r'.acts && r'.Accepts(p) && r'.acts[p].target == gu;
      assert r.Accepts(p) && r.acts[p].target == gu;
    }
    if r'.Accepts(e.0) {
      assert r'.acts[e.0].target in r'.Active();
    }
  }

  lemma OtherSegment(r: Round, e: Entry, gu: string)
    requires e.0 !in r.acts && Extended(r, e).Accepts(e.0) && gu != e.1.target
    ensures Extended(r, e).TallyOf(gu) == r.TallyOf(gu)
    ensures Extended(r, e).Buyers(gu) == r.Buyers(gu) && Extended(r, e).Sellers(gu) == r.Sellers(gu)
  {
    var r' := Extended(r, e);
    assert forall p :: p != e.0 ==> (r'.Accepts(p) <==> r.Accepts(p));
    assert r'.Actors(gu) == r.Actors(gu);
    assert r'.Buyers(gu) == r.Buyers(gu) && r'.Sellers(gu) == r.Sellers(gu);
    RealSumOverSame(r.Confidence(), r'.Confidence(), r.Buyers(gu));
    RealSumOverSame(r.Confidence(), r'.Confidence(), r.Sellers(gu));
  }

  lemma TargetSets(r: Round, e: Entry)
    requires e.0 !in r.acts && Extended(r, e).Accepts(e.0)
    ensures var r', gu := Extended(r, e), e.1.target;
            && e.0 !in r.Actors(gu) && r'.Actors(gu) == r.Actors(gu) + {e.0}
            && r'.Buyers(gu) == (if e.1.actionType == Buy then r.Buyers(gu) + {e.0} else r.Buyers(gu))
            && r'.Sellers(gu) == (if e.1.actionType == Sell then r.Sellers(gu) + {e.0} else r.Sellers(gu))
  {
    var r' := Extended(r, e);
    assert forall p :: p != e.0 ==> (r'.Accepts(p) <==> r.Accepts(p));
  }

  /** Adding one key to a summed set. */
  lemma SumExtended(m: map<string, real>, s: set<string>, k: string, c: real)
    requires s <= m.Keys && k !in m
    ensures RealSumOver(m[k := c], s) == RealSumOver(m, s)
    ensures RealSumOver(m[k := c], s + {k}) == RealSumOver(m, s) + c
  {
    RealSumOverSame(m, m[k := c], s);
    RealSumOverPick(m[k := c], s + {k}, k);
    assert s + {k} - {k} == s;
  }

  /** The intensity of the buyers (or sellers) of the targeted segment. */
  lemma TargetIntensity(r: Round, e: Entry, s: set<string>)
    requires e.0 !in r.acts && s <= r.acts.Keys
    ensures RealSumOver(Extended(r, e).Confidence(), s) == RealSumOver(r.Confidence(), s)
    ensures RealSumOver(Extended(r, e).Confidence(), s + {e.0}) == RealSumOver(r.Confidence(), s) + e.1.confidence
  {
    assert Extended(r, e).Confidence() == r.Confidence()[e.0 := e.1.confidence];
    SumExtended(r.Confidence(), s, e.0, e.1.confidence);
  }

  lemma TargetSums(r: Round, e: Entry, gu: string)
    requires e.0 !in r.acts && Extended(r, e).Accepts(e.0) && gu == e.1.target
    ensures var r' := Extended(r, e);
            var bought, sold := RealSumOver(r.Confidence(), r.Buyers(gu)), RealSumOver(r.Confidence(), r.Sellers(gu));
            && RealSumOver(r'.Confidence(), r'.Buyers(gu)) ==
                 (if e.1.actionType == Buy then bought + e.1.confidence else bought)
            && RealSumOver(r'.Confidence(), r'.Sellers(gu)) ==
                 (if e.1.actionType == Sell then sold + e.1.confidence else sold)
  {
    TargetSets(r, e);
    TargetIntensity(r, e, r.Buyers(gu));
    TargetIntensity(r, e, r.Sellers(gu));
  }

  lemma TargetCounts(r: Round, e: Entry, gu: string)
    requires e.0 !in r.acts && Extended(r, e).Accepts(e.0) && gu == e.1.target
    ensures var r' := Extended(r, e);
            && |r'.Actors(gu)| == |r.Actors(gu)| + 1
            && |r'.Buyers(gu)| == |r.Buyers(gu)| + (if e.1.actionType == Buy then 1 else 0)
            && |r'.Sellers(gu)| == |r.Sellers(gu)| + (if e.1.actionType == Sell then 1 else 0)
  {
    TargetSets(r, e);
    assert e.0 !in r.Buyers(gu) && e.0 !in r.Sellers(gu);
  }

  lemma TargetTally(r: Round, e: Entry, b: Bucket)
    requires e.0 !in r.acts && Extended(r, e).Accepts(e.0) && b.tally == r.TallyOf(e.1.target)
    ensures Pushed(b, e).tally == Extended(r, e).TallyOf(e.1.target)
  {
    hide RealSumOver, Round.Buyers, Round.Sellers, Round.Actors, Round.Confidence, Round.Accepts;
    TargetSums(r, e, e.1.target);
    TargetCounts(r, e, e.1.target);
  }

  lemma TargetLists(r: Round, e: Entry, b: Bucket)
    requires e.0 !in r.acts && Extended(r, e).Accepts(e.0) && BucketOf(r, e.1.target, b)
    ensures Distinct(Pushed(b, e).buyers) && Elements(Pushed(b, e).buyers) == Extended(r, e).Buyers(e.1.target)
    ensures Distinct(Pushed(b, e).sellers) && Elements(Pushed(b, e).sellers) == Extended(r, e).Sellers(e.1.target)
  {
    assert e.0 !in Elements(b.buyers) && e.0 !in Elements(b.sellers);
    if e.1.actionType == Buy {
      ListedOnce(b.buyers, e.0);
    } else if e.1.actionType == Sell {
      ListedOnce(b.sellers, e.0);
    }
    TargetSets(r, e);
  }

  /** Pushing an accepted action keeps the bucket of its segment exact. */
  lemma PushKeepsBucket(r: Round, e: Entry, b: Bucket)
    requires e.0 !in r.acts && Extended(r, e).Accepts(e.0) && BucketOf(r, e.1.target, b)
    ensures BucketOf(Extended(r, e), e.1.target, Pushed(b, e))
  {
    TargetTally(r, e, b);
    TargetLists(r, e, b);
  }

  const EMPTY_BUCKET := Bucket(EMPTY_TALLY, [], [])

  lemma NoActor(r: Round, gu: string, p: string)
    requires gu !in r.Active()
    ensures p !in r.Actors(gu)
  {}

  lemma NoBucketYet(r: Round, gu: string)
    requires gu !in r.Active()
    ensures BucketOf(r, gu, EMPTY_BUCKET)
  {
    forall p ensures p !in r.Actors(gu) { NoActor(r, gu, p); }
    assert r.Buyers(gu) == {} && r.Sellers(gu) == {};
  }

  ghost predicate Filled(r: Round, buckets: map<string, Bucket>) {
    forall gu :: gu in buckets ==> BucketOf(r, gu, buckets[gu])
  }

  ghost predicate Bucketed(r: Round, buckets: map<string, Bucket>, order: seq<string>) {
    && Distinct(order) && Elements(order) == buckets.Keys && buckets.Keys == r.Active()
    && Filled(r, buckets)
  }

  /** `setdefault` on the bucket of a segment, then the updates of one accepted action. */
  lemma BucketStep(r: Round, e: Entry, buckets: map<string, Bucket>, order: seq<string>)
    requires e.0 !in r.acts && Extended(r, e).Accepts(e.0) && Bucketed(r, buckets, order)
    ensures var gu := e.1.target;
            var b := if gu in buckets then buckets[gu] else EMPTY_BUCKET;
            var order' := if gu in buckets then order else order + [gu];
            Bucketed(Extended(r, e), buckets[gu := Pushed(b, e)], order')
  {
    OrderStep(r, e, buckets, order);
    FilledStep(r, e, buckets);
  }

  lemma OrderStep(r: Round, e: Entry, buckets: map<string, Bucket>, order: seq<string>)
    requires e.0 !in r.acts && Extended(r, e).Accepts(e.0)
    requires Distinct(order) && Elements(order) == buckets.Keys && buckets.Keys == r.Active()
    ensures var gu := e.1.target;
            var order' := if gu in buckets then order else order + [gu];
            Distinct(order') && Elements(order') == buckets.Keys + {gu} && buckets.Keys + {gu} == Extended(r, e).Active()
  {
    ActiveExtended(r, e);
    if e.1.target !in buckets { ListedOnce(order, e.1.target); }
  }

  lemma FilledStep(r: Round, e: Entry, buckets: map<string, Bucket>)
    requires e.0 !in r.acts && Extended(r, e).Accepts(e.0) && buckets.Keys == r.Active() && Filled(r, buckets)
    ensures var gu := e.1.target;
            var b := if gu in buckets then buckets[gu] else EMPTY_BUCKET;
            Filled(Extended(r, e), buckets[gu := Pushed(b, e)])
  {
    var gu := e.1.target;
    var b := if gu in buckets then buckets[gu] else EMPTY_BUCKET;
    var r', buckets' := Extended(r, e), buckets[gu := Pushed(b, e)];
    forall g | g in buckets' ensures BucketOf(r', g, buckets'[g]) {
      if g == gu {
        TargetFilled(r, e, buckets);
      } else {
        OtherFilled(r, e, g, buckets[g]);
      }
    }
  }

  lemma TargetFilled(r: Round, e: Entry, buckets: map<string, Bucket>)
    requires e.0 !in r.acts && Extended(r, e).Accepts(e.0) && buckets.Keys == r.Active() && Filled(r, buckets)
    ensures BucketOf(Extended(r, e), e.1.target, Pushed(if e.1.target in buckets then buckets[e.1.target] else EMPTY_BUCKET, e))
  {
    if e.1.target !in buckets { NoBucketYet(r, e.1.target); }
    PushKeepsBucket(r, e, if e.1.target in buckets then buckets[e.1.target] else EMPTY_BUCKET);
  }

  lemma OtherFilled(r: Round, e: Entry, g: string, b: Bucket)
    requires e.0 !in r.acts && Extended(r, e).Accepts(e.0) && g != e.1.target && BucketOf(r, g, b)
    ensures BucketOf(Extended(r, e), g, b)
  {
    OtherSegment(r, e, g);
  }

  lemma IgnoredStep(r: Round, e: Entry, buckets: map<string, Bucket>, order: seq<string>)
    requires e.0 !in r.acts && !Extended(r, e).Accepts(e.0) && Bucketed(r, buckets, order)
    ensures Bucketed(Extended(r, e), buckets, order)
  {
    ActiveExtended(r, e);
    forall gu | gu in buckets ensures BucketOf(Extended(r, e), gu, buckets[gu]) {
      IgnoredAction(r, e, gu);
    }
  }

  /** The round as far as its first `i` actions. */
  function Upto(world: World, people: People, actions: seq<Entry>, i: nat): Round
    requires i <= |actions|
  {
    Round(world, people, ActionMap(actions[..i]))
  }

  /** One more action, ignored with a warning or pushed into its bucket. */
  lemma ActionStep(world: World, people: People, actions: seq<Entry>, i: nat, buckets: map<string, Bucket>, order: seq<string>)
    requires DictEntries(actions) && i < |actions| && Bucketed(Upto(world, people, actions, i), buckets, order)
    ensures var e, r' := actions[i], Upto(world, people, actions, i + 1);
            var warning := WarningFor(world, people, e);
            var gu := e.1.target;
            var b := if gu in buckets then buckets[gu] else EMPTY_BUCKET;
            && WarningsFor(world, people, actions[..i + 1]) ==
                 WarningsFor(world, people, actions[..i]) + (if warning.Some? then [warning.value] else [])
            && (warning.Some? ==> Bucketed(r', buckets, order))
            && (warning.None? ==> Bucketed(r', buckets[gu := Pushed(b, e)], if gu in buckets then order else order + [gu]))
  {
    var e, r := actions[i], Upto(world, people, actions, i);
    NotYetListed(actions, i);
    assert actions[..i + 1][..i] == actions[..i];
    assert Extended(r, e) == Upto(world, people, actions, i + 1);
    if WarningFor(world, people, e).Some? {
      IgnoredStep(r, e, buckets, order);
    } else {
      BucketStep(r, e, buckets, order);
    }
  }

  method BucketActions(world: World, people: People, actions: seq<Entry>)
    returns (buckets: map<string, Bucket>, order: seq<string>, warnings: seq<Warning>)
    requires DictEntries(actions)
    ensures Bucketed(Upto(world, people, actions, |actions|), buckets, order)
    ensures warnings == WarningsFor(world, people, actions)
  {
    buckets, order, warnings := map[], [], [];
    var i := 0;
    while i < |actions|
      invariant 0 <= i <= |actions|
      invariant Bucketed(Upto(world, people, actions, i), buckets, order)
      invariant warnings == WarningsFor(world, people, actions[..i])
    {
      var e := actions[i];
      ActionStep(world, people, actions, i, buckets, order);
      i := i + 1;
      var (id, action) := e;
      if id !in people {
        warnings := warnings + [UnknownParticipant(id)];
        continue;
      }
      if !Supported(action.actionType) {
        warnings := warnings + [UnsupportedAction(action.actionType, id)];
        continue;
      }
      var gu := action.target;
      if gu !in world {
        warnings := warnings + [UnknownSegment(gu)];
        continue;
      }
      var bucket := EMPTY_BUCKET;
      if gu in buckets {
        bucket := buckets[gu];
      } else {
        order := order + [gu];
      }
      buckets := buckets[gu := Pushed(bucket, e)];
    }
    assert actions[..|actions|] == actions;
  }

  lemma NotYetListed(actions: seq<Entry>, i: nat)
    requires DictEntries(actions) && i < |actions|
    ensures actions[i].0 !in ActionMap(actions[..i])
  {
    if actions[i].0 in ActionMap(actions[..i]) {
      var k := KeyListed(actions[..i], actions[i].0);
    }
  }

  lemma KeyListed(actions: seq<Entry>, p: string) returns (k: nat)
    requires DictEntries(actions) && p in ActionMap(actions)
    ensures k < |actions| && actions[k].0 == p
  {
    ActionMapEntries(actions);
    k :| 0 <= k < |actions| && actions[k] == (p, ActionMap(actions)[p]);
  }

  /* ---------- the loop over segments ---------- */

  lemma BucketSides(r: Round, gu: string, b: Bucket)
    requires BucketOf(r, gu, b)
    ensures var buyers, sellers := Sort(Less, b.buyers), Sort(Less, b.sellers);
            && StrictlySorted(Less, buyers) && Elements(buyers) == r.Buyers(gu)
            && StrictlySorted(Less, sellers) && Elements(sellers) == r.Sellers(gu)
            && Known(r.people, buyers) && Known(r.people, sellers)
  {
    StringOrder();
    SortStrict(Less, b.buyers);
    SortStrict(Less, b.sellers);
    assert forall p :: p in Sort(Less, b.buyers) ==> p in r.Buyers(gu) by {
      assert forall p :: p in Sort(Less, b.buyers) ==> p in Elements(Sort(Less, b.buyers));
    }
    assert forall p :: p in Sort(Less, b.sellers) ==> p in r.Sellers(gu) by {
      assert forall p :: p in Sort(Less, b.sellers) ==> p in Elements(Sort(Less, b.sellers));
    }
  }

  /** Matching the sorted bucket of a segment holds the segment's auction. */
  lemma BucketAuction(r: Round, gu: string, s: Segment, b: Bucket, books: Books)
    requires BucketOf(r, gu, b) && books.people.Keys == r.people.Keys
    ensures var buyers, sellers := Sort(Less, b.buyers), Sort(Less, b.sellers);
            var a := r.AuctionIn(gu, s);
            && Known(books.people, buyers) && Known(books.people, sellers)
            && Greedy(buyers, sellers, sellers == [], Limit(s, b.tally), NewPrice(s, b.tally), books, 0) ==
                 (AfterAuction(a, books), a.Cleared(books.people))
  {
    BucketSides(r, gu, b);
    GreedyIsAuction(Sort(Less, b.buyers), Sort(Less, b.sellers), Limit(s, b.tally), NewPrice(s, b.tally), books);
  }

  /** The body of the segment loop. */
  method SettleSegment(ghost r: Round, led: Ledger, gu: string, bucket: Bucket) returns (led': Ledger)
    requires gu in led.world && BucketOf(r, gu, bucket) && led.books.people.Keys == r.people.Keys
    ensures led' == Settle(r, led, gu)
  {
    var segment, tally := led.world[gu], bucket.tally;
    var price, limit := NewPrice(segment, tally), Limit(segment, tally);
    var buyers, sellers := Sort(Less, bucket.buyers), Sort(Less, bucket.sellers);
    BucketSides(r, gu, bucket);
    BucketAuction(r, gu, segment, bucket, led.books);
    var books, matches := MatchBuyers(buyers, sellers, limit, price, led.books);
    led' := Ledger(led.world[gu := NewSegment(segment, tally)], books,
                   led.segmentDeltas[gu := DeltaOf(gu, segment, tally)],
                   led.clearedVolume[gu := matches],
                   led.priceChanges[gu := PricePct(tally)],
                   led.totalMatched + matches);
  }

  lemma NoneYet(r: Round, order: seq<string>)
    ensures SettleAll(r, order[..0]) == OpenLedger(r.world, r.people)
  {}

  method SettleSegments(ghost r: Round, buckets: map<string, Bucket>, order: seq<string>, world: World, people: People)
    returns (led: Ledger)
    requires world == r.world && people == r.people
    requires Bucketed(r, buckets, order)
    ensures led == SettledLedger(r, r.Active())
  {
    hide SettleAll, Settle, SettledLedger, BucketOf;
    ActiveInWorld(r);
    assert forall gu :: gu in order ==> gu in Elements(order);
    led := OpenLedger(world, people);
    NoneYet(r, order);
    var k := 0;
    while k < |order|
      invariant 0 <= k <= |order|
      invariant led == SettleAll(r, order[..k])
    {
      assert order[k] in buckets.Keys by { assert order[k] in Elements(order); }
      SettleAllStep(r, order, k);
      led := SettleSegment(r, led, order[k], buckets[order[k]]);
      k := k + 1;
    }
    assert order[..|order|] == order;
    SettleAllClosed(r, order);
  }

  method PureResolveRound(world: World, people: People, actions: seq<Entry>, roundNo: int)
    returns (result: Result<RoundResult, ValidationError>, warnings: seq<Warning>)
    requires DictEntries(actions)
    ensures result == Checked(Resolve(Round(world, people, ActionMap(actions)), roundNo))
    ensures warnings == if people == map[] then [] else WarningsFor(world, people, actions)
  {
    ghost var r := Round(world, people, ActionMap(actions));
    warnings := [];
    if people == map[] {
      NobodyActs(r);
      var outcome := RoundOutcome(roundNo, map[], map[], 0);
      result := Checked(RoundResult(world, people, outcome, RoundPayload(roundNo, map[], map[], 0)));
      return;
    }
    var buckets, order;
    buckets, order, warnings := BucketActions(world, people, actions);
    assert actions[..|actions|] == actions;
    StringOrder();
    SortStrict(Less, order);
    StrictlySortedDistinct(Less, Sort(Less, order));
    var led := SettleSegments(r, buckets, Sort(Less, order), world, people);
    result := Checked(ResultOf(led, roundNo));
  }

  lemma NobodyActs(r: Round)
    requires r.people == map[]
    ensures r.Active() == {} && SettledLedger(r, {}) == OpenLedger(r.world, map[])
  {
    NothingSettled(r);
  }
}
