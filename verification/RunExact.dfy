/**
 A run in numbers: which district the participants look at, what each of them proposes, how
 the district answers, and when a run ends.
 */
module RunExact {
  import opened Wrappers
  import opened Ordering
  import opened Numbers
  import opened Market
  import opened Policies
  import opened Resolver
  import opened RunLoop
  import opened Replay
  import opened Graph
  import opened RoundExact

  /** The participants look at the scenario's first district if the world has it, else at the world's first. */
  ghost predicate LooksAt(s: RunState, gu: string) {
    && gu in s.world
    && if s.scenario.targetGus != [] && s.scenario.targetGus[0] in s.world then gu == s.scenario.targetGus[0]
       else s.segments != [] && gu == s.segments[0]
  }

  lemma LooksSomewhere(s: RunState) returns (gu: string)
    requires s.WellKeyed() && s.world != map[]
    ensures LooksAt(s, gu) && ResolveTargetSegment(s.segments, s.world, s.scenario) == Success(s.world[gu])
  {
    var key :| key in s.world;
    assert key in Elements(s.segments);
    assert s.segments[0] in Elements(s.segments);
    gu := if s.scenario.targetGus != [] && s.scenario.targetGus[0] in s.world then s.scenario.targetGus[0] else s.segments[0];
  }

  lemma LooksAtTarget(s: RunState, gu: string)
    requires LooksAt(s, gu) && s.segments != []
    ensures HasTarget(s) && TargetKey(s.segments, s.world, s.scenario) == gu && Target(s) == s.world[gu]
  {}

  /** Who buys in a district, who sells, and how surely. */
  ghost predicate WantsIn(p: Participant, d: Segment) {
    || (p.role == Buyer && d.sentiment > 0.5 && (d.trend == Up || d.trend == Flat) && p.capital > 0)
    || (p.role == Investor && d.sentiment > 0.6 && d.trend == Up)
  }

  ghost predicate WantsOut(p: Participant, d: Segment) {
    p.holdings > 0 && ((p.role == Investor && d.trend == Down) || (p.role == Landlord && d.sentiment < 0.3))
  }

  ghost function Proposed(p: Participant, d: Segment): (ActionType, real) {
    if WantsIn(p, d) then (Buy, p.risk * d.sentiment)
    else if WantsOut(p, d) then (Sell, p.risk * (1.0 - d.sentiment))
    else (Hold, 0.0)
  }

  lemma DecideIs(p: Participant, context: DecisionContext)
    requires SoundParticipant(p) && 0.0 <= context.segment.sentiment <= 1.0
    ensures var (kind, confidence) := Proposed(p, context.segment);
            Decide(p, context) == Action(p.id, context.roundNo, kind, context.segment.guCode, confidence)
  {
    hide Decide;
    DecisionExact(p, context);
    ConfidenceExact(p, context);
    ProposalSound(p, context);
  }

  /** The i-th participant proposes, under their own id and for the next round, what their role makes of the district. */
  lemma DecisionIs(s: RunState, gu: string, i: nat)
    requires s.Ready() && LooksAt(s, gu) && i < |s.members|
    ensures |Decisions(s)| == |s.members| && s.members[i] in s.people
    ensures var id := s.members[i];
            var (kind, confidence) := Proposed(s.people[id], s.world[gu]);
            Decisions(s)[i] == (id, Action(id, s.roundNo + 1, kind, gu, confidence))
  {
    hide Decide, Proposed;
    assert s.members[i] in Elements(s.members);
    DecisionEntries(s);
    LooksAtSegments(s, gu);
    LooksAtTarget(s, gu);
    DecideIs(s.people[s.members[i]], ContextOf(s));
  }

  lemma LooksAtSegments(s: RunState, gu: string)
    requires s.WellKeyed() && LooksAt(s, gu)
    ensures s.segments != []
  {
    assert gu in Elements(s.segments);
  }

  /** What the round resolves, and the summary the log keeps of it. */
  lemma ActsAre(s: RunState, gu: string, p: string)
    requires s.Ready() && LooksAt(s, gu) && p in s.people
    ensures var (kind, confidence) := Proposed(s.people[p], s.world[gu]);
            && RoundOf(s).acts.Keys == s.people.Keys && RoundOf(s).world == s.world && RoundOf(s).people == s.people
            && RoundOf(s).acts[p] == Action(p, s.roundNo + 1, kind, gu, confidence)
            && SummaryOf(Decisions(s)).Keys == s.people.Keys && SummaryOf(Decisions(s))[p] == (kind, gu)
  {
    hide Decide, Proposed;
    OnlyMembersAct(s);
    ActionOf(s, p);
    LooksAtSegments(s, gu);
    LooksAtTarget(s, gu);
    DecideIs(s.people[p], ContextOf(s));
  }

  /** Everyone acts in the one district, and nobody anywhere else. */
  lemma SidesOfPolicies(s: RunState, gu: string)
    requires s.Ready() && LooksAt(s, gu)
    ensures RoundOf(s).Actors(gu) == s.people.Keys
    ensures RoundOf(s).Buyers(gu) == Keen(s, gu) && RoundOf(s).Sellers(gu) == Leaving(s, gu)
    ensures forall other :: other != gu ==> RoundOf(s).Actors(other) == {}
  {
    hide Proposed, WantsIn, WantsOut, Decide, RunState.Ready, Decisions;
    var r := RoundOf(s);
    forall p ensures p in r.Actors(gu) <==> p in s.people
             ensures p in r.Buyers(gu) <==> p in Keen(s, gu)
             ensures p in r.Sellers(gu) <==> p in Leaving(s, gu)
    {
      SideOf(s, gu, p);
    }
    forall other | other != gu ensures r.Actors(other) == {} {
      forall p ensures p !in r.Actors(other) {
        SideOf(s, gu, p);
        SidesExactly(r, other, p);
      }
    }
  }

  /** Those who want to buy in a district, and those who want to sell. */
  ghost function Keen(s: RunState, gu: string): set<string>
    requires gu in s.world
  {
    set p | p in s.people && WantsIn(s.people[p], s.world[gu])
  }

  ghost function Leaving(s: RunState, gu: string): set<string>
    requires gu in s.world
  {
    set p | p in s.people && WantsOut(s.people[p], s.world[gu])
  }

  lemma NotBoth(p: Participant, d: Segment)
    ensures Proposed(p, d).0 == Buy <==> WantsIn(p, d)
    ensures Proposed(p, d).0 == Sell <==> WantsOut(p, d)
    ensures Proposed(p, d).0 in {Buy, Sell, Hold}
  {}

  lemma SideOf(s: RunState, gu: string, p: string)
    requires s.Ready() && LooksAt(s, gu)
    ensures var r := RoundOf(s);
            && gu in s.world && r.people == s.people && r.world == s.world
            && (p in r.acts <==> p in s.people) && (p in r.acts ==> r.acts[p].target == gu)
            && (p in r.Actors(gu) <==> p in s.people)
            && (p in r.Buyers(gu) <==> p in Keen(s, gu)) && (p in r.Sellers(gu) <==> p in Leaving(s, gu))
  {
    hide Proposed, WantsIn, WantsOut, Decide, Decisions;
    OnlyMembersAct(s);
    SidesExactly(RoundOf(s), gu, p);
    if p in s.people {
      ActsAre(s, gu, p);
      NotBoth(s.people[p], s.world[gu]);
    }
  }

  /* ---------- how the district answers ---------- */

  ghost function Risks(people: People): map<string, real> {
    map p | p in people :: people[p].risk
  }

  ghost function Scaled(x: real, k: real): real { x * k }

  lemma ScaledAdd(a: real, b: real, k: real)
    ensures Scaled(a + b, k) == Scaled(a, k) + Scaled(b, k) && Scaled(0.0, k) == 0.0
  {}

  lemma {:induction false} SumScaled(m: map<string, real>, n: map<string, real>, k: real, s: set<string>)
    requires s <= m.Keys && s <= n.Keys && forall p :: p in s ==> m[p] == Scaled(n[p], k)
    ensures RealSumOver(m, s) == Scaled(RealSumOver(n, s), k)
  {
    hide Scaled;
    ScaledAdd(0.0, 0.0, k);
    if s != {} {
      var p :| p in s;
      RealSumOverPick(m, s, p);
      RealSumOverPick(n, s, p);
      SumScaled(m, n, k, s - {p});
      ScaledAdd(n[p], RealSumOver(n, s - {p}), k);
    }
  }

  /** How surely the two sides act. */
  lemma SureOf(s: RunState, gu: string, p: string)
    requires s.Ready() && LooksAt(s, gu) && p in s.people
    ensures gu in s.world && p in RoundOf(s).Confidence() && p in Risks(s.people)
    ensures p in Keen(s, gu) ==> RoundOf(s).Confidence()[p] == Risks(s.people)[p] * s.world[gu].sentiment
    ensures p in Leaving(s, gu) ==> RoundOf(s).Confidence()[p] == Risks(s.people)[p] * (1.0 - s.world[gu].sentiment)
  {
    hide WantsIn, WantsOut, Decide, Decisions, RunState.Ready;
    ActsAre(s, gu, p);
    NotBoth(s.people[p], s.world[gu]);
  }

  lemma KeenConfidence(s: RunState, gu: string)
    requires s.Ready() && LooksAt(s, gu)
    ensures Keen(s, gu) <= Risks(s.people).Keys && Leaving(s, gu) <= Risks(s.people).Keys
    ensures Bought(RoundOf(s), gu) == RealSumOver(Risks(s.people), Keen(s, gu)) * s.world[gu].sentiment
    ensures SoldOff(RoundOf(s), gu) == RealSumOver(Risks(s.people), Leaving(s, gu)) * (1.0 - s.world[gu].sentiment)
  {
    hide RealSumOver, WantsIn, WantsOut, RunState.Ready, RoundOf, Round.Buyers, Round.Sellers, Round.Confidence;
    SidesOfPolicies(s, gu);
    var confidence, risks, mood := RoundOf(s).Confidence(), Risks(s.people), s.world[gu].sentiment;
    forall p | p in s.people
      ensures p in confidence && p in risks
      ensures p in Keen(s, gu) ==> confidence[p] == risks[p] * mood
      ensures p in Leaving(s, gu) ==> confidence[p] == risks[p] * (1.0 - mood)
    {
      SureOf(s, gu, p);
    }
    SumScaled(confidence, risks, mood, Keen(s, gu));
    SumScaled(confidence, risks, 1.0 - mood, Leaving(s, gu));
  }

  /**
   One round in closed form: the price change times the number of participants is five percent
   of the buyers' risk tolerance times the sentiment, less the sellers' times its complement;
   price and sentiment follow the change, and no other district moves.
   */
  lemma RoundInNumbers(s: RunState, gu: string)
    requires s.Ready() && LooksAt(s, gu) && s.people != map[]
    ensures gu in Step(s).world && Step(s).world.Keys == s.world.Keys
    ensures Keen(s, gu) <= Risks(s.people).Keys && Leaving(s, gu) <= Risks(s.people).Keys
    ensures Step(s).lastOutcome.Some? && gu in Step(s).lastOutcome.value.priceChanges
    ensures var change, d, d' := Step(s).lastOutcome.value.priceChanges[gu], s.world[gu], Step(s).world[gu];
            && change * |s.people| as real ==
               0.05 * (RealSumOver(Risks(s.people), Keen(s, gu)) * d.sentiment
                       - RealSumOver(Risks(s.people), Leaving(s, gu)) * (1.0 - d.sentiment))
            && IntegerPart(d'.medianPrice, d.medianPrice, change)
            && d'.sentiment == InUnit(d.sentiment + 2.0 * change)
            && d'.trend == (if change > 0.001 then Up else if change < -0.001 then Down else Flat)
            && d'.volume == TenthOfTheWay(d.volume, TradeLimit(d.volume, |Keen(s, gu)|, |Leaving(s, gu)|))
    ensures forall other :: other in s.world && other != gu ==> Step(s).world[other] == s.world[other]
  {
    hide Resolve, Bought, SoldOff, RealSumOver, Keen, Leaving, PercentOf, IntegerPart, TenthOfTheWay, TradeLimit, InUnit,
      Decisions, Risks, Round.Actors, Round.Buyers, Round.Sellers, LooksAt, RunState.Ready;
    StepReady(s);
    SidesOfPolicies(s, gu);
    KeenConfidence(s, gu);
    PoliciesValid(s);
    TouchedOnly(s, gu);
    SameCount(s.people);
    DistrictAfter(RoundOf(s), s.roundNo + 1, gu);
    ValidDistrictAfter(RoundOf(s), s.roundNo + 1, gu);
    forall other | other in s.world && other != gu ensures Step(s).world[other] == s.world[other] {
      QuietDistrict(RoundOf(s), s.roundNo + 1, other);
    }
  }

  lemma SameCount(people: People)
    ensures |people.Keys| == |people|
  {}

  lemma TouchedOnly(s: RunState, gu: string)
    requires s.Ready() && LooksAt(s, gu) && s.people != map[]
    ensures gu in RoundOf(s).Active() && forall other :: other != gu ==> other !in RoundOf(s).Active()
  {
    hide Decisions, LooksAt, RunState.Ready;
    var p :| p in s.people;
    SideOf(s, gu, p);
    SidesExactly(RoundOf(s), gu, p);
    forall other | other in RoundOf(s).Active() ensures other == gu {
      SidesExactly(RoundOf(s), other, p);
      var q :| ActsIn(RoundOf(s), other, q);
      SideOf(s, gu, q);
    }
  }

  /** Those who want to buy and can pay. */
  ghost function Able(s: RunState, gu: string, price: int): set<string>
    requires gu in s.world
  {
    set p | p in s.people && WantsIn(s.people[p], s.world[gu]) && s.people[p].capital >= price
  }

  lemma AbleAre(s: RunState, gu: string, price: int)
    requires s.Ready() && LooksAt(s, gu)
    ensures CanPay(RoundOf(s), gu, price) == Able(s, gu, price)
  {
    hide WantsIn, Decisions;
    SidesOfPolicies(s, gu);
  }

  lemma OneSideWants(s: RunState, gu: string)
    requires s.Ready() && LooksAt(s, gu)
    ensures Keen(s, gu) == {} || Leaving(s, gu) == {}
  {
    if p, q :| p in Keen(s, gu) && q in Leaving(s, gu) {
      assert false;
    }
  }

  /**
   The trades of a round under the default policies: as many as the limit and those who can
   pay allow, all supplied by the market; whoever buys pays the new price for one unit, the
   first by id among those who can pay, and nobody else changes.
   */
  lemma TradesInNumbers(s: RunState, gu: string, p: string)
    requires s.Ready() && LooksAt(s, gu) && p in s.people
    ensures gu in Step(s).world && p in Step(s).people
    ensures Step(s).lastOutcome.Some? && gu in Step(s).lastOutcome.value.clearedVolume
    ensures var n, price := Step(s).lastOutcome.value.clearedVolume[gu], Step(s).world[gu].medianPrice;
            var able, limit := Able(s, gu, price), TradeLimit(s.world[gu].volume, |Keen(s, gu)|, |Leaving(s, gu)|);
            && n == (if |able| < limit then |able| else limit)
            && Step(s).people[p] ==
               if AmongFirst(able, n, p) then s.people[p].(capital := s.people[p].capital - price,
                                                           holdings := s.people[p].holdings + 1)
               else s.people[p]
  {
    hide Resolve, Keen, Leaving, WantsIn, WantsOut, TradeLimit, AmongFirst, Decisions, RunState.Ready, LooksAt, CanPay, CanSell,
      Able, Round.Actors, Round.Buyers, Round.Sellers;
    StepReady(s);
    HasDistrict(s, gu);
    var r, price := RoundOf(s), Step(s).world[gu].medianPrice;
    SideOf(s, gu, p);
    SidesExactly(r, gu, p);
    SidesOfPolicies(s, gu);
    AbleAre(s, gu, price);
    TouchedOnly(s, gu);
    DistrictClears(r, s.roundNo + 1, gu);
    ParticipantAfter(r, s.roundNo + 1, gu, p);
    NobodySells(s, gu, Step(s).lastOutcome.value.clearedVolume[gu], p, price);
  }

  lemma HasDistrict(s: RunState, gu: string)
    requires LooksAt(s, gu)
    ensures gu in s.world
  {}

  lemma NobodySells(s: RunState, gu: string, n: int, p: string, price: int)
    requires s.Ready() && LooksAt(s, gu)
    requires Clears(n, TradeLimit(s.world[gu].volume, |Keen(s, gu)|, |Leaving(s, gu)|), |Able(s, gu, price)|, |Leaving(s, gu)|,
                    |CanSell(RoundOf(s), gu)|)
    ensures var able, limit := Able(s, gu, price), TradeLimit(s.world[gu].volume, |Keen(s, gu)|, |Leaving(s, gu)|);
            n == if |able| < limit then |able| else limit
    ensures !AmongFirst(CanSell(RoundOf(s), gu), n, p)
  {
    hide TradeLimit, WantsIn, WantsOut, Decisions;
    OneSideWants(s, gu);
    SidesOfPolicies(s, gu);
    var sellers := CanSell(RoundOf(s), gu);
    assert sellers <= Leaving(s, gu);
    if Leaving(s, gu) == {} {
      assert sellers == {};
    } else {
      assert Able(s, gu, price) <= Keen(s, gu);
      assert Able(s, gu, price) == {};
    }
  }

  /* ---------- runs ---------- */

  /** Participants look at the same district in every round of a run. */
  lemma SameDistrict(tr: seq<RunState>, i: nat, gu: string)
    requires IsRun(tr) && i < |tr|
    ensures LooksAt(tr[i], gu) <==> LooksAt(tr[0], gu)
  {
    hide IsRun;
    RunKeeps(tr, i);
  }

  /** Five percent compounded, from 1 on. */
  ghost predicate Compounds(growth: seq<real>) {
    && growth != [] && growth[0] == 1.0
    && forall k :: 0 <= k < |growth| - 1 ==> growth[k + 1] == growth[k] * 1.05
  }

  lemma {:induction false} GrowthCompounds(growth: seq<real>, i: nat)
    requires Compounds(growth) && i < |growth|
    ensures growth[i] == Growth(i)
  {
    if i > 0 { GrowthCompounds(growth, i - 1); }
  }

  /** After i rounds no price of a run exceeds its start by more than five percent compounded i times. */
  lemma PricesCompounded(tr: seq<RunState>, i: nat, gu: string, growth: seq<real>)
    requires IsRun(tr) && i < |tr| && gu in tr[0].world && Compounds(growth) && i < |growth|
    ensures gu in tr[i].world && 1 <= tr[i].world[gu].medianPrice
    ensures tr[i].world[gu].medianPrice as real <= tr[0].world[gu].medianPrice as real * growth[i]
  {
    hide IsRun, Growth, Compounds;
    PricesBounded(tr, i, gu);
    GrowthCompounds(growth, i);
  }

  /** A run ends when its rounds are used up or a round cleared nothing, and no sooner. */
  lemma EndsExactly(tr: seq<RunState>)
    requires IsRun(tr)
    ensures Complete(tr) <==>
            || |tr| - 1 >= tr[0].maxRounds
            || (|tr| > 1 && tr[|tr| - 1].lastOutcome.Some? && tr[|tr| - 1].lastOutcome.value.resolved == 0)
  {
    Started(tr);
    hide IsRun;
    RunKeeps(tr, |tr| - 1);
  }

  lemma Started(tr: seq<RunState>)
    requires IsRun(tr)
    ensures |tr| >= 1 && tr[0].lastOutcome == None
  {}

  /** The reason on record: a frozen market exactly when the last round cleared nothing. */
  lemma ReasonExactly(tr: seq<RunState>)
    requires Complete(tr)
    ensures var last := tr[|tr| - 1].lastOutcome;
            ReasonFor(last) == (if |tr| > 1 && last.Some? && last.value.resolved == 0 then MarketFrozen else ReachedMaxRounds)
  {
    RunKeeps(tr, |tr| - 1);
    if |tr| > 1 { RunStep(tr, |tr| - 2); }
  }
}
