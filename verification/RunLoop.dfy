/**
 The round loop of a simulation run: decide, resolve, and the gate between rounds,
 as a function on states and as runs of any length.
 */
module RunLoop {
  import opened Wrappers
  import opened Ordering
  import opened Numbers
  import opened Market
  import opened Resolver
  import opened MarketLaws
  import opened Policies

  /** The state a run carries from round to round; `segments` and `members` are dictionary orders. */
  datatype RunState = RunState(
    scenario: Scenario, segments: seq<string>, world: World, members: seq<string>, people: People,
    roundNo: int, maxRounds: int, actions: seq<Entry>, lastOutcome: Option<RoundOutcome>)
  {
    /** Dictionary orders list the keys, and every key is the id of its record. */
    ghost predicate WellKeyed() {
      && Distinct(segments) && Elements(segments) == world.Keys
      && Distinct(members) && Elements(members) == people.Keys
      && (forall gu :: gu in world ==> world[gu].guCode == gu)
      && (forall p :: p in people ==> people[p].id == p)
    }

    /** The decider finds a target segment if it needs one. */
    ghost predicate Decidable() {
      WellKeyed() && (people != map[] ==> world != map[])
    }

    /** What every initialized state satisfies. */
    ghost predicate Ready() {
      Decidable() && SoundWorld(world) && SoundPeople(people) && roundNo >= 0
    }
  }

  /** The first target district if the world has it, else the first district of the world. */
  function TargetKey(segments: seq<string>, world: World, scenario: Scenario): string
    requires segments != []
  {
    if scenario.targetGus != [] && scenario.targetGus[0] in world then scenario.targetGus[0] else segments[0]
  }

  ghost predicate HasTarget(s: RunState) {
    s.segments != [] && TargetKey(s.segments, s.world, s.scenario) in s.world
  }

  lemma TargetExists(s: RunState)
    requires s.WellKeyed() && s.world != map[]
    ensures HasTarget(s)
  {
    var gu :| gu in s.world;
    assert gu in Elements(s.segments);
    assert s.segments[0] in Elements(s.segments);
  }

  ghost function Target(s: RunState): Segment
    requires HasTarget(s)
  {
    s.world[TargetKey(s.segments, s.world, s.scenario)]
  }

  ghost function ContextOf(s: RunState): DecisionContext
    requires HasTarget(s)
  {
    DecisionContext(s.roundNo + 1, Target(s), s.scenario, s.lastOutcome)
  }

  /** The market actions of the next round: one proposal per participant. */
  ghost function Decisions(s: RunState): seq<Entry>
    requires s.Decidable()
  {
    if s.people == map[] then [] else
      TargetExists(s);
      assert forall p :: p in s.members ==> p in Elements(s.members);
      seq(|s.members|, i requires 0 <= i < |s.members| => (s.members[i], Decide(s.people[s.members[i]], ContextOf(s))))
  }

  ghost function RoundOf(s: RunState): Round
    requires s.Ready()
  {
    Round(s.world, s.people, ActionMap(Decisions(s)))
  }

  /** One round of the graph: participant decider, then round resolver. */
  ghost function Step(s: RunState): RunState
    requires s.Ready()
  {
    var result := Resolve(RoundOf(s), s.roundNo + 1);
    s.(world := result.newWorld, people := result.newPeople, roundNo := s.roundNo + 1,
       actions := Decisions(s), lastOutcome := Some(result.outcome))
  }

  predicate ShouldStart(s: RunState) {
    s.roundNo < s.maxRounds
  }

  /** The continue gate. */
  predicate ShouldContinue(s: RunState) {
    if s.roundNo >= s.maxRounds then false
    else if s.lastOutcome.Some? && s.lastOutcome.value.resolved == 0 then false
    else true
  }

  /* ---------- one round under the default policies ---------- */

  lemma DecisionEntries(s: RunState)
    requires s.Decidable()
    ensures DictEntries(Decisions(s)) && |Decisions(s)| == |s.members|
    ensures forall i :: 0 <= i < |s.members| ==> Decisions(s)[i].0 == s.members[i]
  {
    if s.people == map[] {
      EmptyTogether(s.members, []);
    }
  }

  /** Each participant has exactly the action their policy proposes. */
  lemma ActionOf(s: RunState, p: string)
    requires s.Ready() && p in s.people
    ensures HasTarget(s)
    ensures p in RoundOf(s).acts && RoundOf(s).acts[p] == Decide(s.people[p], ContextOf(s))
  {
    TargetExists(s);
    DecisionEntries(s);
    ActionMapEntries(Decisions(s));
    assert p in Elements(s.members);
    var i :| 0 <= i < |s.members| && s.members[i] == p;
    assert Decisions(s)[i] == (p, Decide(s.people[p], ContextOf(s)));
  }

  lemma OnlyMembersAct(s: RunState)
    requires s.Ready()
    ensures RoundOf(s).acts.Keys == s.people.Keys
  {
    DecisionEntries(s);
    ActionMapEntries(Decisions(s));
    forall p | p in RoundOf(s).acts ensures p in s.people {
      var e := (p, RoundOf(s).acts[p]);
      assert e in Decisions(s);
      var i :| 0 <= i < |Decisions(s)| && Decisions(s)[i] == e;
      assert s.members[i] in Elements(s.members);
    }
    forall p | p in s.people ensures p in RoundOf(s).acts { ActionOf(s, p); }
  }

  /** All action concerns the target segment, and none of it is ignored. */
  lemma OnTarget(s: RunState, p: string)
    requires s.Ready() && p in s.people
    ensures HasTarget(s) && RoundOf(s).Accepts(p)
    ensures RoundOf(s).acts[p].target == TargetKey(s.segments, s.world, s.scenario)
  {
    ActionOf(s, p);
    ProposalSound(s.people[p], ContextOf(s));
  }

  ghost predicate Acts(s: RunState, kind: ActionType)
    requires s.Ready()
  {
    exists p :: p in RoundOf(s).acts && RoundOf(s).acts[p].actionType == kind
  }

  lemma ActsAre(s: RunState, kind: ActionType) returns (p: string)
    requires s.Ready() && Acts(s, kind)
    ensures p in s.people && HasTarget(s) && Decide(s.people[p], ContextOf(s)).actionType == kind
  {
    p :| p in RoundOf(s).acts && RoundOf(s).acts[p].actionType == kind;
    OnlyMembersAct(s);
    ActionOf(s, p);
  }

  /** Buy and sell proposals never share a round. */
  lemma NeverBothSides(s: RunState)
    requires s.Ready()
    ensures !(Acts(s, Buy) && Acts(s, Sell))
  {
    if Acts(s, Buy) && Acts(s, Sell) {
      var p := ActsAre(s, Buy);
      var q := ActsAre(s, Sell);
      NoMixedSignals(s.people[p], s.people[q], ContextOf(s));
    }
  }

  lemma NoSide(s: RunState, gu: string)
    requires s.Ready()
    ensures !Acts(s, Buy) ==> RoundOf(s).Buyers(gu) == {}
    ensures !Acts(s, Sell) ==> RoundOf(s).Sellers(gu) == {}
  {}

  /** A round without a buyer clears nothing and leaves everyone as they were. */
  lemma QuietRound(s: RunState)
    requires s.Ready() && !Acts(s, Buy)
    ensures Step(s).lastOutcome.value.resolved == 0 && Step(s).people == s.people
  {
    forall gu | gu in s.world ensures RoundOf(s).Buyers(gu) == {} { NoSide(s, gu); }
    NoBuyersNoTrade(RoundOf(s), s.roundNo + 1);
  }

  /** A segment nobody sells in keeps or raises its price and sentiment, and does not trend down. */
  lemma NoSellersNoFall(r: Round, gu: string)
    requires gu in r.world && SoundSegment(r.world[gu]) && ValidActions(r.acts) && r.Sellers(gu) == {}
    ensures var s := NewSegment(r.world[gu], r.TallyOf(gu));
            s.medianPrice >= r.world[gu].medianPrice && s.sentiment >= r.world[gu].sentiment && s.trend != Down
  {
    var t := r.TallyOf(gu);
    TallySound(r, gu);
    assert t.sellIntensity == 0.0;
    Quotient(t.buyIntensity, Max(t.actions, 1));
    assert NetPressure(t) >= 0.0;
    PriceBounds(r.world[gu], t);
  }

  lemma Quotient(x: real, n: int)
    requires x >= 0.0 && n >= 1
    ensures x / n as real >= 0.0
  {}

  lemma PoliciesValid(s: RunState)
    requires s.Ready()
    ensures ValidActions(RoundOf(s).acts)
  {
    OnlyMembersAct(s);
    forall p | p in RoundOf(s).acts ensures 0.0 <= RoundOf(s).acts[p].confidence <= 1.0 {
      ActionOf(s, p);
      ProposalSound(s.people[p], ContextOf(s));
    }
  }

  /** A round keeps the state ready, the keys, the dictionary orders and the limits. */
  lemma StepReady(s: RunState)
    requires s.Ready()
    ensures var s' := Step(s);
            && s'.Ready() && s'.world.Keys == s.world.Keys && s'.people.Keys == s.people.Keys
            && s'.segments == s.segments && s'.members == s.members
            && s'.maxRounds == s.maxRounds && s'.scenario == s.scenario && s'.roundNo == s.roundNo + 1
  {
    var r := RoundOf(s);
    RoundStaysSound(r, s.roundNo + 1);
    forall gu | gu in s.world ensures Step(s).world[gu].guCode == gu { SegmentMoves(r, s.roundNo + 1, gu); }
    forall p | p in s.people ensures Step(s).people[p].id == p { RoundMoves(r, s.roundNo + 1, p); }
  }

  lemma SameTarget(s: RunState)
    requires s.Ready() && HasTarget(s)
    ensures HasTarget(Step(s))
    ensures TargetKey(Step(s).segments, Step(s).world, s.scenario) == TargetKey(s.segments, s.world, s.scenario)
  {
    StepReady(s);
  }

  /** Only the target segment changes in a round; without sellers its price and sentiment do not fall. */
  lemma TargetAfter(s: RunState)
    requires s.Ready() && HasTarget(s)
    ensures HasTarget(Step(s))
    ensures forall gu :: gu in s.world && gu != TargetKey(s.segments, s.world, s.scenario) ==> Step(s).world[gu] == s.world[gu]
    ensures !Acts(s, Sell) ==>
      && Target(Step(s)).medianPrice >= Target(s).medianPrice && Target(Step(s)).sentiment >= Target(s).sentiment
    ensures !Acts(s, Sell) && s.people != map[] ==> Target(Step(s)).trend != Down
  {
    var r, key := RoundOf(s), TargetKey(s.segments, s.world, s.scenario);
    SameTarget(s);
    OnlyMembersAct(s);
    forall gu | gu in r.Active() ensures gu == key {
      var p :| p in r.acts && r.Accepts(p) && r.acts[p].target == gu;
      OnTarget(s, p);
    }
    forall gu | gu in s.world && gu != key ensures Step(s).world[gu] == s.world[gu] {
      SegmentMoves(r, s.roundNo + 1, gu);
    }
    if s.people != map[] {
      var p :| p in s.people;
      OnTarget(s, p);
      assert key in r.Active();
    }
    if !Acts(s, Sell) {
      NoSide(s, key);
      PoliciesValid(s);
      NoSellersNoFall(r, key);
      SegmentMoves(r, s.roundNo + 1, key);
    }
  }

  /** If a round clears something, no default policy proposes to sell in the next one. */
  lemma NoSaleAfterTrade(s: RunState)
    requires s.Ready() && Step(s).lastOutcome.value.resolved != 0
    ensures Step(s).Ready() && !Acts(Step(s), Sell)
  {
    StepReady(s);
    if !Acts(s, Buy) { QuietRound(s); }
    NeverBothSides(s);
    var p := ActsAre(s, Buy);
    NoMixedSignals(s.people[p], s.people[p], ContextOf(s));
    TargetAfter(s);
    if Acts(Step(s), Sell) {
      var q := ActsAre(Step(s), Sell);
      NoMixedSignals(Step(s).people[q], Step(s).people[q], ContextOf(Step(s)));
    }
  }

  /** Under the default policies nobody ever parts with a unit or gains capital. */
  lemma OneWayPositions(s: RunState, p: string)
    requires s.Ready() && p in s.people
    ensures p in Step(s).people
    ensures Step(s).people[p].holdings >= s.people[p].holdings && Step(s).people[p].capital <= s.people[p].capital
  {
    var r := RoundOf(s);
    RoundMoves(r, s.roundNo + 1, p);
    if Acts(s, Buy) {
      NeverBothSides(s);
      OnTarget(s, p);
      NoSide(s, r.acts[p].target);
      WhoTrades(r, p);
      PriceAtLeastOne(r.world[r.acts[p].target], r.TallyOf(r.acts[p].target));
    } else {
      QuietRound(s);
    }
  }

  /** Under the default policies every unit traded comes from the market itself. */
  lemma EveryTradeIsNatural(s: RunState)
    requires s.Ready()
    ensures TotalHoldings(Step(s).people) == TotalHoldings(s.people) + Step(s).lastOutcome.value.resolved
  {
    var r := RoundOf(s);
    NeverBothSides(s);
    if Acts(s, Sell) {
      QuietRound(s);
    } else {
      ActiveInWorld(r);
      RoundConserves(r, s.roundNo + 1);
      forall gu | gu in r.Active() ensures NaturalUnits(r)[gu] == r.ClearedVolumes()[gu] { NoSide(s, gu); }
      SumOverSame(NaturalUnits(r), r.ClearedVolumes(), r.Active());
    }
  }

  /** The price at which a round that led to `s` traded: that of the target segment. */
  ghost function TargetPrice(s: RunState): int {
    if HasTarget(s) then Target(s).medianPrice else 0
  }

  lemma OnlyTargetActive(s: RunState)
    requires s.Ready()
    ensures RoundOf(s).Active() == {} ||
            (HasTarget(s) && RoundOf(s).Active() == {TargetKey(s.segments, s.world, s.scenario)})
  {
    var r := RoundOf(s);
    OnlyMembersAct(s);
    if r.Active() != {} {
      var p :| p in r.acts && r.Accepts(p);
      OnTarget(s, p);
      var key := TargetKey(s.segments, s.world, s.scenario);
      assert key in r.Active();
      forall gu | gu in r.Active() ensures gu == key {
        var q :| q in r.acts && r.Accepts(q) && r.acts[q].target == gu;
        OnTarget(s, q);
      }
    }
  }

  /** Under the default policies total capital falls by exactly the trades cleared, at the target's new price. */
  lemma TradesArePaid(s: RunState)
    requires s.Ready()
    ensures TotalCapital(Step(s).people) ==
            TotalCapital(s.people) - TargetPrice(Step(s)) * Step(s).lastOutcome.value.resolved
  {
    hide TotalCapital, Resolve, Round.Active, NaturalCost, SumOver, Round.ClearedVolumes, RunState.Ready;
    var r := RoundOf(s);
    NeverBothSides(s);
    OnlyTargetActive(s);
    RoundConserves(r, s.roundNo + 1);
    ResolvedSum(r, s.roundNo + 1);
    if Acts(s, Sell) {
      QuietRound(s);
    } else if r.Active() == {} {
      NothingSummed(r.ClearedVolumes());
      NothingSummed(NaturalCost(r));
    } else {
      var key := TargetKey(s.segments, s.world, s.scenario);
      NoSide(s, key);
      SameTarget(s);
      CostOfOne(r, key, s.roundNo + 1);
    }
  }

  /* ---------- runs ---------- */

  /** The routing after state `i` of a run: into the first round, or past the gate into the next. */
  ghost predicate Proceeds(tr: seq<RunState>, i: nat)
    requires i < |tr|
  {
    if i == 0 then ShouldStart(tr[i]) else ShouldContinue(tr[i])
  }

  ghost predicate Linked(tr: seq<RunState>, i: nat)
    requires i + 1 < |tr|
  {
    tr[i].Ready() && Proceeds(tr, i) && tr[i + 1] == Step(tr[i])
  }

  /** `tr` is a run from a fresh state: as many rounds as the routing functions let through. */
  ghost predicate IsRun(tr: seq<RunState>) {
    && tr != [] && tr[0].Ready() && tr[0].roundNo == 0 && tr[0].lastOutcome == None
    && forall i :: 0 <= i < |tr| - 1 ==> Linked(tr, i)
  }

  /** The routing functions let no further round through. */
  ghost predicate Complete(tr: seq<RunState>) {
    IsRun(tr) && !Proceeds(tr, |tr| - 1)
  }

  /** What a round keeps of the state it starts from. */
  ghost predicate SameFrame(s: RunState, s': RunState) {
    && s'.world.Keys == s.world.Keys && s'.people.Keys == s.people.Keys
    && s'.segments == s.segments && s'.members == s.members
    && s'.maxRounds == s.maxRounds && s'.scenario == s.scenario
  }

  /** The laws of one round under the default policies, from state `s` to state `s'`. */
  ghost predicate Bookkeeping(s: RunState, s': RunState) {
    && s'.Ready() && SameFrame(s, s') && s'.roundNo == s.roundNo + 1
    && s'.lastOutcome.Some? && s'.lastOutcome.value.roundNo == s.roundNo + 1 && s'.lastOutcome.value.resolved >= 0
  }

  ghost predicate TradeLaw(s: RunState, s': RunState)
    requires s.Ready() && s'.Ready() && s'.lastOutcome.Some?
  {
    && !(Acts(s, Buy) && Acts(s, Sell))
    && (!Acts(s, Buy) ==> s'.lastOutcome.value.resolved == 0 && s'.people == s.people)
    && (s'.lastOutcome.value.resolved != 0 ==> !Acts(s', Sell))
  }

  ghost predicate TargetLaw(s: RunState, s': RunState)
    requires s.Ready()
  {
    s.people != map[] && !Acts(s, Sell) ==>
      && HasTarget(s) && HasTarget(s')
      && Target(s').medianPrice >= Target(s).medianPrice && Target(s').sentiment >= Target(s).sentiment
      && Target(s').trend != Down
  }

  ghost predicate PositionLaw(s: RunState, s': RunState) {
    && (forall p :: p in s.people ==>
          && p in s'.people
          && s'.people[p].holdings >= s.people[p].holdings && s'.people[p].capital <= s.people[p].capital)
    && (s'.lastOutcome.Some? ==>
         TotalHoldings(s'.people) == TotalHoldings(s.people) + s'.lastOutcome.value.resolved)
    && (s'.lastOutcome.Some? ==>
         TotalCapital(s'.people) == TotalCapital(s.people) - TargetPrice(s') * s'.lastOutcome.value.resolved)
    && TotalCapital(s'.people) <= TotalCapital(s.people)
  }

  ghost predicate PriceLaw(s: RunState, s': RunState) {
    forall gu :: gu in s.world ==>
      && gu in s'.world
      && s'.world[gu].medianPrice as real <= s.world[gu].medianPrice as real * 1.05
  }

  ghost predicate RoundLaws(s: RunState, s': RunState)
    requires s.Ready()
  {
    Bookkeeping(s, s') && TradeLaw(s, s') && TargetLaw(s, s') && PositionLaw(s, s') && PriceLaw(s, s')
  }

  lemma StepLaws(s: RunState)
    requires s.Ready()
    ensures RoundLaws(s, Step(s))
  {
    StepReady(s);
    ResolvedNonNegative(RoundOf(s), s.roundNo + 1);
    StepTrades(s);
    StepPositions(s);
    forall gu | gu in s.world ensures gu in Step(s).world &&
      Step(s).world[gu].medianPrice as real <= s.world[gu].medianPrice as real * 1.05
    {
      SegmentGrowth(RoundOf(s), s.roundNo + 1, gu);
    }
  }

  lemma StepTrades(s: RunState)
    requires s.Ready()
    ensures Step(s).Ready() && TradeLaw(s, Step(s)) && TargetLaw(s, Step(s))
  {
    StepReady(s);
    NeverBothSides(s);
    if !Acts(s, Buy) { QuietRound(s); }
    if Step(s).lastOutcome.value.resolved != 0 { NoSaleAfterTrade(s); }
    if s.people != map[] && !Acts(s, Sell) {
      TargetExists(s);
      TargetAfter(s);
    }
  }

  lemma StepPositions(s: RunState)
    requires s.Ready()
    ensures PositionLaw(s, Step(s))
  {
    forall p | p in s.people
      ensures p in Step(s).people
      ensures Step(s).people[p].holdings >= s.people[p].holdings && Step(s).people[p].capital <= s.people[p].capital
    {
      OneWayPositions(s, p);
    }
    EveryTradeIsNatural(s);
    TradesArePaid(s);
    TotalsOneWay(RoundOf(s), s.roundNo + 1);
  }

  /* The laws hold in every round of every run. */

  lemma RunStep(tr: seq<RunState>, i: nat)
    requires IsRun(tr) && i + 1 < |tr|
    ensures tr[i].Ready() && Proceeds(tr, i) && Bookkeeping(tr[i], tr[i + 1])
  {
    assert Linked(tr, i);
    StepLaws(tr[i]);
  }

  lemma RunTrades(tr: seq<RunState>, i: nat)
    requires IsRun(tr) && i + 1 < |tr|
    ensures tr[i].Ready() && Bookkeeping(tr[i], tr[i + 1]) && TradeLaw(tr[i], tr[i + 1]) && TargetLaw(tr[i], tr[i + 1])
  {
    assert Linked(tr, i);
    StepLaws(tr[i]);
  }

  lemma RunPositions(tr: seq<RunState>, i: nat)
    requires IsRun(tr) && i + 1 < |tr|
    ensures PositionLaw(tr[i], tr[i + 1]) && tr[i + 1].lastOutcome.Some? && tr[i + 1].people.Keys == tr[i].people.Keys
  {
    assert Linked(tr, i);
    StepLaws(tr[i]);
  }

  lemma RunPrices(tr: seq<RunState>, i: nat)
    requires IsRun(tr) && i + 1 < |tr|
    ensures PriceLaw(tr[i], tr[i + 1])
  {
    assert Linked(tr, i);
    StepLaws(tr[i]);
  }

  lemma ResolvedNonNegative(r: Round, roundNo: int)
    ensures Resolve(r, roundNo).outcome.resolved >= 0
  {
    PayloadIsPatch(r, roundNo);
  }

  /** What every state of every run keeps. */
  lemma {:induction false} RunKeeps(tr: seq<RunState>, i: nat)
    requires IsRun(tr) && i < |tr|
    ensures tr[i].Ready() && tr[i].roundNo == i && SameFrame(tr[0], tr[i])
    ensures i > 0 ==> tr[i].lastOutcome.Some? && tr[i].lastOutcome.value.roundNo == i
  {
    hide RunState.Ready;
    if i > 0 {
      RunKeeps(tr, i - 1);
      RunStep(tr, i - 1);
    }
  }

  /** A round another round follows cleared a trade. */
  lemma FollowedRoundTraded(tr: seq<RunState>, i: nat)
    requires IsRun(tr) && 1 <= i < |tr| - 1
    ensures tr[i].lastOutcome.Some? && tr[i].lastOutcome.value.resolved > 0
  {
    RunStep(tr, i - 1);
    RunStep(tr, i);
  }

  /** A run has at most `max_rounds` rounds, and every round but the last cleared a trade. */
  lemma RoundsLimited(tr: seq<RunState>)
    requires IsRun(tr)
    ensures |tr| - 1 <= Max(0, tr[0].maxRounds)
    ensures forall i :: 1 <= i < |tr| - 1 ==> tr[i].lastOutcome.Some? && tr[i].lastOutcome.value.resolved > 0
  {
    if |tr| > 1 {
      RunKeeps(tr, |tr| - 2);
      RunStep(tr, |tr| - 2);
    }
    forall i | 1 <= i < |tr| - 1 ensures tr[i].lastOutcome.Some? && tr[i].lastOutcome.value.resolved > 0 {
      FollowedRoundTraded(tr, i);
    }
  }

  /** `completion_reason` as the evidence builder derives it. */
  datatype CompletionReason = ReachedMaxRounds | MarketFrozen

  function ReasonFor(lastOutcome: Option<RoundOutcome>): CompletionReason {
    if lastOutcome == None || lastOutcome.value.resolved > 0 then ReachedMaxRounds else MarketFrozen
  }

  /** A completed run that reports "max_rounds" did use up its rounds; a frozen market cleared nothing last. */
  lemma ReasonIsTrue(tr: seq<RunState>)
    requires Complete(tr)
    ensures var last := tr[|tr| - 1];
            match ReasonFor(last.lastOutcome)
            case ReachedMaxRounds => last.roundNo >= last.maxRounds
            case MarketFrozen => last.lastOutcome.Some? && last.lastOutcome.value.resolved == 0
  {
    RunKeeps(tr, |tr| - 1);
    if |tr| > 1 {
      RunStep(tr, |tr| - 2);
    }
  }

  /** 1.05 to the n-th power. */
  function Growth(n: nat): real {
    if n == 0 then 1.0 else Growth(n - 1) * 1.05
  }

  /** After n rounds no price exceeds its start by more than 5 percent compounded n times. */
  lemma {:induction false} PricesBounded(tr: seq<RunState>, i: nat, gu: string)
    requires IsRun(tr) && i < |tr| && gu in tr[0].world
    ensures gu in tr[i].world && 1 <= tr[i].world[gu].medianPrice
    ensures tr[i].world[gu].medianPrice as real <= tr[0].world[gu].medianPrice as real * Growth(i)
  {
    RunKeeps(tr, i);
    if i > 0 {
      PricesBounded(tr, i - 1, gu);
      RunPrices(tr, i - 1);
      Compound(tr[i].world[gu].medianPrice as real, tr[i - 1].world[gu].medianPrice as real,
               tr[0].world[gu].medianPrice as real, Growth(i - 1));
    }
  }

  lemma SegmentGrowth(r: Round, roundNo: int, gu: string)
    requires gu in r.world && r.world[gu].medianPrice >= 1
    ensures gu in Resolve(r, roundNo).newWorld
    ensures Resolve(r, roundNo).newWorld[gu].medianPrice as real <= r.world[gu].medianPrice as real * 1.05
  {
    SegmentMoves(r, roundNo, gu);
    PriceBounds(r.world[gu], r.TallyOf(gu));
  }

  lemma Compound(next: real, now: real, start: real, growth: real)
    requires next <= now * 1.05 && now <= start * growth
    ensures next <= start * (growth * 1.05)
  {
    assert start * (growth * 1.05) == (start * growth) * 1.05;
  }

  /** A round that sells is the first and the last, for the rounds around it all cleared trades. */
  lemma SaleIsOnlyRound(tr: seq<RunState>, i: nat)
    requires IsRun(tr) && i < |tr| - 1 && tr[i].Ready() && Acts(tr[i], Sell)
    ensures i == 0 && |tr| == 2
  {
    if i > 0 {
      NoSaleLater(tr, i);
    } else if |tr| > 2 {
      FirstRoundBought(tr);
    }
  }

  /** A round that clears something is followed by one in which nobody proposes to sell. */
  lemma NoSaleNext(s: RunState, s': RunState)
    requires s.Ready() && s'.Ready() && s'.lastOutcome.Some? && TradeLaw(s, s') && s'.lastOutcome.value.resolved != 0
    ensures !Acts(s', Sell)
  {
    hide Acts, RunState.Ready;
  }

  lemma NoSaleLater(tr: seq<RunState>, i: nat)
    requires IsRun(tr) && 1 <= i < |tr| - 1
    ensures tr[i].Ready() && !Acts(tr[i], Sell)
  {
    hide Acts, RunState.Ready, TradeLaw, TargetLaw, IsRun;
    FollowedRoundTraded(tr, i);
    RunTrades(tr, i - 1);
    NoSaleNext(tr[i - 1], tr[i]);
  }

  lemma FirstRoundBought(tr: seq<RunState>)
    requires IsRun(tr) && |tr| > 2
    ensures tr[0].Ready() && !Acts(tr[0], Sell)
  {
    hide Acts, RunState.Ready, TradeLaw, TargetLaw, IsRun;
    FollowedRoundTraded(tr, 1);
    RunTrades(tr, 0);
    TradeMeansBought(tr[0], tr[1]);
  }

  lemma TradeMeansBought(s: RunState, s': RunState)
    requires s.Ready() && s'.Ready() && s'.lastOutcome.Some? && TradeLaw(s, s') && s'.lastOutcome.value.resolved != 0
    ensures !Acts(s, Sell)
  {
    hide Acts, RunState.Ready;
  }

  /**
   The default policies in any run: no round has both buyers and sellers; a sale can be
   proposed only in round 1, and then that round clears nothing and ends the run.
   */
  lemma SalesOnlyInRoundOne(tr: seq<RunState>, i: nat)
    requires IsRun(tr) && i < |tr| - 1
    ensures tr[i].Ready() && !(Acts(tr[i], Buy) && Acts(tr[i], Sell))
    ensures Acts(tr[i], Sell) ==>
      && i == 0 && |tr| == 2
      && tr[1].lastOutcome.Some? && tr[1].lastOutcome.value.resolved == 0 && tr[1].people == tr[0].people
  {
    RunTrades(tr, i);
    if Acts(tr[i], Sell) { SaleIsOnlyRound(tr, i); }
  }

  /** From round 2 on, the target segment's price and sentiment never fall, and its trend is not down. */
  lemma TargetNeverFalls(tr: seq<RunState>, i: nat)
    requires IsRun(tr) && 1 <= i < |tr| - 1
    ensures HasTarget(tr[i]) && HasTarget(tr[i + 1])
    ensures Target(tr[i + 1]).medianPrice >= Target(tr[i]).medianPrice
    ensures Target(tr[i + 1]).sentiment >= Target(tr[i]).sentiment && Target(tr[i + 1]).trend != Down
  {
    NoSaleLater(tr, i);
    PeopleRemain(tr, i);
    RunTrades(tr, i);
  }

  lemma PeopleRemain(tr: seq<RunState>, i: nat)
    requires IsRun(tr) && 1 <= i < |tr| - 1
    ensures tr[i].people != map[]
  {
    hide PositionLaw, RunState.Ready, IsRun;
    FollowedRoundTraded(tr, i);
    RunPositions(tr, i - 1);
    SomeoneTraded(tr[i - 1], tr[i]);
  }

  lemma SomeoneTraded(s: RunState, s': RunState)
    requires PositionLaw(s, s') && s'.lastOutcome.Some? && s'.lastOutcome.value.resolved > 0
    requires s'.people.Keys == s.people.Keys
    ensures s'.people != map[]
  {
    SomeoneHolds(s.people, s'.people);
  }

  lemma SomeoneHolds(before: People, after: People)
    requires after.Keys == before.Keys && TotalHoldings(after) != TotalHoldings(before)
    ensures after != map[]
  {}

  /** Over a whole run nobody's holdings shrink and nobody's capital grows. */
  lemma {:induction false} PositionsOneWay(tr: seq<RunState>, i: nat, j: nat, p: string)
    requires IsRun(tr) && i <= j < |tr| && p in tr[0].people
    ensures p in tr[i].people && p in tr[j].people
    ensures tr[j].people[p].holdings >= tr[i].people[p].holdings && tr[j].people[p].capital <= tr[i].people[p].capital
    decreases j
  {
    if i < j {
      PositionsOneWay(tr, i, j - 1, p);
      RunPositions(tr, j - 1);
    } else {
      RunKeeps(tr, i);
    }
  }

  /** Trades cleared in rounds 1..i. */
  ghost function TradesUpTo(tr: seq<RunState>, i: nat): int
    requires i < |tr|
  {
    if i == 0 then 0 else TradesUpTo(tr, i - 1) + (if tr[i].lastOutcome.Some? then tr[i].lastOutcome.value.resolved else 0)
  }

  /** What the trades of rounds 1..i cost, each at its round's new price of the target segment. */
  ghost function SpentUpTo(tr: seq<RunState>, i: nat): int
    requires i < |tr|
  {
    if i == 0 then 0 else
      SpentUpTo(tr, i - 1) + (if tr[i].lastOutcome.Some? then TargetPrice(tr[i]) * tr[i].lastOutcome.value.resolved else 0)
  }

  /** Over a whole run, total holdings grow by exactly the trades cleared, and total capital falls by exactly their cost. */
  lemma {:induction false} RunConserves(tr: seq<RunState>, i: nat)
    requires IsRun(tr) && i < |tr|
    ensures TotalHoldings(tr[i].people) == TotalHoldings(tr[0].people) + TradesUpTo(tr, i)
    ensures TotalCapital(tr[i].people) == TotalCapital(tr[0].people) - SpentUpTo(tr, i)
    ensures TotalCapital(tr[i].people) <= TotalCapital(tr[0].people)
  {
    hide IsRun, TargetPrice, TotalHoldings, TotalCapital;
    if i > 0 {
      RunConserves(tr, i - 1);
      RunPositions(tr, i - 1);
    }
  }
}
