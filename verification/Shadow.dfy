/**
 The shadow runner: the same decisions and resolution driven through another state
 representation, without the last outcome; and the proof that it stays in lockstep
 with the rounds of the graph.
 */
module Shadow {
  import opened Wrappers
  import opened Ordering
  import opened Market
  import opened Policies
  import opened Resolver
  import opened MarketLaws
  import opened RunLoop

  /** A core record under the id the runner knows it by. */
  datatype Adapter<T> = Adapter(id: string, inner: T)

  datatype ShadowState = ShadowState(
    stepIndex: int, segments: seq<Adapter<Segment>>, participants: seq<Adapter<Participant>>)

  /** What the closures capture from the initial state. */
  datatype Setup = Setup(scenario: Scenario, segmentOrder: seq<string>, participantOrder: seq<string>)

  datatype ShadowError = NoSuchParticipant | EmptyWorld | RoundRejected

  /* ---------- projections ---------- */

  /** A dictionary comprehension over adapters: the last one of an id counts. */
  function ById<T>(xs: seq<Adapter<T>>): map<string, T> {
    if xs == [] then map[] else ById(xs[..|xs| - 1])[xs[|xs| - 1].id := xs[|xs| - 1].inner]
  }

  /** `[k for k in order if k in m]` */
  function Present<T>(order: seq<string>, m: map<string, T>): (kept: seq<string>)
    ensures forall k :: k in kept ==> k in m
  {
    if order == [] then [] else
      Present(order[..|order| - 1], m) + (if order[|order| - 1] in m then [order[|order| - 1]] else [])
  }

  /** `{k: m[k] for k in order if k in m}` */
  function Selected<T>(order: seq<string>, m: map<string, T>): map<string, T> {
    map k | k in m && k in order :: m[k]
  }

  function SegmentAdapter(s: Segment): Adapter<Segment> { Adapter(s.guCode, s) }

  function ParticipantAdapter(p: Participant): Adapter<Participant> { Adapter(p.id, p) }

  function SegmentAdapters(order: seq<string>, world: World): seq<Adapter<Segment>>
    requires forall k :: k in order ==> k in world
  {
    seq(|order|, i requires 0 <= i < |order| => SegmentAdapter(world[order[i]]))
  }

  function ParticipantAdapters(order: seq<string>, people: People): seq<Adapter<Participant>>
    requires forall k :: k in order ==> k in people
  {
    seq(|order|, i requires 0 <= i < |order| => ParticipantAdapter(people[order[i]]))
  }

  /** The runner's state for a world and participants in the captured orders. */
  function ToShadow(setup: Setup, world: World, people: People, stepIndex: int): ShadowState {
    ShadowState(stepIndex, SegmentAdapters(Present(setup.segmentOrder, world), world),
                ParticipantAdapters(Present(setup.participantOrder, people), people))
  }

  /* ---------- the closures ---------- */

  /** `decide_fn` of one participant. */
  function ShadowDecide(setup: Setup, state: ShadowState, id: string): Result<Adapter<Action>, ShadowError> {
    var segments := ById(state.segments);
    var order := Present(setup.segmentOrder, segments);
    var world := Selected(setup.segmentOrder, segments);
    var people := ById(state.participants);
    if id !in people then Failure(NoSuchParticipant)
    else if order == [] then Failure(EmptyWorld)
    else if TargetKey(order, world, setup.scenario) !in world then Failure(EmptyWorld)
    else
      var context := DecisionContext(state.stepIndex + 1, world[TargetKey(order, world, setup.scenario)], setup.scenario, None);
      var proposal := Decide(people[id], context);
      Success(Adapter(proposal.agentId, proposal))
  }

  /** Every agent's proposal, in the participants' order. */
  function ShadowProposals(setup: Setup, state: ShadowState, ids: seq<string>): Result<seq<Entry>, ShadowError> {
    if ids == [] then Success([]) else
      var before := ShadowProposals(setup, state, ids[..|ids| - 1]);
      var last := ShadowDecide(setup, state, ids[|ids| - 1]);
      if before.Failure? then before
      else if last.Failure? then Failure(last.error)
      else Success(before.value + [(last.value.id, last.value.inner)])
  }

  /** `resolve_fn` */
  ghost function ShadowResolve(setup: Setup, state: ShadowState, proposals: seq<Entry>): Result<ShadowState, ShadowError> {
    var world := Selected(setup.segmentOrder, ById(state.segments));
    var people := Selected(setup.participantOrder, ById(state.participants));
    var result := Resolve(Round(world, people, ActionMap(proposals)), state.stepIndex + 1);
    if Checked(result).Success? then Success(ToShadow(setup, result.newWorld, result.newPeople, state.stepIndex + 1))
    else Failure(RoundRejected)
  }

  /** One step of the runner: every agent decides, then the resolver resolves. */
  ghost function ShadowStep(setup: Setup, state: ShadowState): Result<ShadowState, ShadowError> {
    var proposals := ShadowProposals(setup, state, setup.participantOrder);
    if proposals.Failure? then Failure(proposals.error) else ShadowResolve(setup, state, proposals.value)
  }

  ghost function ShadowRun(setup: Setup, state: ShadowState, k: nat): Result<ShadowState, ShadowError> {
    if k == 0 then Success(state) else
      var before := ShadowRun(setup, state, k - 1);
      if before.Failure? then before else ShadowStep(setup, before.value)
  }

  /* ---------- projections lose nothing ---------- */

  function SetupOf(s: RunState): Setup {
    Setup(s.scenario, s.segments, s.members)
  }

  /** The graph state as the runner sees it. */
  function Project(s: RunState): ShadowState {
    ToShadow(SetupOf(s), s.world, s.people, s.roundNo)
  }

  lemma {:induction false} AllPresent<T>(order: seq<string>, m: map<string, T>)
    requires forall k :: k in order ==> k in m
    ensures Present(order, m) == order
  {
    if order != [] {
      AllPresent(order[..|order| - 1], m);
      assert order == order[..|order| - 1] + [order[|order| - 1]];
    }
  }

  /** Adapters listed in a distinct order give back the dictionary. */
  lemma {:induction false} ByIdListed<T>(xs: seq<Adapter<T>>, order: seq<string>, m: map<string, T>)
    requires |xs| == |order| && Distinct(order)
    requires forall i :: 0 <= i < |xs| ==> order[i] in m && xs[i] == Adapter(order[i], m[order[i]])
    ensures ById(xs).Keys == Elements(order)
    ensures forall k :: k in ById(xs) ==> k in m && ById(xs)[k] == m[k]
  {
    if xs != [] {
      var n := |xs| - 1;
      assert order == order[..n] + [order[n]];
      ByIdListed(xs[..n], order[..n], m);
    }
  }

  lemma ListedKeys<T>(order: seq<string>, m: map<string, T>)
    requires Elements(order) == m.Keys
    ensures forall k :: k in order <==> k in m
  {
    forall k ensures k in order <==> k in m { assert k in order <==> k in Elements(order); }
  }

  lemma ReadBack<T>(xs: seq<Adapter<T>>, order: seq<string>, m: map<string, T>)
    requires Distinct(order) && Elements(order) == m.Keys && |xs| == |order|
    requires forall i :: 0 <= i < |xs| ==> order[i] in m && xs[i] == Adapter(order[i], m[order[i]])
    ensures ById(xs) == m && Selected(order, m) == m
  {
    ListedKeys(order, m);
    ByIdListed(xs, order, m);
  }

  lemma SegmentsListed(order: seq<string>, world: World)
    requires Distinct(order) && Elements(order) == world.Keys && forall gu :: gu in world ==> world[gu].guCode == gu
    ensures Present(order, world) == order && Selected(order, world) == world
    ensures ById(SegmentAdapters(Present(order, world), world)) == world
  {
    ListedKeys(order, world);
    AllPresent(order, world);
    ReadBack(SegmentAdapters(order, world), order, world);
  }

  lemma ParticipantsListed(order: seq<string>, people: People)
    requires Distinct(order) && Elements(order) == people.Keys && forall p :: p in people ==> people[p].id == p
    ensures Selected(order, people) == people
    ensures ById(ParticipantAdapters(Present(order, people), people)) == people
  {
    ListedKeys(order, people);
    AllPresent(order, people);
    ReadBack(ParticipantAdapters(order, people), order, people);
  }

  /** What the closures read back from a projected state. */
  lemma ProjectionReadsBack(s: RunState)
    requires s.WellKeyed()
    ensures ById(Project(s).segments) == s.world && ById(Project(s).participants) == s.people
    ensures Present(s.segments, s.world) == s.segments && Selected(s.segments, s.world) == s.world
    ensures Selected(s.members, s.people) == s.people
  {
    SegmentsListed(s.segments, s.world);
    ParticipantsListed(s.members, s.people);
  }

  /** States in the same orders with the same projection have the same world, participants and round number. */
  lemma ProjectionFaithful(s: RunState, t: RunState)
    requires s.WellKeyed() && t.WellKeyed() && SetupOf(s) == SetupOf(t) && Project(s) == Project(t)
    ensures s.world == t.world && s.people == t.people && s.roundNo == t.roundNo
  {
    ProjectionReadsBack(s);
    ProjectionReadsBack(t);
  }

  /* ---------- lockstep ---------- */

  /** A shadow agent proposes what the graph's decider records for it. */
  lemma SameDecision(s: RunState, id: string)
    requires s.Ready() && s.world != map[] && id in s.people
    ensures HasTarget(s)
    ensures ShadowDecide(SetupOf(s), Project(s), id) == Success(Adapter(id, Decide(s.people[id], ContextOf(s))))
  {
    hide Decide, ById, Present, Selected, SegmentAdapters, ParticipantAdapters;
    TargetExists(s);
    ProjectionReadsBack(s);
    LastOutcomeUnread(s.people[id], ContextOf(s), None);
    ProposalSound(s.people[id], ContextOf(s));
  }

  lemma DecisionAt(s: RunState, i: nat)
    requires s.Ready() && s.world != map[] && i < |s.members| && |Decisions(s)| == |s.members|
    ensures s.members[i] in s.people && HasTarget(s)
    ensures Decisions(s)[i] == (s.members[i], Decide(s.people[s.members[i]], ContextOf(s)))
  {
    hide Decide;
    TargetExists(s);
    assert s.members[i] in Elements(s.members);
  }

  lemma {:induction false} SameProposals(s: RunState, n: nat)
    requires s.Ready() && s.world != map[] && n <= |s.members| && |Decisions(s)| == |s.members|
    ensures ShadowProposals(SetupOf(s), Project(s), s.members[..n]) == Success(Decisions(s)[..n])
  {
    hide Step, Project, ShadowDecide, Decisions, Decide, RunState.WellKeyed;
    if n > 0 {
      SameProposals(s, n - 1);
      assert s.members[..n][..n - 1] == s.members[..n - 1];
      DecisionAt(s, n - 1);
      SameDecision(s, s.members[n - 1]);
      assert Decisions(s)[..n] == Decisions(s)[..n - 1] + [Decisions(s)[n - 1]];
    }
  }

  lemma SameResolution(s: RunState)
    requires s.Ready()
    ensures ShadowResolve(SetupOf(s), Project(s), Decisions(s)) == Success(Project(Step(s)))
  {
    hide Resolve, Checked, Decisions, Present, Selected, ById, SegmentAdapters, ParticipantAdapters;
    ProjectionReadsBack(s);
    StepReady(s);
    RoundStaysSound(RoundOf(s), s.roundNo + 1);
  }

  /** One shadow step is one graph round. */
  lemma ShadowStepIsRound(s: RunState)
    requires s.Ready() && s.world != map[]
    ensures ShadowStep(SetupOf(s), Project(s)) == Success(Project(Step(s)))
  {
    hide Step, Project, ShadowResolve, ShadowDecide;
    DecisionEntries(s);
    SameProposals(s, |s.members|);
    assert s.members[..|s.members|] == s.members && Decisions(s)[..|s.members|] == Decisions(s);
    SameResolution(s);
  }

  /** `k` rounds of the graph's decider and resolver, without the routing between them. */
  ghost function Rounds(s: RunState, k: nat): (t: RunState)
    requires s.Ready()
    ensures t.Ready() && SetupOf(t) == SetupOf(s) && t.world.Keys == s.world.Keys
  {
    if k == 0 then s else
      var before := Rounds(s, k - 1);
      StepReady(before);
      Step(before)
  }

  /** Lockstep: `k` shadow steps reach the projection of the state `k` graph rounds reach. */
  lemma {:induction false} Lockstep(s: RunState, k: nat)
    requires s.Ready() && s.world != map[]
    ensures ShadowRun(SetupOf(s), Project(s), k) == Success(Project(Rounds(s, k)))
  {
    hide Step, Project, ShadowStep, RunState.Ready;
    if k > 0 {
      Lockstep(s, k - 1);
      ShadowStepIsRound(Rounds(s, k - 1));
    }
  }

  /** As long as a run of the graph lasts, the shadow runner is at the same world, participants and round. */
  lemma {:induction false} ShadowFollowsRun(tr: seq<RunState>, k: nat)
    requires IsRun(tr) && tr[0].world != map[] && k < |tr|
    ensures ShadowRun(SetupOf(tr[0]), Project(tr[0]), k) == Success(Project(tr[k]))
  {
    hide Step, Project, ShadowStep;
    RunKeeps(tr, k);
    if k > 0 {
      ShadowFollowsRun(tr, k - 1);
      RunKeeps(tr, k - 1);
      assert Linked(tr, k - 1);
      ShadowStepIsRound(tr[k - 1]);
    }
  }

  /* ---------- the closures on any state ---------- */

  /** The k-th adapter is the last of its id. */
  ghost predicate LastAdapter<T(!new)>(xs: seq<Adapter<T>>, id: string, k: nat) {
    k < |xs| && xs[k].id == id && forall j :: k < j < |xs| ==> xs[j].id != id
  }

  lemma ByIdNext<T>(xs: seq<Adapter<T>>, id: string)
    requires xs != []
    ensures var before, last := ById(xs[..|xs| - 1]), xs[|xs| - 1];
            && (id in ById(xs) <==> last.id == id || id in before)
            && (id in ById(xs) ==> ById(xs)[id] == if last.id == id then last.inner else before[id])
  {}

  lemma {:induction false} ByIdExactly<T(!new)>(xs: seq<Adapter<T>>, id: string)
    ensures id in ById(xs) <==> exists k :: 0 <= k < |xs| && xs[k].id == id
    ensures forall k: nat :: LastAdapter(xs, id, k) ==> id in ById(xs) && ById(xs)[id] == xs[k].inner
  {
    if xs != [] {
      hide ById;
      var n := |xs| - 1;
      ByIdExactly(xs[..n], id);
      ByIdNext(xs, id);
      forall k: nat | LastAdapter(xs, id, k) ensures id in ById(xs) && ById(xs)[id] == xs[k].inner {
        if k < n { assert LastAdapter(xs[..n], id, k); }
      }
      if k :| 0 <= k < |xs| && xs[k].id == id {
        if k < n { assert xs[..n][k].id == id; }
      }
    }
  }

  /** `gu` is the first captured district that the state has. */
  ghost predicate FirstPresent<T>(order: seq<string>, m: map<string, T>, k: nat) {
    k < |order| && order[k] in m && forall j :: 0 <= j < k ==> order[j] !in m
  }

  lemma {:induction false} PresentFirst<T>(order: seq<string>, m: map<string, T>)
    ensures Present(order, m) == [] <==> forall k :: 0 <= k < |order| ==> order[k] !in m
    ensures forall k: nat :: FirstPresent(order, m, k) ==> Present(order, m) != [] && Present(order, m)[0] == order[k]
  {
    if order != [] {
      var n := |order| - 1;
      PresentFirst(order[..n], m);
      forall k: nat | FirstPresent(order, m, k) ensures Present(order, m) != [] && Present(order, m)[0] == order[k] {
        if k < n { assert FirstPresent(order[..n], m, k); }
      }
    }
  }

  /** The district a shadow agent looks at: the first target if captured and in the state, else the first captured in it. */
  ghost predicate ShadowLooksAt(setup: Setup, present: map<string, Segment>, gu: string) {
    if setup.scenario.targetGus != [] && setup.scenario.targetGus[0] in setup.segmentOrder
       && setup.scenario.targetGus[0] in present
    then gu == setup.scenario.targetGus[0]
    else exists k: nat :: FirstPresent(setup.segmentOrder, present, k) && gu == setup.segmentOrder[k]
  }

  /**
   What a shadow agent does on any state: it raises for an unknown participant and, after
   that, for a world without a captured district; otherwise its policy decides about the
   district it looks at, for the next step and without a last outcome.
   */
  lemma ShadowDecidesExactly(setup: Setup, state: ShadowState, id: string)
    ensures var people, segments := ById(state.participants), ById(state.segments);
            var known := forall k :: 0 <= k < |setup.segmentOrder| ==> setup.segmentOrder[k] !in segments;
            && (id !in people ==> ShadowDecide(setup, state, id) == Failure(NoSuchParticipant))
            && (id in people && known ==> ShadowDecide(setup, state, id) == Failure(EmptyWorld))
            && forall gu :: id in people && !known && ShadowLooksAt(setup, segments, gu) ==>
                 && gu in segments
                 && var a := Decide(people[id], DecisionContext(state.stepIndex + 1, segments[gu], setup.scenario, None));
                    ShadowDecide(setup, state, id) == Success(Adapter(a.agentId, a))
  {
    hide ShadowDecide, ById;
    PresentFirst(setup.segmentOrder, ById(state.segments));
    forall gu | ShadowLooksAt(setup, ById(state.segments), gu) ensures ShadowTarget(setup, ById(state.segments), gu) {
      ShadowLooks(setup, ById(state.segments), gu);
    }
    ShadowDecisionIs(setup, state, id);
  }

  /** The closure's world has the district, and its target is that district. */
  ghost predicate ShadowTarget(setup: Setup, segments: map<string, Segment>, gu: string) {
    var order, world := Present(setup.segmentOrder, segments), Selected(setup.segmentOrder, segments);
    gu in world && order != [] && TargetKey(order, world, setup.scenario) == gu
  }

  lemma ShadowLooks(setup: Setup, segments: map<string, Segment>, gu: string)
    requires ShadowLooksAt(setup, segments, gu)
    ensures ShadowTarget(setup, segments, gu)
  {
    hide Present;
    PresentFirst(setup.segmentOrder, segments);
  }

  lemma ShadowDecisionIs(setup: Setup, state: ShadowState, id: string)
    ensures var people, segments := ById(state.participants), ById(state.segments);
            && (id !in people ==> ShadowDecide(setup, state, id) == Failure(NoSuchParticipant))
            && (id in people && Present(setup.segmentOrder, segments) == [] ==>
                  ShadowDecide(setup, state, id) == Failure(EmptyWorld))
            && forall gu :: id in people && ShadowTarget(setup, segments, gu) ==>
                 && gu in segments
                 && var a := Decide(people[id], DecisionContext(state.stepIndex + 1, segments[gu], setup.scenario, None));
                    ShadowDecide(setup, state, id) == Success(Adapter(a.agentId, a))
  {
    hide Decide, ById, Present;
  }

  /** The k-th agent is the first whose closure raises. */
  ghost predicate FirstRaises(setup: Setup, state: ShadowState, ids: seq<string>, k: nat) {
    && k < |ids| && ShadowDecide(setup, state, ids[k]).Failure?
    && forall j :: 0 <= j < k ==> ShadowDecide(setup, state, ids[j]).Success?
  }

  ghost predicate AllPropose(setup: Setup, state: ShadowState, ids: seq<string>, entries: seq<Entry>) {
    && |entries| == |ids|
    && forall j :: 0 <= j < |ids| ==>
         var d := ShadowDecide(setup, state, ids[j]);
         d.Success? && entries[j] == (d.value.id, d.value.inner)
  }

  lemma RaisesBefore(setup: Setup, state: ShadowState, ids: seq<string>, n: nat, k: nat)
    requires n <= |ids| && FirstRaises(setup, state, ids[..n], k)
    ensures FirstRaises(setup, state, ids, k) && ids[..n][k] == ids[k]
  {
    hide ShadowDecide;
    assert forall j :: 0 <= j < n ==> ids[..n][j] == ids[j];
  }

  lemma ProposeNext(setup: Setup, state: ShadowState, ids: seq<string>, entries: seq<Entry>)
    requires ids != [] && AllPropose(setup, state, ids[..|ids| - 1], entries)
    ensures var n := |ids| - 1;
            var d := ShadowDecide(setup, state, ids[n]);
            if d.Failure? then FirstRaises(setup, state, ids, n)
            else AllPropose(setup, state, ids, entries + [(d.value.id, d.value.inner)])
  {
    hide ShadowDecide;
    var n := |ids| - 1;
    assert forall j :: 0 <= j < n ==> ids[..n][j] == ids[j];
  }

  /** The proposals of a step: every agent's in order, or the error of the first that raises. */
  lemma {:induction false} ProposalsExactly(setup: Setup, state: ShadowState, ids: seq<string>)
    ensures match ShadowProposals(setup, state, ids)
            case Success(entries) => AllPropose(setup, state, ids, entries)
            case Failure(error) =>
              exists k: nat ::
                k < |ids| && FirstRaises(setup, state, ids, k) && ShadowDecide(setup, state, ids[k]) == Failure(error)
  {
    if ids != [] {
      hide ShadowDecide, FirstRaises, AllPropose;
      var n := |ids| - 1;
      ProposalsExactly(setup, state, ids[..n]);
      var before := ShadowProposals(setup, state, ids[..n]);
      if before.Failure? {
        var k: nat :| k < n && FirstRaises(setup, state, ids[..n], k)
                      && ShadowDecide(setup, state, ids[..n][k]) == Failure(before.error);
        RaisesBefore(setup, state, ids, n, k);
      } else {
        ProposeNext(setup, state, ids, before.value);
      }
    }
  }
}
