/**
 The simulation graph as it runs: nodes that read the state, append events and return
 the next state, and the loop that the routing functions drive.
 */
module Graph {
  import opened Wrappers
  import opened Ordering
  import opened Market
  import opened Policies
  import opened Resolver
  import opened MarketLaws
  import opened ResolverLoop
  import opened RunLoop
  import opened EventLog
  import opened Replay

  /* ---------- the log of a run ---------- */

  /** A clock that never goes back: the time of the k-th event of the run. */
  ghost predicate Monotone(clock: nat -> int) {
    forall i: nat, j: nat :: i <= j ==> clock(i) <= clock(j)
  }

  /** The round a run is in after some events: the last number one of them gives. */
  ghost function RoundSoFar(payloads: seq<Payload>): int {
    if payloads == [] then 0 else
      match payloads[|payloads| - 1]
      case DecisionsMade(Some(n), _) => n
      case RoundResolved(round) => round.roundNo
      case SimulationCompleted(Some(n)) => n
      case _ => RoundSoFar(payloads[..|payloads| - 1])
  }

  /** Every event carries the time of the clock, its run, and the round the run was in. */
  ghost predicate Stamped(events: seq<Event>, runId: string, clock: nat -> int) {
    forall k :: 0 <= k < |events| ==> StampedAt(events, runId, clock, k)
  }

  ghost predicate StampedAt(events: seq<Event>, runId: string, clock: nat -> int, k: nat)
    requires k < |events|
  {
    && events[k].timestamp == clock(k) && events[k].runId == runId
    && events[k].roundNo == RoundSoFar(Payloads(events)[..k + 1])
  }

  /** The run's log consists of these payloads, and every event is stamped. */
  ghost predicate Logged(store: EventStore, runId: string, clock: nat -> int, payloads: seq<Payload>)
    reads store
  {
    Payloads(store.Log(runId)) == payloads && Stamped(store.Log(runId), runId, clock)
  }

  lemma StampedNext(events: seq<Event>, runId: string, clock: nat -> int, e: Event)
    requires Stamped(events, runId, clock) && e.runId == runId && e.timestamp == clock(|events|)
    requires e.roundNo == RoundSoFar(Payloads(events) + [e.payload])
    ensures Payloads(events + [e]) == Payloads(events) + [e.payload] && Stamped(events + [e], runId, clock)
  {
    hide RoundSoFar;
    var events' := events + [e];
    forall k | 0 <= k < |events'| ensures StampedAt(events', runId, clock, k) {
      if k < |events| {
        assert StampedAt(events, runId, clock, k);
        assert Payloads(events')[..k + 1] == Payloads(events)[..k + 1];
      } else {
        assert Payloads(events')[..k + 1] == Payloads(events) + [e.payload];
      }
    }
  }

  method Emit(store: EventStore, runId: string, roundNo: int, clock: nat -> int, payload: Payload, ghost before: seq<Payload>)
    requires Logged(store, runId, clock, before) && roundNo == RoundSoFar(before + [payload])
    modifies store
    ensures Logged(store, runId, clock, before + [payload])
    ensures forall other :: other != runId ==> store.Log(other) == old(store.Log(other))
  {
    hide RoundSoFar, Stamped;
    var n := |store.Log(runId)|;
    StampedNext(store.Log(runId), runId, clock, Event(runId, roundNo, clock(n), payload));
    store.Append(Event(runId, roundNo, clock(n), payload));
  }

  /* ---------- the two nodes of a round ---------- */

  datatype NodeError = EmptyWorld | RoundRejected

  /** The target district's state; an empty world is an error. */
  function ResolveTargetSegment(segments: seq<string>, world: World, scenario: Scenario): (r: Result<Segment, NodeError>)
    ensures segments == [] ==> r == Failure(EmptyWorld)
  {
    if segments == [] then Failure(EmptyWorld)
    else if scenario.targetGus != [] && scenario.targetGus[0] in world then Success(world[scenario.targetGus[0]])
    else if segments[0] in world then Success(world[segments[0]])
    else Failure(EmptyWorld)
  }

  lemma TargetResolves(s: RunState)
    requires s.WellKeyed()
    ensures s.world == map[] ==> ResolveTargetSegment(s.segments, s.world, s.scenario) == Failure(EmptyWorld)
    ensures s.world != map[] ==>
      HasTarget(s) && ResolveTargetSegment(s.segments, s.world, s.scenario) == Success(Target(s))
  {
    if s.world == map[] {
      EmptyTogether(s.segments, []);
    } else {
      TargetExists(s);
    }
  }

  /** One action per participant, in the order of the participants. */
  method DecideAll(s: RunState, segment: Segment) returns (actions: seq<Entry>)
    requires s.Decidable() && s.people != map[] && HasTarget(s) && segment == Target(s)
    ensures actions == Decisions(s)
  {
    actions := [];
    var i := 0;
    while i < |s.members|
      invariant 0 <= i <= |s.members| && actions == Decisions(s)[..i]
      invariant |Decisions(s)| == |s.members|
    {
      assert s.members[i] in Elements(s.members);
      var context := DecisionContext(s.roundNo + 1, segment, s.scenario, s.lastOutcome);
      var action := Decide(s.people[s.members[i]], context);
      assert Decisions(s)[i] == (s.members[i], action);
      actions := actions + [(s.members[i], action)];
      i := i + 1;
    }
  }

  /** The state after the decider. */
  ghost function Decided(s: RunState): RunState
    requires s.Decidable()
  {
    s.(roundNo := s.roundNo + 1, actions := Decisions(s))
  }

  method ParticipantDecider(store: EventStore, runId: string, s: RunState, clock: nat -> int, ghost log: seq<Payload>)
    returns (r: Result<RunState, NodeError>)
    requires s.WellKeyed() && Logged(store, runId, clock, log)
    modifies store
    ensures r.Success? <==> s.Decidable()
    ensures s.Decidable() ==>
      r == Success(Decided(s)) &&
      Logged(store, runId, clock, log + [DecisionsMade(Some(s.roundNo + 1), Some(SummaryOf(Decisions(s))))])
    ensures !s.Decidable() ==> r == Failure(EmptyWorld) && store.Log(runId) == old(store.Log(runId))
    ensures forall other :: other != runId ==> store.Log(other) == old(store.Log(other))
  {
    var actions: seq<Entry> := [];
    if s.people != map[] {
      TargetResolves(s);
      var target := ResolveTargetSegment(s.segments, s.world, s.scenario);
      if target.Failure? {
        return Failure(target.error);
      }
      actions := DecideAll(s, target.value);
    }
    Emit(store, runId, s.roundNo + 1, clock, DecisionsMade(Some(s.roundNo + 1), Some(SummaryOf(actions))), log);
    r := Success(s.(roundNo := s.roundNo + 1, actions := actions));
  }

  method RoundResolver(store: EventStore, runId: string, s: RunState, clock: nat -> int, ghost log: seq<Payload>)
    returns (r: Result<RunState, NodeError>)
    requires DictEntries(s.actions) && Logged(store, runId, clock, log)
    modifies store
    ensures var result := Resolve(Round(s.world, s.people, ActionMap(s.actions)), s.roundNo);
            if Checked(result).Success? then
              && r == Success(s.(world := result.newWorld, people := result.newPeople, lastOutcome := Some(result.outcome)))
              && Logged(store, runId, clock, log + [RoundResolved(result.payload)])
            else r == Failure(RoundRejected) && store.Log(runId) == old(store.Log(runId))
    ensures forall other :: other != runId ==> store.Log(other) == old(store.Log(other))
  {
    var resolved, _ := PureResolveRound(s.world, s.people, s.actions, s.roundNo);
    if resolved.Failure? {
      return Failure(RoundRejected);
    }
    Emit(store, runId, s.roundNo, clock, RoundResolved(resolved.value.payload), log);
    r := Success(s.(world := resolved.value.newWorld, people := resolved.value.newPeople,
                    lastOutcome := Some(resolved.value.outcome)));
  }

  /* ---------- the loop ---------- */

  /** The rounds run so far, their end state, and their events in the log. */
  ghost predicate Running(store: EventStore, runId: string, clock: nat -> int, head: seq<Payload>, tr: seq<RunState>,
                          s: RunState)
    reads store
  {
    IsRun(tr) && tr[|tr| - 1] == s && Logged(store, runId, clock, head + RoundEvents(Transcript(tr)))
  }

  lemma LinkedStays(tr: seq<RunState>, s': RunState, i: nat)
    requires i + 1 < |tr| && Linked(tr, i)
    ensures Linked(tr + [s'], i)
  {}

  lemma LinkedLast(tr: seq<RunState>, s': RunState)
    requires tr != [] && tr[|tr| - 1].Ready() && Proceeds(tr, |tr| - 1) && s' == Step(tr[|tr| - 1])
    ensures Linked(tr + [s'], |tr| - 1)
  {}

  lemma RunExtends(tr: seq<RunState>, s': RunState)
    requires IsRun(tr) && Linked(tr + [s'], |tr| - 1)
    ensures IsRun(tr + [s'])
  {
    forall i | 0 <= i < |tr| ensures Linked(tr + [s'], i) {
      if i < |tr| - 1 { LinkedStays(tr, s', i); }
    }
  }

  lemma TranscriptExtends(tr: seq<RunState>, s': RunState)
    requires IsRun(tr) && IsRun(tr + [s']) && tr[|tr| - 1].Ready()
    ensures Transcript(tr + [s']) == Transcript(tr) + [RecordOf(tr[|tr| - 1])]
  {
    hide RecordOf, Step;
  }

  /** One more round extends the run and its transcript. */
  lemma RunOneMore(tr: seq<RunState>, s': RunState)
    requires IsRun(tr) && Proceeds(tr, |tr| - 1) && tr[|tr| - 1].Ready() && s' == Step(tr[|tr| - 1])
    ensures IsRun(tr + [s'])
    ensures Transcript(tr + [s']) == Transcript(tr) + [RecordOf(tr[|tr| - 1])]
  {
    LinkedLast(tr, s');
    RunExtends(tr, s');
    TranscriptExtends(tr, s');
  }

  lemma RoundEventsOneMore(rounds: seq<RoundRecord>, record: RoundRecord)
    ensures RoundEvents(rounds + [record]) ==
            RoundEvents(rounds) + [DecisionsMade(Some(record.roundNo), Some(record.summary))] + [RoundResolved(record.payload)]
  {
    assert (rounds + [record])[..|rounds|] == rounds;
  }

  /** The decider and then the resolver take the state one step, and no validator rejects the round. */
  lemma RoundIsStep(s: RunState)
    requires s.Ready()
    ensures DictEntries(Decisions(s))
    ensures var result := Resolve(RoundOf(s), s.roundNo + 1);
            && Checked(result) == Success(result)
            && Decided(s).(world := result.newWorld, people := result.newPeople, lastOutcome := Some(result.outcome)) == Step(s)
  {
    DecisionEntries(s);
    RoundStaysSoundHere(s);
  }

  lemma RoundStaysSoundHere(s: RunState)
    requires s.Ready()
    ensures Checked(Resolve(RoundOf(s), s.roundNo + 1)) == Success(Resolve(RoundOf(s), s.roundNo + 1))
  {
    RoundStaysSound(RoundOf(s), s.roundNo + 1);
  }

  lemma RecordIs(s: RunState)
    requires s.Ready()
    ensures RecordOf(s) ==
            RoundRecord(s.roundNo + 1, SummaryOf(Decisions(s)), Resolve(RoundOf(s), s.roundNo + 1).payload)
    ensures Decided(s) == s.(roundNo := s.roundNo + 1, actions := Decisions(s))
    ensures RoundOf(s) == Round(s.world, s.people, ActionMap(Decisions(s)))
  {
    hide Resolve, Decisions, ActionMap, SummaryOf, RunState.Ready;
  }

  method OneRound(store: EventStore, runId: string, s: RunState, clock: nat -> int, ghost log: seq<Payload>)
    returns (s': RunState)
    requires s.Ready() && Logged(store, runId, clock, log)
    modifies store
    ensures s' == Step(s)
    ensures Logged(store, runId, clock,
      log + [DecisionsMade(Some(s.roundNo + 1), Some(RecordOf(s).summary))] + [RoundResolved(RecordOf(s).payload)])
    ensures forall other :: other != runId ==> store.Log(other) == old(store.Log(other))
  {
    hide Logged, Resolve, Checked, Decisions, SummaryOf;
    RoundIsStep(s);
    RecordIs(s);
    var decided := ParticipantDecider(store, runId, s, clock, log);
    var resolved := RoundResolver(store, runId, decided.value, clock,
                                  log + [DecisionsMade(Some(s.roundNo + 1), Some(SummaryOf(Decisions(s))))]);
    s' := resolved.value;
  }

  lemma RoundNumbers(s: RunState)
    requires s.Ready()
    ensures Step(s).roundNo == RecordOf(s).roundNo == s.roundNo + 1 && Step(s).maxRounds == s.maxRounds
  {
    StepReady(s);
  }

  lemma RunningState(store: EventStore, runId: string, clock: nat -> int, head: seq<Payload>, tr: seq<RunState>, s: RunState)
    requires Running(store, runId, clock, head, tr, s)
    ensures tr != [] && tr[|tr| - 1] == s && s.Ready() && IsRun(tr)
    ensures Logged(store, runId, clock, head + RoundEvents(Transcript(tr)))
  {
    hide RunState.Ready;
    RunKeeps(tr, |tr| - 1);
  }

  /** The events of one more round continue the log of the run. */
  lemma RunningNext(head: seq<Payload>, tr: seq<RunState>, s': RunState)
    requires IsRun(tr) && Proceeds(tr, |tr| - 1) && tr[|tr| - 1].Ready() && s' == Step(tr[|tr| - 1])
    ensures IsRun(tr + [s'])
    ensures var record := RecordOf(tr[|tr| - 1]);
            head + RoundEvents(Transcript(tr + [s'])) ==
            head + RoundEvents(Transcript(tr)) + [DecisionsMade(Some(record.roundNo), Some(record.summary))]
            + [RoundResolved(record.payload)]
  {
    hide IsRun, Proceeds, Step, RecordOf, Transcript, RoundEvents, RunState.Ready;
    RunOneMore(tr, s');
    RoundEventsOneMore(Transcript(tr), RecordOf(tr[|tr| - 1]));
  }

  /** One turn of the loop. */
  method Turn(store: EventStore, runId: string, s: RunState, clock: nat -> int, ghost head: seq<Payload>,
              ghost tr: seq<RunState>)
    returns (s': RunState)
    requires Running(store, runId, clock, head, tr, s) && Proceeds(tr, |tr| - 1)
    modifies store
    ensures Running(store, runId, clock, head, tr + [s'], s')
    ensures s'.maxRounds == s.maxRounds && s'.roundNo == s.roundNo + 1
    ensures forall other :: other != runId ==> store.Log(other) == old(store.Log(other))
  {
    hide IsRun, Proceeds, Step, RecordOf, Transcript, RoundEvents, Logged, RunState.Ready;
    RunningState(store, runId, clock, head, tr, s);
    RoundNumbers(s);
    s' := OneRound(store, runId, s, clock, head + RoundEvents(Transcript(tr)));
    RunningNext(head, tr, s');
  }

  /** Runs rounds until the routing functions stop, which they do within `max_rounds - round_no` rounds. */
  method RunRounds(store: EventStore, runId: string, start: RunState, clock: nat -> int, ghost head: seq<Payload>)
    returns (s: RunState, ghost tr: seq<RunState>)
    requires start.Ready() && start.roundNo == 0 && start.lastOutcome == None && Logged(store, runId, clock, head)
    modifies store
    ensures Complete(tr) && tr[0] == start && Running(store, runId, clock, head, tr, s)
    ensures forall other :: other != runId ==> store.Log(other) == old(store.Log(other))
  {
    s, tr := start, [start];
    var go := ShouldStart(s);
    assert head + RoundEvents(Transcript(tr)) == head;
    while go
      invariant Running(store, runId, clock, head, tr, s) && tr[0] == start
      invariant go == Proceeds(tr, |tr| - 1)
      invariant forall other :: other != runId ==> store.Log(other) == old(store.Log(other))
      decreases s.maxRounds - s.roundNo, go
    {
      s := Turn(store, runId, s, clock, head, tr);
      tr := tr + [s];
      go := ShouldContinue(s);
    }
  }

  /* ---------- a whole run, and its replay ---------- */

  /** The state the world initializer hands to the loop. */
  ghost predicate Initial(s: RunState, plan: Planning) {
    s.Ready() && s.roundNo == 0 && s.lastOutcome == None && Describes(plan, s)
  }

  /** None of the events gives a round number. */
  ghost predicate AllSilent(payloads: seq<Payload>) {
    forall p :: p in payloads ==> !p.DecisionsMade? && !p.RoundResolved? && !p.SimulationCompleted?
  }

  lemma {:induction false} SameRound(before: seq<Payload>, payloads: seq<Payload>)
    requires AllSilent(payloads)
    ensures RoundSoFar(before + payloads) == RoundSoFar(before)
  {
    if payloads == [] {
      assert before + payloads == before;
    } else {
      var n := |payloads| - 1;
      SplitLast(payloads);
      assert (before + payloads)[..|before| + n] == before + payloads[..n];
      SameRound(before, payloads[..n]);
    }
  }

  /** Appends events of one node or of nodes in a row. */
  method EmitAll(store: EventStore, runId: string, roundNo: int, clock: nat -> int, payloads: seq<Payload>,
                 ghost before: seq<Payload>)
    requires Logged(store, runId, clock, before) && roundNo == RoundSoFar(before) && AllSilent(payloads)
    modifies store
    ensures Logged(store, runId, clock, before + payloads)
    ensures forall other :: other != runId ==> store.Log(other) == old(store.Log(other))
  {
    hide Logged, RoundSoFar;
    var i := 0;
    assert before + payloads[..0] == before;
    while i < |payloads|
      invariant 0 <= i <= |payloads|
      invariant Logged(store, runId, clock, before + payloads[..i])
      invariant forall other :: other != runId ==> store.Log(other) == old(store.Log(other))
    {
      assert before + payloads[..i + 1] == (before + payloads[..i]) + [payloads[i]];
      SameRound(before, payloads[..i + 1]);
      Emit(store, runId, roundNo, clock, payloads[i], before + payloads[..i]);
      i := i + 1;
    }
    assert payloads[..|payloads|] == payloads;
  }

  /** What the world initializer logs. */
  function WorldEvent(plan: Planning): Payload {
    WorldInitialized(Some(plan.worldSummary), Some(plan.participantCount), Some(plan.anchorPeriod), plan.worldWarnings)
  }

  /** The completion event and the four events of the report nodes. */
  method EmitReport(store: EventStore, runId: string, roundNo: int, clock: nat -> int, ghost log: seq<Payload>)
    requires Logged(store, runId, clock, log)
    modifies store
    ensures Logged(store, runId, clock, log + [SimulationCompleted(Some(roundNo))] + REPORT_EVENTS)
    ensures forall other :: other != runId ==> store.Log(other) == old(store.Log(other))
  {
    hide Logged;
    Emit(store, runId, roundNo, clock, SimulationCompleted(Some(roundNo)), log);
    EmitAll(store, runId, roundNo, clock, REPORT_EVENTS, log + [SimulationCompleted(Some(roundNo))]);
  }

  /** A run from its planning events to its report events. */
  method Simulate(store: EventStore, runId: string, ghost plan: Planning, start: RunState, clock: nat -> int)
    returns (s: RunState, ghost tr: seq<RunState>)
    requires Initial(start, plan) && Logged(store, runId, clock, PlanningEvents(plan))
    modifies store
    ensures Complete(tr) && tr[0] == start && tr[|tr| - 1] == s
    ensures Logged(store, runId, clock, RunEvents(plan, tr))
    ensures forall other :: other != runId ==> store.Log(other) == old(store.Log(other))
  {
    hide Logged, PlanningEvents, Describes;
    s, tr := RunRounds(store, runId, start, clock, PlanningEvents(plan));
    RunningState(store, runId, clock, PlanningEvents(plan), tr, s);
    EmitReport(store, runId, s.roundNo, clock, PlanningEvents(plan) + RoundEvents(Transcript(tr)));
  }

  lemma LoggedInOrder(store: EventStore, runId: string, clock: nat -> int, payloads: seq<Payload>)
    requires Monotone(clock) && Logged(store, runId, clock, payloads)
    ensures InOrder(store.Log(runId))
  {
    var events := store.Log(runId);
    forall i, j | 0 <= i < j < |events| ensures events[i].timestamp <= events[j].timestamp {
      assert StampedAt(events, runId, clock, i) && StampedAt(events, runId, clock, j);
    }
  }

  /** What the engine reports about a completed run. */
  ghost predicate Reconstructs(result: ReplayResult, start: RunState, s: RunState, plan: Planning, rounds: nat) {
    && result.full && result.eventCount == 8 + 2 * rounds
    && AgreesLive(result.progress, start, s, rounds)
    && result.progress.anchorPeriod == Some(plan.anchorPeriod) && PlanKept(result.progress, plan)
    && result.progress.state.warnings == plan.scenarioWarnings + plan.worldWarnings
  }

  /** Replay of the events of a completed run. */
  lemma ReplayedRun(store: EventStore, runId: string, plan: Planning, tr: seq<RunState>, clock: nat -> int)
    returns (p: Progress)
    requires IsRun(tr) && Describes(plan, tr[0]) && Monotone(clock) && Logged(store, runId, clock, RunEvents(plan, tr))
    ensures InOrder(store.Log(runId)) && |store.Log(runId)| == 8 + 2 * (|tr| - 1)
    ensures ReplayAll(START, Payloads(store.Log(runId)), false) == Success(p)
    ensures Reconstructs(ResultFor(p, |store.Log(runId)|), tr[0], tr[|tr| - 1], plan, |tr| - 1)
  {
    hide ReplayAll, RunEvents, AgreesLive, Describes, IsRun, Monotone, PlanKept;
    LoggedInOrder(store, runId, clock, RunEvents(plan, tr));
    LogShape(plan, tr);
    p := ReplayAgrees(plan, tr);
  }

  /** Running and then replaying without strictness reconstructs the live end state. */
  method SimulateAndReplay(store: EventStore, runId: string, ghost plan: Planning, start: RunState, clock: nat -> int)
    returns (s: RunState, result: Result<ReplayResult, ReplayError>, ghost tr: seq<RunState>)
    requires Initial(start, plan) && Logged(store, runId, clock, PlanningEvents(plan)) && Monotone(clock)
    modifies store
    ensures Complete(tr) && tr[0] == start && tr[|tr| - 1] == s
    ensures result.Success? && Reconstructs(result.value, start, s, plan, |tr| - 1)
  {
    hide Logged, Monotone, RunEvents, PlanningEvents, Describes, Reconstructs, ResultFor, ReplayAll, Sort, InOrder;
    s, tr := Simulate(store, runId, plan, start, clock);
    ghost var p := ReplayedRun(store, runId, plan, tr, clock);
    result := ReplayRun(store, runId, false);
  }
}
