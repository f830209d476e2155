/** The replay engine, and its agreement with the live run. */
module Replay {
  import opened Wrappers
  import opened Ordering
  import opened Market
  import opened Policies
  import opened Roster
  import opened Resolver
  import opened RunLoop
  import opened EventLog

  /** The reconstructed graph state; `None` where the key is absent. */
  datatype ReplayState = ReplayState(
    intakePlan: Option<IntakePlan>, userQuery: Option<string>, scenario: Option<Scenario>, roster: Option<RosterSpec>,
    maxRounds: Option<int>, roundNo: Option<int>, actions: Option<ActionSummary>, lastOutcome: Option<RoundOutcome>,
    warnings: seq<string>)

  const EMPTY_STATE := ReplayState(None, None, None, None, None, None, None, None, [])

  datatype ReplayError = InvalidIntake | InvalidScenario | UnknownEventType(eventType: string)

  datatype ReplayWarning = NoEvents(runId: string) | Skipped(eventType: string)

  /** What the replay loop carries from event to event. */
  datatype Progress = Progress(
    state: ReplayState, warnings: seq<ReplayWarning>, worldSummary: Option<WorldSummary>,
    participantCount: Option<int>, anchorPeriod: Option<string>)

  const START := Progress(EMPTY_STATE, [], None, None, None)

  /** Apply the handler of one event. */
  function Handle(s: ReplayState, payload: Payload): Result<ReplayState, ReplayError>
    requires !payload.Other?
  {
    match payload
    case IntakePlanned(plan) =>
      if plan == None then Failure(InvalidIntake)
      else Success(s.(intakePlan := plan, userQuery := Some(plan.value.userQuery)))
    case ScenarioBuilt(scenario, roster, maxRounds, warnings) =>
      if scenario == None || roster == None || maxRounds == None then Failure(InvalidScenario)
      else Success(s.(scenario := scenario, roster := roster, maxRounds := maxRounds, warnings := s.warnings + warnings))
    case WorldInitialized(_, _, _, warnings) =>
      Success(s.(warnings := s.warnings + warnings))
    case DecisionsMade(roundNo, summary) =>
      Success(s.(roundNo := if roundNo.Some? then roundNo else s.roundNo,
                 actions := if summary.Some? then summary else s.actions))
    case RoundResolved(round) =>
      Success(s.(roundNo := Some(round.roundNo),
                 lastOutcome := Some(RoundOutcome(round.roundNo, map[], map[], round.transactions))))
    case SimulationCompleted(totalRounds) =>
      Success(s.(roundNo := if totalRounds.Some? then totalRounds else s.roundNo))
  }

  /** One iteration of the replay loop. */
  function ReplayOne(p: Progress, payload: Payload, strict: bool): Result<Progress, ReplayError> {
    if payload.Other? then
      if strict then Failure(UnknownEventType(payload.eventType))
      else Success(p.(warnings := p.warnings + [Skipped(payload.eventType)]))
    else
      match Handle(p.state, payload)
      case Failure(e) => Failure(e)
      case Success(state) =>
        if payload.WorldInitialized? then
          Success(p.(state := state,
                     worldSummary := if payload.worldSummary.Some? then payload.worldSummary else p.worldSummary,
                     participantCount := if payload.participantCount.Some? then payload.participantCount else p.participantCount,
                     anchorPeriod := if payload.anchorPeriod.Some? then payload.anchorPeriod else p.anchorPeriod))
        else Success(p.(state := state))
  }

  function ReplayAll(p: Progress, payloads: seq<Payload>, strict: bool): Result<Progress, ReplayError>
    decreases |payloads|
  {
    if payloads == [] then Success(p) else
      var r := ReplayOne(p, payloads[0], strict);
      if r.Failure? then r else ReplayAll(r.value, payloads[1..], strict)
  }

  datatype ReplayResult = ReplayResult(progress: Progress, full: bool, eventCount: nat)

  function ResultFor(p: Progress, eventCount: nat): ReplayResult {
    ReplayResult(p,
      && p.state.intakePlan.Some? && p.state.scenario.Some? && p.state.roster.Some? && p.state.maxRounds.Some?
      && p.worldSummary.Some? && p.participantCount.Some? && p.anchorPeriod.Some?,
      eventCount)
  }

  method ReplayRun(store: EventStore, runId: string, strict: bool) returns (result: Result<ReplayResult, ReplayError>)
    ensures var events := Sort(Earlier, store.Log(runId));
            && (events == [] ==> result == Success(ReplayResult(START.(warnings := [NoEvents(runId)]), false, 0)))
            && (events != [] ==>
                  var r := ReplayAll(START, Payloads(events), strict);
                  result == if r.Failure? then Failure(r.error) else Success(ResultFor(r.value, |events|)))
    ensures InOrder(store.Log(runId)) ==> Sort(Earlier, store.Log(runId)) == store.Log(runId)
  {
    hide ReplayOne, Sort, InOrder, ResultFor;
    var events := store.GetEvents(runId);
    if events == [] {
      return Success(ReplayResult(START.(warnings := [NoEvents(runId)]), false, 0));
    }
    var p := START;
    var i := 0;
    var payloads := Payloads(events);
    assert payloads[0..] == payloads;
    while i < |events|
      invariant 0 <= i <= |events|
      invariant ReplayAll(p, payloads[i..], strict) == ReplayAll(START, payloads, strict)
    {
      assert payloads[i..][0] == payloads[i] && payloads[i..][1..] == payloads[i + 1..];
      var r := ReplayOne(p, events[i].payload, strict);
      if r.Failure? {
        return Failure(r.error);
      }
      p := r.value;
      i := i + 1;
    }
    result := Success(ResultFor(p, |events|));
  }

  lemma {:induction false} ReplayConcat(p: Progress, xs: seq<Payload>, ys: seq<Payload>, strict: bool)
    ensures var r := ReplayAll(p, xs, strict);
            ReplayAll(p, xs + ys, strict) == if r.Failure? then r else ReplayAll(r.value, ys, strict)
    decreases |xs|
  {
    if xs == [] {
      assert xs + ys == ys;
    } else {
      assert (xs + ys)[1..] == xs[1..] + ys;
      var r := ReplayOne(p, xs[0], strict);
      if r.Success? { ReplayConcat(r.value, xs[1..], ys, strict); }
    }
  }

  lemma ReplayCons(p: Progress, payload: Payload, rest: seq<Payload>, strict: bool)
    ensures var r := ReplayOne(p, payload, strict);
            ReplayAll(p, [payload] + rest, strict) == if r.Failure? then r else ReplayAll(r.value, rest, strict)
  {
    assert ([payload] + rest)[1..] == rest;
  }

  /* ---------- logs of completed runs ---------- */

  /** What the planning nodes of a run log. */
  datatype Planning = Planning(
    plan: IntakePlan, scenario: Scenario, roster: RosterSpec, maxRounds: int, scenarioWarnings: seq<string>,
    worldSummary: WorldSummary, participantCount: int, anchorPeriod: string, worldWarnings: seq<string>)

  /** What the decider and the resolver log in one round. */
  datatype RoundRecord = RoundRecord(roundNo: int, summary: ActionSummary, payload: RoundPayload)

  function PlanningEvents(plan: Planning): seq<Payload> {
    [IntakePlanned(Some(plan.plan))] +
    ([ScenarioBuilt(Some(plan.scenario), Some(plan.roster), Some(plan.maxRounds), plan.scenarioWarnings)] +
     ([WorldInitialized(Some(plan.worldSummary), Some(plan.participantCount), Some(plan.anchorPeriod), plan.worldWarnings)]
      + []))
  }

  /** What the last of some rounds logs. */
  function LastPair(rounds: seq<RoundRecord>): seq<Payload>
    requires rounds != []
  {
    var last := rounds[|rounds| - 1];
    [DecisionsMade(Some(last.roundNo), Some(last.summary))] + ([RoundResolved(last.payload)] + [])
  }

  function RoundEvents(rounds: seq<RoundRecord>): seq<Payload> {
    if rounds == [] then [] else RoundEvents(rounds[..|rounds| - 1]) + LastPair(rounds)
  }

  const REPORT_EVENTS: seq<Payload> :=
    [Other("REPORT_WRITTEN")] + ([Other("CRITIC")] + ([Other("CITATION_GATE")] + ([Other("REPORT_RENDERED")] + [])))

  /** Every event of a completed run, in order. */
  function LogOf(plan: Planning, rounds: seq<RoundRecord>, totalRounds: int): seq<Payload> {
    PlanningEvents(plan) + RoundEvents(rounds) + [SimulationCompleted(Some(totalRounds))] + REPORT_EVENTS
  }

  /** What replay has reconstructed after the planning events and some rounds. */
  function Reconstructed(plan: Planning, rounds: seq<RoundRecord>): Progress {
    var base := ReplayState(Some(plan.plan), Some(plan.plan.userQuery), Some(plan.scenario), Some(plan.roster),
                            Some(plan.maxRounds), None, None, None, plan.scenarioWarnings + plan.worldWarnings);
    var state :=
      if rounds == [] then base else
        var last := rounds[|rounds| - 1];
        base.(roundNo := Some(last.payload.roundNo), actions := Some(last.summary),
              lastOutcome := Some(RoundOutcome(last.payload.roundNo, map[], map[], last.payload.transactions)));
    Progress(state, [], Some(plan.worldSummary), Some(plan.participantCount), Some(plan.anchorPeriod))
  }

  lemma ReplayPlanning(plan: Planning, strict: bool)
    ensures ReplayAll(START, PlanningEvents(plan), strict) == Success(Reconstructed(plan, []))
  {
    var world := [WorldInitialized(Some(plan.worldSummary), Some(plan.participantCount), Some(plan.anchorPeriod),
                                   plan.worldWarnings)] + [];
    var built := [ScenarioBuilt(Some(plan.scenario), Some(plan.roster), Some(plan.maxRounds), plan.scenarioWarnings)] + world;
    var p1 := ReplayOne(START, IntakePlanned(Some(plan.plan)), strict).value;
    ReplayCons(START, IntakePlanned(Some(plan.plan)), built, strict);
    var p2 := ReplayOne(p1, built[0], strict).value;
    ReplayCons(p1, built[0], world, strict);
    ReplayCons(p2, world[0], [], strict);
    assert [] + plan.scenarioWarnings == plan.scenarioWarnings;
  }

  lemma ReplayRound(plan: Planning, rounds: seq<RoundRecord>, record: RoundRecord, strict: bool)
    ensures ReplayAll(Reconstructed(plan, rounds),
                      [DecisionsMade(Some(record.roundNo), Some(record.summary))] + ([RoundResolved(record.payload)] + []),
                      strict) ==
            Success(Reconstructed(plan, rounds + [record]))
  {
    var p := Reconstructed(plan, rounds);
    var made := DecisionsMade(Some(record.roundNo), Some(record.summary));
    ReplayCons(p, made, [RoundResolved(record.payload)] + [], strict);
    ReplayCons(ReplayOne(p, made, strict).value, RoundResolved(record.payload), [], strict);
  }

  lemma RoundEventsSplit(rounds: seq<RoundRecord>)
    requires rounds != []
    ensures RoundEvents(rounds) == RoundEvents(rounds[..|rounds| - 1]) + LastPair(rounds)
  {
    hide LastPair;
  }

  lemma NoRoundEvents(head: seq<Payload>)
    ensures head + RoundEvents([]) == head
  {}

  /** Replaying the planning events and any number of rounds, strict or not. */
  lemma {:induction false} ReplayRounds(plan: Planning, rounds: seq<RoundRecord>, strict: bool)
    ensures ReplayAll(START, PlanningEvents(plan) + RoundEvents(rounds), strict) == Success(Reconstructed(plan, rounds))
    decreases |rounds|
  {
    hide ReplayAll, Reconstructed, PlanningEvents, RoundEvents;
    if rounds == [] {
      ReplayPlanning(plan, strict);
      NoRoundEvents(PlanningEvents(plan));
    } else {
      var n := |rounds| - 1;
      ReplayRounds(plan, rounds[..n], strict);
      RoundEventsSplit(rounds);
      SplitLast(rounds);
      Regroup(PlanningEvents(plan), RoundEvents(rounds[..n]), LastPair(rounds));
      ReplayConcat(START, PlanningEvents(plan) + RoundEvents(rounds[..n]), LastPair(rounds), strict);
      ReplayRound(plan, rounds[..n], rounds[n], strict);
    }
  }

  const SKIPPED_REPORTS :=
    [Skipped("REPORT_WRITTEN"), Skipped("CRITIC"), Skipped("CITATION_GATE"), Skipped("REPORT_RENDERED")]

  lemma ReplayReports(p: Progress)
    requires p.warnings == []
    ensures ReplayAll(p, REPORT_EVENTS, false) == Success(p.(warnings := SKIPPED_REPORTS))
    ensures ReplayAll(p, REPORT_EVENTS, true) == Failure(UnknownEventType("REPORT_WRITTEN"))
  {
    var rendered := [Other("REPORT_RENDERED")] + [];
    var gate := [Other("CITATION_GATE")] + rendered;
    var critic := [Other("CRITIC")] + gate;
    ReplayCons(p, Other("REPORT_WRITTEN"), critic, true);
    ReplayCons(p, Other("REPORT_WRITTEN"), critic, false);
    var p1 := p.(warnings := p.warnings + [Skipped("REPORT_WRITTEN")]);
    ReplayCons(p1, Other("CRITIC"), gate, false);
    var p2 := p1.(warnings := p1.warnings + [Skipped("CRITIC")]);
    ReplayCons(p2, Other("CITATION_GATE"), rendered, false);
    var p3 := p2.(warnings := p2.warnings + [Skipped("CITATION_GATE")]);
    ReplayCons(p3, Other("REPORT_RENDERED"), [], false);
    assert p3.warnings + [Skipped("REPORT_RENDERED")] == SKIPPED_REPORTS;
  }

  /** Best-effort replay of a completed run's log; strict replay rejects its first report event. */
  lemma ReplayLog(plan: Planning, rounds: seq<RoundRecord>, totalRounds: int)
    ensures var p := Reconstructed(plan, rounds);
            ReplayAll(START, LogOf(plan, rounds, totalRounds), false) ==
              Success(p.(state := p.state.(roundNo := Some(totalRounds)), warnings := SKIPPED_REPORTS))
    ensures ReplayAll(START, LogOf(plan, rounds, totalRounds), true) == Failure(UnknownEventType("REPORT_WRITTEN"))
  {
    ReplayLogHead(plan, rounds, totalRounds, false);
    ReplayLogHead(plan, rounds, totalRounds, true);
    var p := Reconstructed(plan, rounds);
    var head := PlanningEvents(plan) + RoundEvents(rounds) + [SimulationCompleted(Some(totalRounds))];
    ReplayConcat(START, head, REPORT_EVENTS, false);
    ReplayConcat(START, head, REPORT_EVENTS, true);
    ReplayReports(p.(state := p.state.(roundNo := Some(totalRounds))));
  }

  lemma ReplayLogHead(plan: Planning, rounds: seq<RoundRecord>, totalRounds: int, strict: bool)
    ensures var p := Reconstructed(plan, rounds);
            ReplayAll(START, PlanningEvents(plan) + RoundEvents(rounds) + [SimulationCompleted(Some(totalRounds))], strict) ==
              Success(p.(state := p.state.(roundNo := Some(totalRounds))))
  {
    var completed := SimulationCompleted(Some(totalRounds));
    ReplayRounds(plan, rounds, strict);
    ReplayConcat(START, PlanningEvents(plan) + RoundEvents(rounds), [completed], strict);
    assert [completed] == [completed] + [];
    ReplayCons(Reconstructed(plan, rounds), completed, [], strict);
  }

  /* ---------- the live run ---------- */

  function SummaryOf(actions: seq<Entry>): ActionSummary {
    var acts := ActionMap(actions);
    map p | p in acts :: (acts[p].actionType, acts[p].target)
  }

  /** What the round from state `s` logs. */
  ghost function RecordOf(s: RunState): RoundRecord
    requires s.Ready()
  {
    RoundRecord(s.roundNo + 1, SummaryOf(Decisions(s)), Resolve(RoundOf(s), s.roundNo + 1).payload)
  }

  ghost function Transcript(tr: seq<RunState>): (rounds: seq<RoundRecord>)
    requires IsRun(tr)
    ensures |rounds| == |tr| - 1
  {
    RunReady(tr);
    seq(|tr| - 1, i requires 0 <= i < |tr| - 1 => RecordOf(tr[i]))
  }

  lemma RunReady(tr: seq<RunState>)
    requires IsRun(tr)
    ensures forall i :: 0 <= i < |tr| ==> tr[i].Ready()
  {
    forall i | 0 <= i < |tr| ensures tr[i].Ready() { RunKeeps(tr, i); }
  }

  /** Every event of a completed run. */
  ghost function RunEvents(plan: Planning, tr: seq<RunState>): seq<Payload>
    requires IsRun(tr)
  {
    LogOf(plan, Transcript(tr), tr[|tr| - 1].roundNo)
  }

  /** Replay keeps the round number and the trade count of an outcome. */
  predicate SameOutcome(replayed: Option<RoundOutcome>, live: Option<RoundOutcome>) {
    match (replayed, live)
    case (None, None) => true
    case (Some(a), Some(b)) => a.roundNo == b.roundNo && a.resolved == b.resolved
    case _ => false
  }

  /** What a round logs repeats the numbers of its outcome. */
  ghost predicate Records(record: RoundRecord, s': RunState, roundNo: int) {
    && record.roundNo == record.payload.roundNo == roundNo
    && s'.lastOutcome.Some? && s'.lastOutcome.value.roundNo == roundNo
    && record.payload.transactions == s'.lastOutcome.value.resolved
    && record.summary == SummaryOf(s'.actions)
  }

  lemma StepRecords(s: RunState)
    requires s.Ready()
    ensures Records(RecordOf(s), Step(s), s.roundNo + 1)
  {}

  lemma TranscriptAt(tr: seq<RunState>, i: nat)
    requires IsRun(tr) && i + 1 < |tr|
    ensures Records(Transcript(tr)[i], tr[i + 1], i + 1)
  {
    RunKeeps(tr, i);
    LinkedRecords(tr, i, Transcript(tr)[i]);
  }

  lemma LinkedRecords(tr: seq<RunState>, i: nat, record: RoundRecord)
    requires i + 1 < |tr| && Linked(tr, i) && record == RecordOf(tr[i])
    ensures Records(record, tr[i + 1], tr[i].roundNo + 1)
  {
    StepRecords(tr[i]);
  }

  /** Price and volume of every district. */
  function SummaryOfWorld(world: World): WorldSummary {
    map gu | gu in world :: (world[gu].medianPrice, world[gu].volume)
  }

  /** What the planning nodes log about the state the loop starts from. */
  ghost predicate Describes(plan: Planning, start: RunState) {
    && plan.scenario == start.scenario && plan.maxRounds == start.maxRounds
    && plan.worldSummary == SummaryOfWorld(start.world) && plan.participantCount == |start.people|
  }

  /** What is replayed agrees with the live end state; the world is summarized as it was at the start. */
  ghost predicate AgreesLive(p: Progress, start: RunState, last: RunState, rounds: nat) {
    && p.state.scenario == Some(last.scenario) && p.state.maxRounds == Some(last.maxRounds)
    && p.state.roundNo == Some(last.roundNo) && SameOutcome(p.state.lastOutcome, last.lastOutcome)
    && p.state.actions == (if rounds == 0 then None else Some(SummaryOf(last.actions)))
    && p.participantCount == Some(|last.people|)
    && p.worldSummary == Some(SummaryOfWorld(start.world)) && p.worldSummary.value.Keys == last.world.Keys
  }

  /** What the end of a run has in common with its start. */
  lemma LastKeeps(tr: seq<RunState>)
    requires IsRun(tr)
    ensures var start, last := tr[0], tr[|tr| - 1];
            && last.scenario == start.scenario && last.maxRounds == start.maxRounds && last.roundNo == |tr| - 1
            && last.world.Keys == start.world.Keys && |last.people| == |start.people|
    ensures |tr| == 1 ==> tr[0].lastOutcome == None
  {
    RunKeeps(tr, |tr| - 1);
    SameSize(tr[0].people, tr[|tr| - 1].people);
  }

  lemma SameSize(a: People, b: People)
    requires a.Keys == b.Keys
    ensures |a| == |b|
  {
    assert |a| == |a.Keys| && |b| == |b.Keys|;
  }

  /** What replay has reconstructed after the whole log of a completed run. */
  function ReplayedEnd(plan: Planning, rounds: seq<RoundRecord>, totalRounds: int): Progress {
    var p := Reconstructed(plan, rounds);
    p.(state := p.state.(roundNo := Some(totalRounds)), warnings := SKIPPED_REPORTS)
  }

  lemma EndAgrees(plan: Planning, rounds: seq<RoundRecord>, start: RunState, last: RunState)
    requires Describes(plan, start) && last.scenario == start.scenario && last.maxRounds == start.maxRounds
    requires last.world.Keys == start.world.Keys && |last.people| == |start.people|
    requires if rounds == [] then last.lastOutcome == None else Records(rounds[|rounds| - 1], last, last.roundNo)
    ensures AgreesLive(ReplayedEnd(plan, rounds, last.roundNo), start, last, |rounds|)
  {
    hide SummaryOf;
  }

  /** The request is restored whole. */
  ghost predicate PlanKept(p: Progress, plan: Planning) {
    && p.state.intakePlan == Some(plan.plan) && p.state.userQuery == Some(plan.plan.userQuery)
    && p.state.roster == Some(plan.roster)
  }

  lemma EndIsFull(plan: Planning, rounds: seq<RoundRecord>, totalRounds: int)
    ensures var p := ReplayedEnd(plan, rounds, totalRounds);
            && p.state.warnings == plan.scenarioWarnings + plan.worldWarnings && p.warnings == SKIPPED_REPORTS
            && p.anchorPeriod == Some(plan.anchorPeriod) && PlanKept(p, plan) && forall n :: ResultFor(p, n).full
  {}

  lemma LastRecorded(tr: seq<RunState>)
    requires IsRun(tr)
    ensures var rounds, last := Transcript(tr), tr[|tr| - 1];
            if rounds == [] then last.lastOutcome == None else Records(rounds[|rounds| - 1], last, last.roundNo)
  {
    hide Records, Transcript, RunState.Ready;
    LastKeeps(tr);
    if |tr| > 1 { TranscriptAt(tr, |tr| - 2); }
  }

  /**
   Replay agrees with the live run: for every run of any number of rounds, best-effort
   replay of its events gives the live scenario, limit, round number, action summary,
   outcome numbers and participant count, and is complete; strict replay rejects the first
   report event.
   */
  lemma ReplayAgrees(plan: Planning, tr: seq<RunState>) returns (p: Progress)
    requires IsRun(tr) && Describes(plan, tr[0])
    ensures ReplayAll(START, RunEvents(plan, tr), false) == Success(p)
    ensures AgreesLive(p, tr[0], tr[|tr| - 1], |tr| - 1)
    ensures p.state.warnings == plan.scenarioWarnings + plan.worldWarnings && p.warnings == SKIPPED_REPORTS
    ensures p.anchorPeriod == Some(plan.anchorPeriod) && PlanKept(p, plan)
    ensures ResultFor(p, |RunEvents(plan, tr)|).full
    ensures ReplayAll(START, RunEvents(plan, tr), true) == Failure(UnknownEventType("REPORT_WRITTEN"))
  {
    hide ReplayAll, IsRun, LogOf, Reconstructed, AgreesLive, Describes, Records, ResultFor, Transcript, RunState.Ready,
      PlanKept;
    var rounds, last := Transcript(tr), tr[|tr| - 1];
    ReplayLog(plan, rounds, last.roundNo);
    p := ReplayedEnd(plan, rounds, last.roundNo);
    LastKeeps(tr);
    LastRecorded(tr);
    EndAgrees(plan, rounds, tr[0], last);
    EndIsFull(plan, rounds, last.roundNo);
  }

  lemma {:induction false} RoundEventsAt(rounds: seq<RoundRecord>, k: nat)
    ensures |RoundEvents(rounds)| == 2 * |rounds|
    ensures k < |rounds| ==>
      && RoundEvents(rounds)[2 * k] == DecisionsMade(Some(rounds[k].roundNo), Some(rounds[k].summary))
      && RoundEvents(rounds)[2 * k + 1] == RoundResolved(rounds[k].payload)
  {
    if rounds != [] { RoundEventsAt(rounds[..|rounds| - 1], k); }
  }

  lemma RoundPairAt(plan: Planning, tr: seq<RunState>, k: nat)
    requires IsRun(tr) && k + 1 < |tr|
    ensures IsRoundPair(RunEvents(plan, tr), k)
  {
    TranscriptAt(tr, k);
    var rounds := Transcript(tr);
    RoundEventsAt(rounds, k);
    PairAt(plan, rounds, tr[|tr| - 1].roundNo, k);
  }

  lemma LogLength(plan: Planning, rounds: seq<RoundRecord>, totalRounds: int)
    ensures |LogOf(plan, rounds, totalRounds)| == 8 + 2 * |rounds|
  {
    RoundEventsAt(rounds, 0);
  }

  /** The log of a run with R rounds has 8 + 2R events, with the rounds as consecutive numbered pairs. */
  lemma LogShape(plan: Planning, tr: seq<RunState>)
    requires IsRun(tr)
    ensures |RunEvents(plan, tr)| == 8 + 2 * (|tr| - 1)
    ensures forall k :: 0 <= k < |tr| - 1 ==> IsRoundPair(RunEvents(plan, tr), k)
  {
    LogLength(plan, Transcript(tr), tr[|tr| - 1].roundNo);
    forall k | 0 <= k < |tr| - 1 ensures IsRoundPair(RunEvents(plan, tr), k) {
      RoundPairAt(plan, tr, k);
    }
  }

  /** The k-th pair of round events belongs to round k + 1. */
  ghost predicate IsRoundPair(events: seq<Payload>, k: nat) {
    && 2 * k + 4 < |events|
    && events[2 * k + 3].DecisionsMade? && events[2 * k + 3].roundNo == Some(k + 1)
    && events[2 * k + 4].RoundResolved? && events[2 * k + 4].round.roundNo == k + 1
  }

  lemma PairAt(plan: Planning, rounds: seq<RoundRecord>, totalRounds: int, k: nat)
    requires k < |rounds| && |RoundEvents(rounds)| == 2 * |rounds|
    ensures LogOf(plan, rounds, totalRounds)[2 * k + 3] == RoundEvents(rounds)[2 * k]
    ensures LogOf(plan, rounds, totalRounds)[2 * k + 4] == RoundEvents(rounds)[2 * k + 1]
  {}
}
