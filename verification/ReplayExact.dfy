/** What a replay makes of any log, event by event: when it fails, what it restores and when it is complete. */
module ReplayExact {
  import opened Wrappers
  import opened Market
  import opened Policies
  import opened Roster
  import opened Resolver
  import opened RunLoop
  import opened EventLog
  import opened Replay
  import opened WorldInitializer

  /* ---------- when a replay fails ---------- */

  /** An event no replay gets past: a broken intake or scenario, and in strict mode an event without a handler. */
  ghost predicate Stops(e: Payload, strict: bool) {
    || (e.IntakePlanned? && e.plan == None)
    || (e.ScenarioBuilt? && (e.scenario == None || e.roster == None || e.maxRounds == None))
    || (e.Other? && strict)
  }

  ghost predicate ErrorFor(e: Payload, error: ReplayError) {
    match error
    case InvalidIntake => e.IntakePlanned?
    case InvalidScenario => e.ScenarioBuilt?
    case UnknownEventType(name) => e == Other(name)
  }

  ghost predicate FirstStop(log: seq<Payload>, strict: bool, k: nat) {
    k < |log| && Stops(log[k], strict) && forall j :: 0 <= j < k ==> !Stops(log[j], strict)
  }

  lemma {:induction false} ReplaySplit(log: seq<Payload>, n: nat, strict: bool)
    requires n < |log|
    ensures var before := ReplayAll(START, log[..n], strict);
            ReplayAll(START, log[..n + 1], strict) == if before.Failure? then before else ReplayOne(before.value, log[n], strict)
  {
    hide ReplayOne;
    assert log[..n + 1] == log[..n] + ([log[n]] + []);
    ReplayConcat(START, log[..n], [log[n]] + [], strict);
    var before := ReplayAll(START, log[..n], strict);
    if before.Success? {
      ReplayCons(before.value, log[n], [], strict);
    }
  }

  lemma OneStops(p: Progress, e: Payload, strict: bool)
    ensures var r := ReplayOne(p, e, strict);
            (r.Failure? <==> Stops(e, strict)) && (r.Failure? ==> ErrorFor(e, r.error))
  {}

  lemma {:induction false} PrefixFails(log: seq<Payload>, n: nat, strict: bool)
    requires n <= |log|
    ensures var r := ReplayAll(START, log[..n], strict);
            && (r.Success? ==> forall j :: 0 <= j < n ==> !Stops(log[j], strict))
            && (r.Failure? ==> exists k: nat :: k < n && FirstStop(log, strict, k) && ErrorFor(log[k], r.error))
  {
    hide ReplayAll, ReplayOne, Stops, ErrorFor;
    if n == 0 {
      assert log[..0] == [];
      NothingReplayed(strict);
    } else {
      PrefixFails(log, n - 1, strict);
      ReplaySplit(log, n - 1, strict);
      var before := ReplayAll(START, log[..n - 1], strict);
      if before.Success? {
        OneStops(before.value, log[n - 1], strict);
        if Stops(log[n - 1], strict) {
          assert FirstStop(log, strict, n - 1);
        }
      }
    }
  }

  lemma NothingReplayed(strict: bool)
    ensures ReplayAll(START, [], strict) == Success(START)
  {}

  /** A replay fails exactly if some event stops it, and with the error of the first that does. */
  lemma FailsExactly(log: seq<Payload>, strict: bool)
    ensures var r := ReplayAll(START, log, strict);
            && (r.Failure? <==> exists k :: 0 <= k < |log| && Stops(log[k], strict))
            && (r.Failure? ==> exists k: nat :: FirstStop(log, strict, k) && ErrorFor(log[k], r.error))
  {
    hide ReplayAll, Stops, ErrorFor;
    assert log[..|log|] == log;
    PrefixFails(log, |log|, strict);
  }

  /* ---------- what a replay restores ---------- */

  ghost function IntakeIn(e: Payload): Option<IntakePlan> { if e.IntakePlanned? then e.plan else None }

  ghost function QueryIn(e: Payload): Option<string> {
    if e.IntakePlanned? && e.plan.Some? then Some(e.plan.value.userQuery) else None
  }

  ghost function ScenarioIn(e: Payload): Option<Scenario> { if e.ScenarioBuilt? then e.scenario else None }

  ghost function RosterIn(e: Payload): Option<RosterSpec> { if e.ScenarioBuilt? then e.roster else None }

  ghost function LimitIn(e: Payload): Option<int> { if e.ScenarioBuilt? then e.maxRounds else None }

  ghost function RoundIn(e: Payload): Option<int> {
    if e.DecisionsMade? then e.roundNo else if e.RoundResolved? then Some(e.round.roundNo)
    else if e.SimulationCompleted? then e.totalRounds else None
  }

  ghost function ActionsIn(e: Payload): Option<ActionSummary> { if e.DecisionsMade? then e.summary else None }

  ghost function OutcomeIn(e: Payload): Option<RoundOutcome> {
    if e.RoundResolved? then Some(RoundOutcome(e.round.roundNo, map[], map[], e.round.transactions)) else None
  }

  ghost function SummaryIn(e: Payload): Option<WorldSummary> { if e.WorldInitialized? then e.worldSummary else None }

  ghost function CountIn(e: Payload): Option<int> { if e.WorldInitialized? then e.participantCount else None }

  ghost function AnchorIn(e: Payload): Option<string> { if e.WorldInitialized? then e.anchorPeriod else None }

  /** `value` is what the last event that gives one gives; none, if no event does. */
  ghost predicate LastGiven<T(!new)>(log: seq<Payload>, gives: Payload -> Option<T>, value: Option<T>) {
    if value.None? then forall k :: 0 <= k < |log| ==> gives(log[k]).None?
    else exists k :: 0 <= k < |log| && gives(log[k]) == value && forall j :: k < j < |log| ==> gives(log[j]).None?
  }

  lemma GivenNext<T(!new)>(log: seq<Payload>, e: Payload, gives: Payload -> Option<T>, value: Option<T>)
    requires LastGiven(log, gives, value)
    ensures LastGiven(log + [e], gives, if gives(e).Some? then gives(e) else value)
  {
    var log' := log + [e];
    if gives(e).Some? {
      assert log'[|log|] == e;
    } else if value.Some? {
      var k :| 0 <= k < |log| && gives(log[k]) == value && forall j :: k < j < |log| ==> gives(log[j]).None?;
      assert log'[k] == log[k];
    }
  }

  lemma GivenOnce<T(!new)>(log: seq<Payload>, gives: Payload -> Option<T>, value: Option<T>)
    requires LastGiven(log, gives, value)
    ensures value.Some? <==> exists e :: e in log && gives(e).Some?
  {
    if e :| e in log && gives(e).Some? {
      var k :| 0 <= k < |log| && log[k] == e;
      assert value.Some?;
    }
  }

  /** The warnings the events carry, in order. */
  ghost function WarningsIn(log: seq<Payload>): seq<string> {
    if log == [] then [] else
      var e := log[|log| - 1];
      WarningsIn(log[..|log| - 1]) + (if e.ScenarioBuilt? || e.WorldInitialized? then e.warnings else [])
  }

  /** One warning of the engine's own per event it has no handler for. */
  ghost function SkippedIn(log: seq<Payload>): seq<ReplayWarning> {
    if log == [] then [] else
      var e := log[|log| - 1];
      SkippedIn(log[..|log| - 1]) + (if e.Other? then [Skipped(e.eventType)] else [])
  }

  ghost predicate PlanRestored(log: seq<Payload>, s: ReplayState) {
    && LastGiven(log, IntakeIn, s.intakePlan) && LastGiven(log, QueryIn, s.userQuery)
    && LastGiven(log, ScenarioIn, s.scenario) && LastGiven(log, RosterIn, s.roster) && LastGiven(log, LimitIn, s.maxRounds)
  }

  ghost predicate RoundsRestored(log: seq<Payload>, s: ReplayState) {
    && LastGiven(log, RoundIn, s.roundNo) && LastGiven(log, ActionsIn, s.actions) && LastGiven(log, OutcomeIn, s.lastOutcome)
  }

  ghost predicate WorldRestored(log: seq<Payload>, p: Progress) {
    && LastGiven(log, SummaryIn, p.worldSummary) && LastGiven(log, CountIn, p.participantCount)
    && LastGiven(log, AnchorIn, p.anchorPeriod)
  }

  ghost predicate Restored(log: seq<Payload>, p: Progress) {
    && PlanRestored(log, p.state) && RoundsRestored(log, p.state) && WorldRestored(log, p)
    && p.state.warnings == WarningsIn(log) && p.warnings == SkippedIn(log)
  }

  /** What one event changes. */
  lemma OneReplayed(p: Progress, e: Payload, strict: bool)
    requires !Stops(e, strict)
    ensures ReplayOne(p, e, strict).Success?
    ensures var p' := ReplayOne(p, e, strict).value;
            && p'.state.intakePlan == (if IntakeIn(e).Some? then IntakeIn(e) else p.state.intakePlan)
            && p'.state.userQuery == (if QueryIn(e).Some? then QueryIn(e) else p.state.userQuery)
            && p'.state.scenario == (if ScenarioIn(e).Some? then ScenarioIn(e) else p.state.scenario)
            && p'.state.roster == (if RosterIn(e).Some? then RosterIn(e) else p.state.roster)
            && p'.state.maxRounds == (if LimitIn(e).Some? then LimitIn(e) else p.state.maxRounds)
            && p'.state.roundNo == (if RoundIn(e).Some? then RoundIn(e) else p.state.roundNo)
            && p'.state.actions == (if ActionsIn(e).Some? then ActionsIn(e) else p.state.actions)
            && p'.state.lastOutcome == (if OutcomeIn(e).Some? then OutcomeIn(e) else p.state.lastOutcome)
            && p'.worldSummary == (if SummaryIn(e).Some? then SummaryIn(e) else p.worldSummary)
            && p'.participantCount == (if CountIn(e).Some? then CountIn(e) else p.participantCount)
            && p'.anchorPeriod == (if AnchorIn(e).Some? then AnchorIn(e) else p.anchorPeriod)
            && p'.state.warnings == p.state.warnings + (if e.ScenarioBuilt? || e.WorldInitialized? then e.warnings else [])
            && p'.warnings == p.warnings + (if e.Other? then [Skipped(e.eventType)] else [])
  {}

  lemma PlanNext(log: seq<Payload>, e: Payload, p: Progress, strict: bool)
    requires !Stops(e, strict) && PlanRestored(log, p.state)
    ensures ReplayOne(p, e, strict).Success? && PlanRestored(log + [e], ReplayOne(p, e, strict).value.state)
  {
    hide LastGiven, ReplayOne, IntakeIn, QueryIn, ScenarioIn, RosterIn, LimitIn;
    OneReplayed(p, e, strict);
    GivenNext(log, e, IntakeIn, p.state.intakePlan);
    GivenNext(log, e, QueryIn, p.state.userQuery);
    GivenNext(log, e, ScenarioIn, p.state.scenario);
    GivenNext(log, e, RosterIn, p.state.roster);
    GivenNext(log, e, LimitIn, p.state.maxRounds);
  }

  lemma RoundsNext(log: seq<Payload>, e: Payload, p: Progress, strict: bool)
    requires !Stops(e, strict) && RoundsRestored(log, p.state)
    ensures ReplayOne(p, e, strict).Success? && RoundsRestored(log + [e], ReplayOne(p, e, strict).value.state)
  {
    hide LastGiven, ReplayOne, RoundIn, ActionsIn, OutcomeIn;
    OneReplayed(p, e, strict);
    GivenNext(log, e, RoundIn, p.state.roundNo);
    GivenNext(log, e, ActionsIn, p.state.actions);
    GivenNext(log, e, OutcomeIn, p.state.lastOutcome);
  }

  lemma WorldNext(log: seq<Payload>, e: Payload, p: Progress, strict: bool)
    requires !Stops(e, strict) && WorldRestored(log, p)
    ensures ReplayOne(p, e, strict).Success? && WorldRestored(log + [e], ReplayOne(p, e, strict).value)
  {
    hide LastGiven, ReplayOne, SummaryIn, CountIn, AnchorIn;
    OneReplayed(p, e, strict);
    GivenNext(log, e, SummaryIn, p.worldSummary);
    GivenNext(log, e, CountIn, p.participantCount);
    GivenNext(log, e, AnchorIn, p.anchorPeriod);
  }

  lemma RestoredNext(log: seq<Payload>, e: Payload, p: Progress, strict: bool)
    requires !Stops(e, strict) && Restored(log, p)
    ensures ReplayOne(p, e, strict).Success? && Restored(log + [e], ReplayOne(p, e, strict).value)
  {
    hide PlanRestored, RoundsRestored, WorldRestored, ReplayOne;
    OneReplayed(p, e, strict);
    PlanNext(log, e, p, strict);
    RoundsNext(log, e, p, strict);
    WorldNext(log, e, p, strict);
    assert (log + [e])[..|log|] == log;
  }

  /** After a replay every key holds what the last event that gives it says, and every warning is kept in order. */
  lemma {:induction false} ReplayRestores(log: seq<Payload>, strict: bool, p: Progress)
    requires ReplayAll(START, log, strict) == Success(p)
    ensures Restored(log, p)
    decreases |log|
  {
    hide ReplayOne, Restored, Stops;
    if log == [] {
      NothingRestored();
    } else {
      var n := |log| - 1;
      ReplaySplit(log, n, strict);
      assert log[..n + 1] == log && log[..n] + [log[n]] == log;
      var before := ReplayAll(START, log[..n], strict);
      ReplayRestores(log[..n], strict, before.value);
      OneStops(before.value, log[n], strict);
      RestoredNext(log[..n], log[n], before.value, strict);
    }
  }

  lemma NothingRestored()
    ensures Restored([], START)
  {}

  /* ---------- when a replay is complete ---------- */

  /** The log holds an event of each planning node, and the world events give the summary, the count and the anchor. */
  ghost predicate FullLog(log: seq<Payload>) {
    && (exists e :: e in log && e.IntakePlanned?)
    && (exists e :: e in log && e.ScenarioBuilt?)
    && (exists e :: e in log && e.WorldInitialized? && e.worldSummary.Some?)
    && (exists e :: e in log && e.WorldInitialized? && e.participantCount.Some?)
    && (exists e :: e in log && e.WorldInitialized? && e.anchorPeriod.Some?)
  }

  /** A successful replay is complete exactly for a full log. */
  lemma FullExactly(log: seq<Payload>, strict: bool, p: Progress)
    requires ReplayAll(START, log, strict) == Success(p)
    ensures ResultFor(p, |log|).full <==> FullLog(log)
    ensures ResultFor(p, |log|).progress == p && ResultFor(p, |log|).eventCount == |log|
  {
    hide ReplayAll, LastGiven;
    ReplayRestores(log, strict, p);
    FailsExactly(log, strict);
    forall e | e in log ensures !Stops(e, strict) { var k :| 0 <= k < |log| && log[k] == e; }
    GivenOnce(log, IntakeIn, p.state.intakePlan);
    GivenOnce(log, ScenarioIn, p.state.scenario);
    GivenOnce(log, RosterIn, p.state.roster);
    GivenOnce(log, LimitIn, p.state.maxRounds);
    GivenOnce(log, SummaryIn, p.worldSummary);
    GivenOnce(log, CountIn, p.participantCount);
    GivenOnce(log, AnchorIn, p.anchorPeriod);
  }

  /** A log that stopped before the world was initialized is replayed in part. */
  lemma PartialBeforeWorld(log: seq<Payload>, strict: bool, p: Progress)
    requires ReplayAll(START, log, strict) == Success(p) && forall e :: e in log ==> !e.WorldInitialized?
    ensures !ResultFor(p, |log|).full
  {
    FullExactly(log, strict, p);
  }

  /** The log of a run without target districts replays to its request, in part. */
  lemma RequestReplays(request: Request, strict: bool) returns (p: Progress)
    ensures ReplayAll(START, RequestEvents(request), strict) == Success(p) && !ResultFor(p, 2).full
    ensures p.state == ReplayState(Some(request.plan), Some(request.plan.userQuery), Some(request.scenario),
                                   Some(request.roster), Some(request.maxRounds), None, None, None, request.warnings)
    ensures p.warnings == [] && p.worldSummary == None && p.participantCount == None && p.anchorPeriod == None
  {
    hide ReplayAll;
    var built := ScenarioBuilt(Some(request.scenario), Some(request.roster), Some(request.maxRounds), request.warnings);
    assert RequestEvents(request) == [IntakePlanned(Some(request.plan))] + ([built] + []);
    ReplayCons(START, IntakePlanned(Some(request.plan)), [built] + [], strict);
    var planned := ReplayOne(START, IntakePlanned(Some(request.plan)), strict).value;
    ReplayCons(planned, built, [], strict);
    p := ReplayOne(planned, built, strict).value;
    NothingLeft(p, strict);
    PartialBeforeWorld(RequestEvents(request), strict, p);
  }

  lemma NothingLeft(p: Progress, strict: bool)
    ensures ReplayAll(p, [], strict) == Success(p)
  {}

  /* ---------- the log of a run ---------- */

  /** The events of a completed run: planning, two per round, completion and report. */
  lemma LogExactly(plan: Planning, tr: seq<RunState>)
    requires IsRun(tr)
    ensures |RunEvents(plan, tr)| == 8 + 2 * (|tr| - 1)
    ensures var log, n := RunEvents(plan, tr), 2 * (|tr| - 1);
            && log[0] == IntakePlanned(Some(plan.plan))
            && log[1] == ScenarioBuilt(Some(plan.scenario), Some(plan.roster), Some(plan.maxRounds), plan.scenarioWarnings)
            && log[2] == WorldInitialized(Some(plan.worldSummary), Some(plan.participantCount), Some(plan.anchorPeriod),
                                          plan.worldWarnings)
            && log[n + 3] == SimulationCompleted(Some(tr[|tr| - 1].roundNo))
            && log[n + 4..] == [Other("REPORT_WRITTEN"), Other("CRITIC"), Other("CITATION_GATE"), Other("REPORT_RENDERED")]
  {
    hide IsRun, Transcript;
    LogShape(plan, tr);
    EndsOf(plan, Transcript(tr), tr[|tr| - 1].roundNo);
  }

  lemma EndsOf(plan: Planning, rounds: seq<RoundRecord>, totalRounds: int)
    ensures var log, n := LogOf(plan, rounds, totalRounds), 2 * |rounds|;
            && |log| == 8 + n
            && log[..3] == PlanningEvents(plan)
            && log[n + 3] == SimulationCompleted(Some(totalRounds)) && log[n + 4..] == REPORT_EVENTS
  {
    RoundEventsAt(rounds, 0);
  }

  /** The two events of a round: what was proposed in it, and what its resolution changed. */
  lemma RoundLogged(plan: Planning, tr: seq<RunState>, k: nat)
    requires IsRun(tr) && k + 1 < |tr|
    ensures 2 * k + 4 < |RunEvents(plan, tr)| && tr[k].Ready()
    ensures RunEvents(plan, tr)[2 * k + 3] == DecisionsMade(Some(k + 1), Some(SummaryOf(Decisions(tr[k]))))
    ensures RunEvents(plan, tr)[2 * k + 4] == RoundResolved(Resolve(RoundOf(tr[k]), k + 1).payload)
  {
    hide Resolve, Decisions, SummaryOf, RoundOf, IsRun, LogOf, RunState.Ready;
    LogShape(plan, tr);
    RunKeeps(tr, k);
    var rounds := Transcript(tr);
    RoundEventsAt(rounds, k);
    PairAt(plan, rounds, tr[|tr| - 1].roundNo, k);
  }
}
