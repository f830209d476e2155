/** Simulation events, and the in-memory event store. */
module EventLog {
  import opened Wrappers
  import opened Ordering
  import opened Market
  import opened Policies
  import opened Roster

  datatype IntakePlan = IntakePlan(userQuery: string, objective: string, horizonMonths: int)

  /** `action_summary`: action type and target by participant. */
  type ActionSummary = map<string, (ActionType, string)>

  /** Price and volume by district. */
  type WorldSummary = map<string, (int, int)>

  /** Event payloads. `None` stands for a field that is absent or of the wrong type. */
  datatype Payload =
    | IntakePlanned(plan: Option<IntakePlan>)
    | ScenarioBuilt(scenario: Option<Scenario>, roster: Option<RosterSpec>, maxRounds: Option<int>, warnings: seq<string>)
    | WorldInitialized(worldSummary: Option<WorldSummary>, participantCount: Option<int>, anchorPeriod: Option<string>,
                       warnings: seq<string>)
    | DecisionsMade(roundNo: Option<int>, summary: Option<ActionSummary>)
    | RoundResolved(round: RoundPayload)
    | SimulationCompleted(totalRounds: Option<int>)
    | Other(eventType: string)

  datatype Event = Event(runId: string, roundNo: int, timestamp: int, payload: Payload)

  predicate Earlier(a: Event, b: Event) { a.timestamp < b.timestamp }

  function Payloads(events: seq<Event>): seq<Payload> {
    seq(|events|, i requires 0 <= i < |events| => events[i].payload)
  }

  /** Timestamps never go back. */
  ghost predicate InOrder(events: seq<Event>) {
    forall i, j :: 0 <= i < j < |events| ==> events[i].timestamp <= events[j].timestamp
  }

  /** The events of one moment, in their order. */
  ghost function AtTime(events: seq<Event>, time: int): seq<Event> {
    if events == [] then [] else (if events[0].timestamp == time then [events[0]] else []) + AtTime(events[1..], time)
  }

  lemma {:induction false} AtTimeTies(events: seq<Event>, e: Event)
    ensures AtTime(events, e.timestamp) == Ties(Earlier, e, events)
  {
    if events != [] { AtTimeTies(events[1..], e); }
  }

  /** Sorting by time puts events in order and leaves those of one moment in theirs. */
  lemma SortedByTime(events: seq<Event>, time: int)
    ensures InOrder(Sort(Earlier, events)) && AtTime(Sort(Earlier, events), time) == AtTime(events, time)
  {
    hide AtTime, Sort;
    var e := Event("", 0, time, Other(""));
    SortOrdered(Earlier, events);
    SortStable(Earlier, e, events);
    AtTimeTies(events, e);
    AtTimeTies(Sort(Earlier, events), e);
    var sorted := Sort(Earlier, events);
    forall i, j | 0 <= i < j < |sorted| ensures sorted[i].timestamp <= sorted[j].timestamp {
      assert !Earlier(sorted[j], sorted[i]);
    }
  }

  class EventStore {
    var byRun: map<string, seq<Event>>

    function Log(runId: string): seq<Event>
      reads this
    {
      if runId in byRun then byRun[runId] else []
    }

    constructor ()
      ensures forall runId :: Log(runId) == []
    {
      byRun := map[];
    }

    method Append(e: Event)
      modifies this
      ensures Log(e.runId) == old(Log(e.runId)) + [e]
      ensures forall runId :: runId != e.runId ==> Log(runId) == old(Log(runId))
    {
      byRun := byRun[e.runId := Log(e.runId) + [e]];
    }

    /** The events of a run, sorted by timestamp with ties in the order they were appended. */
    method GetEvents(runId: string) returns (events: seq<Event>)
      ensures events == Sort(Earlier, Log(runId))
      ensures multiset(events) == multiset(Log(runId))
      ensures InOrder(events) && (InOrder(Log(runId)) ==> events == Log(runId))
      ensures forall time :: AtTime(events, time) == AtTime(Log(runId), time)
    {
      events := Sort(Earlier, Log(runId));
      SortContents(Earlier, Log(runId));
      SortedByTime(Log(runId), 0);
      forall time ensures AtTime(events, time) == AtTime(Log(runId), time) { SortedByTime(Log(runId), time); }
      if InOrder(Log(runId)) {
        SortOfSorted(Earlier, Log(runId));
      }
    }

    method Clear(runId: string)
      modifies this
      ensures Log(runId) == []
      ensures forall other :: other != runId ==> Log(other) == old(Log(other))
    {
      byRun := byRun - {runId};
    }
  }
}
