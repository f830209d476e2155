/** A whole simulation from its initial state, its snapshot or the registered deals to its checked report. */
module Pipeline {
  import opened Wrappers
  import opened Ordering
  import opened Market
  import opened Roster
  import opened RunLoop
  import opened EventLog
  import opened Replay
  import opened Graph
  import opened Evidence
  import opened EvidenceBuilder
  import opened ReportWriter
  import opened CitationGate
  import opened WorldInitializer
  import GoldTrends

  /* ---------- from the initial state to the report ---------- */

  /** There are no more roles than people. */
  lemma {:induction false} RolesBounded(people: People)
    ensures |RolesOf(people)| <= |people|
    decreases |people|
  {
    if people == map[] {
      assert RolesOf(people) == {};
    } else {
      var p :| p in people;
      var rest := people - {p};
      assert people == rest[p := people[p]];
      RolesBounded(rest);
      RolesOneMore(rest, p, people[p]);
    }
  }

  /** The final state of a run keeps the districts and the number of participants it started with. */
  lemma FinalFrame(tr: seq<RunState>)
    requires IsRun(tr)
    ensures var s := tr[|tr| - 1];
            s.WellKeyed() && s.world.Keys == tr[0].world.Keys && |s.world| == |tr[0].world| && |s.people| == |tr[0].people|
  {
    RunKeeps(tr, |tr| - 1);
  }

  /** The draft about the run states why it ended, truthfully. */
  lemma ReasonRecorded(tr: seq<RunState>, runId: string)
    requires Complete(tr)
    ensures var s := tr[|tr| - 1];
            var fact := SimulationDraft(runId, s).fact;
            && fact == SimulationFact(|tr| - 1, |tr[0].world|, |tr[0].people|, fact.reason)
            && (fact.reason == ReachedMaxRounds ==> s.roundNo >= s.maxRounds)
            && (fact.reason == MarketFrozen ==> s.lastOutcome.Some? && s.lastOutcome.value.resolved == 0)
  {
    RunKeeps(tr, |tr| - 1);
    FinalFrame(tr);
    ReasonIsTrue(tr);
  }

  lemma DraftCount(runId: string, roundSubject: string, s: RunState)
    ensures |Drafts(runId, roundSubject, s)| <= |s.world| + |RolesOf(s.people)| + 2
  {
    hide RolesOf;
  }

  /** Enough ids for the evidence and the claims of every state of a run. */
  lemma IdsSuffice(tr: seq<RunState>, runId: string, roundSubject: string)
    requires IsRun(tr)
    ensures var s := tr[|tr| - 1];
            && s.WellKeyed() && |RolesOf(s.people)| <= |tr[0].people| && |s.world| == |tr[0].world|
            && |Drafts(runId, roundSubject, s)| <= |tr[0].world| + |tr[0].people| + 2
  {
    var s := tr[|tr| - 1];
    hide RolesOf, Drafts, IsRun, RunState.WellKeyed;
    FinalFrame(tr);
    RolesBounded(s.people);
    DraftCount(runId, roundSubject, s);
  }

  /** The evidence store after the report on `s`: everything it held before, and the run's facts. */
  ghost predicate EvidenceFiled(records: Records, prior: Records, ids: seq<string>, runId: string, roundSubject: string,
                                s: RunState)
  {
    && |Drafts(runId, roundSubject, s)| <= |ids|
    && records == Filed(prior, ids[..|Drafts(runId, roundSubject, s)|], Drafts(runId, roundSubject, s))
  }

  /**
   Every completed run gets the report of its final state: whatever the world, the
   participants, the number of rounds and the prior contents of the evidence store, which
   it keeps.
   */
  method RunToReport(events: EventStore, evidence: EvidenceStore, runId: string, roundSubject: string, ghost plan: Planning,
                     start: RunState, clock: nat -> int, governance: nat, evidenceIds: seq<string>, claimIds: seq<string>)
    returns (s: RunState, claims: seq<Claim>, report: GateReport, ghost tr: seq<RunState>)
    requires Initial(start, plan) && Logged(events, runId, clock, PlanningEvents(plan))
    requires evidence.Valid() && Fresh(evidenceIds, evidence.records)
    requires |start.world| + |start.people| + 2 <= |evidenceIds| && 2 * |start.world| + |start.people| + 2 <= |claimIds|
    modifies events, evidence
    ensures Complete(tr) && tr[0] == start && tr[|tr| - 1] == s
    ensures Logged(events, runId, clock, RunEvents(plan, tr))
    ensures EvidenceFiled(evidence.records, old(evidence.records), evidenceIds, runId, roundSubject, s)
    ensures Reported(claims, report, evidence.records, old(evidence.records), runId, s, governance, claimIds)
  {
    hide RunEvents, PlanningEvents, Filed, Drafts, Reported, IsRun, RunState.Ready, RunState.WellKeyed, Initial, Logged,
      Fresh, RolesOf, WellFiled;
    s, tr := Simulate(events, runId, plan, start, clock);
    IdsSuffice(tr, runId, roundSubject);
    claims, report := ReportChain(evidence, runId, roundSubject, s, governance, evidenceIds, claimIds);
  }

  /* ---------- from a snapshot to the report ---------- */

  /** The state a run started from, the state it ended in, and its report. */
  datatype Finished = Finished(start: RunState, last: RunState, claims: seq<Claim>, report: GateReport)

  lemma {:induction false} ElementsBounded(xs: seq<string>)
    ensures |Elements(xs)| <= |xs|
  {
    if xs == [] {
      assert Elements(xs) == {};
    } else {
      var init, last := xs[..|xs| - 1], xs[|xs| - 1];
      ElementsBounded(init);
      SplitLast(xs);
      ElementsNext(init, last);
    }
  }

  lemma WorldBounded(s: RunState, request: Request, rows: seq<Metric>, forecasts: seq<Forecast>, draw: nat -> real)
    requires Initialized(s, request, rows, forecasts, draw)
    ensures |s.world| <= |request.scenario.targetGus|
    ensures |s.people| == CountUpTo(request.roster.buckets, |request.roster.buckets|)
  {
    hide FilledBefore, RosterIds, ReferencePrice;
    ElementsBounded(request.scenario.targetGus);
    assert |s.world| == |s.world.Keys|;
  }

  lemma InitialFrom(s: RunState, request: Request, rows: seq<Metric>, forecasts: seq<Forecast>, draw: nat -> real,
                    plan: Planning)
    requires Initialized(s, request, rows, forecasts, draw) && Sanitized(request.roster)
    requires SoundRows(rows, request.scenario.targetGus) && Describes(plan, s)
    ensures Initial(s, plan)
  {
    hide FilledBefore, RosterIds, ReferencePrice, StartsFromSnapshot, SoundRows, Describes, RunState.Ready, RunState.WellKeyed;
    ReadyExactly(s, request, rows, forecasts, draw);
  }

  /** What a finished run has done: it started from the snapshot, ran to the end, logged its events and was reported. */
  ghost predicate Finishes(f: Finished, tr: seq<RunState>, request: Request, rows: seq<Metric>, forecasts: seq<Forecast>,
                           draw: nat -> real)
  {
    Initialized(f.start, request, rows, forecasts, draw) && Complete(tr) && tr[0] == f.start && tr[|tr| - 1] == f.last
  }

  /** The run's facts are in the evidence store beside what it held, and its report is that of its last state. */
  ghost predicate Delivered(f: Finished, records: Records, prior: Records, runId: string, roundSubject: string,
                            governance: nat, evidenceIds: seq<string>, claimIds: seq<string>)
  {
    && EvidenceFiled(records, prior, evidenceIds, runId, roundSubject, f.last)
    && Reported(f.claims, f.report, records, prior, runId, f.last, governance, claimIds)
  }

  /** The run's log: what was planned and initialized from the snapshot, every round, and the report events. */
  ghost predicate LoggedInFull(events: EventStore, runId: string, clock: nat -> int, request: Request, rows: seq<Metric>,
                               tr: seq<RunState>)
    reads events
  {
    IsRun(tr) &&
    var warnings := Fallbacks(request.scenario.targetGus, Forecasting.Gus(rows));
    Logged(events, runId, clock, RunEvents(PlanningOf(request, tr[0].world, |tr[0].people|, warnings), tr))
  }

  /**
   A run from the snapshot's rows and forecasts: without a target district it raises after
   the two events of planning; otherwise it ends, logged in full and reported.
   */
  method SnapshotToReport(events: EventStore, evidence: EvidenceStore, runId: string, roundSubject: string, request: Request,
                          rows: seq<Metric>, forecasts: seq<Forecast>, draw: nat -> real, clock: nat -> int, governance: nat,
                          evidenceIds: seq<string>, claimIds: seq<string>)
    returns (r: Result<Finished, NodeError>, ghost tr: seq<RunState>)
    requires Fractions(draw) && Sanitized(request.roster) && SoundRows(rows, request.scenario.targetGus)
    requires events.Log(runId) == [] && evidence.Valid() && Fresh(evidenceIds, evidence.records)
    requires |request.scenario.targetGus| + CountUpTo(request.roster.buckets, |request.roster.buckets|) + 2 <= |evidenceIds|
    requires 2 * |request.scenario.targetGus| + CountUpTo(request.roster.buckets, |request.roster.buckets|) + 2 <= |claimIds|
    modifies events, evidence
    ensures r.Failure? <==> request.scenario.targetGus == []
    ensures r.Failure? ==> Logged(events, runId, clock, RequestEvents(request)) && evidence.records == old(evidence.records)
    ensures r.Success? ==>
      && Finishes(r.value, tr, request, rows, forecasts, draw)
      && LoggedInFull(events, runId, clock, request, rows, tr)
      && Delivered(r.value, evidence.records, old(evidence.records), runId, roundSubject, governance, evidenceIds, claimIds)
  {
    hide Logged, RoundSoFar, AllSilent, RunEvents, PlanningEvents, Reported, EvidenceFiled, Initialized, Initial,
      Describes, SoundRows, RunState.Ready, RunState.WellKeyed, IsRun, Fresh, Fallbacks, Forecasting.Gus, WellFiled,
      Fractions, RequestEvents, PlanningOf, WorldEvent;
    tr := [];
    EmptyLog(events, runId, clock);
    RequestSilent(request);
    EmitAll(events, runId, 0, clock, RequestEvents(request), []);
    assert [] + RequestEvents(request) == RequestEvents(request);
    var started, plan := InitializeWorld(events, runId, clock, request, rows, forecasts, draw, RequestEvents(request));
    if started.Failure? {
      return Failure(started.error), tr;
    }
    var start := started.value;
    InitialFrom(start, request, rows, forecasts, draw, plan);
    WorldBounded(start, request, rows, forecasts, draw);
    PlanningInOrder(request, start.world, |start.people|, Fallbacks(request.scenario.targetGus, Forecasting.Gus(rows)));
    var last, claims, report;
    last, claims, report, tr := RunToReport(events, evidence, runId, roundSubject, plan, start, clock, governance,
                                            evidenceIds, claimIds);
    r := Success(Finished(start, last, claims, report));
  }

  lemma RequestSilent(request: Request)
    ensures AllSilent(RequestEvents(request)) && RoundSoFar([]) == 0 && RoundSoFar(RequestEvents(request)) == 0
  {
    SameRound([], RequestEvents(request));
    assert [] + RequestEvents(request) == RequestEvents(request);
  }

  lemma EmptyLog(events: EventStore, runId: string, clock: nat -> int)
    requires events.Log(runId) == []
    ensures Logged(events, runId, clock, [])
  {}

  /* ---------- from registered deals to the report ---------- */

  /** Every kept deal has a price. */
  ghost predicate Priced(ts: seq<GoldDistrict.Transaction>) {
    forall t :: t in ts && !t.cancelled ==> t.amount >= 1
  }

  lemma {:induction false} KeptPriced(ts: seq<GoldDistrict.Transaction>, key: (string, string))
    requires Priced(ts)
    ensures forall k :: 0 <= k < |GoldDistrict.KeptIn(ts, key)| ==> GoldDistrict.KeptIn(ts, key)[k].amount >= 1
  {
    hide GoldDistrict.KeyOf;
    if ts != [] {
      var init, last := ts[..|ts| - 1], ts[|ts| - 1];
      SplitLast(ts);
      assert forall t :: t in init ==> t in ts;
      assert last in ts;
      KeptPriced(init, key);
    }
  }

  /** Aggregated rows of priced deals have a positive price and a sale. */
  lemma AggregatedPriced(ts: seq<GoldDistrict.Transaction>, macro: GoldDistrict.Macro, i: nat)
    requires Priced(ts) && i < |GoldDistrict.Aggregated(ts, macro)|
    ensures var row := GoldDistrict.Aggregated(ts, macro)[i]; row.medianPrice >= 1 && row.saleCount >= 1
  {
    hide GoldDistrict.Aggregated, GoldDistrict.KeptIn;
    var row := GoldDistrict.Aggregated(ts, macro)[i];
    GoldDistrict.RowBounds(ts, macro, i);
    KeptPriced(ts, GoldDistrict.RowKey(row));
    var group := GoldDistrict.KeptIn(ts, GoldDistrict.RowKey(row));
    AmountOf(group, row.minPrice);
  }

  lemma AmountOf(group: seq<GoldDistrict.Transaction>, x: int)
    requires x in GoldDistrict.Amounts(group)
    ensures exists k :: 0 <= k < |group| && group[k].amount == x
  {
    var amounts := GoldDistrict.Amounts(group);
    var k :| 0 <= k < |amounts| && amounts[k] == x;
    assert group[k].amount == x;
  }

  /** The snapshot's rows: the aggregated deals, each with the trends a scan of them gives. */
  ghost predicate SnapshotOf(rows: seq<Metric>, ts: seq<GoldDistrict.Transaction>, macro: GoldDistrict.Macro) {
    var gold := GoldDistrict.Aggregated(ts, macro);
    && GoldTrends.ValidPeriods(gold) && |rows| == |gold|
    && forall i :: 0 <= i < |rows| ==> rows[i] == GoldTrends.ScanEnriched(gold[i], gold)
  }

  lemma EnrichedKeeps(row: Metric, rows: seq<Metric>)
    requires Periods.IsPeriod(row.period)
    ensures var e := GoldTrends.ScanEnriched(row, rows);
            e.medianPrice == row.medianPrice && e.saleCount == row.saleCount && e.guCode == row.guCode && e.period == row.period
  {}

  /** A market made from priced deals starts sound, whatever districts it targets. */
  lemma DealsSound(rows: seq<Metric>, ts: seq<GoldDistrict.Transaction>, macro: GoldDistrict.Macro, targets: seq<string>)
    requires Priced(ts) && SnapshotOf(rows, ts, macro)
    ensures SoundRows(rows, targets) && GoldTrends.ValidPeriods(rows)
  {
    hide GoldDistrict.Aggregated, GoldTrends.ScanEnriched, Forecasting.OnePassMax, Forecasting.OfGu, Periods.IsPeriod;
    var gold := GoldDistrict.Aggregated(ts, macro);
    forall i | 0 <= i < |rows|
      ensures rows[i].medianPrice >= 1 && rows[i].saleCount >= 1 && Periods.IsPeriod(rows[i].period)
    {
      AggregatedPriced(ts, macro, i);
      EnrichedKeeps(gold[i], gold);
    }
    forall gu | gu in targets && Forecasting.OnePassMax(Forecasting.OfGu(rows, gu)).Some?
      ensures var latest := Forecasting.OnePassMax(Forecasting.OfGu(rows, gu)).value;
              latest.medianPrice >= 1 && latest.saleCount >= 0
    {
      OnePassIn(rows, gu);
    }
  }

  lemma OnePassIn(rows: seq<Metric>, gu: string)
    requires Forecasting.OnePassMax(Forecasting.OfGu(rows, gu)).Some?
    ensures Forecasting.OnePassMax(Forecasting.OfGu(rows, gu)).value in rows
  {
    var group := Forecasting.OfGu(rows, gu);
    Forecasting.OnePassLatest(group);
    Forecasting.OfGuIn(rows, gu, Forecasting.OnePassMax(group).value);
  }

  /** The gold rows of the deals, as the snapshot holds them. */
  method BuildGold(ts: seq<GoldDistrict.Transaction>, macro: GoldDistrict.Macro) returns (rows: seq<Metric>)
    requires GoldTrends.AllDated(ts)
    ensures SnapshotOf(rows, ts, macro)
  {
    hide GoldDistrict.Aggregated, GoldTrends.ScanEnriched, Sort, GoldTrends.UniqueKeys, Periods.IsPeriod;
    GoldTrends.AggregatedValid(ts, macro);
    var gold := GoldDistrict.AggregateDistrictMonthly(ts, macro);
    rows := GoldTrends.EnrichDistrictMonthlyTrends(gold);
  }

  datatype StageError = NoForecast(error: Forecasting.PeriodError) | NoRun(cause: NodeError)

  /** The forecasts on record are those of the baseline forecaster, one per district in order. */
  ghost predicate Baseline(forecasts: seq<Forecast>, rows: seq<Metric>) {
    var gus := SortedIds(Forecasting.Gus(rows));
    |forecasts| == |gus| && forall i :: 0 <= i < |gus| ==> Forecasting.Forecasts(rows, gus[i], forecasts[i])
  }

  ghost predicate SomeOverflows(rows: seq<Metric>) {
    exists gu :: gu in Forecasting.Gus(rows) && Forecasting.Overflows(rows, gu)
  }

  /**
   All stages in a row: deals are aggregated and enriched, forecast, and simulated, and the
   run is reported. It stops short exactly when a district has a deal in December 9999, or
   no district is targeted.
   */
  method DealsToReport(events: EventStore, evidence: EvidenceStore, runId: string, roundSubject: string, request: Request,
                       ts: seq<GoldDistrict.Transaction>, macro: GoldDistrict.Macro, draw: nat -> real, clock: nat -> int,
                       governance: nat, evidenceIds: seq<string>, claimIds: seq<string>)
    returns (r: Result<Finished, StageError>, rows: seq<Metric>, forecasts: seq<Forecast>, ghost tr: seq<RunState>)
    requires GoldTrends.AllDated(ts) && Priced(ts) && Fractions(draw) && Sanitized(request.roster)
    requires events.Log(runId) == [] && evidence.Valid() && Fresh(evidenceIds, evidence.records)
    requires |request.scenario.targetGus| + CountUpTo(request.roster.buckets, |request.roster.buckets|) + 2 <= |evidenceIds|
    requires 2 * |request.scenario.targetGus| + CountUpTo(request.roster.buckets, |request.roster.buckets|) + 2 <= |claimIds|
    modifies events, evidence
    ensures SnapshotOf(rows, ts, macro)
    ensures r.Failure? <==> SomeOverflows(rows) || request.scenario.targetGus == []
    ensures r.Failure? ==>
      && evidence.records == old(evidence.records) && (r.error.NoForecast? <==> SomeOverflows(rows))
      && Logged(events, runId, clock, if r.error.NoForecast? then [] else RequestEvents(request))
    ensures r.Success? ==>
      && Baseline(forecasts, rows) && Finishes(r.value, tr, request, rows, forecasts, draw)
      && LoggedInFull(events, runId, clock, request, rows, tr)
      && Delivered(r.value, evidence.records, old(evidence.records), runId, roundSubject, governance, evidenceIds, claimIds)
  {
    hide Logged, LoggedInFull, Delivered, RunEvents, Finishes, SoundRows, Fresh, Fallbacks, Forecasting.Gus,
      Forecasting.Overflows, Forecasting.Forecasts, WellFiled, Fractions, RequestEvents, PlanningOf, SnapshotOf, Priced,
      GoldTrends.AllDated, CountUpTo;
    forecasts, tr := [], [];
    EmptyLog(events, runId, clock);
    rows := BuildGold(ts, macro);
    DealsSound(rows, ts, macro, request.scenario.targetGus);
    var baseline := Forecasting.ForecastBaseline(rows);
    if baseline.Failure? {
      return Failure(NoForecast(baseline.error)), rows, forecasts, tr;
    }
    forecasts := baseline.value;
    var finished;
    finished, tr := SnapshotToReport(events, evidence, runId, roundSubject, request, rows, forecasts, draw, clock, governance,
                                     evidenceIds, claimIds);
    if finished.Failure? {
      return Failure(NoRun(finished.error)), rows, forecasts, tr;
    }
    r := Success(finished.value);
  }
}
