/** The node that builds the starting world and its participants from the snapshot's latest metrics and forecasts. */
module WorldInitializer {
  import opened Wrappers
  import opened Ordering
  import opened Numbers
  import opened Decimals
  import opened Periods
  import opened Market
  import opened Policies
  import opened Roster
  import opened RunLoop
  import opened EventLog
  import opened Replay
  import opened Graph
  import GoldDistrict
  import Forecasting

  type Metric = GoldDistrict.Metrics
  type Forecast = Forecasting.Forecast

  /* ---------- one district ---------- */

  const FALLBACK_PRICE := 500000
  const FALLBACK_VOLUME := 50

  function SignTrend(change: Option<real>): Trend {
    if change.None? then Flat else if change.value > 0.0 then Up else if change.value < 0.0 then Down else Flat
  }

  function TrendFor(metric: Metric, forecast: Option<Forecast>): Trend {
    if forecast.None? then SignTrend(metric.momPrice) else
      match forecast.value.direction
      case Up => Trend.Up
      case Down => Trend.Down
      case Flat => Trend.Flat
  }

  /** What a forecast adds to the neutral sentiment. */
  function ForecastMood(forecast: Option<Forecast>): real {
    if forecast.None? then 0.0 else
      match forecast.value.direction
      case Up => 0.15 * forecast.value.confidence
      case Down => -(0.15 * forecast.value.confidence)
      case Flat => 0.0
  }

  function MigrationMood(migration: Option<int>): real {
    if migration.None? then 0.0 else if migration.value > 0 then 0.1 else if migration.value < 0 then -0.1 else 0.0
  }

  function SegmentFrom(metric: Metric, forecast: Option<Forecast>): Segment {
    Segment(metric.guCode, metric.guName, metric.medianPrice, metric.saleCount, TrendFor(metric, forecast),
            Clamp(0.5 + ForecastMood(forecast) + MigrationMood(metric.netMigration), 0.0, 1.0),
            if metric.momVolume.None? then 0.0 else Clamp(metric.momVolume.value, -1.0, 1.0))
  }

  function FallbackSegment(gu: string): Segment {
    Segment(gu, gu, FALLBACK_PRICE, FALLBACK_VOLUME, Flat, 0.5, 0.0)
  }

  /** `metrics_by_gu.get(gu)`: a later row of the district replaces an earlier one. */
  function LastMetric(metrics: seq<Metric>, gu: string): Option<Metric> {
    if metrics == [] then None
    else if metrics[|metrics| - 1].guCode == gu then Some(metrics[|metrics| - 1])
    else LastMetric(metrics[..|metrics| - 1], gu)
  }

  lemma {:induction false} LastMetricIn(metrics: seq<Metric>, gu: string)
    ensures LastMetric(metrics, gu).Some? <==> gu in Forecasting.Gus(metrics)
    ensures LastMetric(metrics, gu).Some? ==>
      LastMetric(metrics, gu).value in metrics && LastMetric(metrics, gu).value.guCode == gu
  {
    if metrics != [] {
      var init, last := metrics[..|metrics| - 1], metrics[|metrics| - 1];
      LastMetricIn(init, gu);
      SplitLast(metrics);
      GusNext(init, last);
    }
  }

  lemma GusNext(rows: seq<Metric>, row: Metric)
    ensures Forecasting.Gus(rows + [row]) == Forecasting.Gus(rows) + {row.guCode}
  {
    forall gu | gu in Forecasting.Gus(rows) ensures gu in Forecasting.Gus(rows + [row]) {
      var r :| r in rows && r.guCode == gu;
      assert r in rows + [row];
    }
    assert row in rows + [row];
  }

  function LastForecast(forecasts: seq<Forecast>, gu: string): Option<Forecast> {
    if forecasts == [] then None
    else if forecasts[|forecasts| - 1].guCode == gu then Some(forecasts[|forecasts| - 1])
    else LastForecast(forecasts[..|forecasts| - 1], gu)
  }

  function SegmentOr(gu: string, metric: Option<Metric>, forecast: Option<Forecast>): Segment {
    if metric.None? then FallbackSegment(gu) else SegmentFrom(metric.value, forecast)
  }

  /** Every sentiment and supply pressure meets its validator; price and volume are taken over as they are. */
  lemma SegmentValid(gu: string, metric: Option<Metric>, forecast: Option<Forecast>)
    ensures var s := SegmentOr(gu, metric, forecast);
            && 0.0 <= s.sentiment <= 1.0 && -1.0 <= s.supplyPressure <= 1.0
            && (SoundSegment(s) <==> metric.None? || (metric.value.medianPrice >= 1 && metric.value.saleCount >= 0))
  {
    hide ForecastMood, MigrationMood;
  }

  /** With a validated confidence the sentiment starts between a quarter and three quarters, so its clamp never binds. */
  lemma SentimentStarts(metric: Metric, forecast: Option<Forecast>)
    requires forecast.Some? ==> 0.0 <= forecast.value.confidence <= 1.0
    ensures SegmentFrom(metric, forecast).sentiment == 0.5 + ForecastMood(forecast) + MigrationMood(metric.netMigration)
    ensures 0.25 <= SegmentFrom(metric, forecast).sentiment <= 0.75
  {}

  /* ---------- the world ---------- */

  function FallbackWarning(gu: string): string {
    "No gold metrics found for gu_code=" + gu + "; using fallback defaults."
  }

  /** One warning per target that is not among the known districts, in order. */
  ghost function Fallbacks(targets: seq<string>, known: set<string>): seq<string> {
    if targets == [] then [] else
      var last := targets[|targets| - 1];
      Fallbacks(targets[..|targets| - 1], known) + (if last in known then [] else [FallbackWarning(last)])
  }

  lemma {:induction false} SameFallbacks(targets: seq<string>, known: set<string>, known': set<string>)
    requires forall gu :: gu in targets ==> (gu in known <==> gu in known')
    ensures Fallbacks(targets, known) == Fallbacks(targets, known')
  {
    if targets != [] { SameFallbacks(targets[..|targets| - 1], known, known'); }
  }

  /** The targets in the order they first occur. */
  function FirstOccurrences(targets: seq<string>): seq<string> {
    if targets == [] then [] else
      var before, last := FirstOccurrences(targets[..|targets| - 1]), targets[|targets| - 1];
      if last in before then before else before + [last]
  }

  lemma {:induction false} OccurrencesListed(targets: seq<string>)
    ensures Distinct(FirstOccurrences(targets)) && Elements(FirstOccurrences(targets)) == Elements(targets)
  {
    if targets != [] {
      var init, last := targets[..|targets| - 1], targets[|targets| - 1];
      OccurrencesListed(init);
      SplitLast(targets);
      ElementsNext(init, last);
      if last !in FirstOccurrences(init) {
        ListedOnce(FirstOccurrences(init), last);
      } else {
        assert last in Elements(FirstOccurrences(init));
      }
    }
  }

  lemma ElementsNext(xs: seq<string>, x: string)
    ensures Elements(xs + [x]) == Elements(xs) + {x}
  {}

  /** The world after some targets. */
  ghost predicate Built(segments: seq<string>, world: World, targets: seq<string>, metrics: seq<Metric>,
                        forecasts: seq<Forecast>)
  {
    && segments == FirstOccurrences(targets) && world.Keys == Elements(targets)
    && forall gu :: gu in world ==> world[gu] == SegmentOr(gu, LastMetric(metrics, gu), LastForecast(forecasts, gu))
  }

  lemma BuiltNext(segments: seq<string>, world: World, targets: seq<string>, i: nat, metrics: seq<Metric>,
                  forecasts: seq<Forecast>)
    requires i < |targets| && Built(segments, world, targets[..i], metrics, forecasts)
    ensures var gu := targets[i];
            Built(if gu in world then segments else segments + [gu],
                  world[gu := SegmentOr(gu, LastMetric(metrics, gu), LastForecast(forecasts, gu))],
                  targets[..i + 1], metrics, forecasts)
  {
    hide SegmentOr, LastMetric, LastForecast;
    var gu := targets[i];
    assert targets[..i + 1][..i] == targets[..i] && targets[..i + 1] == targets[..i] + [gu];
    OccurrencesListed(targets[..i]);
    ElementsNext(targets[..i], gu);
    assert gu in segments <==> gu in Elements(segments);
  }

  lemma FallbacksNext(targets: seq<string>, i: nat, metrics: seq<Metric>)
    requires i < |targets|
    ensures Fallbacks(targets[..i + 1], Forecasting.Gus(metrics)) ==
            Fallbacks(targets[..i], Forecasting.Gus(metrics)) +
            (if LastMetric(metrics, targets[i]).None? then [FallbackWarning(targets[i])] else [])
  {
    hide LastMetric, FallbackWarning;
    assert targets[..i + 1][..i] == targets[..i];
    LastMetricIn(metrics, targets[i]);
  }

  /** One segment per target district, from its latest metrics or from fallback values. */
  method BuildWorld(targets: seq<string>, metrics: seq<Metric>, forecasts: seq<Forecast>)
    returns (segments: seq<string>, world: World, warnings: seq<string>)
    ensures Built(segments, world, targets, metrics, forecasts)
    ensures warnings == Fallbacks(targets, Forecasting.Gus(metrics))
  {
    hide Built, Fallbacks, LastMetric, LastForecast, SegmentFrom, FallbackSegment, Forecasting.Gus, FallbackWarning;
    segments, world, warnings := [], map[], [];
    NothingBuiltYet(metrics, forecasts);
    assert targets[..0] == [];
    var i := 0;
    while i < |targets|
      invariant 0 <= i <= |targets|
      invariant Built(segments, world, targets[..i], metrics, forecasts)
      invariant warnings == Fallbacks(targets[..i], Forecasting.Gus(metrics))
    {
      var gu := targets[i];
      BuiltNext(segments, world, targets, i, metrics, forecasts);
      FallbacksNext(targets, i, metrics);
      segments := if gu in world then segments else segments + [gu];
      var metric := LastMetric(metrics, gu);
      i := i + 1;
      if metric.None? {
        warnings := warnings + [FallbackWarning(gu)];
        world := world[gu := FallbackSegment(gu)];
        continue;
      }
      world := world[gu := SegmentFrom(metric.value, LastForecast(forecasts, gu))];
    }
    assert targets[..|targets|] == targets;
  }

  lemma NothingBuiltYet(metrics: seq<Metric>, forecasts: seq<Forecast>)
    ensures Built([], map[], [], metrics, forecasts) && Fallbacks([], Forecasting.Gus(metrics)) == []
  {}

  /* ---------- the metrics the reader reports ---------- */

  /** The districts the reader reports, with the row it picks for each. */
  ghost predicate Latest(metrics: seq<Metric>, rows: seq<Metric>, targets: seq<string>) {
    var gus := SortedIds(Forecasting.Wanted(rows, Some(Elements(targets))));
    && |metrics| == |gus|
    && forall i :: 0 <= i < |gus| ==> Forecasting.OnePassMax(Forecasting.OfGu(rows, gus[i])) == Some(metrics[i])
  }

  lemma OnePassOf(rows: seq<Metric>, gu: string)
    ensures Forecasting.OnePassMax(Forecasting.OfGu(rows, gu)).Some? <==> gu in Forecasting.Gus(rows)
    ensures gu in Forecasting.Gus(rows) ==> Forecasting.OnePassMax(Forecasting.OfGu(rows, gu)).value.guCode == gu
  {
    var group := Forecasting.OfGu(rows, gu);
    if gu in Forecasting.Gus(rows) {
      var row :| row in rows && row.guCode == gu;
      Forecasting.OfGuIn(rows, gu, row);
      Forecasting.OnePassLatest(group);
      Forecasting.OfGuIn(rows, gu, Forecasting.OnePassMax(group).value);
    } else if group != [] {
      Forecasting.OfGuIn(rows, gu, group[0]);
      assert false;
    }
  }

  lemma CodeListed(metrics: seq<Metric>, k: nat)
    requires k < |metrics|
    ensures metrics[k].guCode in Forecasting.Gus(metrics)
  {}

  /** For a target district the reader's row is the one-pass maximum of its rows, if it has any. */
  lemma LatestMetricIs(metrics: seq<Metric>, rows: seq<Metric>, targets: seq<string>, gu: string)
    requires Latest(metrics, rows, targets) && gu in targets
    ensures LastMetric(metrics, gu) == Forecasting.OnePassMax(Forecasting.OfGu(rows, gu))
    ensures gu in Forecasting.Gus(metrics) <==> gu in Forecasting.Gus(rows)
  {
    hide Forecasting.OnePassMax, Forecasting.OfGu, Forecasting.Gus, LastMetric;
    var wanted := Forecasting.Wanted(rows, Some(Elements(targets)));
    var gus := SortedIds(wanted);
    SortedIdsIn(wanted);
    LastMetricIn(metrics, gu);
    OnePassOf(rows, gu);
    forall i | 0 <= i < |gus| ensures metrics[i].guCode == gus[i] {
      assert gus[i] in wanted;
      OnePassOf(rows, gus[i]);
    }
    if gu in wanted {
      var k :| 0 <= k < |gus| && gus[k] == gu;
      assert metrics[k].guCode == gu;
      CodeListed(metrics, k);
      var j :| 0 <= j < |metrics| && metrics[j] == LastMetric(metrics, gu).value;
      assert gus[j] == gus[k];
    }
  }

  /** The forecasts on record for the target districts. */
  function ForTargets(forecasts: seq<Forecast>, targets: seq<string>): seq<Forecast> {
    if forecasts == [] then [] else
      var last := forecasts[|forecasts| - 1];
      ForTargets(forecasts[..|forecasts| - 1], targets) + (if last.guCode in targets then [last] else [])
  }

  lemma LastForecastNext(forecasts: seq<Forecast>, f: Forecast, gu: string)
    ensures LastForecast(forecasts + [f], gu) == if f.guCode == gu then Some(f) else LastForecast(forecasts, gu)
  {
    assert (forecasts + [f])[..|forecasts|] == forecasts;
  }

  lemma ForTargetsNext(forecasts: seq<Forecast>, targets: seq<string>)
    requires forecasts != []
    ensures var init, last := forecasts[..|forecasts| - 1], forecasts[|forecasts| - 1];
            ForTargets(forecasts, targets) ==
            if last.guCode in targets then ForTargets(init, targets) + [last] else ForTargets(init, targets)
  {}

  lemma {:induction false} TargetForecast(forecasts: seq<Forecast>, targets: seq<string>, gu: string)
    requires gu in targets
    ensures LastForecast(ForTargets(forecasts, targets), gu) == LastForecast(forecasts, gu)
  {
    if forecasts != [] {
      hide ForTargets, LastForecast;
      var init, last := forecasts[..|forecasts| - 1], forecasts[|forecasts| - 1];
      SplitLast(forecasts);
      ForTargetsNext(forecasts, targets);
      TargetForecast(init, targets, gu);
      LastForecastNext(init, last, gu);
      LastForecastNext(ForTargets(init, targets), last, gu);
    }
  }

  /** The starting state of a target district: from its latest row and its forecast, or from fallback values. */
  ghost function StartOf(gu: string, rows: seq<Metric>, forecasts: seq<Forecast>): Segment {
    SegmentOr(gu, Forecasting.OnePassMax(Forecasting.OfGu(rows, gu)), LastForecast(forecasts, gu))
  }

  ghost predicate StartsFromSnapshot(world: World, targets: seq<string>, rows: seq<Metric>, forecasts: seq<Forecast>) {
    world.Keys == Elements(targets) && forall gu :: gu in world ==> world[gu] == StartOf(gu, rows, forecasts)
  }

  lemma BuiltFromSnapshot(segments: seq<string>, world: World, targets: seq<string>, metrics: seq<Metric>,
                          rows: seq<Metric>, forecasts: seq<Forecast>)
    requires Built(segments, world, targets, metrics, ForTargets(forecasts, targets)) && Latest(metrics, rows, targets)
    ensures StartsFromSnapshot(world, targets, rows, forecasts)
    ensures Fallbacks(targets, Forecasting.Gus(metrics)) == Fallbacks(targets, Forecasting.Gus(rows))
  {
    hide SegmentOr, Latest, LastMetric, LastForecast, ForTargets, Forecasting.OnePassMax, Forecasting.OfGu, Forecasting.Gus;
    forall gu | gu in world ensures world[gu] == StartOf(gu, rows, forecasts) {
      assert gu in Elements(targets);
      LatestMetricIs(metrics, rows, targets, gu);
      TargetForecast(forecasts, targets, gu);
    }
    forall gu | gu in targets ensures gu in Forecasting.Gus(metrics) <==> gu in Forecasting.Gus(rows) {
      LatestMetricIs(metrics, rows, targets, gu);
    }
    SameFallbacks(targets, Forecasting.Gus(metrics), Forecasting.Gus(rows));
  }

  /** What the latest rows of the targets must be for the market to start sound. */
  ghost predicate SoundRows(rows: seq<Metric>, targets: seq<string>) {
    forall gu :: gu in targets ==>
      var latest := Forecasting.OnePassMax(Forecasting.OfGu(rows, gu));
      latest.Some? ==> latest.value.medianPrice >= 1 && latest.value.saleCount >= 0
  }

  /** The world is sound exactly when every latest row it starts from has a positive price and no negative count. */
  lemma WorldSoundExactly(world: World, targets: seq<string>, rows: seq<Metric>, forecasts: seq<Forecast>)
    requires StartsFromSnapshot(world, targets, rows, forecasts)
    ensures SoundWorld(world) <==> SoundRows(rows, targets)
    ensures forall gu :: gu in world ==> world[gu].guCode == gu
  {
    hide SegmentOr, SoundSegment, Forecasting.OnePassMax, Forecasting.OfGu, LastForecast;
    forall gu | gu in targets
      ensures gu in world && world[gu].guCode == gu
      ensures var latest := Forecasting.OnePassMax(Forecasting.OfGu(rows, gu));
              SoundSegment(world[gu]) <==> (latest.Some? ==> latest.value.medianPrice >= 1 && latest.value.saleCount >= 0)
    {
      assert gu in Elements(targets);
      SegmentValid(gu, Forecasting.OnePassMax(Forecasting.OfGu(rows, gu)), LastForecast(forecasts, gu));
      StartKeyed(gu, rows, forecasts);
    }
    forall gu | gu in world ensures gu in targets { assert gu in Elements(targets); }
  }

  lemma StartKeyed(gu: string, rows: seq<Metric>, forecasts: seq<Forecast>)
    ensures StartOf(gu, rows, forecasts).guCode == gu
  {
    hide Forecasting.OnePassMax, Forecasting.OfGu;
    OnePassOf(rows, gu);
  }

  /* ---------- the anchor period ---------- */

  /** The month before month number `start`, with the year printed unpadded. */
  function AnchorPeriod(start: int): string {
    PaddedInt((start - 1) / 12, 0) + "-" + Padded((start - 1) % 12 + 1, 2)
  }

  /**
   The scenario starts in the month after the last period of the snapshot; the anchor is
   that period again exactly when its year has four digits without padding.
   */
  lemma AnchorIsLastPeriod(period: string)
    requires IsPeriod(period)
    ensures AnchorPeriod(Month(period) + 1) == period <==> YearOf(period) >= 1000
  {
    PeriodParts(period);
    var year, month := YearOf(period), MonthOf(period);
    Bounds(period);
    assert (Month(period)) / 12 == year && Month(period) % 12 + 1 == month;
    hide IsPeriod, Padded, Decimal;
    UnpaddedLength(year);
    SameTail(PaddedInt(year, 0) + "-", Padded(year, 4) + "-", Padded(month, 2));
    SameTail(PaddedInt(year, 0), Padded(year, 4), "-");
  }

  lemma SameTail(a: string, b: string, tail: string)
    ensures a + tail == b + tail <==> a == b
  {
    if a + tail == b + tail {
      assert |a| == |b|;
      assert (a + tail)[..|a|] == a && (b + tail)[..|b|] == b;
    }
  }

  /** A year prints as with four digits exactly from 1000 on. */
  lemma UnpaddedLength(year: nat)
    requires year < 10000
    ensures PaddedInt(year, 0) == Padded(year, 4) <==> year >= 1000
  {
    Powers();
    hide Decimal;
    PaddedLength(year, 4);
    if year < 1000 {
      assert Pow10(3) == 1000 by { assert Pow10(2) == 100; }
      DecimalLength(year, 3);
    } else {
      FourDigits(year);
    }
  }

  lemma OneMoreDigit(n: nat)
    requires n >= 10
    ensures |Decimal(n)| == |Decimal(n / 10)| + 1
  {}

  lemma FourDigits(year: nat)
    requires year >= 1000
    ensures |Decimal(year)| >= 4
  {
    hide Decimal;
    OneMoreDigit(year);
    OneMoreDigit(year / 10);
    OneMoreDigit(year / 10 / 10);
    DecimalParses(year / 10 / 10 / 10);
  }

  /* ---------- the node ---------- */

  /** What the planner and the scenario builder hand to the initializer. */
  datatype Request = Request(
    plan: IntakePlan, scenario: Scenario, roster: RosterSpec, maxRounds: int, warnings: seq<string>)

  ghost predicate Sanitized(roster: RosterSpec) {
    forall k :: 0 <= k < |roster.buckets| ==> roster.buckets[k].Sanitized()
  }

  /** What the planning nodes log of a request and the state made from it. */
  function PlanningOf(request: Request, world: World, participants: int, warnings: seq<string>): Planning {
    Planning(request.plan, request.scenario, request.roster, request.maxRounds, request.warnings,
             SummaryOfWorld(world), participants, AnchorPeriod(request.scenario.periodStart), warnings)
  }

  /** What the intake planner and the scenario builder log about a request. */
  function RequestEvents(request: Request): seq<Payload> {
    [IntakePlanned(Some(request.plan)),
     ScenarioBuilt(Some(request.scenario), Some(request.roster), Some(request.maxRounds), request.warnings)]
  }

  lemma PlanningInOrder(request: Request, world: World, participants: int, warnings: seq<string>)
    ensures var plan := PlanningOf(request, world, participants, warnings);
            RequestEvents(request) + [WorldEvent(plan)] == PlanningEvents(plan)
  {
    hide SummaryOfWorld, AnchorPeriod;
  }

  /** The state made from a request and a snapshot. */
  ghost predicate Initialized(s: RunState, request: Request, rows: seq<Metric>, forecasts: seq<Forecast>, draw: nat -> real) {
    var targets, buckets := request.scenario.targetGus, request.roster.buckets;
    && targets != [] && s.segments == FirstOccurrences(targets) && StartsFromSnapshot(s.world, targets, rows, forecasts)
    && Distinct(s.members) && Elements(s.members) == s.people.Keys && |s.people| == CountUpTo(buckets, |buckets|)
    && RosterIds(s.members, buckets)
    && s.segments != [] && (forall gu :: gu in s.segments ==> gu in s.world)
    && FilledBefore(s.people, s.members, buckets, ReferencePrice(s.segments, s.world), draw, |buckets|)
    && s.scenario == request.scenario && s.maxRounds == request.maxRounds
    && s.roundNo == 0 && s.actions == [] && s.lastOutcome == None
  }

  lemma LargestPrice(segments: seq<string>, world: World) returns (high: int)
    requires forall gu :: gu in segments ==> gu in world
    ensures forall gu :: gu in segments ==> world[gu].medianPrice <= high
  {
    high := 0;
    var i := 0;
    while i < |segments|
      invariant 0 <= i <= |segments|
      invariant forall k :: 0 <= k < i ==> world[segments[k]].medianPrice <= high
    {
      if world[segments[i]].medianPrice > high { high := world[segments[i]].medianPrice; }
      i := i + 1;
    }
  }

  /** In a sound world the reference price is at least 1. */
  lemma ReferencePositive(segments: seq<string>, world: World)
    requires segments != [] && (forall gu :: gu in segments ==> gu in world) && SoundWorld(world)
    ensures ReferencePrice(segments, world) >= 1
  {
    var high := LargestPrice(segments, world);
    ReferenceWithin(segments, world, 1, high);
  }

  /** A run may start from an initialized state exactly when the latest rows of its targets are sound. */
  lemma ReadyExactly(s: RunState, request: Request, rows: seq<Metric>, forecasts: seq<Forecast>, draw: nat -> real)
    requires Initialized(s, request, rows, forecasts, draw) && Sanitized(request.roster)
    ensures s.WellKeyed() && (s.Ready() <==> SoundRows(rows, request.scenario.targetGus))
  {
    hide FilledBefore, RosterIds, SoundSegment, SoundParticipant, ReferencePrice, StartsFromSnapshot, SoundRows;
    var targets := request.scenario.targetGus;
    OccurrencesListed(targets);
    assert s.world.Keys == Elements(targets) by { WorldKeys(s.world, targets, rows, forecasts); }
    assert s.world != map[] by { assert targets[0] in Elements(targets); }
    WorldSoundExactly(s.world, targets, rows, forecasts);
    ListedOnceEach(s.people, s.members);
    RosterKeyed(s.people, s.members, request.roster.buckets, ReferencePrice(s.segments, s.world), draw);
    if SoundWorld(s.world) {
      ReferencePositive(s.segments, s.world);
      RosterSound(s.people, s.members, request.roster.buckets, ReferencePrice(s.segments, s.world), draw);
    }
  }

  lemma WorldKeys(world: World, targets: seq<string>, rows: seq<Metric>, forecasts: seq<Forecast>)
    requires StartsFromSnapshot(world, targets, rows, forecasts)
    ensures world.Keys == Elements(targets)
  {}

  lemma TargetsListed(targets: seq<string>, world: World)
    requires world.Keys == Elements(targets) && targets != []
    ensures var segments := FirstOccurrences(targets); segments != [] && forall gu :: gu in segments ==> gu in world
  {
    OccurrencesListed(targets);
    EmptyTogether(targets, FirstOccurrences(targets));
    forall gu | gu in FirstOccurrences(targets) ensures gu in world { assert gu in Elements(FirstOccurrences(targets)); }
  }

  /**
   Builds the world of the target districts and fills it with the roster's participants;
   logs what it built. Without a target there is no reference price, which raises.
   */
  method InitializeWorld(store: EventStore, runId: string, clock: nat -> int, request: Request, rows: seq<Metric>,
                         forecasts: seq<Forecast>, draw: nat -> real, ghost log: seq<Payload>)
    returns (r: Result<RunState, NodeError>, ghost plan: Planning)
    requires Fractions(draw) && Sanitized(request.roster) && Logged(store, runId, clock, log) && RoundSoFar(log) == 0
    modifies store
    ensures r.Failure? <==> request.scenario.targetGus == []
    ensures r.Failure? ==> Logged(store, runId, clock, log)
    ensures r.Success? ==>
      && Initialized(r.value, request, rows, forecasts, draw)
      && plan == PlanningOf(request, r.value.world, |r.value.people|,
                            Fallbacks(request.scenario.targetGus, Forecasting.Gus(rows)))
      && Describes(plan, r.value) && Logged(store, runId, clock, log + [WorldEvent(plan)])
    ensures forall other :: other != runId ==> store.Log(other) == old(store.Log(other))
  {
    hide Logged, RoundSoFar, Built, Latest, StartsFromSnapshot, Fallbacks, FirstOccurrences, Forecasting.Gus,
      Forecasting.OnePassMax, Forecasting.OfGu, Forecasting.Wanted, FilledBefore, RosterIds, ReferencePrice, Fractions,
      RoleBucket.Sanitized, ForTargets, AnchorPeriod, CountUpTo, SummaryOfWorld;
    var targets := request.scenario.targetGus;
    var metrics := Forecasting.GetLatestMetrics(rows, Some(Elements(targets)));
    assert Latest(metrics, rows, targets) by { LatestRead(metrics, rows, targets); }
    var segments, world, warnings := BuildWorld(targets, metrics, ForTargets(forecasts, targets));
    BuiltFromSnapshot(segments, world, targets, metrics, rows, forecasts);
    BuiltIs(segments, world, targets, metrics, ForTargets(forecasts, targets));
    if segments == [] {
      assert targets == [] by { OccurrencesListed(targets); EmptyTogether(targets, segments); }
      plan := PlanningOf(request, world, 0, warnings);
      return Failure(EmptyWorld), plan;
    }
    assert targets != [] by { OccurrencesListed(targets); EmptyTogether(targets, segments); }
    TargetsListed(targets, world);
    var people, ids := BuildParticipants(request.roster, ReferencePrice(segments, world), draw);
    plan := PlanningOf(request, world, |people|, warnings);
    SameRound(log, [WorldEvent(plan)]);
    Emit(store, runId, 0, clock,
         WorldInitialized(Some(SummaryOfWorld(world)), Some(|people|), Some(AnchorPeriod(request.scenario.periodStart)),
                          warnings),
         log);
    r := Success(RunState(request.scenario, segments, world, ids, people, 0, request.maxRounds, [], None));
  }

  lemma LatestRead(metrics: seq<Metric>, rows: seq<Metric>, targets: seq<string>)
    requires var gus := SortedIds(Forecasting.Wanted(rows, Some(Elements(targets))));
             |metrics| == |gus|
             && forall i :: 0 <= i < |gus| ==> Forecasting.OnePassMax(Forecasting.OfGu(rows, gus[i])) == Some(metrics[i])
    ensures Latest(metrics, rows, targets)
  {}

  lemma BuiltIs(segments: seq<string>, world: World, targets: seq<string>, metrics: seq<Metric>, forecasts: seq<Forecast>)
    requires Built(segments, world, targets, metrics, forecasts)
    ensures segments == FirstOccurrences(targets) && world.Keys == Elements(targets)
  {}
}
