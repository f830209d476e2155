/** The state a run starts from, in numbers: every district from its latest row and its forecast, and what is logged of it. */
module StartExact {
  import opened Wrappers
  import opened Ordering
  import opened Decimals
  import opened Periods
  import opened Market
  import opened RunLoop
  import opened Replay
  import opened RoundExact
  import opened RunExact
  import opened WorldInitializer
  import opened ForecastExact

  /* ---------- which row and which forecast ---------- */

  /** The first of the district's rows of its latest period, if it has any. */
  ghost predicate RowFor(rows: seq<Metric>, gu: string, row: Option<Metric>) {
    if row.Some? then exists k: nat :: FirstLatest(rows, gu, k) && rows[k] == row.value
    else forall j :: 0 <= j < |rows| ==> rows[j].guCode != gu
  }

  /** The last forecast of the district, if it has any. */
  ghost predicate ForecastFor(forecasts: seq<Forecast>, gu: string, forecast: Option<Forecast>) {
    if forecast.Some? then exists k: nat :: LastOf(forecasts, gu, k) && forecasts[k] == forecast.value
    else forall j :: 0 <= j < |forecasts| ==> forecasts[j].guCode != gu
  }

  lemma RowPicked(rows: seq<Metric>, gu: string)
    ensures RowFor(rows, gu, Forecasting.OnePassMax(Forecasting.OfGu(rows, gu)))
  {
    hide FirstLatest;
    if k :| 0 <= k < |rows| && rows[k].guCode == gu {
      var first, _ := LatestExists(rows, gu);
      FirstLatestRead(rows, gu, first);
    } else {
      Forecasting.NoRowsOfGu(rows, gu);
      Forecasting.NothingPicked();
    }
  }

  ghost predicate LastOf(forecasts: seq<Forecast>, gu: string, k: nat) {
    k < |forecasts| && forecasts[k].guCode == gu && forall j :: k < j < |forecasts| ==> forecasts[j].guCode != gu
  }

  lemma {:induction false} ForecastPicked(forecasts: seq<Forecast>, gu: string)
    ensures ForecastFor(forecasts, gu, LastForecast(forecasts, gu))
  {
    if forecasts != [] {
      var n := |forecasts| - 1;
      ForecastPicked(forecasts[..n], gu);
      LastForecastNext(forecasts[..n], forecasts[n], gu);
      SplitLast(forecasts);
      if forecasts[n].guCode == gu {
        assert LastOf(forecasts, gu, n);
      } else if LastForecast(forecasts[..n], gu).Some? {
        var k: nat :| LastOf(forecasts[..n], gu, k) && forecasts[..n][k] == LastForecast(forecasts[..n], gu).value;
        assert LastOf(forecasts, gu, k);
      }
    }
  }

  /** Where metrics repeat a district, the last of its rows counts. */
  lemma {:induction false} LastMetricCounts(metrics: seq<Metric>, gu: string, k: nat)
    requires k < |metrics| && metrics[k].guCode == gu && forall j :: k < j < |metrics| ==> metrics[j].guCode != gu
    ensures LastMetric(metrics, gu) == Some(metrics[k])
  {
    var n := |metrics| - 1;
    if k < n {
      assert metrics[..n][k] == metrics[k];
      LastMetricCounts(metrics[..n], gu, k);
    }
  }

  /* ---------- what becomes of them ---------- */

  ghost predicate TrendIs(trend: Trend, row: Metric, forecast: Option<Forecast>) {
    match forecast
    case Some(f) =>
      && (f.direction == Forecasting.Up ==> trend == Trend.Up) && (f.direction == Forecasting.Down ==> trend == Trend.Down)
      && (f.direction == Forecasting.Flat ==> trend == Trend.Flat)
    case None =>
      match row.momPrice
      case None => trend == Trend.Flat
      case Some(change) =>
        && (change > 0.0 ==> trend == Trend.Up) && (change < 0.0 ==> trend == Trend.Down)
        && (change == 0.0 ==> trend == Trend.Flat)
  }

  ghost function SignOf(x: int): int { if x > 0 then 1 else if x < 0 then -1 else 0 }

  ghost function Heading(d: Forecasting.Direction): int {
    if d == Forecasting.Up then 1 else if d == Forecasting.Down then -1 else 0
  }

  /** What a forecast and the people who move in or out add to the neutral sentiment. */
  ghost function MoodShift(row: Metric, forecast: Option<Forecast>): real {
    (if forecast.Some? then 0.15 * forecast.value.confidence * Heading(forecast.value.direction) as real else 0.0)
    + (if row.netMigration.Some? then 0.1 * SignOf(row.netMigration.value) as real else 0.0)
  }

  /** `x` cut to [-1, 1]. */
  ghost function Signed(x: real): real { if x < -1.0 then -1.0 else if x > 1.0 then 1.0 else x }

  /** A district starts as its row and its forecast say, and on fallback values without a row. */
  ghost predicate StartsAs(d: Segment, gu: string, row: Option<Metric>, forecast: Option<Forecast>) {
    match row
    case None => d == Segment(gu, gu, 500000, 50, Trend.Flat, 0.5, 0.0)
    case Some(m) =>
      && d.guCode == gu && d.guName == m.guName && d.medianPrice == m.medianPrice && d.volume == m.saleCount
      && TrendIs(d.trend, m, forecast)
      && d.sentiment == InUnit(0.5 + MoodShift(m, forecast))
      && d.supplyPressure == if m.momVolume.Some? then Signed(m.momVolume.value) else 0.0
  }

  lemma MoodIs(m: Metric, forecast: Option<Forecast>)
    ensures ForecastMood(forecast) + MigrationMood(m.netMigration) == MoodShift(m, forecast)
  {}

  lemma SegmentStarts(gu: string, row: Option<Metric>, forecast: Option<Forecast>)
    requires row.Some? ==> row.value.guCode == gu
    ensures StartsAs(SegmentOr(gu, row, forecast), gu, row, forecast)
  {
    hide MoodShift, ForecastMood, MigrationMood;
    if row.Some? { MoodIs(row.value, forecast); }
  }

  /** Every target district of an initialized state starts from the row and the forecast that are its own and latest. */
  lemma StartExactly(s: RunState, request: Request, rows: seq<Metric>, forecasts: seq<Forecast>, draw: nat -> real, gu: string)
    returns (row: Option<Metric>, forecast: Option<Forecast>)
    requires Initialized(s, request, rows, forecasts, draw)
    ensures gu in s.world <==> gu in request.scenario.targetGus
    ensures RowFor(rows, gu, row) && ForecastFor(forecasts, gu, forecast)
    ensures gu in s.world ==> StartsAs(s.world[gu], gu, row, forecast)
  {
    hide Forecasting.OnePassMax, Forecasting.OfGu, LastForecast, RowFor, ForecastFor, StartsAs, SegmentOr;
    row, forecast := Forecasting.OnePassMax(Forecasting.OfGu(rows, gu)), LastForecast(forecasts, gu);
    RowPicked(rows, gu);
    ForecastPicked(forecasts, gu);
    OnePassOf(rows, gu);
    SegmentStarts(gu, row, forecast);
    assert gu in request.scenario.targetGus <==> gu in Elements(request.scenario.targetGus);
  }

  /* ---------- the districts in order, and the one the participants look at ---------- */

  /** The i-th district is first targeted before the j-th. */
  lemma {:induction false} TargetsInOrder(targets: seq<string>, i: nat, j: nat)
    requires i < j < |FirstOccurrences(targets)|
    ensures exists a :: 0 <= a < |targets| && targets[a] == FirstOccurrences(targets)[i]
                        && forall b :: 0 <= b <= a ==> targets[b] != FirstOccurrences(targets)[j]
  {
    var n := |targets| - 1;
    var before := FirstOccurrences(targets[..n]);
    OccurrencesListed(targets[..n]);
    if j < |before| {
      TargetsInOrder(targets[..n], i, j);
      var a :| 0 <= a < n && targets[..n][a] == before[i] && forall b :: 0 <= b <= a ==> targets[..n][b] != before[j];
      assert targets[a] == targets[..n][a];
      assert forall b :: 0 <= b <= a ==> targets[b] == targets[..n][b];
    } else {
      assert before[i] in Elements(before);
      var a :| 0 <= a < n && targets[..n][a] == before[i];
      assert targets[a] == targets[..n][a];
      forall b | 0 <= b <= a ensures targets[b] != targets[n] {
        assert targets[b] == targets[..n][b] && targets[b] in Elements(targets[..n]);
      }
    }
  }

  /** From its start to its end, a run's participants look at the first district the request targets. */
  lemma RunLooksAt(request: Request, rows: seq<Metric>, forecasts: seq<Forecast>, draw: nat -> real, tr: seq<RunState>, i: nat)
    requires IsRun(tr) && i < |tr| && Initialized(tr[0], request, rows, forecasts, draw)
    ensures request.scenario.targetGus != [] && LooksAt(tr[i], request.scenario.targetGus[0])
  {
    hide IsRun;
    var targets := request.scenario.targetGus;
    assert targets[0] in Elements(targets);
    SameDistrict(tr, i, targets[0]);
  }

  /* ---------- what is logged of it ---------- */

  lemma {:induction false} AllZeros(k: nat)
    ensures |Zeros(k)| == k && forall i :: 0 <= i < k ==> Zeros(k)[i] == '0'
  {
    if k > 0 { AllZeros(k - 1); }
  }

  lemma {:induction false} NoLeadingZero(n: nat)
    ensures Decimal(n) != "" && (n > 0 ==> Decimal(n)[0] != '0') && (n == 0 ==> Decimal(n) == "0")
  {
    if n >= 10 { NoLeadingZero(n / 10); }
  }

  /** `text` is `period` without its leading zeros, of which the year keeps a last digit. */
  ghost predicate WithoutZeros(text: string, period: string) {
    exists z :: 0 <= z <= 3 && z <= |period| && text == period[z..]
                && (forall i :: 0 <= i < z ==> period[i] == '0') && (z < 3 ==> period[z..] != "" && period[z] != '0')
  }

  lemma YearPadded(period: string)
    requires IsPeriod(period)
    ensures Padded(YearOf(period), 4) == period[..4] && Padded(MonthOf(period), 2) == period[5..]
    ensures YearOf(period) < 10000
  {
    hide Parse, Padded;
    Powers();
    ParsePads(period[..4]);
    ParsePads(period[5..]);
  }

  /** The anchor on record is the last period of the snapshot, with the zeros before its year dropped. */
  lemma AnchorExactly(period: string)
    requires IsPeriod(period)
    ensures WithoutZeros(AnchorPeriod(Month(period) + 1), period)
  {
    hide IsPeriod, Decimal, Zeros, Padded;
    Dash(period);
    YearPadded(period);
    PeriodParts(period);
    Bounds(period);
    var year, month := YearOf(period), MonthOf(period);
    assert Month(period) / 12 == year && Month(period) % 12 + 1 == month;
    var text := AnchorPeriod(Month(period) + 1);
    assert PaddedInt(year, 0) == Decimal(year) by { Unfilled(year); }
    assert text == Decimal(year) + "-" + period[5..];
    NoLeadingZero(year);
    var z := 4 - |Decimal(year)|;
    YearFilled(year, period[..4]);
    assert period[z..] == text;
    assert z < 3 ==> year > 0;
  }

  lemma Unfilled(year: nat)
    ensures Padded(year, 0) == Decimal(year)
  {}

  lemma Dash(period: string)
    requires IsPeriod(period)
    ensures |period| == 7 && period == period[..4] + "-" + period[5..]
  {}

  lemma YearFilled(year: nat, text: string)
    requires year < 10000 && text == Padded(year, 4) && |text| == 4
    ensures 1 <= |Decimal(year)| <= 4
    ensures var z := 4 - |Decimal(year)|;
            text[z..] == Decimal(year) && forall i :: 0 <= i < z ==> text[i] == '0'
  {
    hide Decimal, Zeros;
    Powers();
    NoLeadingZero(year);
    DecimalLength(year, 4);
    AllZeros(4 - |Decimal(year)|);
  }

  /** Price and volume of every district. */
  lemma SummaryExactly(world: World, gu: string)
    ensures gu in SummaryOfWorld(world) <==> gu in world
    ensures gu in world ==> SummaryOfWorld(world)[gu] == (world[gu].medianPrice, world[gu].volume)
  {}

  /** The positions of the targets without a row, in order. */
  ghost predicate UnknownAt(at: seq<nat>, targets: seq<string>, rows: seq<Metric>) {
    && (forall i, j :: 0 <= i < j < |at| ==> at[i] < at[j])
    && (forall i :: 0 <= i < |at| ==> at[i] < |targets|)
    && forall k: nat :: k < |targets| ==> (k in at <==> RowFor(rows, targets[k], None))
  }

  ghost predicate WarnedAt(warnings: seq<string>, at: seq<nat>, targets: seq<string>) {
    && |warnings| == |at|
    && forall i :: 0 <= i < |at| ==>
         && at[i] < |targets|
         && warnings[i] == "No gold metrics found for gu_code=" + targets[at[i]] + "; using fallback defaults."
  }

  lemma UnknownNext(at: seq<nat>, targets: seq<string>, rows: seq<Metric>)
    requires targets != [] && UnknownAt(at, targets[..|targets| - 1], rows)
    ensures var n := |targets| - 1;
            UnknownAt(if RowFor(rows, targets[n], None) then at + [n] else at, targets, rows)
  {
    hide RowFor;
    var n := |targets| - 1;
    var at' := if RowFor(rows, targets[n], None) then at + [n] else at;
    forall k: nat | k < |targets| ensures k in at' <==> RowFor(rows, targets[k], None) {
      if k < n { assert targets[..n][k] == targets[k]; }
      assert k in at ==> k < n;
    }
  }

  lemma WarnedNext(warnings: seq<string>, at: seq<nat>, targets: seq<string>)
    requires targets != [] && WarnedAt(warnings, at, targets[..|targets| - 1])
    ensures WarnedAt(warnings, at, targets)
    ensures WarnedAt(warnings + [FallbackWarning(targets[|targets| - 1])], at + [|targets| - 1], targets)
  {}

  lemma KnownExactly(rows: seq<Metric>, gu: string)
    ensures gu in Forecasting.Gus(rows) <==> !RowFor(rows, gu, None)
  {
    if gu in Forecasting.Gus(rows) {
      var row :| row in rows && row.guCode == gu;
      var j :| 0 <= j < |rows| && rows[j] == row;
    }
  }

  lemma FallbacksSplit(targets: seq<string>, known: set<string>)
    requires targets != []
    ensures var n := |targets| - 1;
            Fallbacks(targets, known) ==
            if targets[n] in known then Fallbacks(targets[..n], known)
            else Fallbacks(targets[..n], known) + [FallbackWarning(targets[n])]
  {
    hide FallbackWarning;
  }

  /** One warning per target without a row, in order. */
  lemma {:induction false} FallbacksExactly(targets: seq<string>, rows: seq<Metric>) returns (at: seq<nat>)
    ensures UnknownAt(at, targets, rows) && WarnedAt(Fallbacks(targets, Forecasting.Gus(rows)), at, targets)
  {
    hide RowFor, UnknownAt, WarnedAt, FallbackWarning, Forecasting.Gus, Fallbacks;
    if targets == [] {
      at := [];
      NoTargets(rows);
    } else {
      var n := |targets| - 1;
      var before := FallbacksExactly(targets[..n], rows);
      KnownExactly(rows, targets[n]);
      UnknownNext(before, targets, rows);
      WarnedNext(Fallbacks(targets[..n], Forecasting.Gus(rows)), before, targets);
      FallbacksSplit(targets, Forecasting.Gus(rows));
      at := if RowFor(rows, targets[n], None) then before + [n] else before;
    }
  }

  lemma NoTargets(rows: seq<Metric>)
    ensures UnknownAt([], [], rows) && WarnedAt(Fallbacks([], Forecasting.Gus(rows)), [], [])
  {}
}
