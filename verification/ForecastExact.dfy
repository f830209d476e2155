/** A forecast in numbers: which row it starts from, the average it compares with, its score and its projections. */
module ForecastExact {
  import opened Wrappers
  import opened Ordering
  import opened Numbers
  import opened Periods
  import opened Statistics
  import opened GoldDistrict
  import opened Forecasting

  /* ---------- the latest rows, by position ---------- */

  /** The k-th row is the first of the district's rows of its latest period. */
  ghost predicate FirstLatest(rows: seq<Metrics>, gu: string, k: nat) {
    && k < |rows| && rows[k].guCode == gu
    && forall j :: 0 <= j < |rows| && rows[j].guCode == gu ==>
         !Less(rows[k].period, rows[j].period) && (j < k ==> rows[j].period != rows[k].period)
  }

  /** The k-th row is the last of the district's rows of its latest period. */
  ghost predicate LastLatest(rows: seq<Metrics>, gu: string, k: nat) {
    && k < |rows| && rows[k].guCode == gu
    && forall j :: 0 <= j < |rows| && rows[j].guCode == gu ==>
         !Less(rows[k].period, rows[j].period) && (j > k ==> rows[j].period != rows[k].period)
  }

  /** A district with a row has both. */
  lemma {:induction false} LatestExists(rows: seq<Metrics>, gu: string) returns (first: nat, last: nat)
    requires exists k :: 0 <= k < |rows| && rows[k].guCode == gu
    ensures FirstLatest(rows, gu, first) && LastLatest(rows, gu, last)
  {
    hide Less;
    var n := |rows| - 1;
    StringOrder();
    if k :| 0 <= k < n && rows[k].guCode == gu {
      assert rows[..n][k].guCode == gu;
      first, last := LatestExists(rows[..n], gu);
      if rows[n].guCode == gu && Less(rows[first].period, rows[n].period) { first := n; }
      if rows[n].guCode == gu && !Less(rows[n].period, rows[last].period) { last := n; }
    } else {
      first, last := n, n;
    }
  }

  lemma OfGuSplit(rows: seq<Metrics>, gu: string)
    requires rows != []
    ensures OfGu(rows, gu) ==
            OfGu(rows[..|rows| - 1], gu) + (if rows[|rows| - 1].guCode == gu then [rows[|rows| - 1]] else [])
  {}

  /** The positions of a district's rows. */
  ghost function RowsOfGu(rows: seq<Metrics>, gu: string): set<int> {
    set k | 0 <= k < |rows| && rows[k].guCode == gu
  }

  lemma RowsOfGuNext(rows: seq<Metrics>, gu: string)
    requires rows != []
    ensures var n := |rows| - 1;
            && n !in RowsOfGu(rows[..n], gu)
            && RowsOfGu(rows, gu) == if rows[n].guCode == gu then RowsOfGu(rows[..n], gu) + {n} else RowsOfGu(rows[..n], gu)
  {
    var n := |rows| - 1;
    forall k ensures k in RowsOfGu(rows, gu) <==> k in RowsOfGu(rows[..n], gu) || (k == n && rows[n].guCode == gu) {
      if 0 <= k < n { assert rows[..n][k] == rows[k]; }
    }
  }

  lemma {:induction false} OfGuCounts(rows: seq<Metrics>, gu: string)
    ensures |OfGu(rows, gu)| == |RowsOfGu(rows, gu)|
  {
    if rows == [] {
      assert RowsOfGu(rows, gu) == {};
    } else {
      hide OfGu, RowsOfGu;
      OfGuCounts(rows[..|rows| - 1], gu);
      OfGuSplit(rows, gu);
      RowsOfGuNext(rows, gu);
    }
  }

  lemma PickedBefore(rows: seq<Metrics>, gu: string)
    ensures OnePassMax(OfGu(rows, gu)).Some? ==>
      exists j :: 0 <= j < |rows| && rows[j].guCode == gu && rows[j] == OnePassMax(OfGu(rows, gu)).value
  {
    hide Less;
    var group := OfGu(rows, gu);
    if group != [] {
      OnePassLatest(group);
      OfGuIn(rows, gu, OnePassMax(group).value);
    }
  }

  /** The snapshot reader reports the first row of the latest period. */
  lemma {:induction false} FirstLatestRead(rows: seq<Metrics>, gu: string, k: nat)
    requires FirstLatest(rows, gu, k)
    ensures OnePassMax(OfGu(rows, gu)) == Some(rows[k])
  {
    hide Less, OfGu, OnePassMax;
    var n := |rows| - 1;
    OfGuSplit(rows, gu);
    OnePassNext(OfGu(rows[..n], gu), rows[n]);
    if k == n {
      PickedBefore(rows[..n], gu);
      StringOrder();
    } else {
      FirstLatestRead(rows[..n], gu, k);
      assert OfGu(rows[..n], gu) + [] == OfGu(rows[..n], gu);
    }
  }

  lemma {:induction false} LastOfPeriodIs(rows: seq<Metrics>, gu: string, k: nat)
    requires k < |rows| && rows[k].guCode == gu
    requires forall j :: k < j < |rows| && rows[j].guCode == gu ==> rows[j].period != rows[k].period
    ensures var found := OfPeriod(OfGu(rows, gu), rows[k].period); found != [] && found[|found| - 1] == rows[k]
  {
    hide OfGu, OfPeriod;
    var n := |rows| - 1;
    OfGuSplit(rows, gu);
    if rows[n].guCode == gu {
      OfPeriodAppend(OfGu(rows[..n], gu), rows[n], rows[k].period);
    } else {
      assert OfGu(rows[..n], gu) + [] == OfGu(rows[..n], gu);
    }
    if k < n {
      LastOfPeriodIs(rows[..n], gu, k);
      assert OfPeriod(OfGu(rows[..n], gu), rows[k].period) + [] == OfPeriod(OfGu(rows[..n], gu), rows[k].period);
    }
  }

  lemma IsLatestOf(rows: seq<Metrics>, gu: string, k: nat)
    requires LastLatest(rows, gu, k)
    ensures OfGu(rows, gu) != [] && Forecasting.Latest(OfGu(rows, gu), rows[k])
  {
    hide Less, OfGu;
    OfGuIn(rows, gu, rows[k]);
    forall other | other in OfGu(rows, gu) ensures !Less(rows[k].period, other.period) {
      OfGuIn(rows, gu, other);
    }
  }

  /** The forecaster starts from the last row of the latest period. */
  lemma LastLatestForecast(rows: seq<Metrics>, gu: string, k: nat)
    requires LastLatest(rows, gu, k)
    ensures SortedLast(OfGu(rows, gu)) == Some(rows[k])
  {
    hide Less, OfGu, OfPeriod, OnePassMax, MaxPeriod, SortedLast;
    var group := OfGu(rows, gu);
    IsLatestOf(rows, gu, k);
    OnePassLatest(group);
    OnePassIsFirst(group);
    SamePeriod(group, rows[k], OnePassMax(group).value);
    SortedLastIsLast(group);
    LastOfPeriodIs(rows, gu, k);
  }

  /* ---------- the forecast ---------- */

  /** `value` without its fraction. */
  ghost predicate Whole(x: int, value: real) {
    if value >= 0.0 then x as real <= value < x as real + 1.0 else x as real - 1.0 < value <= x as real
  }

  lemma TruncIsWhole(value: real)
    ensures Whole(Trunc(value), value)
  {
    if value >= 0.0 { FloorOf(value); } else { FloorOf(-value); }
  }

  lemma FloorOf(value: real)
    requires value >= 0.0
    ensures value.Floor as real <= value < value.Floor as real + 1.0
  {}

  /** The mean of the last three average prices, or of as many as there are. */
  ghost predicate RecentMean(sorted: seq<Metrics>, mean: real) {
    var n := |sorted|;
    && n > 0
    && (n == 1 ==> mean == sorted[0].avgPrice as real)
    && (n == 2 ==> 2.0 * mean == (sorted[0].avgPrice + sorted[1].avgPrice) as real)
    && (n >= 3 ==> 3.0 * mean == (sorted[n - 3].avgPrice + sorted[n - 2].avgPrice + sorted[n - 1].avgPrice) as real)
  }

  lemma SumOfThree(xs: seq<int>)
    requires 1 <= |xs| <= 3
    ensures Sum(xs) == xs[0] + (if |xs| >= 2 then xs[1] else 0) + (if |xs| == 3 then xs[2] else 0)
  {
    assert Sum([]) == 0;
    assert xs[..1][..0] == [];
    if |xs| >= 2 { assert xs[..2][..1] == xs[..1]; }
    if |xs| == 1 { assert xs[..1] == xs; }
    if |xs| == 2 { assert xs[..2] == xs; }
  }

  lemma MeanExactly(sorted: seq<Metrics>)
    requires sorted != []
    ensures RecentMean(sorted, MovingAverage(sorted))
  {
    var recent := LastThree(sorted);
    SumOfThree(AvgPrices(recent));
  }

  /** The signed percentage by which the price lies above a positive mean. */
  ghost predicate Signal(signal: real, price: int, mean: real) {
    if mean > 0.0 then signal * mean == 100.0 * (price as real - mean) else signal == 0.0
  }

  ghost predicate ScoreIs(score: real, latest: Metrics, mean: real) {
    exists signal :: Signal(signal, latest.avgPrice, mean) &&
      score == 0.6 * (if latest.momPrice.Some? then latest.momPrice.value else 0.0) + 0.3 * signal
               + 0.1 * (if latest.momVolume.Some? then latest.momVolume.value else 0.0)
  }

  lemma ScoreExactly(latest: Metrics, mean: real)
    ensures ScoreIs(Score(latest, mean), latest, mean)
  {
    var price := latest.avgPrice as real;
    var signal := if mean > 0.0 then (price - mean) / mean * 100.0 else 0.0;
    if mean > 0.0 { SignalTimes(price, mean); }
    assert Signal(signal, latest.avgPrice, mean);
  }

  lemma SignalTimes(price: real, mean: real)
    requires mean > 0.0
    ensures (price - mean) / mean * 100.0 * mean == 100.0 * (price - mean)
  {
    var w := (price - mean) / mean;
    assert w * mean == price - mean;
    assert w * 100.0 * mean == 100.0 * (w * mean);
  }

  /** A number moved on by its percentage change, without its fraction. */
  ghost predicate MovedOn(x: int, value: int, change: Option<real>) {
    match change
    case None => x == value
    case Some(c) => Whole(x, value as real * (1.0 + c / 100.0))
  }

  lemma ProjectedMoves(value: int, change: Option<real>)
    ensures MovedOn(Projected(value, change), value, change)
  {
    if change.Some? { ProjectedPercent(value, change.value); }
  }

  lemma ProjectedPercent(value: int, c: real)
    ensures Whole(Projected(value, Some(c)), value as real * (1.0 + c / 100.0))
  {
    hide Trunc, MovedBy;
    TruncIsWhole(MovedBy(value as real, c));
    PercentMore(value as real, c);
  }

  lemma PercentMore(value: real, c: real)
    ensures MovedBy(value, c) == value * (1.0 + c / 100.0)
  {}

  /** The features a row offers: the names of its fields that have a value, in a fixed order. */
  ghost predicate Offers(row: Metrics, name: string) {
    || (name == "mom_price_change" && row.momPrice.Some?) || (name == "yoy_price_change" && row.yoyPrice.Some?)
    || (name == "mom_volume_change" && row.momVolume.Some?) || (name == "yoy_volume_change" && row.yoyVolume.Some?)
    || (name == "base_interest_rate" && row.baseRate.Some?) || (name == "net_migration" && row.netMigration.Some?)
  }

  ghost function Place(name: string): nat {
    if name == "mom_price_change" then 1 else if name == "yoy_price_change" then 2 else if name == "mom_volume_change" then 3
    else if name == "yoy_volume_change" then 4 else if name == "base_interest_rate" then 5
    else if name == "net_migration" then 6 else 0
  }

  ghost predicate FeaturesAre(row: Metrics, names: seq<string>) {
    && (forall name :: name in names <==> Offers(row, name))
    && forall i, j :: 0 <= i < j < |names| ==> Place(names[i]) < Place(names[j])
  }

  /** The features in order, as far as a place. */
  ghost predicate FeaturesUpTo(row: Metrics, names: seq<string>, place: nat) {
    && (forall name :: name in names <==> Offers(row, name) && Place(name) <= place)
    && forall i, j :: 0 <= i < j < |names| ==> Place(names[i]) < Place(names[j])
  }

  lemma FeatureNext(row: Metrics, names: seq<string>, place: nat, name: string, offered: bool)
    requires FeaturesUpTo(row, names, place) && Place(name) == place + 1 && (Offers(row, name) <==> offered)
    requires forall other :: Place(other) == place + 1 ==> other == name
    ensures FeaturesUpTo(row, names + (if offered then [name] else []), place + 1)
  {
    hide Offers, Place;
    assert forall i :: 0 <= i < |names| ==> names[i] in names;
  }

  lemma NoFeatureYet(row: Metrics)
    ensures FeaturesUpTo(row, [], 0)
    ensures forall names :: FeaturesUpTo(row, names, 6) ==> FeaturesAre(row, names)
  {
    assert forall name :: Offers(row, name) ==> 1 <= Place(name) <= 6;
  }

  lemma PlacesKnown()
    ensures Place("mom_price_change") == 1 && Place("yoy_price_change") == 2 && Place("mom_volume_change") == 3
    ensures Place("yoy_volume_change") == 4 && Place("base_interest_rate") == 5 && Place("net_migration") == 6
    ensures forall name :: Place(name) == 1 ==> name == "mom_price_change"
    ensures forall name :: Place(name) == 2 ==> name == "yoy_price_change"
    ensures forall name :: Place(name) == 3 ==> name == "mom_volume_change"
    ensures forall name :: Place(name) == 4 ==> name == "yoy_volume_change"
    ensures forall name :: Place(name) == 5 ==> name == "base_interest_rate"
    ensures forall name :: Place(name) == 6 ==> name == "net_migration"
  {}

  lemma OffersKnown(row: Metrics)
    ensures Offers(row, "mom_price_change") <==> row.momPrice.Some?
    ensures Offers(row, "yoy_price_change") <==> row.yoyPrice.Some?
    ensures Offers(row, "mom_volume_change") <==> row.momVolume.Some?
    ensures Offers(row, "yoy_volume_change") <==> row.yoyVolume.Some?
    ensures Offers(row, "base_interest_rate") <==> row.baseRate.Some?
    ensures Offers(row, "net_migration") <==> row.netMigration.Some?
  {}

  lemma FeaturesExactly(row: Metrics)
    ensures FeaturesAre(row, FeaturesOf(row))
  {
    hide Place, Offers, FeaturesUpTo, FeaturesAre;
    PlacesKnown();
    OffersKnown(row);
    NoFeatureYet(row);
    var n1 := if row.momPrice.Some? then ["mom_price_change"] else [];
    FeatureNext(row, [], 0, "mom_price_change", row.momPrice.Some?);
    assert [] + n1 == n1;
    FeatureNext(row, n1, 1, "yoy_price_change", row.yoyPrice.Some?);
    var n2 := n1 + (if row.yoyPrice.Some? then ["yoy_price_change"] else []);
    FeatureNext(row, n2, 2, "mom_volume_change", row.momVolume.Some?);
    var n3 := n2 + (if row.momVolume.Some? then ["mom_volume_change"] else []);
    FeatureNext(row, n3, 3, "yoy_volume_change", row.yoyVolume.Some?);
    var n4 := n3 + (if row.yoyVolume.Some? then ["yoy_volume_change"] else []);
    FeatureNext(row, n4, 4, "base_interest_rate", row.baseRate.Some?);
    var n5 := n4 + (if row.baseRate.Some? then ["base_interest_rate"] else []);
    FeatureNext(row, n5, 5, "net_migration", row.netMigration.Some?);
  }

  ghost predicate DirectionBy(direction: Direction, score: real) {
    match direction
    case Up => score > 1.0
    case Down => score < -1.0
    case Flat => -1.0 <= score <= 1.0
  }

  /** How many rows a district has decides the confidence. */
  ghost predicate ConfidenceBy(confidence: real, n: nat) {
    && (n < 3 ==> confidence == 0.2) && (3 <= n < 6 ==> confidence == 0.4)
    && (6 <= n < 12 ==> confidence == 0.6) && (n >= 12 ==> confidence == 0.8)
  }

  /**
   The forecast of a district: from the last row of its latest period to the month after
   it, scored by 0.6 times its price change, 0.3 times its distance from the mean of the
   last three rows in percent and 0.1 times its volume change.
   */
  lemma ForecastExactly(rows: seq<Metrics>, gu: string, f: Forecast, k: nat)
    requires Forecasts(rows, gu, f) && LastLatest(rows, gu, k)
    ensures var latest, sorted := rows[k], Sort(EarlierPeriod, OfGu(rows, gu));
            && f.guCode == gu && f.guName == latest.guName
            && IsPeriod(latest.period) && IsPeriod(f.targetPeriod) && Month(f.targetPeriod) == Month(latest.period) + 1
            && (exists mean, score ::
                  RecentMean(sorted, mean) && ScoreIs(score, latest, mean) && DirectionBy(f.direction, score))
            && ConfidenceBy(f.confidence, |RowsOfGu(rows, gu)|)
            && MovedOn(f.predictedMedianPrice, latest.medianPrice, latest.momPrice)
            && (exists moved :: MovedOn(moved, latest.saleCount, latest.momVolume) &&
                  f.predictedVolume == if moved < 0 then 0 else moved)
            && FeaturesAre(latest, f.featuresUsed)
  {
    hide Less, OfGu, Sort, Score, MovingAverage, RecentMean, ScoreIs, Projected, MovedOn, FeaturesOf, FeaturesAre,
      IsPeriod, Month, SortedLast;
    LastLatestForecast(rows, gu, k);
    var latest, sorted := rows[k], Sort(EarlierPeriod, OfGu(rows, gu));
    MeanExactly(sorted);
    ScoreExactly(latest, MovingAverage(sorted));
    ProjectedMoves(latest.medianPrice, latest.momPrice);
    ProjectedMoves(latest.saleCount, latest.momVolume);
    FeaturesExactly(latest);
    OfGuCounts(rows, gu);
    assert DirectionBy(f.direction, Score(latest, MovingAverage(sorted)));
  }
}
