/** The latest row of a district, picked in two ways, and the baseline forecast that starts from it. */
module Forecasting {
  import opened Wrappers
  import opened Numbers
  import opened Ordering
  import opened Periods
  import opened Statistics
  import opened GoldDistrict
  import opened GoldTrends

  /* ---------- the latest row of a district, picked in two ways ---------- */

  /** The rows of one district, in their order. */
  function OfGu(rows: seq<Metrics>, gu: string): seq<Metrics> {
    if rows == [] then [] else
      OfGu(rows[..|rows| - 1], gu) + (if rows[|rows| - 1].guCode == gu then [rows[|rows| - 1]] else [])
  }

  ghost function Gus(rows: seq<Metrics>): set<string> {
    set row | row in rows :: row.guCode
  }

  predicate EarlierPeriod(a: Metrics, b: Metrics) { Less(a.period, b.period) }

  /** The forecaster's choice: sort by period and take the last. */
  function SortedLast(rows: seq<Metrics>): Option<Metrics> {
    var sorted := Sort(EarlierPeriod, rows);
    if sorted == [] then None else Some(sorted[|sorted| - 1])
  }

  /** One iteration of the reader's maximum. */
  function Newer(current: Option<Metrics>, row: Metrics): Option<Metrics> {
    if current.None? || Less(current.value.period, row.period) then Some(row) else current
  }

  /** The reader's choice: a one-pass maximum that keeps the first of equals. */
  function OnePassMax(rows: seq<Metrics>): Option<Metrics> {
    if rows == [] then None else Newer(OnePassMax(rows[..|rows| - 1]), rows[|rows| - 1])
  }

  /** `row` is at least as late as every row. */
  ghost predicate Latest(rows: seq<Metrics>, row: Metrics) {
    row in rows && forall other :: other in rows ==> !Less(row.period, other.period)
  }

  lemma {:induction false} OnePassLatest(rows: seq<Metrics>)
    requires rows != []
    ensures OnePassMax(rows).Some? && Latest(rows, OnePassMax(rows).value)
  {
    var init, last := rows[..|rows| - 1], rows[|rows| - 1];
    assert rows == init + [last];
    StringOrder();
    if init != [] { OnePassLatest(init); }
  }

  ghost predicate PeriodsAscend(rows: seq<Metrics>) {
    forall i, j :: 0 <= i < j < |rows| ==> !Less(rows[j].period, rows[i].period)
  }

  lemma {:induction false} InsertAscends(row: Metrics, rows: seq<Metrics>)
    requires PeriodsAscend(rows)
    ensures PeriodsAscend(Insert(EarlierPeriod, row, rows))
  {
    InsertContents(EarlierPeriod, row, rows);
    StringOrder();
    if rows == [] {
    } else if !EarlierPeriod(rows[0], row) {
      assert forall i :: 0 <= i < |rows| ==> !Less(rows[i].period, row.period);
    } else {
      InsertAscends(row, rows[1..]);
      InsertContents(EarlierPeriod, row, rows[1..]);
      var rest := Insert(EarlierPeriod, row, rows[1..]);
      forall j | 0 <= j < |rest| ensures !Less(rest[j].period, rows[0].period) {
        assert rest[j] in multiset(rest);
        assert rest[j] == row || rest[j] in rows[1..];
      }
    }
  }

  lemma {:induction false} SortAscends(rows: seq<Metrics>)
    ensures PeriodsAscend(Sort(EarlierPeriod, rows))
  {
    if rows != [] {
      SortAscends(rows[1..]);
      InsertAscends(rows[0], Sort(EarlierPeriod, rows[1..]));
    }
  }

  lemma LastIsLatest(sorted: seq<Metrics>)
    requires sorted != [] && PeriodsAscend(sorted)
    ensures Latest(sorted, sorted[|sorted| - 1])
  {
    hide Less;
    StringOrder();
  }

  lemma SortedLastLatest(rows: seq<Metrics>)
    requires rows != []
    ensures SortedLast(rows).Some? && Latest(rows, SortedLast(rows).value)
  {
    hide Less, Sort, PeriodsAscend;
    var sorted := Sort(EarlierPeriod, rows);
    SortAscends(rows);
    SortContents(EarlierPeriod, rows);
    SameElements(sorted, rows);
    EmptyTogether(sorted, rows);
    LastIsLatest(sorted);
    assert forall row :: row in rows <==> row in Elements(sorted);
  }

  /** The rows of one period, in their order. */
  function OfPeriod(rows: seq<Metrics>, period: string): seq<Metrics> {
    if rows == [] then [] else (if rows[0].period == period then [rows[0]] else []) + OfPeriod(rows[1..], period)
  }

  /** `max` of the periods. */
  function MaxPeriod(rows: seq<Metrics>): string
    requires rows != []
  {
    if |rows| == 1 then rows[0].period else
      var before := MaxPeriod(rows[..|rows| - 1]);
      if Less(before, rows[|rows| - 1].period) then rows[|rows| - 1].period else before
  }

  lemma OfPeriodCons(row: Metrics, rows: seq<Metrics>, period: string)
    ensures OfPeriod([row] + rows, period) == (if row.period == period then [row] else []) + OfPeriod(rows, period)
  {
    assert ([row] + rows)[1..] == rows;
  }

  lemma {:induction false} OfPeriodAppend(rows: seq<Metrics>, row: Metrics, period: string)
    ensures OfPeriod(rows + [row], period) == OfPeriod(rows, period) + (if row.period == period then [row] else [])
  {
    if rows == [] {
      assert [] + [row] == [row] + [];
      OfPeriodCons(row, [], period);
    } else {
      hide OfPeriod;
      var first, rest := rows[0], rows[1..];
      assert rows == [first] + rest && rows + [row] == [first] + (rest + [row]);
      OfPeriodCons(first, rest + [row], period);
      OfPeriodCons(first, rest, period);
      OfPeriodAppend(rest, row, period);
    }
  }

  lemma {:induction false} OfPeriodIn(rows: seq<Metrics>, period: string, row: Metrics)
    ensures row in OfPeriod(rows, period) <==> row in rows && row.period == period
  {
    if rows != [] { OfPeriodIn(rows[1..], period, row); }
  }

  lemma SwapIfEmpty<T>(a: seq<T>, b: seq<T>, rest: seq<T>)
    requires a == [] || b == []
    ensures a + (b + rest) == b + (a + rest)
  {}

  lemma {:induction false} InsertKeepsPeriod(row: Metrics, rows: seq<Metrics>, period: string)
    ensures OfPeriod(Insert(EarlierPeriod, row, rows), period) ==
            (if row.period == period then [row] else []) + OfPeriod(rows, period)
  {
    hide Less, OfPeriod;
    if rows == [] || !EarlierPeriod(rows[0], row) {
      OfPeriodCons(row, rows, period);
    } else {
      var first, rest := rows[0], rows[1..];
      InsertKeepsPeriod(row, rest, period);
      StringOrder();
      assert first.period != row.period;
      assert rows == [first] + rest;
      OfPeriodCons(first, Insert(EarlierPeriod, row, rest), period);
      OfPeriodCons(first, rest, period);
      SwapIfEmpty(if first.period == period then [first] else [], if row.period == period then [row] else [],
                  OfPeriod(rest, period));
    }
  }

  /** Sorting by period keeps the rows of one period in order. */
  lemma {:induction false} SortKeepsPeriod(rows: seq<Metrics>, period: string)
    ensures OfPeriod(Sort(EarlierPeriod, rows), period) == OfPeriod(rows, period)
  {
    if rows != [] {
      SortKeepsPeriod(rows[1..], period);
      InsertKeepsPeriod(rows[0], Sort(EarlierPeriod, rows[1..]), period);
    }
  }

  lemma SamePeriod(rows: seq<Metrics>, a: Metrics, b: Metrics)
    requires Latest(rows, a) && Latest(rows, b)
    ensures a.period == b.period
  {
    LessTotal(a.period, b.period);
  }

  lemma NoneOfLaterPeriod(rows: seq<Metrics>, row: Metrics, period: string)
    requires Latest(rows, row) && Less(row.period, period)
    ensures OfPeriod(rows, period) == []
  {
    hide Less;
    var found := OfPeriod(rows, period);
    if found != [] { OfPeriodIn(rows, period, found[0]); }
  }

  /** The one-pass maximum is the first row of the greatest period. */
  lemma {:induction false} OnePassIsFirst(rows: seq<Metrics>)
    requires rows != []
    ensures OnePassMax(rows).Some? && OnePassMax(rows).value.period == MaxPeriod(rows)
    ensures OfPeriod(rows, MaxPeriod(rows)) != [] && OnePassMax(rows).value == OfPeriod(rows, MaxPeriod(rows))[0]
  {
    hide Less;
    var init, last := rows[..|rows| - 1], rows[|rows| - 1];
    assert rows == init + [last];
    OfPeriodAppend(init, last, MaxPeriod(rows));
    if init == [] {
      assert OnePassMax(init) == None;
    } else {
      OnePassIsFirst(init);
      OnePassLatest(init);
      if Less(MaxPeriod(init), last.period) {
        NoneOfLaterPeriod(init, OnePassMax(init).value, last.period);
      }
    }
  }

  /** Sort-and-take-last picks the last row of the greatest period. */
  lemma SortedLastIsLast(rows: seq<Metrics>)
    requires rows != []
    ensures OfPeriod(rows, MaxPeriod(rows)) != []
    ensures SortedLast(rows) == Some(OfPeriod(rows, MaxPeriod(rows))[|OfPeriod(rows, MaxPeriod(rows))| - 1])
  {
    hide Less, OfPeriod, OnePassMax, MaxPeriod, Sort;
    SortedLastLatest(rows);
    OnePassLatest(rows);
    OnePassIsFirst(rows);
    SamePeriod(rows, SortedLast(rows).value, OnePassMax(rows).value);
    SortKeepsPeriod(rows, MaxPeriod(rows));
    LastOfItsPeriod(Sort(EarlierPeriod, rows));
  }

  lemma LastOfItsPeriod(rows: seq<Metrics>)
    requires rows != []
    ensures var last := rows[|rows| - 1];
            var found := OfPeriod(rows, last.period);
            found != [] && found[|found| - 1] == last
  {
    var n := |rows| - 1;
    assert rows == rows[..n] + [rows[n]];
    OfPeriodAppend(rows[..n], rows[n], rows[n].period);
  }

  /** The first and the last row of the greatest period are the same. */
  predicate OneLatestRow(rows: seq<Metrics>) {
    if rows == [] then true else
      OnePassIsFirst(rows);
      var latest := OfPeriod(rows, MaxPeriod(rows));
      latest[0] == latest[|latest| - 1]
  }

  /** The two ways pick the same row exactly when the first and the last row of the greatest period are the same. */
  lemma SameLatestExactly(rows: seq<Metrics>)
    ensures SortedLast(rows) == OnePassMax(rows) <==> OneLatestRow(rows)
  {
    if rows != [] {
      OnePassIsFirst(rows);
      SortedLastIsLast(rows);
    } else {
      assert Sort(EarlierPeriod, rows) == [];
    }
  }

  /** The row picked either way has the greatest month of the calendar. */
  lemma LatestMonth(rows: seq<Metrics>, other: Metrics)
    requires ValidPeriods(rows) && other in rows
    ensures SortedLast(rows).Some? && OnePassMax(rows).Some?
    ensures IsPeriod(other.period) && IsPeriod(SortedLast(rows).value.period) && IsPeriod(OnePassMax(rows).value.period)
    ensures Month(other.period) <= Month(SortedLast(rows).value.period) == Month(OnePassMax(rows).value.period)
  {
    hide Less, IsPeriod, Month;
    SortedLastLatest(rows);
    OnePassLatest(rows);
    var a, b := SortedLast(rows).value, OnePassMax(rows).value;
    SamePeriod(rows, a, b);
    assert forall row :: row in rows ==> IsPeriod(row.period);
    PeriodsCompare(a.period, other.period);
  }

  lemma {:induction false} OfGuIn(rows: seq<Metrics>, gu: string, row: Metrics)
    ensures row in OfGu(rows, gu) <==> row in rows && row.guCode == gu
  {
    if rows != [] {
      assert rows == rows[..|rows| - 1] + [rows[|rows| - 1]];
      OfGuIn(rows[..|rows| - 1], gu, row);
    }
  }

  /**
   The forecaster and the snapshot reader agree on a district's latest row exactly when
   the first and the last of its rows of its greatest period are the same.
   */
  lemma LatestAgreeExactly(rows: seq<Metrics>, gu: string)
    ensures SortedLast(OfGu(rows, gu)) == OnePassMax(OfGu(rows, gu)) <==> OneLatestRow(OfGu(rows, gu))
  {
    SameLatestExactly(OfGu(rows, gu));
  }

  /** They agree in particular when (district, period) is unique. */
  lemma LatestAgree(rows: seq<Metrics>, gu: string)
    requires UniqueKeys(rows)
    ensures SortedLast(OfGu(rows, gu)) == OnePassMax(OfGu(rows, gu))
  {
    var group := OfGu(rows, gu);
    if group != [] {
      OnePassIsFirst(group);
      var latest := OfPeriod(group, MaxPeriod(group));
      var a, b := latest[0], latest[|latest| - 1];
      OfPeriodIn(group, MaxPeriod(group), a);
      OfPeriodIn(group, MaxPeriod(group), b);
      OfGuIn(rows, gu, a);
      OfGuIn(rows, gu, b);
      OnlyOne(rows, a, b);
    }
    LatestAgreeExactly(rows, gu);
  }

  /** They can differ: of two rows of one period the forecaster takes the second, the reader the first. */
  lemma DuplicatesDisagree(a: Metrics, b: Metrics)
    requires a.period == b.period
    ensures SortedLast([a, b]) == Some(b) && OnePassMax([a, b]) == Some(a)
  {
    LessIrreflexive(a.period);
    assert [a, b][1..] == [b] && [b][1..] == [] && Sort(EarlierPeriod, [b]) == [b];
    assert Sort(EarlierPeriod, [a, b]) == [a, b];
    assert [a, b][..1] == [a] && [a][..0] == [] && OnePassMax([a]) == Some(a);
  }

  /* ---------- the reader ---------- */

  lemma GusOneMore(rows: seq<Metrics>, i: nat)
    requires i < |rows|
    ensures Gus(rows[..i + 1]) == Gus(rows[..i]) + {rows[i].guCode}
  {
    assert rows[..i + 1] == rows[..i] + [rows[i]];
  }

  lemma OfGuNext(rows: seq<Metrics>, i: nat, gu: string)
    requires i < |rows|
    ensures OfGu(rows[..i + 1], gu) == OfGu(rows[..i], gu) + (if rows[i].guCode == gu then [rows[i]] else [])
  {
    assert rows[..i + 1][..i] == rows[..i];
  }

  lemma {:induction false} NoRowsOfGu(rows: seq<Metrics>, gu: string)
    requires gu !in Gus(rows)
    ensures OfGu(rows, gu) == []
  {
    if rows != [] {
      var n := |rows| - 1;
      assert rows[..n + 1] == rows;
      GusOneMore(rows, n);
      NoRowsOfGu(rows[..n], gu);
    }
  }

  predicate Requested(requested: Option<set<string>>, gu: string) {
    requested.None? || gu in requested.value
  }

  /** The requested districts that have a row. */
  ghost function Wanted(rows: seq<Metrics>, requested: Option<set<string>>): set<string> {
    set gu | gu in Gus(rows) && Requested(requested, gu)
  }

  /** The table of maxima after some rows. */
  ghost predicate Maxima(rows: seq<Metrics>, requested: Option<set<string>>, latest: map<string, Metrics>, order: seq<string>) {
    && latest.Keys == Wanted(rows, requested) && Distinct(order) && Elements(order) == latest.Keys
    && forall gu :: gu in latest ==> OnePassMax(OfGu(rows, gu)) == Some(latest[gu])
  }

  lemma OnePassNext(rows: seq<Metrics>, row: Metrics)
    ensures OnePassMax(rows + [row]) == Newer(OnePassMax(rows), row)
  {
    assert (rows + [row])[..|rows|] == rows;
  }

  function Held(latest: map<string, Metrics>, gu: string): Option<Metrics> {
    if gu in latest then Some(latest[gu]) else None
  }

  lemma MaximaNext(rows: seq<Metrics>, i: nat, requested: Option<set<string>>, latest: map<string, Metrics>, order: seq<string>)
    requires i < |rows| && Maxima(rows[..i], requested, latest, order)
    ensures !Requested(requested, rows[i].guCode) ==> Maxima(rows[..i + 1], requested, latest, order)
    ensures Requested(requested, rows[i].guCode) ==>
      var gu := rows[i].guCode;
      Maxima(rows[..i + 1], requested, latest[gu := Newer(Held(latest, gu), rows[i]).value],
             if gu in latest then order else order + [gu])
  {
    hide OnePassMax, OfGu, Gus, Newer;
    var gu := rows[i].guCode;
    GusOneMore(rows, i);
    if Requested(requested, gu) && gu !in latest {
      NoRowsOfGu(rows[..i], gu);
      NothingPicked();
      ListedOnce(order, gu);
    }
    NewerExists(Held(latest, gu), rows[i]);
    forall g | g in latest && g != gu ensures OnePassMax(OfGu(rows[..i + 1], g)) == Some(latest[g]) {
      OfGuNext(rows, i, g);
      assert OfGu(rows[..i], g) + [] == OfGu(rows[..i], g);
    }
    OfGuNext(rows, i, gu);
    OnePassNext(OfGu(rows[..i], gu), rows[i]);
  }

  lemma NothingPicked()
    ensures OnePassMax([]) == None
  {}

  lemma NewerExists(current: Option<Metrics>, row: Metrics)
    ensures Newer(current, row).Some?
  {}

  /** The requested districts in order, each with its maximum. */
  lemma MaximaInOrder(rows: seq<Metrics>, requested: Option<set<string>>, latest: map<string, Metrics>, order: seq<string>)
    requires Maxima(rows, requested, latest, order)
    ensures Sort(Less, order) == SortedIds(Wanted(rows, requested))
    ensures forall gu :: gu in Sort(Less, order) ==> gu in latest && OnePassMax(OfGu(rows, gu)) == Some(latest[gu])
  {
    hide OnePassMax, OfGu, Wanted, Less, Sort;
    SortGivesIds(order);
    SortedIdsIn(Wanted(rows, requested));
  }

  /** The latest row of every requested district that has one, in order of district code. */
  method GetLatestMetrics(rows: seq<Metrics>, requested: Option<set<string>>) returns (latest: seq<Metrics>)
    ensures var gus := SortedIds(Wanted(rows, requested));
            |latest| == |gus| && forall i :: 0 <= i < |gus| ==> OnePassMax(OfGu(rows, gus[i])) == Some(latest[i])
  {
    hide OnePassMax, OfGu, Wanted, Newer, Maxima, Sort;
    var latestByGu: map<string, Metrics> := map[];
    var order := [];
    var i := 0;
    NobodyWanted(requested);
    assert rows[..0] == [];
    while i < |rows|
      invariant 0 <= i <= |rows|
      invariant Maxima(rows[..i], requested, latestByGu, order)
    {
      MaximaNext(rows, i, requested, latestByGu, order);
      var row := rows[i];
      i := i + 1;
      if !Requested(requested, row.guCode) {
        continue;
      }
      var current := Held(latestByGu, row.guCode);
      order := if row.guCode in latestByGu then order else order + [row.guCode];
      NewerExists(current, row);
      latestByGu := latestByGu[row.guCode := Newer(current, row).value];
    }
    assert rows[..|rows|] == rows;
    MaximaInOrder(rows, requested, latestByGu, order);
    var gus := Sort(Less, order);
    latest := seq(|gus|, k requires 0 <= k < |gus| => latestByGu[gus[k]]);
  }

  lemma NobodyWanted(requested: Option<set<string>>)
    ensures Wanted([], requested) == {} && Maxima([], requested, map[], [])
  {}

  /* ---------- the forecaster ---------- */

  datatype Direction = Up | Down | Flat

  datatype Forecast = Forecast(
    guCode: string, guName: string, targetPeriod: string, direction: Direction, confidence: real,
    predictedVolume: int, predictedMedianPrice: int, featuresUsed: seq<string>)

  /** Raised when the period after the latest one does not fit the pattern. */
  datatype PeriodError = PeriodOutOfRange(guCode: string)

  function OrZero(x: Option<real>): real {
    if x.Some? then x.value else 0.0
  }

  /** `rows[-3:]` */
  function LastThree(rows: seq<Metrics>): seq<Metrics> {
    if |rows| > 3 then rows[|rows| - 3..] else rows
  }

  function AvgPrices(rows: seq<Metrics>): seq<int> {
    seq(|rows|, i requires 0 <= i < |rows| => rows[i].avgPrice)
  }

  /** The moving average of the last three average prices. */
  function MovingAverage(sorted: seq<Metrics>): real
    requires sorted != []
  {
    Sum(AvgPrices(LastThree(sorted))) as real / |LastThree(sorted)| as real
  }

  function Score(latest: Metrics, average: real): real {
    var signal := if average > 0.0 then (latest.avgPrice as real - average) / average * 100.0 else 0.0;
    0.6 * OrZero(latest.momPrice) + 0.3 * signal + 0.1 * OrZero(latest.momVolume)
  }

  function DirectionOf(score: real): Direction {
    if score > 1.0 then Up else if score < -1.0 then Down else Flat
  }

  function ConfidenceOf(rowCount: nat): real {
    if rowCount >= 12 then 0.8 else if rowCount >= 6 then 0.6 else if rowCount >= 3 then 0.4 else 0.2
  }

  function MovedBy(value: real, percent: real): real { value * (1.0 + percent / 100.0) }

  /** A value moved on by a percentage, if there is one. */
  function Projected(value: int, change: Option<real>): int {
    if change.Some? then Trunc(MovedBy(value as real, change.value)) else value
  }

  function FeaturesOf(latest: Metrics): seq<string> {
    (if latest.momPrice.Some? then ["mom_price_change"] else [])
    + (if latest.yoyPrice.Some? then ["yoy_price_change"] else [])
    + (if latest.momVolume.Some? then ["mom_volume_change"] else [])
    + (if latest.yoyVolume.Some? then ["yoy_volume_change"] else [])
    + (if latest.baseRate.Some? then ["base_interest_rate"] else [])
    + (if latest.netMigration.Some? then ["net_migration"] else [])
  }

  ghost predicate ByGu(rows: seq<Metrics>, grouped: map<string, seq<Metrics>>, order: seq<string>) {
    && grouped.Keys == Gus(rows) && Distinct(order) && Elements(order) == grouped.Keys
    && forall gu :: gu in grouped ==> grouped[gu] == OfGu(rows, gu)
  }

  function GroupWith(grouped: map<string, seq<Metrics>>, row: Metrics): map<string, seq<Metrics>> {
    grouped[row.guCode := (if row.guCode in grouped then grouped[row.guCode] else []) + [row]]
  }

  lemma ByGuNext(rows: seq<Metrics>, i: nat, grouped: map<string, seq<Metrics>>, order: seq<string>)
    requires i < |rows| && ByGu(rows[..i], grouped, order)
    ensures ByGu(rows[..i + 1], GroupWith(grouped, rows[i]),
                 if rows[i].guCode in grouped then order else order + [rows[i].guCode])
  {
    hide OfGu, Gus;
    var gu := rows[i].guCode;
    GusOneMore(rows, i);
    if gu !in grouped {
      NoRowsOfGu(rows[..i], gu);
      ListedOnce(order, gu);
    }
    forall g | g in grouped || g == gu ensures GroupWith(grouped, rows[i])[g] == OfGu(rows[..i + 1], g) {
      OfGuNext(rows, i, g);
    }
  }

  method GroupByGu(rows: seq<Metrics>) returns (grouped: map<string, seq<Metrics>>, order: seq<string>)
    ensures ByGu(rows, grouped, order)
  {
    grouped, order := map[], [];
    var i := 0;
    while i < |rows|
      invariant 0 <= i <= |rows|
      invariant ByGu(rows[..i], grouped, order)
    {
      ByGuNext(rows, i, grouped, order);
      var row := rows[i];
      order := if row.guCode in grouped then order else order + [row.guCode];
      grouped := GroupWith(grouped, row);
      i := i + 1;
    }
    assert rows[..|rows|] == rows;
  }

  /** Some row of the district lies in December 9999. */
  ghost predicate Overflows(rows: seq<Metrics>, gu: string) {
    exists i :: 0 <= i < |rows| && rows[i].guCode == gu && IsPeriod(rows[i].period) && Month(rows[i].period) == 119999
  }

  /**
   A forecast starts from the row sorting picks: it targets the month after it, projects
   its numbers by its trends, and scores it against the average of the last three rows.
   */
  ghost predicate Forecasts(rows: seq<Metrics>, gu: string, f: Forecast) {
    && OfGu(rows, gu) != [] && SortedLast(OfGu(rows, gu)).Some?
    && var sorted, latest := Sort(EarlierPeriod, OfGu(rows, gu)), SortedLast(OfGu(rows, gu)).value;
       && sorted != [] && f.guCode == gu && StartsFrom(f, latest)
       && f.direction == DirectionOf(Score(latest, MovingAverage(sorted)))
       && f.confidence == ConfidenceOf(|OfGu(rows, gu)|)
  }

  /** What a forecast takes from its latest row. */
  ghost predicate StartsFrom(f: Forecast, latest: Metrics) {
    && f.guName == latest.guName && f.featuresUsed == FeaturesOf(latest)
    && IsPeriod(latest.period) && IsPeriod(f.targetPeriod) && Month(f.targetPeriod) == Month(latest.period) + 1
    && f.predictedMedianPrice == Projected(latest.medianPrice, latest.momPrice)
    && f.predictedVolume == Max(0, Projected(latest.saleCount, latest.momVolume))
  }

  lemma LatestOfGu(rows: seq<Metrics>, gu: string)
    requires ValidPeriods(rows) && gu in Gus(rows)
    ensures OfGu(rows, gu) != [] && SortedLast(OfGu(rows, gu)).Some?
    ensures var latest := SortedLast(OfGu(rows, gu)).value;
            IsPeriod(latest.period) && latest.guCode == gu && latest in rows
  {
    hide IsPeriod, OfGu;
    var row :| row in rows && row.guCode == gu;
    OfGuIn(rows, gu, row);
    SortedLastLatest(OfGu(rows, gu));
    var latest := SortedLast(OfGu(rows, gu)).value;
    OfGuIn(rows, gu, latest);
    var k :| 0 <= k < |rows| && rows[k] == latest;
  }

  lemma TargetValid(period: string)
    requires IsPeriod(period)
    ensures IsPeriod(NextPeriod(period)) <==> Month(period) != 119999
    ensures IsPeriod(NextPeriod(period)) ==> Month(NextPeriod(period)) == Month(period) + 1
  {
    hide IsPeriod, NextPeriod, Month;
    NextPeriodSteps(period);
    PeriodMonthBound(period);
  }

  lemma ValidOfGu(rows: seq<Metrics>, gu: string)
    requires ValidPeriods(rows)
    ensures ValidPeriods(OfGu(rows, gu))
  {
    hide IsPeriod, OfGu;
    var group := OfGu(rows, gu);
    forall i | 0 <= i < |group| ensures IsPeriod(group[i].period) {
      OfGuIn(rows, gu, group[i]);
    }
  }

  /** A row of the district lies in December 9999 exactly when its latest one does. */
  lemma OverflowsLatest(rows: seq<Metrics>, gu: string)
    requires ValidPeriods(rows) && gu in Gus(rows)
    ensures SortedLast(OfGu(rows, gu)).Some? && IsPeriod(SortedLast(OfGu(rows, gu)).value.period)
    ensures Overflows(rows, gu) <==> Month(SortedLast(OfGu(rows, gu)).value.period) == 119999
  {
    hide IsPeriod, Month, OfGu, SortedLast, Gus;
    LatestOfGu(rows, gu);
    ValidOfGu(rows, gu);
    var latest := SortedLast(OfGu(rows, gu)).value;
    PeriodMonthBound(latest.period);
    if i :| 0 <= i < |rows| && rows[i].guCode == gu && IsPeriod(rows[i].period) && Month(rows[i].period) == 119999 {
      OfGuIn(rows, gu, rows[i]);
      LatestMonth(OfGu(rows, gu), rows[i]);
    }
  }

  /** The forecast of one district from its rows. */
  method ForecastOne(ghost rows: seq<Metrics>, gu: string, group: seq<Metrics>) returns (r: Result<Forecast, PeriodError>)
    requires ValidPeriods(rows) && gu in Gus(rows) && group == OfGu(rows, gu)
    ensures r.Failure? <==> Overflows(rows, gu)
    ensures r.Failure? ==> r.error == PeriodOutOfRange(gu)
    ensures r.Success? ==> Forecasts(rows, gu, r.value)
  {
    hide OfGu, Gus, IsPeriod, Month, NextPeriod, ValidPeriods, Sort, Score, FeaturesOf, Projected, MovingAverage, Overflows;
    LatestOfGu(rows, gu);
    OverflowsLatest(rows, gu);
    var sorted := Sort(EarlierPeriod, group);
    var latest := sorted[|sorted| - 1];
    var direction := DirectionOf(Score(latest, MovingAverage(sorted)));
    var confidence := ConfidenceOf(|group|);
    var price := Projected(latest.medianPrice, latest.momPrice);
    var volume := Max(0, Projected(latest.saleCount, latest.momVolume));
    TargetValid(latest.period);
    var target := NextPeriod(latest.period);
    if !IsPeriod(target) {
      return Failure(PeriodOutOfRange(gu));
    }
    r := Success(Forecast(gu, latest.guName, target, direction, confidence, volume, price, FeaturesOf(latest)));
  }

  /** The district overflows, and none with a smaller code does. */
  ghost predicate FirstToOverflow(rows: seq<Metrics>, gu: string) {
    gu in Gus(rows) && Overflows(rows, gu) && forall other :: other in Gus(rows) && Less(other, gu) ==> !Overflows(rows, other)
  }

  /** No district before the one at `i` in the sorted order overflows, if none at a smaller position does. */
  lemma FirstOverflow(rows: seq<Metrics>, gus: seq<string>, i: nat)
    requires StrictlySorted(Less, gus) && i < |gus| && forall k :: 0 <= k < i ==> !Overflows(rows, gus[k])
    ensures forall gu :: gu in gus && Less(gu, gus[i]) ==> !Overflows(rows, gu)
  {
    hide Less, Overflows;
    StringOrder();
    forall gu | gu in gus && Less(gu, gus[i]) ensures !Overflows(rows, gu) {
      var k :| 0 <= k < |gus| && gus[k] == gu;
      assert k < i;
    }
  }

  /** The first districts in order have their forecasts, and none of them overflows. */
  ghost predicate ForecastSoFar(rows: seq<Metrics>, gus: seq<string>, forecasts: seq<Forecast>) {
    && |forecasts| <= |gus|
    && forall k :: 0 <= k < |forecasts| ==> Forecasts(rows, gus[k], forecasts[k]) && !Overflows(rows, gus[k])
  }

  lemma ForecastNext(rows: seq<Metrics>, gus: seq<string>, forecasts: seq<Forecast>, f: Forecast)
    requires ForecastSoFar(rows, gus, forecasts) && |forecasts| < |gus|
    requires Forecasts(rows, gus[|forecasts|], f) && !Overflows(rows, gus[|forecasts|])
    ensures ForecastSoFar(rows, gus, forecasts + [f])
  {
    hide Forecasts, Overflows;
  }

  /** The first district in order to overflow is the one with the smallest code. */
  lemma ForecastRaises(rows: seq<Metrics>, gus: seq<string>, forecasts: seq<Forecast>)
    requires gus == SortedIds(Gus(rows)) && ForecastSoFar(rows, gus, forecasts)
    requires |forecasts| < |gus| && Overflows(rows, gus[|forecasts|])
    ensures FirstToOverflow(rows, gus[|forecasts|])
  {
    hide Forecasts, Overflows, Gus;
    FirstOverflow(rows, gus, |forecasts|);
    assert gus[|forecasts|] in Elements(gus);
    forall other | other in Gus(rows) && Less(other, gus[|forecasts|]) ensures !Overflows(rows, other) {
      assert other in Elements(gus);
    }
  }

  lemma ForecastDone(rows: seq<Metrics>, gus: seq<string>, forecasts: seq<Forecast>)
    requires gus == SortedIds(Gus(rows)) && ForecastSoFar(rows, gus, forecasts) && |forecasts| == |gus|
    ensures forall gu :: gu in Gus(rows) ==> !Overflows(rows, gu)
  {
    hide Forecasts, Overflows, Gus;
    forall gu | gu in Gus(rows) ensures !Overflows(rows, gu) {
      assert gu in Elements(gus);
      var k :| 0 <= k < |gus| && gus[k] == gu;
    }
  }

  lemma GroupsAre(rows: seq<Metrics>, grouped: map<string, seq<Metrics>>, order: seq<string>)
    requires ByGu(rows, grouped, order)
    ensures grouped.Keys == Gus(rows) && Distinct(order) && Elements(order) == Gus(rows)
    ensures forall gu :: gu in grouped ==> grouped[gu] == OfGu(rows, gu)
  {}

  /** The districts in order, each with its rows. */
  lemma GroupsInOrder(rows: seq<Metrics>, grouped: map<string, seq<Metrics>>, order: seq<string>)
    requires ByGu(rows, grouped, order)
    ensures Sort(Less, order) == SortedIds(Gus(rows))
    ensures forall gu :: gu in Sort(Less, order) ==> gu in grouped && gu in Gus(rows) && grouped[gu] == OfGu(rows, gu)
  {
    hide Gus, OfGu, ByGu;
    GroupsAre(rows, grouped, order);
    SortGivesIds(order);
    forall gu | gu in Sort(Less, order) ensures gu in Gus(rows) { assert gu in Elements(Sort(Less, order)); }
  }

  /**
   One forecast per district, in order of district code, unless some district's latest
   month has no successor, which raises.
   */
  method ForecastBaseline(rows: seq<Metrics>) returns (r: Result<seq<Forecast>, PeriodError>)
    requires ValidPeriods(rows)
    ensures r.Failure? <==> exists gu :: gu in Gus(rows) && Overflows(rows, gu)
    ensures r.Failure? ==> FirstToOverflow(rows, r.error.guCode)
    ensures r.Success? ==>
      var gus := SortedIds(Gus(rows));
      |r.value| == |gus| && forall i :: 0 <= i < |gus| ==> Forecasts(rows, gus[i], r.value[i])
  {
    hide Gus, Forecasts, Overflows, ByGu, OfGu, ValidPeriods, Sort;
    var grouped, order := GroupByGu(rows);
    GroupsInOrder(rows, grouped, order);
    var gus := Sort(Less, order);
    var forecasts: seq<Forecast> := [];
    var i := 0;
    while i < |gus|
      invariant 0 <= i <= |gus| && |forecasts| == i
      invariant ForecastSoFar(rows, gus, forecasts)
    {
      assert gus[i] in gus;
      var forecast := ForecastOne(rows, gus[i], grouped[gus[i]]);
      if forecast.Failure? {
        ForecastRaises(rows, gus, forecasts);
        return Failure(forecast.error);
      }
      ForecastNext(rows, gus, forecasts, forecast.value);
      forecasts := forecasts + [forecast.value];
      i := i + 1;
    }
    ForecastDone(rows, gus, forecasts);
    r := Success(forecasts);
  }

  /** Where the two ways agree, a forecast starts from the very row the snapshot reader reports as latest. */
  lemma ForecastFromLatest(rows: seq<Metrics>, gu: string, f: Forecast)
    requires OneLatestRow(OfGu(rows, gu)) && Forecasts(rows, gu, f)
    ensures OnePassMax(OfGu(rows, gu)).Some? && StartsFrom(f, OnePassMax(OfGu(rows, gu)).value)
  {
    hide StartsFrom, Score, MovingAverage;
    LatestAgreeExactly(rows, gu);
  }

  /* ---------- what the projections come to ---------- */

  lemma FloorOfQuotient(n: nat, d: nat)
    requires d > 0
    ensures Trunc(n as real / d as real) == n / d
  {
    var q, r := n / d, n % d;
    assert n == q * d + r;
    var share := r as real / d as real;
    ProperShare(r, d);
    SplitQuotient(q, r, d);
    assert n as real / d as real == q as real + share;
  }

  lemma ProperShare(r: nat, d: nat)
    requires r < d
    ensures 0.0 <= r as real / d as real < 1.0
  {}

  lemma SplitQuotient(q: nat, r: nat, d: nat)
    requires d > 0
    ensures (q * d + r) as real / d as real == q as real + r as real / d as real
  {
    assert (q * d + r) as real == q as real * d as real + r as real;
  }

  lemma Momentum(value: nat, current: nat, prior: nat)
    requires prior > 0
    ensures value as real * (1.0 + ((current - prior) as real / prior as real * 100.0) / 100.0) ==
            (value * current) as real / prior as real
  {
    var p, c, v := prior as real, current as real, value as real;
    OverBase(c, p);
    TimesQuotient(v, c, p);
    assert (value * current) as real == v * c;
  }

  lemma OverBase(c: real, p: real)
    requires p > 0.0
    ensures 1.0 + ((c - p) / p * 100.0) / 100.0 == c / p
  {
    var w := (c - p) / p;
    assert w * p == c - p;
    assert (w + 1.0) * p == c;
    IsQuotient(w + 1.0, c, p);
  }

  lemma IsQuotient(a: real, c: real, p: real)
    requires p > 0.0 && a * p == c
    ensures a == c / p
  {
    var q := c / p;
    assert q * p == c;
    NoFactor(a - q, p);
  }

  lemma NoFactor(x: real, p: real)
    requires p > 0.0
    ensures x * p == 0.0 ==> x == 0.0
  {}

  lemma TimesQuotient(v: real, c: real, p: real)
    requires p > 0.0
    ensures v * (c / p) == v * c / p
  {
    var q := c / p;
    assert q * p == c;
    assert (v * q) * p == v * (q * p);
  }

  /** Projecting by the change from `prior` to `current` scales by their ratio, in whole units. */
  lemma ProjectionExact(value: nat, current: nat, prior: nat)
    requires prior > 0
    ensures Projected(value, PctChange(current, prior)) == value * current / prior
  {
    Momentum(value, current, prior);
    FloorOfQuotient(value * current, prior);
  }

  /**
   The forecast of a row enriched against its neighbour: volume grows by the same ratio
   again, the median price by that of the average prices, and nothing is cut off at zero.
   */
  lemma ForecastRepeatsChange(f: Forecast, latest: Metrics, prior: Metrics)
    requires StartsFrom(f, latest)
    requires latest.saleCount >= 0 && latest.avgPrice >= 0 && latest.medianPrice >= 0
    requires prior.saleCount > 0 && prior.avgPrice > 0
    requires latest.momPrice == PctChange(latest.avgPrice, prior.avgPrice)
    requires latest.momVolume == PctChange(latest.saleCount, prior.saleCount)
    ensures f.predictedVolume == latest.saleCount * latest.saleCount / prior.saleCount
    ensures f.predictedMedianPrice == latest.medianPrice * latest.avgPrice / prior.avgPrice
  {
    hide IsPeriod, Month, FeaturesOf, Projected, PctChange;
    ProjectionExact(latest.saleCount, latest.saleCount, prior.saleCount);
    ProjectionExact(latest.medianPrice, latest.avgPrice, prior.avgPrice);
  }

  /** The confidence meets its validator, and no volume is negative. */
  lemma ForecastValid(rows: seq<Metrics>, gu: string, f: Forecast)
    requires Forecasts(rows, gu, f)
    ensures 0.2 <= f.confidence <= 0.8 && f.predictedVolume >= 0
  {
    hide Score, MovingAverage, Projected, FeaturesOf, IsPeriod, Sort;
  }

  /** A district with a single row and no trends is forecast to stay as it is. */
  lemma ForecastSteady(rows: seq<Metrics>, gu: string, f: Forecast, row: Metrics)
    requires Forecasts(rows, gu, f) && OfGu(rows, gu) == [row] && row.momPrice == None && row.momVolume == None
    ensures f.direction == Flat && f.confidence == 0.2
    ensures f.predictedMedianPrice == row.medianPrice && f.predictedVolume == Max(0, row.saleCount)
  {
    hide IsPeriod, FeaturesOf, Score, MovingAverage;
    assert [row][1..] == [] && Sort(EarlierPeriod, [row]) == [row];
    AverageOfOne(row);
    ScoreOfOne(row);
  }

  lemma ScoreOfOne(row: Metrics)
    requires row.momPrice == None && row.momVolume == None
    ensures Score(row, row.avgPrice as real) == 0.0
  {
    var average := row.avgPrice as real;
    if average > 0.0 {
      IsQuotient(0.0, average - average, average);
      assert (average - average) / average * 100.0 == 0.0;
    }
  }

  lemma AverageOfOne(row: Metrics)
    ensures MovingAverage([row]) == row.avgPrice as real
  {
    var prices := AvgPrices(LastThree([row]));
    assert prices == [row.avgPrice] && prices[..0] == [];
    assert Sum(prices[..0]) == 0;
  }

  /* ---------- what the direction follows ---------- */

  /** The latest row is not below any of the recent ones, and its trends are not negative. */
  ghost predicate Rising(latest: Metrics, recent: seq<Metrics>) {
    && OrZero(latest.momPrice) >= 0.0 && OrZero(latest.momVolume) >= 0.0
    && forall row :: row in recent ==> row.avgPrice <= latest.avgPrice
  }

  ghost predicate Falling(latest: Metrics, recent: seq<Metrics>) {
    && OrZero(latest.momPrice) <= 0.0 && OrZero(latest.momVolume) <= 0.0
    && forall row :: row in recent ==> row.avgPrice >= latest.avgPrice
  }

  lemma RealProduct(a: int, n: nat)
    ensures (a * n) as real == a as real * n as real
  {}

  lemma AverageWithin(sum: int, n: nat, low: int, high: int)
    requires n > 0 && low * n <= sum <= high * n
    ensures low as real <= sum as real / n as real <= high as real
  {
    var q := sum as real / n as real;
    assert q * n as real == sum as real;
    RealProduct(low, n);
    RealProduct(high, n);
    if q < low as real { LessTimes(q, low as real, n as real); }
    if q > high as real { LessTimes(high as real, q, n as real); }
  }

  lemma LessTimes(a: real, b: real, n: real)
    requires a < b && n > 0.0
    ensures a * n < b * n
  {
    NoFactor(b - a, n);
    MulNonNeg(b - a, n);
    assert (b - a) * n == b * n - a * n;
  }

  /** The average of the recent rows lies between any bounds on their prices. */
  lemma RecentAverage(sorted: seq<Metrics>, low: int, high: int)
    requires sorted != [] && forall row :: row in LastThree(sorted) ==> low <= row.avgPrice <= high
    ensures low as real <= MovingAverage(sorted) <= high as real
  {
    var recent := LastThree(sorted);
    var prices := AvgPrices(recent);
    forall k | 0 <= k < |prices| ensures low <= prices[k] <= high { assert recent[k] in recent; }
    SumBounds(prices, low, high);
    AverageWithin(Sum(prices), |prices|, low, high);
  }

  lemma SignalSign(price: real, average: real)
    requires average > 0.0
    ensures price >= average ==> (price - average) / average * 100.0 >= 0.0
    ensures price <= average ==> (price - average) / average * 100.0 <= 0.0
  {
    var w := (price - average) / average;
    assert w * average == price - average;
    if w < 0.0 { LessTimes(w, 0.0, average); }
    if w > 0.0 { LessTimes(0.0, w, average); }
  }

  lemma ScoreSign(latest: Metrics, average: real)
    requires OrZero(latest.momPrice) >= 0.0 && OrZero(latest.momVolume) >= 0.0 && latest.avgPrice as real >= average
    ensures Score(latest, average) >= 0.6 * OrZero(latest.momPrice)
  {
    if average > 0.0 { SignalSign(latest.avgPrice as real, average); }
  }

  lemma ScoreSignDown(latest: Metrics, average: real)
    requires OrZero(latest.momPrice) <= 0.0 && OrZero(latest.momVolume) <= 0.0 && latest.avgPrice as real <= average
    ensures Score(latest, average) <= 0.6 * OrZero(latest.momPrice)
  {
    if average > 0.0 { SignalSign(latest.avgPrice as real, average); }
  }

  lemma BoundedPrices(recent: seq<Metrics>) returns (low: int, high: int)
    ensures forall row :: row in recent ==> low <= row.avgPrice <= high
  {
    if recent == [] {
      low, high := 0, 0;
    } else {
      var prices := AvgPrices(recent);
      Extremes(prices);
      low, high := Smallest(prices), Largest(prices);
      forall row | row in recent ensures low <= row.avgPrice <= high {
        var k :| 0 <= k < |recent| && recent[k] == row;
        assert prices[k] in prices;
      }
    }
  }

  /**
   A direction never contradicts prices that all point one way: a rising district is not
   forecast to fall nor a falling one to rise, and a change of more than 5/3 percent in
   that direction is enough for it to be forecast.
   */
  lemma DirectionFollows(rows: seq<Metrics>, gu: string, f: Forecast)
    requires Forecasts(rows, gu, f)
    ensures var latest, recent := SortedLast(OfGu(rows, gu)).value, LastThree(Sort(EarlierPeriod, OfGu(rows, gu)));
            && (Rising(latest, recent) ==>
                  f.direction != Down && (0.6 * OrZero(latest.momPrice) > 1.0 ==> f.direction == Up))
            && (Falling(latest, recent) ==>
                  f.direction != Up && (0.6 * OrZero(latest.momPrice) < -1.0 ==> f.direction == Down))
  {
    hide OfGu, Sort, MovingAverage, Score, StartsFrom, ConfidenceOf, LastThree, OrZero;
    var sorted, latest := Sort(EarlierPeriod, OfGu(rows, gu)), SortedLast(OfGu(rows, gu)).value;
    var low, high := BoundedPrices(LastThree(sorted));
    if Rising(latest, LastThree(sorted)) {
      RecentAverage(sorted, low, latest.avgPrice);
      ScoreSign(latest, MovingAverage(sorted));
    }
    if Falling(latest, LastThree(sorted)) {
      RecentAverage(sorted, latest.avgPrice, high);
      ScoreSignDown(latest, MovingAverage(sorted));
    }
  }
}
