/** Trend enrichment of district metrics, against a naive scan and against the transactions. */
module GoldTrends {
  import opened Wrappers
  import opened Ordering
  import opened Periods
  import opened GoldDistrict

  ghost predicate ValidPeriods(rows: seq<Metrics>) {
    forall i :: 0 <= i < |rows| ==> IsPeriod(rows[i].period)
  }

  /** `key=lambda metric: (metric.gu_code, metric.period)` */
  predicate RowLess(a: Metrics, b: Metrics) {
    PairLess(RowKey(a), RowKey(b))
  }

  /* ---------- the lookup table and the naive scan ---------- */

  /** Scanning for the rows of one district and month. */
  function OnKey(rows: seq<Metrics>, key: Key): seq<Metrics> {
    if rows == [] then [] else (if RowKey(rows[0]) == key then [rows[0]] else []) + OnKey(rows[1..], key)
  }

  /** The last row of a district and month. */
  function Scan(rows: seq<Metrics>, key: Key): Option<Metrics> {
    var found := OnKey(rows, key);
    if found == [] then None else Some(found[|found| - 1])
  }

  /** The dictionary comprehension over rows: a later row replaces an earlier one. */
  function ByKey(rows: seq<Metrics>): map<Key, Metrics> {
    if rows == [] then map[] else ByKey(rows[..|rows| - 1])[RowKey(rows[|rows| - 1]) := rows[|rows| - 1]]
  }

  lemma {:induction false} OnKeyAppend(rows: seq<Metrics>, row: Metrics, key: Key)
    ensures OnKey(rows + [row], key) == OnKey(rows, key) + (if RowKey(row) == key then [row] else [])
  {
    if rows == [] {
      assert [] + [row] == [row];
    } else {
      assert (rows + [row])[1..] == rows[1..] + [row];
      OnKeyAppend(rows[1..], row, key);
    }
  }

  /** Looking a key up in the dictionary is scanning the rows for it. */
  lemma {:induction false} LookupIsScan(rows: seq<Metrics>, key: Key)
    ensures (if key in ByKey(rows) then Some(ByKey(rows)[key]) else None) == Scan(rows, key)
  {
    if rows != [] {
      var n := |rows| - 1;
      LookupIsScan(rows[..n], key);
      OnKeyAppend(rows[..n], rows[n], key);
      assert rows == rows[..n] + [rows[n]];
    }
  }

  lemma {:induction false} InsertKeepsScan(row: Metrics, rows: seq<Metrics>, key: Key)
    ensures OnKey(Insert(RowLess, row, rows), key) == (if RowKey(row) == key then [row] else []) + OnKey(rows, key)
  {
    if rows == [] || !RowLess(rows[0], row) {
      assert ([row] + rows)[1..] == rows;
    } else {
      InsertKeepsScan(row, rows[1..], key);
      PairOrder();
      var rest := Insert(RowLess, row, rows[1..]);
      assert ([rows[0]] + rest)[1..] == rest;
      assert RowKey(rows[0]) != RowKey(row);
    }
  }

  /** The stable sort keeps rows of one key in order, so scanning the sorted rows finds the same row. */
  lemma {:induction false} SortKeepsScan(rows: seq<Metrics>, key: Key)
    ensures OnKey(Sort(RowLess, rows), key) == OnKey(rows, key)
  {
    if rows != [] {
      SortKeepsScan(rows[1..], key);
      InsertKeepsScan(rows[0], Sort(RowLess, rows[1..]), key);
    }
  }

  lemma {:induction false} OnKeyIn(rows: seq<Metrics>, key: Key, row: Metrics)
    ensures row in OnKey(rows, key) <==> row in rows && RowKey(row) == key
  {
    if rows != [] { OnKeyIn(rows[1..], key, row); }
  }

  /** With unique keys the scan finds the one row of the key. */
  lemma ScanUnique(rows: seq<Metrics>, key: Key)
    ensures Scan(rows, key).None? <==> forall i :: 0 <= i < |rows| ==> RowKey(rows[i]) != key
    ensures Scan(rows, key).Some? ==> Scan(rows, key).value in rows && RowKey(Scan(rows, key).value) == key
  {
    var found := OnKey(rows, key);
    if found == [] {
      forall i | 0 <= i < |rows| ensures RowKey(rows[i]) != key { OnKeyIn(rows, key, rows[i]); }
    } else {
      OnKeyIn(rows, key, found[|found| - 1]);
    }
  }

  /* ---------- enrichment ---------- */

  function PctChange(current: int, prior: int): Option<real> {
    if prior == 0 then None else Some((current - prior) as real / prior as real * 100.0)
  }

  /** The row with its trends against the rows of the month and the year before. */
  function Enriched(row: Metrics, month: Option<Metrics>, year: Option<Metrics>): Metrics {
    row.(momPrice := if month.Some? then PctChange(row.avgPrice, month.value.avgPrice) else None,
         yoyPrice := if year.Some? then PctChange(row.avgPrice, year.value.avgPrice) else None,
         momVolume := if month.Some? then PctChange(row.saleCount, month.value.saleCount) else None,
         yoyVolume := if year.Some? then PctChange(row.saleCount, year.value.saleCount) else None)
  }

  /** A row enriched by scanning `metrics` for its neighbours. */
  function ScanEnriched(row: Metrics, metrics: seq<Metrics>): Metrics
    requires IsPeriod(row.period)
  {
    Enriched(row, Scan(metrics, (row.guCode, PrevMonth(row.period))), Scan(metrics, (row.guCode, PrevYear(row.period))))
  }

  lemma SortedValid(metrics: seq<Metrics>)
    requires ValidPeriods(metrics)
    ensures ValidPeriods(Sort(RowLess, metrics)) && |Sort(RowLess, metrics)| == |metrics|
  {
    var rows := Sort(RowLess, metrics);
    SortContents(RowLess, metrics);
    assert |multiset(rows)| == |multiset(metrics)|;
    forall i | 0 <= i < |rows| ensures IsPeriod(rows[i].period) {
      assert rows[i] in multiset(metrics);
    }
  }

  function LookedUp(lookup: map<Key, Metrics>, key: Key): Option<Metrics> {
    if key in lookup then Some(lookup[key]) else None
  }

  lemma LookupScans(metrics: seq<Metrics>, key: Key)
    ensures LookedUp(ByKey(Sort(RowLess, metrics)), key) == Scan(metrics, key)
  {
    LookupIsScan(Sort(RowLess, metrics), key);
    SortKeepsScan(metrics, key);
  }

  /** Every row, in order of district and month, with the trends a naive scan of the input gives. */
  method EnrichDistrictMonthlyTrends(metrics: seq<Metrics>) returns (enriched: seq<Metrics>)
    requires ValidPeriods(metrics)
    ensures |enriched| == |metrics| == |Sort(RowLess, metrics)| && ValidPeriods(Sort(RowLess, metrics))
    ensures forall i :: 0 <= i < |enriched| ==> enriched[i] == ScanEnriched(Sort(RowLess, metrics)[i], metrics)
  {
    hide Enriched, Scan, IsPeriod, PrevMonth, PrevYear, RowLess;
    var rows := Sort(RowLess, metrics);
    SortedValid(metrics);
    var lookup := ByKey(rows);
    enriched := [];
    var i := 0;
    while i < |rows|
      invariant 0 <= i <= |rows| && |enriched| == i
      invariant forall j :: 0 <= j < i ==> enriched[j] == ScanEnriched(rows[j], metrics)
    {
      var row := rows[i];
      var monthKey, yearKey := (row.guCode, PrevMonth(row.period)), (row.guCode, PrevYear(row.period));
      LookupScans(metrics, monthKey);
      LookupScans(metrics, yearKey);
      enriched := enriched + [Enriched(row, LookedUp(lookup, monthKey), LookedUp(lookup, yearKey))];
      i := i + 1;
    }
  }

  ghost predicate UniqueKeys(rows: seq<Metrics>) {
    forall i, j :: 0 <= i < j < |rows| ==> RowKey(rows[i]) != RowKey(rows[j])
  }

  /** `row` is the district's row of `months` months before. */
  ghost predicate Neighbour(row: Metrics, months: nat, other: Metrics)
    requires IsPeriod(row.period) && IsPeriod(other.period)
  {
    other.guCode == row.guCode && Month(other.period) + months == Month(row.period)
  }

  /** The key enrichment looks up belongs to the neighbouring month and to no other. */
  lemma KeyIsNeighbour(row: Metrics, other: Metrics)
    requires IsPeriod(row.period) && IsPeriod(other.period)
    ensures RowKey(other) == (row.guCode, PrevMonth(row.period)) <==> Neighbour(row, 1, other)
    ensures RowKey(other) == (row.guCode, PrevYear(row.period)) <==> Neighbour(row, 12, other)
  {
    hide IsPeriod, Month, PrevMonth, PrevYear;
    PrevMonthSteps(row.period);
    PrevYearSteps(row.period);
    if Month(row.period) > 0 && Month(other.period) + 1 == Month(row.period) {
      SameMonth(other.period, PrevMonth(row.period));
    }
    if Month(row.period) >= 12 && Month(other.period) + 12 == Month(row.period) {
      SameMonth(other.period, PrevYear(row.period));
    }
  }

  lemma {:induction false} OnlyOne(rows: seq<Metrics>, a: Metrics, b: Metrics)
    requires UniqueKeys(rows) && a in rows && b in rows && RowKey(a) == RowKey(b)
    ensures a == b
  {}

  /**
   Month-over-month and year-over-year changes are present exactly when the district
   has a row one (or twelve) months earlier whose base is not zero, and are then the
   change against that row.
   */
  lemma TrendsExact(metrics: seq<Metrics>, row: Metrics, other: Metrics)
    requires ValidPeriods(metrics) && UniqueKeys(metrics) && row in metrics && other in metrics
    requires IsPeriod(row.period) && IsPeriod(other.period)
    ensures var e := ScanEnriched(row, metrics);
            && (Neighbour(row, 1, other) ==>
                  && e.momPrice == PctChange(row.avgPrice, other.avgPrice)
                  && e.momVolume == PctChange(row.saleCount, other.saleCount))
            && (Neighbour(row, 12, other) ==>
                  && e.yoyPrice == PctChange(row.avgPrice, other.avgPrice)
                  && e.yoyVolume == PctChange(row.saleCount, other.saleCount))
  {
    hide IsPeriod, Neighbour, PrevMonth, PrevYear, PctChange, OnKey;
    KeyIsNeighbour(row, other);
    ScanThe(metrics, (row.guCode, PrevMonth(row.period)), other);
    ScanThe(metrics, (row.guCode, PrevYear(row.period)), other);
  }

  lemma ScanThe(metrics: seq<Metrics>, key: Key, other: Metrics)
    requires UniqueKeys(metrics) && other in metrics
    ensures RowKey(other) == key ==> Scan(metrics, key) == Some(other)
  {
    hide Scan;
    ScanUnique(metrics, key);
    if RowKey(other) == key {
      OnlyOne(metrics, Scan(metrics, key).value, other);
    }
  }

  /** Without a row of the month (or year) before there is no change to report. */
  lemma NoNeighbourNoTrend(metrics: seq<Metrics>, row: Metrics)
    requires ValidPeriods(metrics) && IsPeriod(row.period)
    ensures var e := ScanEnriched(row, metrics);
            && ((forall i :: 0 <= i < |metrics| ==> !Neighbour(row, 1, metrics[i])) ==>
                  e.momPrice == None && e.momVolume == None)
            && ((forall i :: 0 <= i < |metrics| ==> !Neighbour(row, 12, metrics[i])) ==>
                  e.yoyPrice == None && e.yoyVolume == None)
  {
    hide IsPeriod, Neighbour, PrevMonth, PrevYear, PctChange, Scan;
    ScanUnique(metrics, (row.guCode, PrevMonth(row.period)));
    ScanUnique(metrics, (row.guCode, PrevYear(row.period)));
    forall i | 0 <= i < |metrics|
      ensures RowKey(metrics[i]) == (row.guCode, PrevMonth(row.period)) <==> Neighbour(row, 1, metrics[i])
      ensures RowKey(metrics[i]) == (row.guCode, PrevYear(row.period)) <==> Neighbour(row, 12, metrics[i])
    {
      KeyIsNeighbour(row, metrics[i]);
    }
  }

  /* ---------- aggregation followed by enrichment ---------- */

  ghost predicate AllDated(ts: seq<Transaction>) {
    forall i :: 0 <= i < |ts| ==> Dated(ts[i])
  }

  /** A sale that stood, in the district and month. */
  ghost predicate Sold(t: Transaction, gu: string, month: int) {
    !t.cancelled && t.guCode == gu && 12 * t.year + t.month - 1 == month
  }

  lemma KeyDated(ts: seq<Transaction>, key: Key)
    requires AllDated(ts) && key in Keys(ts)
    ensures IsPeriod(key.1)
    ensures exists i :: 0 <= i < |ts| && Sold(ts[i], key.0, Month(key.1))
  {
    hide IsPeriod, PeriodOf;
    var i :| 0 <= i < |ts| && !ts[i].cancelled && KeyOf(ts[i]) == key;
    PeriodOfIs(ts[i].year, ts[i].month);
    assert Sold(ts[i], key.0, Month(key.1));
  }

  lemma SoldKey(ts: seq<Transaction>, i: nat, gu: string, month: nat)
    requires AllDated(ts) && i < |ts| && Sold(ts[i], gu, month)
    ensures KeyOf(ts[i]) in Keys(ts) && IsPeriod(KeyOf(ts[i]).1)
    ensures KeyOf(ts[i]).0 == gu && Month(KeyOf(ts[i]).1) == month
  {
    hide IsPeriod, PeriodOf;
    PeriodOfIs(ts[i].year, ts[i].month);
    assert ts[i] in ts;
  }

  /** Aggregated rows carry valid periods and distinct keys, and are already in the order enrichment sorts by. */
  lemma AggregatedValid(ts: seq<Transaction>, macro: Macro)
    requires AllDated(ts)
    ensures ValidPeriods(Aggregated(ts, macro)) && UniqueKeys(Aggregated(ts, macro))
    ensures Sort(RowLess, Aggregated(ts, macro)) == Aggregated(ts, macro)
  {
    hide Aggregated, IsPeriod, PairLess;
    var rows := Aggregated(ts, macro);
    RowsExact(ts, macro);
    PairOrder();
    forall i | 0 <= i < |rows| ensures IsPeriod(rows[i].period) { KeyDated(ts, RowKey(rows[i])); }
    forall i, j | 0 <= i < j < |rows| ensures !RowLess(rows[j], rows[i]) && RowKey(rows[i]) != RowKey(rows[j]) {
      assert PairLess(RowKey(rows[i]), RowKey(rows[j]));
    }
    SortOfSorted(RowLess, rows);
  }

  /** A neighbouring row exists exactly when a sale stood in that month. */
  lemma NeighbourSold(ts: seq<Transaction>, macro: Macro, row: Metrics, months: nat)
    requires AllDated(ts) && ValidPeriods(Aggregated(ts, macro)) && IsPeriod(row.period)
    ensures (exists k :: 0 <= k < |Aggregated(ts, macro)| && Neighbour(row, months, Aggregated(ts, macro)[k])) <==>
            exists i :: 0 <= i < |ts| && Sold(ts[i], row.guCode, Month(row.period) - months)
  {
    hide Aggregated, IsPeriod, PairLess, KeyOf, Month, Keys;
    var rows, month := Aggregated(ts, macro), Month(row.period) - months;
    RowsExact(ts, macro);
    if k :| 0 <= k < |rows| && Neighbour(row, months, rows[k]) {
      KeyDated(ts, RowKey(rows[k]));
    }
    if i :| 0 <= i < |ts| && Sold(ts[i], row.guCode, month) {
      SoldKey(ts, i, row.guCode, month);
      var k :| 0 <= k < |rows| && RowKey(rows[k]) == KeyOf(ts[i]);
      assert Neighbour(row, months, rows[k]);
    }
  }

  lemma ChangeReported(current: int, prior: int)
    requires prior > 0
    ensures PctChange(current, prior).Some?
  {}

  /**
   From transactions to trends: the volume change of a district's month is reported
   exactly when a sale stood there in the month (or the year) before.
   */
  lemma VolumeTrendsExact(ts: seq<Transaction>, macro: Macro, i: nat)
    requires AllDated(ts) && i < |Aggregated(ts, macro)|
    ensures ValidPeriods(Aggregated(ts, macro))
    ensures var row := Aggregated(ts, macro)[i];
            var e := ScanEnriched(row, Aggregated(ts, macro));
            && (e.momVolume.Some? <==> exists k :: 0 <= k < |ts| && Sold(ts[k], row.guCode, Month(row.period) - 1))
            && (e.yoyVolume.Some? <==> exists k :: 0 <= k < |ts| && Sold(ts[k], row.guCode, Month(row.period) - 12))
  {
    hide Aggregated, IsPeriod, Month, Neighbour, ScanEnriched, Sold;
    AggregatedValid(ts, macro);
    var row := Aggregated(ts, macro)[i];
    NeighbourSold(ts, macro, row, 1);
    NeighbourSold(ts, macro, row, 12);
    TrendReported(ts, macro, i);
  }

  /** A volume trend is reported exactly when the aggregation has a neighbouring row. */
  lemma TrendReported(ts: seq<Transaction>, macro: Macro, i: nat)
    requires AllDated(ts) && i < |Aggregated(ts, macro)|
    requires ValidPeriods(Aggregated(ts, macro)) && UniqueKeys(Aggregated(ts, macro))
    ensures var rows, row := Aggregated(ts, macro), Aggregated(ts, macro)[i];
            var e := ScanEnriched(row, rows);
            && (e.momVolume.Some? <==> exists k :: 0 <= k < |rows| && Neighbour(row, 1, rows[k]))
            && (e.yoyVolume.Some? <==> exists k :: 0 <= k < |rows| && Neighbour(row, 12, rows[k]))
  {
    hide Aggregated, IsPeriod, Month, Neighbour, PctChange, ScanEnriched, AllDated, UniqueKeys;
    var rows, row := Aggregated(ts, macro), Aggregated(ts, macro)[i];
    NoNeighbourNoTrend(rows, row);
    if k :| 0 <= k < |rows| && Neighbour(row, 1, rows[k]) {
      TrendsExact(rows, row, rows[k]);
      SoldSomething(ts, macro, k);
      ChangeReported(row.saleCount, rows[k].saleCount);
    }
    if k :| 0 <= k < |rows| && Neighbour(row, 12, rows[k]) {
      TrendsExact(rows, row, rows[k]);
      SoldSomething(ts, macro, k);
      ChangeReported(row.saleCount, rows[k].saleCount);
    }
  }

  lemma SoldSomething(ts: seq<Transaction>, macro: Macro, k: nat)
    requires k < |Aggregated(ts, macro)|
    ensures Aggregated(ts, macro)[k].saleCount > 0
  {
    RowBounds(ts, macro, k);
  }
}
