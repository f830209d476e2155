/** The district metrics in numbers: which deals a row counts, and its averages, medians, joins and changes. */
module GoldExact {
  import opened Wrappers
  import opened Ordering
  import opened Numbers
  import opened Periods
  import opened Statistics
  import opened GoldDistrict
  import opened GoldTrends
  import opened ForecastExact

  /* ---------- medians ---------- */

  ghost predicate Ascending(xs: seq<int>) {
    forall i, j :: 0 <= i < j < |xs| ==> xs[i] <= xs[j]
  }

  lemma AscendingFront(x: int, xs: seq<int>)
    requires Ascending(xs) && forall y :: y in xs ==> x <= y
    ensures Ascending([x] + xs)
  {
    assert forall j :: 0 <= j < |xs| ==> xs[j] in xs;
  }

  lemma {:induction false} InsertAscending(x: int, xs: seq<int>)
    requires Ascending(xs)
    ensures Ascending(Insert(IntLess, x, xs))
  {
    InsertElements(IntLess, x, if xs == [] then [] else xs[1..]);
    if xs != [] && IntLess(xs[0], x) {
      InsertAscending(x, xs[1..]);
      var rest := Insert(IntLess, x, xs[1..]);
      forall y | y in rest ensures xs[0] <= y {
        assert y in Elements(rest);
        assert y == x || y in xs[1..];
      }
      AscendingFront(xs[0], rest);
    } else {
      AscendingFront(x, xs);
    }
  }

  lemma {:induction false} SortAscending(xs: seq<int>)
    ensures Ascending(Sort(IntLess, xs))
  {
    if xs != [] {
      SortAscending(xs[1..]);
      InsertAscending(xs[0], Sort(IntLess, xs[1..]));
    }
  }

  lemma LowestIs(xs: seq<int>, ys: seq<int>)
    requires Ascending(xs) && multiset(xs) == multiset(ys) && ys != []
    ensures xs != [] && xs[0] <= ys[0]
  {
    assert ys[0] in multiset(ys);
    assert ys[0] in xs;
  }

  lemma LowestFirst(xs: seq<int>, ys: seq<int>)
    requires Ascending(xs) && Ascending(ys) && multiset(xs) == multiset(ys) && xs != []
    ensures ys != [] && xs[0] == ys[0] && multiset(xs[1..]) == multiset(ys[1..])
  {
    assert xs[0] in multiset(xs);
    assert ys != [];
    LowestIs(xs, ys);
    LowestIs(ys, xs);
    assert xs == [xs[0]] + xs[1..] && ys == [ys[0]] + ys[1..];
    hide Ascending;
    WithoutFirst(xs[0], xs[1..], ys[1..]);
  }

  lemma WithoutFirst(x: int, xs: seq<int>, ys: seq<int>)
    requires multiset([x] + xs) == multiset([x] + ys)
    ensures multiset(xs) == multiset(ys)
  {
    assert multiset(xs) == multiset([x] + xs) - multiset{x};
    assert multiset(ys) == multiset([x] + ys) - multiset{x};
  }

  /** There is one way to put numbers in ascending order. */
  lemma {:induction false} AscendingUnique(xs: seq<int>, ys: seq<int>)
    requires Ascending(xs) && Ascending(ys) && multiset(xs) == multiset(ys)
    ensures xs == ys
  {
    if xs == [] {
      assert |multiset(ys)| == 0;
    } else {
      LowestFirst(xs, ys);
      AscendingUnique(xs[1..], ys[1..]);
      assert xs == [xs[0]] + xs[1..] && ys == [ys[0]] + ys[1..];
    }
  }

  ghost predicate Mid(m: real, xs: seq<int>) {
    var n := |xs|;
    && (n % 2 == 1 ==> m == xs[n / 2] as real)
    && (n % 2 == 0 && n > 0 ==> 2.0 * m == (xs[n / 2 - 1] + xs[n / 2]) as real)
  }

  /** `m` is the middle of the numbers in ascending order, or the mean of the two in the middle. */
  ghost predicate MiddleOf(m: real, numbers: seq<int>) {
    forall xs: seq<int> :: Ascending(xs) && multiset(xs) == multiset(numbers) ==> Mid(m, xs)
  }

  lemma MedianMid(numbers: seq<int>)
    requires numbers != []
    ensures Mid(Median(numbers), Sort(IntLess, numbers))
  {
    hide Sort;
    SortedLength(numbers);
  }

  lemma MedianExactly(numbers: seq<int>)
    requires numbers != []
    ensures MiddleOf(Median(numbers), numbers)
  {
    hide Median, Mid, Ascending, Sort;
    SortAscending(numbers);
    SortContents(IntLess, numbers);
    MedianMid(numbers);
    forall xs: seq<int> | Ascending(xs) && multiset(xs) == multiset(numbers) ensures Mid(Median(numbers), xs) {
      AscendingUnique(xs, Sort(IntLess, numbers));
    }
  }

  /* ---------- the deals of a row ---------- */

  /** A deal that stood, in the district and period. */
  ghost predicate Stood(t: Transaction, gu: string, period: string) {
    !t.cancelled && t.guCode == gu && PeriodOf(t.year, t.month) == period
  }

  /** The positions of a district's deals of a period, in order. */
  ghost predicate DealsAt(at: seq<nat>, ts: seq<Transaction>, gu: string, period: string) {
    && (forall i, j :: 0 <= i < j < |at| ==> at[i] < at[j])
    && (forall i :: 0 <= i < |at| ==> at[i] < |ts|)
    && forall k: nat :: k < |ts| ==> (k in at <==> Stood(ts[k], gu, period))
  }

  ghost predicate PickedBy(deals: seq<Transaction>, at: seq<nat>, ts: seq<Transaction>) {
    |deals| == |at| && forall i :: 0 <= i < |at| ==> at[i] < |ts| && deals[i] == ts[at[i]]
  }

  lemma DealsNext(at: seq<nat>, ts: seq<Transaction>, gu: string, period: string)
    requires ts != [] && DealsAt(at, ts[..|ts| - 1], gu, period)
    ensures var n := |ts| - 1; DealsAt(if Stood(ts[n], gu, period) then at + [n] else at, ts, gu, period)
  {
    hide Stood;
    var n := |ts| - 1;
    var at' := if Stood(ts[n], gu, period) then at + [n] else at;
    forall k: nat | k < |ts| ensures k in at' <==> Stood(ts[k], gu, period) {
      if k < n { assert ts[..n][k] == ts[k]; }
      assert k in at ==> k < n;
    }
  }

  lemma PickedNext(deals: seq<Transaction>, at: seq<nat>, ts: seq<Transaction>)
    requires ts != [] && PickedBy(deals, at, ts[..|ts| - 1])
    ensures PickedBy(deals, at, ts) && PickedBy(deals + [ts[|ts| - 1]], at + [|ts| - 1], ts)
  {}

  lemma KeptSplit(ts: seq<Transaction>, gu: string, period: string)
    requires ts != []
    ensures var n := |ts| - 1;
            KeptIn(ts, (gu, period)) ==
            if Stood(ts[n], gu, period) then KeptIn(ts[..n], (gu, period)) + [ts[n]] else KeptIn(ts[..n], (gu, period))
  {}

  lemma {:induction false} KeptAt(ts: seq<Transaction>, gu: string, period: string) returns (at: seq<nat>)
    ensures DealsAt(at, ts, gu, period) && PickedBy(KeptIn(ts, (gu, period)), at, ts)
  {
    hide Stood, DealsAt, PickedBy, KeptIn;
    if ts == [] {
      at := [];
      NoDeals(gu, period);
    } else {
      var n := |ts| - 1;
      var before := KeptAt(ts[..n], gu, period);
      DealsNext(before, ts, gu, period);
      KeptSplit(ts, gu, period);
      PickedNext(KeptIn(ts[..n], (gu, period)), before, ts);
      at := if Stood(ts[n], gu, period) then before + [n] else before;
    }
  }

  lemma NoDeals(gu: string, period: string)
    ensures DealsAt([], [], gu, period) && PickedBy(KeptIn([], (gu, period)), [], [])
  {}

  /* ---------- the numbers of a row ---------- */

  /** Running totals of the deals' amounts and areas. */
  ghost predicate RunningAmounts(sums: seq<int>, deals: seq<Transaction>) {
    |sums| == |deals| + 1 && sums[0] == 0 && forall k :: 0 <= k < |deals| ==> sums[k + 1] == sums[k] + deals[k].amount
  }

  ghost predicate RunningAreas(sums: seq<real>, deals: seq<Transaction>) {
    |sums| == |deals| + 1 && sums[0] == 0.0 && forall k :: 0 <= k < |deals| ==> sums[k + 1] == sums[k] + deals[k].area
  }

  lemma AmountsNext(sums: seq<int>, deals: seq<Transaction>)
    requires deals != [] && RunningAmounts(sums, deals[..|deals| - 1])
    ensures var n := |deals| - 1; RunningAmounts(sums + [sums[n] + deals[n].amount], deals)
  {}

  lemma {:induction false} AmountsRun(deals: seq<Transaction>) returns (sums: seq<int>)
    ensures RunningAmounts(sums, deals) && sums[|deals|] == Sum(Amounts(deals))
  {
    if deals == [] {
      sums := [0];
    } else {
      hide Sum, Amounts, TotalArea;
      var n := |deals| - 1;
      var before := AmountsRun(deals[..n]);
      GroupNext(deals);
      AmountsNext(before, deals);
      sums := before + [before[n] + deals[n].amount];
    }
  }

  lemma AreasNext(sums: seq<real>, deals: seq<Transaction>)
    requires deals != [] && RunningAreas(sums, deals[..|deals| - 1])
    ensures var n := |deals| - 1; RunningAreas(sums + [sums[n] + deals[n].area], deals)
  {}

  lemma {:induction false} AreasRun(deals: seq<Transaction>) returns (sums: seq<real>)
    ensures RunningAreas(sums, deals) && sums[|deals|] == TotalArea(deals)
  {
    if deals == [] {
      sums := [0.0];
    } else {
      hide Sum, Amounts, TotalArea;
      var n := |deals| - 1;
      var before := AreasRun(deals[..n]);
      GroupNext(deals);
      AreasNext(before, deals);
      sums := before + [before[n] + deals[n].area];
    }
  }

  /** The whole-number average, rounded down. */
  ghost predicate AverageOf(average: int, total: int, n: nat) {
    average * n <= total < (average + 1) * n
  }

  /** The whole part of the price per pyeong of 3.3058 square metres; none without an area. */
  ghost predicate UnitPrice(price: int, total: int, area: real) {
    if area == 0.0 then price == 0 else exists q: real :: q * area == total as real * 3.3058 && Whole(price, q)
  }

  /** What a row says about its deals. */
  ghost predicate RowNumbers(row: Metrics, deals: seq<Transaction>, total: int, area: real) {
    && deals != [] && row.saleCount == |deals| && row.guName == deals[0].guName
    && AverageOf(row.avgPrice, total, |deals|)
    && (exists m :: MiddleOf(m, Amounts(deals)) && Whole(row.medianPrice, m))
    && UnitPrice(row.pricePerPyeong, total, area)
    && row.avgArea * |deals| as real == area
  }

  lemma AverageExactly(total: int, n: nat)
    requires n > 0
    ensures AverageOf(total / n, total, n)
  {
    assert total == (total / n) * n + total % n;
    assert (total / n + 1) * n == (total / n) * n + n;
  }

  lemma UnitPriceExactly(total: int, area: real)
    ensures UnitPrice(if area / PYEONG == 0.0 then 0 else Trunc(total as real / (area / PYEONG)), total, area)
  {
    hide Trunc, Whole;
    var pyeong := area / PYEONG;
    assert pyeong * PYEONG == area;
    if area != 0.0 {
      assert pyeong != 0.0;
      var q := QuotientBy(total as real, pyeong);
      assert q * area == total as real * 3.3058 by { PyeongOf(q, pyeong, area, total as real); }
      TruncIsWhole(q);
    } else {
      assert pyeong == 0.0;
    }
  }

  lemma QuotientBy(x: real, d: real) returns (q: real)
    requires d != 0.0
    ensures q == x / d && q * d == x
  {
    q := x / d;
  }

  lemma PyeongOf(q: real, pyeong: real, area: real, total: real)
    requires q * pyeong == total && pyeong * PYEONG == area
    ensures q * area == total * 3.3058
  {
    assert q * (pyeong * PYEONG) == (q * pyeong) * PYEONG;
  }

  lemma AreaAverage(area: real, n: nat)
    requires n > 0
    ensures area / n as real * n as real == area
  {}

  lemma RowIs(key: Key, deals: seq<Transaction>, macro: Macro)
    requires deals != []
    ensures var row, total, area := RowOf(key, deals, macro), Sum(Amounts(deals)), TotalArea(deals);
            && row.saleCount == |deals| && row.guName == deals[0].guName
            && row.avgPrice == total / |deals| && row.medianPrice == Trunc(Median(Amounts(deals)))
            && row.pricePerPyeong == (if area / PYEONG == 0.0 then 0 else Trunc(total as real / (area / PYEONG)))
            && row.avgArea == area / |deals| as real
  {
    hide Median, Trunc, TotalArea, Sum, FindInterestRate, FindNetMigration, Smallest, Largest;
  }

  lemma RowIsExact(key: Key, deals: seq<Transaction>, macro: Macro)
    requires deals != []
    ensures RowNumbers(RowOf(key, deals, macro), deals, Sum(Amounts(deals)), TotalArea(deals))
  {
    hide RowOf, Median, Trunc, TotalArea, Sum, MiddleOf, Whole, UnitPrice, AverageOf, Amounts;
    RowIs(key, deals, macro);
    AverageExactly(Sum(Amounts(deals)), |deals|);
    assert |Amounts(deals)| == |deals| by { AmountCount(deals); }
    MedianExactly(Amounts(deals));
    TruncIsWhole(Median(Amounts(deals)));
    UnitPriceExactly(Sum(Amounts(deals)), TotalArea(deals));
    AreaAverage(TotalArea(deals), |deals|);
  }

  lemma AmountCount(deals: seq<Transaction>)
    ensures |Amounts(deals)| == |deals|
  {}

  /** A row's deals are those of its district and period that stood, in order, and its numbers are theirs. */
  lemma RowExactly(ts: seq<Transaction>, macro: Macro, i: nat)
    returns (at: seq<nat>, deals: seq<Transaction>, amounts: seq<int>, areas: seq<real>)
    requires i < |Aggregated(ts, macro)|
    ensures var row := Aggregated(ts, macro)[i];
            && DealsAt(at, ts, row.guCode, row.period) && PickedBy(deals, at, ts)
            && RunningAmounts(amounts, deals) && RunningAreas(areas, deals)
            && RowNumbers(row, deals, amounts[|deals|], areas[|deals|])
  {
    hide KeptIn, RowOf, Keys, RowsOf, DealsAt, PickedBy, RowNumbers;
    SortedPairsIn(Keys(ts));
    var key := SortedPairs(Keys(ts))[i];
    RowAt(ts, macro, SortedPairs(Keys(ts)), i);
    RowKeyAt(ts, macro, SortedPairs(Keys(ts)), i);
    deals := KeptIn(ts, key);
    at := KeptAt(ts, key.0, key.1);
    amounts := AmountsRun(deals);
    areas := AreasRun(deals);
    RowIsExact(key, deals, macro);
  }

  /* ---------- joins and changes ---------- */

  /** The city a district belongs to has the first two characters of its code. */
  ghost predicate CityOf(city: string, gu: string) {
    (|city| == 2 || (|city| < 2 && city == gu)) && exists rest :: gu == city + rest
  }

  lemma MatchesExactly(m: Migration, gu: string, period: string)
    ensures Matches(m, gu, period) <==> m.period == period && CityOf(m.regionCode, gu)
  {
    var n := Min(2, |gu|);
    assert gu == gu[..n] + gu[n..];
    if rest :| gu == m.regionCode + rest {
      assert gu[..|m.regionCode|] == m.regionCode;
    }
  }

  /** The rate of a row: the first of those observed on the month's last day of observation. */
  lemma RateExactly(rates: seq<Rate>, period: string, i: nat)
    requires i < |rates| && PeriodOf(rates[i].year, rates[i].month) == period
    requires forall j :: 0 <= j < |rates| && PeriodOf(rates[j].year, rates[j].month) == period ==>
               rates[j].day <= rates[i].day && (j < i ==> rates[j].day < rates[i].day)
    ensures FindInterestRate(rates, period) == Some(rates[i].value)
  {
    hide PeriodOf, FindInterestRate;
    InterestRateExact(rates, period);
    assert LastInMonth(rates, period, i);
  }

  lemma NoRateExactly(rates: seq<Rate>, period: string)
    ensures FindInterestRate(rates, period) == None <==>
            forall j :: 0 <= j < |rates| ==> PeriodOf(rates[j].year, rates[j].month) != period
  {
    hide PeriodOf, FindInterestRate;
    InterestRateExact(rates, period);
    assert forall j :: 0 <= j < |rates| ==> (InPeriod(rates[j], period) <==> PeriodOf(rates[j].year, rates[j].month) == period);
  }

  /** The net migration of a row: that of the first row of the month for the district's city. */
  lemma MigrationExactly(migrations: seq<Migration>, gu: string, period: string, i: nat)
    requires i < |migrations| && migrations[i].period == period && CityOf(migrations[i].regionCode, gu)
    requires forall j :: 0 <= j < i ==> !(migrations[j].period == period && CityOf(migrations[j].regionCode, gu))
    ensures FindNetMigration(migrations, gu, period) == Some(migrations[i].netCount)
  {
    hide Matches, CityOf, FindNetMigration;
    NetMigrationExact(migrations, gu, period);
    forall j | 0 <= j < |migrations|
      ensures Matches(migrations[j], gu, period) <==> migrations[j].period == period && CityOf(migrations[j].regionCode, gu)
    {
      MatchesExactly(migrations[j], gu, period);
    }
    assert FirstMatch(migrations, gu, period, i);
  }

  /** A change in percent of its base; none against zero. */
  lemma ChangeExactly(current: int, prior: int)
    ensures PctChange(current, prior).None? <==> prior == 0
    ensures PctChange(current, prior).Some? ==>
      PctChange(current, prior).value * prior as real == 100.0 * (current - prior) as real
  {
    if prior != 0 {
      var q := QuotientBy((current - prior) as real, prior as real);
      assert q * 100.0 * prior as real == 100.0 * (q * prior as real);
    }
  }

  /** A scan finds the last row of its key. */
  lemma {:induction false} ScanExactly(rows: seq<Metrics>, gu: string, period: string, k: nat)
    requires k < |rows| && rows[k].guCode == gu && rows[k].period == period
    requires forall j :: k < j < |rows| ==> !(rows[j].guCode == gu && rows[j].period == period)
    ensures Scan(rows, (gu, period)) == Some(rows[k])
  {
    hide OnKey;
    var n := |rows| - 1;
    SplitLast(rows);
    OnKeyAppend(rows[..n], rows[n], (gu, period));
    if k < n { ScanExactly(rows[..n], gu, period, k); }
  }

  /* ---------- which rows there are ---------- */

  /** There is a row for a district and period exactly if a deal stood there. */
  lemma RowsStand(ts: seq<Transaction>, macro: Macro, gu: string, period: string)
    ensures (exists i :: 0 <= i < |Aggregated(ts, macro)| && RowKey(Aggregated(ts, macro)[i]) == (gu, period)) <==>
            exists k :: 0 <= k < |ts| && Stood(ts[k], gu, period)
  {
    hide Aggregated, PeriodOf;
    RowsExact(ts, macro);
    if (gu, period) in Keys(ts) {
      var t :| t in ts && !t.cancelled && KeyOf(t) == (gu, period);
      var k :| 0 <= k < |ts| && ts[k] == t;
      assert Stood(ts[k], gu, period);
    }
    if k :| 0 <= k < |ts| && Stood(ts[k], gu, period) {
      assert ts[k] in ts && KeyOf(ts[k]) == (gu, period);
    }
  }

  /** The rows come by district, then by period, and no two are of one district and period. */
  lemma RowsInOrder(ts: seq<Transaction>, macro: Macro, i: nat, j: nat)
    requires i < j < |Aggregated(ts, macro)|
    ensures var a, b := Aggregated(ts, macro)[i], Aggregated(ts, macro)[j];
            Less(a.guCode, b.guCode) || (a.guCode == b.guCode && Less(a.period, b.period))
  {
    hide Aggregated, Less;
    RowsExact(ts, macro);
    assert PairLess(RowKey(Aggregated(ts, macro)[i]), RowKey(Aggregated(ts, macro)[j]));
  }

  /** Enrichment lists the rows by district, then by period, and leaves those of one key in their order. */
  lemma SortedByKey(metrics: seq<Metrics>)
    ensures var rows := Sort(RowLess, metrics);
            && multiset(rows) == multiset(metrics)
            && forall i, j :: 0 <= i < j < |rows| ==>
                 && !Less(rows[j].guCode, rows[i].guCode)
                 && (rows[i].guCode == rows[j].guCode ==> !Less(rows[j].period, rows[i].period))
    ensures forall gu, period :: OnKey(Sort(RowLess, metrics), (gu, period)) == OnKey(metrics, (gu, period))
  {
    hide Less, Sort, OnKey;
    KeysWeak();
    SortContents(RowLess, metrics);
    SortOrdered(RowLess, metrics);
    var rows := Sort(RowLess, metrics);
    forall i, j | 0 <= i < j < |rows|
      ensures !Less(rows[j].guCode, rows[i].guCode)
      ensures rows[i].guCode == rows[j].guCode ==> !Less(rows[j].period, rows[i].period)
    {
      assert !RowLess(rows[j], rows[i]);
    }
    forall gu, period ensures OnKey(rows, (gu, period)) == OnKey(metrics, (gu, period)) {
      SortKeepsScan(metrics, (gu, period));
    }
  }

  lemma KeysWeak()
    ensures WeakOrder(RowLess)
  {
    hide PairLess;
    PairOrder();
    forall x, y, z | !RowLess(x, y) && !RowLess(y, z) ensures !RowLess(x, z) {
      assert RowKey(x) == RowKey(y) || PairLess(RowKey(y), RowKey(x));
      assert RowKey(y) == RowKey(z) || PairLess(RowKey(z), RowKey(y));
    }
  }

  /** The k-th row is the last of the district's rows of so many months before. */
  ghost predicate LastBefore(metrics: seq<Metrics>, row: Metrics, months: nat, k: nat)
    requires ValidPeriods(metrics) && IsPeriod(row.period)
  {
    && k < |metrics| && Neighbour(row, months, metrics[k])
    && forall j :: k < j < |metrics| ==> !Neighbour(row, months, metrics[j])
  }

  /** A row's trends are the changes against the last rows of one and of twelve months before; all else stays. */
  lemma TrendsExactly(metrics: seq<Metrics>, row: Metrics, k: nat)
    requires ValidPeriods(metrics) && IsPeriod(row.period)
    ensures var e := ScanEnriched(row, metrics);
            && (LastBefore(metrics, row, 1, k) ==>
                  && e.momPrice == PctChange(row.avgPrice, metrics[k].avgPrice)
                  && e.momVolume == PctChange(row.saleCount, metrics[k].saleCount))
            && (LastBefore(metrics, row, 12, k) ==>
                  && e.yoyPrice == PctChange(row.avgPrice, metrics[k].avgPrice)
                  && e.yoyVolume == PctChange(row.saleCount, metrics[k].saleCount))
            && e == row.(momPrice := e.momPrice, yoyPrice := e.yoyPrice, momVolume := e.momVolume, yoyVolume := e.yoyVolume)
  {
    hide IsPeriod, Neighbour, PrevMonth, PrevYear, PctChange, Scan;
    forall j | 0 <= j < |metrics|
      ensures RowKey(metrics[j]) == (row.guCode, PrevMonth(row.period)) <==> Neighbour(row, 1, metrics[j])
      ensures RowKey(metrics[j]) == (row.guCode, PrevYear(row.period)) <==> Neighbour(row, 12, metrics[j])
    {
      KeyIsNeighbour(row, metrics[j]);
    }
    if LastBefore(metrics, row, 1, k) { ScanExactly(metrics, row.guCode, PrevMonth(row.period), k); }
    if LastBefore(metrics, row, 12, k) { ScanExactly(metrics, row.guCode, PrevYear(row.period), k); }
  }
}
