/** Monthly district metrics: grouping of transactions and their aggregation. */
module GoldDistrict {
  import opened Wrappers
  import opened Ordering
  import opened Numbers
  import opened Periods
  import opened Statistics

  datatype Transaction = Transaction(
    guCode: string, guName: string, year: nat, month: nat, amount: int, area: real, cancelled: bool)

  /** District and month. */
  type Key = (string, string)

  datatype Metrics = Metrics(
    guCode: string, guName: string, period: string, saleCount: int, avgPrice: int, medianPrice: int, minPrice: int,
    maxPrice: int, pricePerPyeong: int, avgArea: real,
    momPrice: Option<real>, yoyPrice: Option<real>, momVolume: Option<real>, yoyVolume: Option<real>,
    baseRate: Option<real>, netMigration: Option<int>)

  datatype Rate = Rate(year: nat, month: nat, day: nat, value: real)

  datatype Migration = Migration(period: string, regionCode: string, netCount: int)

  /** The interest rates and migrations rows are joined with; none at all is the empty list. */
  datatype Macro = Macro(rates: seq<Rate>, migrations: seq<Migration>)

  /** Calendar dates with four-digit years. */
  predicate Dated(t: Transaction) {
    t.year < 10000 && 1 <= t.month <= 12
  }

  function KeyOf(t: Transaction): Key {
    (t.guCode, PeriodOf(t.year, t.month))
  }

  function Amounts(group: seq<Transaction>): seq<int> {
    seq(|group|, i requires 0 <= i < |group| => group[i].amount)
  }

  /* ---------- grouping ---------- */

  /** The kept transactions of one district and month, in their order. */
  function KeptIn(ts: seq<Transaction>, key: Key): seq<Transaction> {
    if ts == [] then [] else
      var t := ts[|ts| - 1];
      KeptIn(ts[..|ts| - 1], key) + (if !t.cancelled && KeyOf(t) == key then [t] else [])
  }

  /** The districts and months with a transaction that was not cancelled. */
  ghost function Keys(ts: seq<Transaction>): set<Key> {
    set t | t in ts && !t.cancelled :: KeyOf(t)
  }

  /** How many transactions were not cancelled. */
  function KeptCount(ts: seq<Transaction>): nat {
    if ts == [] then 0 else KeptCount(ts[..|ts| - 1]) + (if ts[|ts| - 1].cancelled then 0 else 1)
  }

  lemma KeysOneMore(ts: seq<Transaction>, i: nat)
    requires i < |ts|
    ensures Keys(ts[..i + 1]) == Keys(ts[..i]) + (if ts[i].cancelled then {} else {KeyOf(ts[i])})
  {
    assert ts[..i + 1] == ts[..i] + [ts[i]];
  }

  ghost predicate Grouped(ts: seq<Transaction>, grouped: map<Key, seq<Transaction>>, order: seq<Key>) {
    && grouped.Keys == Keys(ts) && Distinct(order) && Elements(order) == grouped.Keys
    && forall k :: k in grouped ==> grouped[k] == KeptIn(ts, k)
  }

  lemma {:induction false} NoneKept(ts: seq<Transaction>, key: Key)
    ensures KeptIn(ts, key) == [] <==> key !in Keys(ts)
  {
    if ts != [] {
      var n := |ts| - 1;
      NoneKept(ts[..n], key);
      KeysOneMore(ts, n);
      assert ts[..n + 1] == ts;
    }
  }

  /** The group of `key` with `t` added. */
  function With(grouped: map<Key, seq<Transaction>>, key: Key, t: Transaction): map<Key, seq<Transaction>> {
    grouped[key := (if key in grouped then grouped[key] else []) + [t]]
  }

  lemma KeptNext(ts: seq<Transaction>, i: nat, key: Key)
    requires i < |ts|
    ensures KeptIn(ts[..i + 1], key) ==
            KeptIn(ts[..i], key) + (if !ts[i].cancelled && KeyOf(ts[i]) == key then [ts[i]] else [])
  {
    assert ts[..i + 1][..i] == ts[..i];
  }

  lemma SkipCancelled(ts: seq<Transaction>, i: nat, grouped: map<Key, seq<Transaction>>, order: seq<Key>)
    requires i < |ts| && ts[i].cancelled && Grouped(ts[..i], grouped, order)
    ensures Grouped(ts[..i + 1], grouped, order)
  {
    hide KeyOf, KeptIn, Keys;
    KeysOneMore(ts, i);
    forall k | k in grouped ensures grouped[k] == KeptIn(ts[..i + 1], k) {
      KeptNext(ts, i, k);
      assert KeptIn(ts[..i], k) + [] == KeptIn(ts[..i], k);
    }
  }

  lemma GroupStep(ts: seq<Transaction>, i: nat, grouped: map<Key, seq<Transaction>>, order: seq<Key>)
    requires i < |ts| && !ts[i].cancelled && Grouped(ts[..i], grouped, order)
    ensures var k := KeyOf(ts[i]);
            Grouped(ts[..i + 1], With(grouped, k, ts[i]), if k in grouped then order else order + [k])
  {
    hide KeyOf, KeptIn;
    var key := KeyOf(ts[i]);
    KeysOneMore(ts, i);
    NoneKept(ts[..i], key);
    if key !in grouped { ListedOnce(order, key); }
    forall k | k in grouped || k == key ensures With(grouped, key, ts[i])[k] == KeptIn(ts[..i + 1], k) {
      KeptNext(ts, i, k);
    }
  }

  /** Groups the transactions that were not cancelled by district and month. */
  method GroupTransactions(ts: seq<Transaction>) returns (grouped: map<Key, seq<Transaction>>, order: seq<Key>)
    ensures Grouped(ts, grouped, order)
  {
    grouped, order := map[], [];
    var i := 0;
    while i < |ts|
      invariant 0 <= i <= |ts|
      invariant Grouped(ts[..i], grouped, order)
    {
      var t := ts[i];
      if t.cancelled {
        SkipCancelled(ts, i, grouped, order);
        i := i + 1;
        continue;
      }
      GroupStep(ts, i, grouped, order);
      var key := KeyOf(t);
      if key !in grouped {
        order := order + [key];
      }
      grouped := With(grouped, key, t);
      i := i + 1;
    }
    assert ts[..|ts|] == ts;
  }

  /* ---------- joining rates and migration ---------- */

  predicate InPeriod(rate: Rate, period: string) {
    PeriodOf(rate.year, rate.month) == period
  }

  /** The rate observed last in the month; the first of those of one day. */
  function LatestRate(rates: seq<Rate>, period: string): Option<Rate> {
    if rates == [] then None else
      var before, rate := LatestRate(rates[..|rates| - 1], period), rates[|rates| - 1];
      if InPeriod(rate, period) && (before.None? || before.value.day < rate.day) then Some(rate) else before
  }

  function FindInterestRate(rates: seq<Rate>, period: string): Option<real> {
    var latest := LatestRate(rates, period);
    if latest.Some? then Some(latest.value.value) else None
  }

  /** `rates[i]` is in the month, no rate of the month is later, and those before it are earlier. */
  ghost predicate LastInMonth(rates: seq<Rate>, period: string, i: int) {
    && 0 <= i < |rates| && InPeriod(rates[i], period)
    && (forall j :: 0 <= j < |rates| && InPeriod(rates[j], period) ==> rates[j].day <= rates[i].day)
    && (forall j :: 0 <= j < i && InPeriod(rates[j], period) ==> rates[j].day < rates[i].day)
  }

  lemma OneMoreRate(rates: seq<Rate>, rate: Rate, period: string, i: int)
    requires LastInMonth(rates, period, i)
    ensures LastInMonth(rates + [rate], period, if InPeriod(rate, period) && rates[i].day < rate.day then |rates| else i)
  {
    hide InPeriod;
  }

  lemma FirstRate(rates: seq<Rate>, rate: Rate, period: string)
    requires InPeriod(rate, period) && forall i :: 0 <= i < |rates| ==> !InPeriod(rates[i], period)
    ensures LastInMonth(rates + [rate], period, |rates|)
  {
    hide InPeriod;
  }

  /** `rate` is the one observed last in the month. */
  ghost predicate IsLastInMonth(rates: seq<Rate>, period: string, rate: Rate) {
    exists i :: 0 <= i < |rates| && LastInMonth(rates, period, i) && rate == rates[i]
  }

  lemma {:induction false} LatestRateIs(rates: seq<Rate>, period: string)
    ensures LatestRate(rates, period).None? <==> forall i :: 0 <= i < |rates| ==> !InPeriod(rates[i], period)
    ensures LatestRate(rates, period).Some? ==> IsLastInMonth(rates, period, LatestRate(rates, period).value)
  {
    hide InPeriod, LastInMonth;
    if rates != [] {
      var init, rate := rates[..|rates| - 1], rates[|rates| - 1];
      assert rates == init + [rate];
      LatestRateIs(init, period);
      var before := LatestRate(init, period);
      if before.Some? {
        var i :| 0 <= i < |init| && LastInMonth(init, period, i) && before.value == init[i];
        OneMoreRate(init, rate, period, i);
        Bounded(init, period, i);
      } else if InPeriod(rate, period) {
        FirstRate(init, rate, period);
      }
    }
  }

  lemma Bounded(rates: seq<Rate>, period: string, i: int)
    requires LastInMonth(rates, period, i)
    ensures 0 <= i < |rates| && InPeriod(rates[i], period)
  {}

  /** A rate is found exactly if one was observed in the month, and is then the last of the month. */
  lemma InterestRateExact(rates: seq<Rate>, period: string)
    ensures FindInterestRate(rates, period).None? <==> forall i :: 0 <= i < |rates| ==> !InPeriod(rates[i], period)
    ensures forall i :: 0 <= i < |rates| && LastInMonth(rates, period, i) ==>
              FindInterestRate(rates, period) == Some(rates[i].value)
  {
    LatestRateIs(rates, period);
    forall i | 0 <= i < |rates| && LastInMonth(rates, period, i)
      ensures FindInterestRate(rates, period) == Some(rates[i].value)
    {
      var k :| 0 <= k < |rates| && LastInMonth(rates, period, k) && LatestRate(rates, period).value == rates[k];
      OnlyLastInMonth(rates, period, i, k);
    }
  }

  lemma OnlyLastInMonth(rates: seq<Rate>, period: string, i: int, k: int)
    requires LastInMonth(rates, period, i) && LastInMonth(rates, period, k)
    ensures i == k
  {
    hide InPeriod;
  }

  predicate Matches(m: Migration, gu: string, period: string) {
    m.period == period && m.regionCode == gu[..Min(2, |gu|)]
  }

  /** The first migration of the month and the city the district belongs to. */
  function FindNetMigration(migrations: seq<Migration>, gu: string, period: string): Option<int> {
    if migrations == [] then None
    else if Matches(migrations[0], gu, period) then Some(migrations[0].netCount)
    else FindNetMigration(migrations[1..], gu, period)
  }

  /** Row `i` is the first of the month whose region is the district's city. */
  ghost predicate FirstMatch(migrations: seq<Migration>, gu: string, period: string, i: int) {
    && 0 <= i < |migrations| && Matches(migrations[i], gu, period)
    && forall j :: 0 <= j < i ==> !Matches(migrations[j], gu, period)
  }

  lemma MatchInRest(migrations: seq<Migration>, gu: string, period: string, i: int)
    requires FirstMatch(migrations, gu, period, i) && !Matches(migrations[0], gu, period)
    ensures FirstMatch(migrations[1..], gu, period, i - 1) && migrations[1..][i - 1] == migrations[i]
  {
    hide Matches;
  }

  lemma {:induction false} NoMigration(migrations: seq<Migration>, gu: string, period: string)
    ensures FindNetMigration(migrations, gu, period).None? <==>
              forall i :: 0 <= i < |migrations| ==> !Matches(migrations[i], gu, period)
  {
    hide Matches;
    if migrations != [] && !Matches(migrations[0], gu, period) {
      NoMigration(migrations[1..], gu, period);
      assert forall i :: 0 < i < |migrations| ==> migrations[i] == migrations[1..][i - 1];
    }
  }

  lemma {:induction false} FirstMigration(migrations: seq<Migration>, gu: string, period: string, i: int)
    requires FirstMatch(migrations, gu, period, i)
    ensures FindNetMigration(migrations, gu, period) == Some(migrations[i].netCount)
  {
    hide Matches;
    if !Matches(migrations[0], gu, period) {
      MatchInRest(migrations, gu, period, i);
      FirstMigration(migrations[1..], gu, period, i - 1);
    }
  }

  /** The net migration found is that of the first row of the month whose region is the district's city. */
  lemma NetMigrationExact(migrations: seq<Migration>, gu: string, period: string)
    ensures FindNetMigration(migrations, gu, period).None? <==>
              forall i :: 0 <= i < |migrations| ==> !Matches(migrations[i], gu, period)
    ensures forall i :: FirstMatch(migrations, gu, period, i) ==>
              FindNetMigration(migrations, gu, period) == Some(migrations[i].netCount)
  {
    hide FirstMatch, FindNetMigration, Matches;
    NoMigration(migrations, gu, period);
    forall i | FirstMatch(migrations, gu, period, i)
      ensures 0 <= i < |migrations| && FindNetMigration(migrations, gu, period) == Some(migrations[i].netCount)
    {
      MatchBounds(migrations, gu, period, i);
      FirstMigration(migrations, gu, period, i);
    }
  }

  lemma MatchBounds(migrations: seq<Migration>, gu: string, period: string, i: int)
    requires FirstMatch(migrations, gu, period, i)
    ensures 0 <= i < |migrations|
  {}

  /* ---------- aggregation ---------- */

  const PYEONG := 3.3058

  function TotalArea(group: seq<Transaction>): real {
    if group == [] then 0.0 else TotalArea(group[..|group| - 1]) + group[|group| - 1].area
  }

  /** The metrics of one district and month. */
  function RowOf(key: Key, group: seq<Transaction>, macro: Macro): Metrics
    requires group != []
  {
    var amounts := Amounts(group);
    var pyeong := TotalArea(group) / PYEONG;
    Metrics(key.0, group[0].guName, key.1, |group|, Sum(amounts) / |amounts|, Trunc(Median(amounts)),
            Smallest(amounts), Largest(amounts),
            if pyeong == 0.0 then 0 else Trunc(Sum(amounts) as real / pyeong),
            TotalArea(group) / |group| as real, None, None, None, None,
            FindInterestRate(macro.rates, key.1), FindNetMigration(macro.migrations, key.0, key.1))
  }

  /** The rows of the given keys. */
  ghost function RowsOf(ts: seq<Transaction>, macro: Macro, order: seq<Key>): (rows: seq<Metrics>)
    requires forall k :: k in order ==> k in Keys(ts)
    ensures |rows| == |order|
  {
    if order == [] then [] else
      var k := order[|order| - 1];
      NoneKept(ts, k);
      RowsOf(ts, macro, order[..|order| - 1]) + [RowOf(k, KeptIn(ts, k), macro)]
  }

  /** One row per district and month with a kept transaction, in order. */
  ghost function Aggregated(ts: seq<Transaction>, macro: Macro): seq<Metrics> {
    SortedPairsIn(Keys(ts));
    RowsOf(ts, macro, SortedPairs(Keys(ts)))
  }

  lemma GroupOf(ts: seq<Transaction>, grouped: map<Key, seq<Transaction>>, order: seq<Key>, key: Key)
    requires Grouped(ts, grouped, order) && key in Keys(ts)
    ensures key in grouped && grouped[key] == KeptIn(ts, key) && grouped[key] != []
  {
    NoneKept(ts, key);
  }

  lemma GroupKeys(ts: seq<Transaction>, grouped: map<Key, seq<Transaction>>, order: seq<Key>)
    requires Grouped(ts, grouped, order)
    ensures Distinct(order) && Elements(order) == Keys(ts)
  {}

  /** The keys in order, each with its transactions. */
  lemma KeysInOrder(ts: seq<Transaction>, grouped: map<Key, seq<Transaction>>, order: seq<Key>)
    requires Grouped(ts, grouped, order)
    ensures Sort(PairLess, order) == SortedPairs(Keys(ts))
    ensures forall k :: k in Sort(PairLess, order) ==>
      k in Keys(ts) && k in grouped && grouped[k] == KeptIn(ts, k) && grouped[k] != []
  {
    hide KeptIn, Keys, Grouped;
    GroupKeys(ts, grouped, order);
    SortGivesPairs(order);
    SortedPairsIn(Keys(ts));
    forall k | k in Sort(PairLess, order) ensures k in grouped && grouped[k] == KeptIn(ts, k) && grouped[k] != [] {
      GroupOf(ts, grouped, order, k);
    }
  }

  lemma NoRows(ts: seq<Transaction>, macro: Macro, order: seq<Key>)
    ensures RowsOf(ts, macro, order[..0]) == []
  {}

  lemma RowsNext(ts: seq<Transaction>, macro: Macro, order: seq<Key>, i: nat)
    requires i < |order| && forall k :: k in order ==> k in Keys(ts)
    ensures KeptIn(ts, order[i]) != []
    ensures RowsOf(ts, macro, order[..i + 1]) == RowsOf(ts, macro, order[..i]) + [RowOf(order[i], KeptIn(ts, order[i]), macro)]
  {
    hide KeptIn, RowOf, Keys;
    assert order[..i + 1][..i] == order[..i];
    NoneKept(ts, order[i]);
  }

  method AggregateDistrictMonthly(ts: seq<Transaction>, macro: Macro) returns (rows: seq<Metrics>)
    ensures rows == Aggregated(ts, macro)
  {
    hide RowOf, RowsOf, KeptIn, Keys, Grouped, Sort, SortedPairs;
    var grouped, order := GroupTransactions(ts);
    KeysInOrder(ts, grouped, order);
    var keys := Sort(PairLess, order);
    rows := [];
    var i := 0;
    NoRows(ts, macro, keys);
    while i < |keys|
      invariant 0 <= i <= |keys|
      invariant rows == RowsOf(ts, macro, keys[..i])
    {
      RowsNext(ts, macro, keys, i);
      rows := rows + [RowOf(keys[i], grouped[keys[i]], macro)];
      i := i + 1;
    }
    assert keys[..|keys|] == keys;
  }

  /* ---------- the output is exact ---------- */

  function RowKey(row: Metrics): Key { (row.guCode, row.period) }

  lemma {:induction false} RowAt(ts: seq<Transaction>, macro: Macro, order: seq<Key>, i: nat)
    requires i < |order| && forall k :: k in order ==> k in Keys(ts)
    ensures KeptIn(ts, order[i]) != [] && RowsOf(ts, macro, order)[i] == RowOf(order[i], KeptIn(ts, order[i]), macro)
  {
    NoneKept(ts, order[i]);
    if i < |order| - 1 { RowAt(ts, macro, order[..|order| - 1], i); }
  }

  /** Rows are strictly sorted by district and month, and there is one exactly where a transaction was kept. */
  lemma RowsExact(ts: seq<Transaction>, macro: Macro)
    ensures var rows := Aggregated(ts, macro);
            && (forall i, j :: 0 <= i < j < |rows| ==> PairLess(RowKey(rows[i]), RowKey(rows[j])))
            && (forall key :: key in Keys(ts) <==> exists i :: 0 <= i < |rows| && RowKey(rows[i]) == key)
  {
    hide Keys, RowsOf, RowKey;
    var order, rows := SortedPairs(Keys(ts)), Aggregated(ts, macro);
    SortedPairsIn(Keys(ts));
    forall i | 0 <= i < |rows| ensures RowKey(rows[i]) == order[i] { RowKeyAt(ts, macro, order, i); }
    forall key | key in Keys(ts) ensures exists i :: 0 <= i < |rows| && RowKey(rows[i]) == key {
      var i :| 0 <= i < |order| && order[i] == key;
      assert RowKey(rows[i]) == key;
    }
  }

  lemma RowKeyAt(ts: seq<Transaction>, macro: Macro, order: seq<Key>, i: nat)
    requires i < |order| && forall k :: k in order ==> k in Keys(ts)
    ensures RowKey(RowsOf(ts, macro, order)[i]) == order[i]
  {
    RowAt(ts, macro, order, i);
    assert order[i] == (order[i].0, order[i].1);
  }

  /** Each row reports its own transactions; average and median lie between the extremes. */
  lemma RowBounds(ts: seq<Transaction>, macro: Macro, i: nat)
    requires i < |Aggregated(ts, macro)|
    ensures var row := Aggregated(ts, macro)[i];
            var group := KeptIn(ts, RowKey(row));
            && row.saleCount == |group| > 0
            && row.minPrice in Amounts(group) && row.maxPrice in Amounts(group)
            && (forall k :: 0 <= k < |group| ==> row.minPrice <= group[k].amount <= row.maxPrice)
            && row.minPrice <= row.avgPrice <= row.maxPrice && row.minPrice <= row.medianPrice <= row.maxPrice
  {
    hide KeptIn, RowOf, Keys, RowsOf;
    SortedPairsIn(Keys(ts));
    var key := SortedPairs(Keys(ts))[i];
    RowAt(ts, macro, SortedPairs(Keys(ts)), i);
    RowKeyAt(ts, macro, SortedPairs(Keys(ts)), i);
    RowOfBounds(key, KeptIn(ts, key), macro);
  }

  /** Each row carries the rate and the net migration found for its month and district. */
  lemma RowJoins(ts: seq<Transaction>, macro: Macro, i: nat)
    requires i < |Aggregated(ts, macro)|
    ensures var row := Aggregated(ts, macro)[i];
            && row.baseRate == FindInterestRate(macro.rates, row.period)
            && row.netMigration == FindNetMigration(macro.migrations, row.guCode, row.period)
            && row.momPrice == row.yoyPrice == row.momVolume == row.yoyVolume == None
  {
    hide KeptIn, Keys, RowsOf, FindInterestRate, FindNetMigration;
    SortedPairsIn(Keys(ts));
    RowAt(ts, macro, SortedPairs(Keys(ts)), i);
  }

  /* Areas and prices per pyeong. */

  /** A deal's price per pyeong lies between the bounds. */
  ghost predicate UnitPriced(t: Transaction, low: int, high: int) {
    t.area > 0.0 && low as real * t.area <= t.amount as real * PYEONG <= high as real * t.area
  }

  lemma AddAbove(x: real, a: real, b: real, s: real, t: real)
    requires x * a <= s && x * b <= t
    ensures x * (a + b) <= s + t
  {}

  lemma AddBelow(x: real, a: real, b: real, s: real, t: real)
    requires s <= x * a && t <= x * b
    ensures s + t <= x * (a + b)
  {}

  /** One more deal at the end of a group. */
  lemma GroupNext(group: seq<Transaction>)
    requires group != []
    ensures var init, last := group[..|group| - 1], group[|group| - 1];
            && last in group && (forall t :: t in init ==> t in group)
            && TotalArea(group) == TotalArea(init) + last.area
            && Sum(Amounts(group)) == Sum(Amounts(init)) + last.amount
  {
    SplitLast(group);
    assert Amounts(group)[..|group| - 1] == Amounts(group[..|group| - 1]);
  }

  lemma {:induction false} UnitPricesAdd(group: seq<Transaction>, low: int, high: int)
    requires forall t :: t in group ==> UnitPriced(t, low, high)
    ensures TotalArea(group) >= 0.0 && (group != [] ==> TotalArea(group) > 0.0)
    ensures low as real * TotalArea(group) <= Sum(Amounts(group)) as real * PYEONG
    ensures Sum(Amounts(group)) as real * PYEONG <= high as real * TotalArea(group)
  {
    if group != [] {
      hide TotalArea, Sum, Amounts;
      var init, last := group[..|group| - 1], group[|group| - 1];
      GroupNext(group);
      UnitPricesAdd(init, low, high);
      AddAbove(low as real, TotalArea(init), last.area, Sum(Amounts(init)) as real * PYEONG, last.amount as real * PYEONG);
      AddBelow(high as real, TotalArea(init), last.area, Sum(Amounts(init)) as real * PYEONG, last.amount as real * PYEONG);
    }
  }

  lemma UnitPriceOfAll(sum: int, area: real, low: int, high: int)
    requires area > 0.0 && low as real * area <= sum as real * PYEONG <= high as real * area
    ensures area / PYEONG > 0.0 && low as real <= sum as real / (area / PYEONG) <= high as real
  {
    var pyeong := area / PYEONG;
    assert pyeong * PYEONG == area;
    var q := sum as real / pyeong;
    assert q * pyeong == sum as real;
    assert sum as real * PYEONG == q * area by {
      assert (q * pyeong) * PYEONG == q * (pyeong * PYEONG);
    }
    KeepsOrder(low as real, q, area);
    KeepsOrder(q, high as real, area);
  }

  lemma KeepsOrder(a: real, b: real, x: real)
    requires x > 0.0 && a * x <= b * x
    ensures a <= b
  {
    if a > b { Positive(a - b, x); }
  }

  lemma Positive(d: real, x: real)
    requires d > 0.0 && x > 0.0
    ensures d * x > 0.0
  {}

  /** `x` taken `n` times. */
  function TimesOver(x: real, n: nat): real { x * n as real }

  lemma OneTimeMore(x: real, n: nat)
    ensures TimesOver(x, n + 1) == TimesOver(x, n) + x
  {}

  lemma {:induction false} AreasAdd(group: seq<Transaction>, low: real, high: real)
    requires forall t :: t in group ==> low <= t.area <= high
    ensures TimesOver(low, |group|) <= TotalArea(group) <= TimesOver(high, |group|)
  {
    if group != [] {
      hide TotalArea, Sum, Amounts, TimesOver;
      var init, last := group[..|group| - 1], group[|group| - 1];
      GroupNext(group);
      AreasAdd(init, low, high);
      OneTimeMore(low, |init|);
      OneTimeMore(high, |init|);
    }
  }

  lemma AverageArea(total: real, n: nat, low: real, high: real)
    requires n > 0 && TimesOver(low, n) <= total <= TimesOver(high, n)
    ensures low <= total / n as real <= high
  {
    var q := total / n as real;
    assert q * n as real == total;
    KeepsOrder(low, q, n as real);
    KeepsOrder(q, high, n as real);
  }

  lemma RowOfArea(key: Key, group: seq<Transaction>, macro: Macro, low: real, high: real)
    requires group != [] && forall t :: t in group ==> low <= t.area <= high
    ensures low <= RowOf(key, group, macro).avgArea <= high
  {
    hide RowOf, TotalArea, TimesOver;
    RowNamed(key, group, macro);
    AreasAdd(group, low, high);
    AverageArea(TotalArea(group), |group|, low, high);
  }

  lemma RowOfAreas(key: Key, group: seq<Transaction>, macro: Macro, low: int, high: int)
    requires group != [] && forall t :: t in group ==> UnitPriced(t, low, high)
    ensures low <= RowOf(key, group, macro).pricePerPyeong <= high
  {
    hide UnitPriced, FindInterestRate, FindNetMigration, Median, TotalArea, Sum, Amounts;
    UnitPricesAdd(group, low, high);
    UnitPriceOfAll(Sum(Amounts(group)), TotalArea(group), low, high);
    TruncWithin(Sum(Amounts(group)) as real / (TotalArea(group) / PYEONG), low, high);
  }

  /**
   A row is named after the first of its transactions, and its price per pyeong lies
   between the lowest and the highest of theirs.
   */
  lemma RowUnitPrice(ts: seq<Transaction>, macro: Macro, i: nat, low: int, high: int)
    requires i < |Aggregated(ts, macro)|
    requires forall t :: t in KeptIn(ts, RowKey(Aggregated(ts, macro)[i])) ==> UnitPriced(t, low, high)
    ensures var row := Aggregated(ts, macro)[i];
            && KeptIn(ts, RowKey(row)) != [] && row.guName == KeptIn(ts, RowKey(row))[0].guName
            && low <= row.pricePerPyeong <= high
  {
    hide KeptIn, RowOf, Keys, RowsOf, UnitPriced;
    SortedPairsIn(Keys(ts));
    var key := SortedPairs(Keys(ts))[i];
    RowAt(ts, macro, SortedPairs(Keys(ts)), i);
    RowKeyAt(ts, macro, SortedPairs(Keys(ts)), i);
    RowOfAreas(key, KeptIn(ts, key), macro, low, high);
    RowNamed(key, KeptIn(ts, key), macro);
  }

  lemma RowNamed(key: Key, group: seq<Transaction>, macro: Macro)
    requires group != []
    ensures RowOf(key, group, macro).guName == group[0].guName
    ensures RowOf(key, group, macro).avgArea == TotalArea(group) / |group| as real
  {
    hide Median, FindInterestRate, FindNetMigration;
  }

  /** The average area of a row lies between the smallest and the largest of its transactions. */
  lemma RowArea(ts: seq<Transaction>, macro: Macro, i: nat, low: real, high: real)
    requires i < |Aggregated(ts, macro)|
    requires forall t :: t in KeptIn(ts, RowKey(Aggregated(ts, macro)[i])) ==> low <= t.area <= high
    ensures low <= Aggregated(ts, macro)[i].avgArea <= high
  {
    hide KeptIn, RowOf, Keys, RowsOf;
    SortedPairsIn(Keys(ts));
    var key := SortedPairs(Keys(ts))[i];
    RowAt(ts, macro, SortedPairs(Keys(ts)), i);
    RowKeyAt(ts, macro, SortedPairs(Keys(ts)), i);
    RowOfArea(key, KeptIn(ts, key), macro, low, high);
  }

  lemma RowOfBounds(key: Key, group: seq<Transaction>, macro: Macro)
    requires group != []
    ensures var row := RowOf(key, group, macro);
            && row.saleCount == |group|
            && row.minPrice in Amounts(group) && row.maxPrice in Amounts(group)
            && (forall k :: 0 <= k < |group| ==> row.minPrice <= group[k].amount <= row.maxPrice)
            && row.minPrice <= row.avgPrice <= row.maxPrice && row.minPrice <= row.medianPrice <= row.maxPrice
  {
    var amounts := Amounts(group);
    Extremes(amounts);
    assert forall k :: 0 <= k < |amounts| ==> amounts[k] in amounts;
    SumBounds(amounts, Smallest(amounts), Largest(amounts));
    QuotientBounds(Sum(amounts), |amounts|, Smallest(amounts), Largest(amounts));
    MedianBounds(amounts);
    forall k | 0 <= k < |group| ensures Smallest(amounts) <= group[k].amount <= Largest(amounts) {
      assert amounts[k] in amounts;
    }
  }

  /** Sales of the rows of the given keys. */
  ghost function Sales(rows: seq<Metrics>): int {
    if rows == [] then 0 else Sales(rows[..|rows| - 1]) + rows[|rows| - 1].saleCount
  }

  ghost function Counted(ts: seq<Transaction>, order: seq<Key>): int {
    if order == [] then 0 else Counted(ts, order[..|order| - 1]) + |KeptIn(ts, order[|order| - 1])|
  }

  lemma {:induction false} SalesAreCounted(ts: seq<Transaction>, macro: Macro, order: seq<Key>)
    requires forall k :: k in order ==> k in Keys(ts)
    ensures Sales(RowsOf(ts, macro, order)) == Counted(ts, order)
  {
    if order != [] {
      SalesAreCounted(ts, macro, order[..|order| - 1]);
      assert RowsOf(ts, macro, order)[..|order| - 1] == RowsOf(ts, macro, order[..|order| - 1]);
      RowAt(ts, macro, order, |order| - 1);
    }
  }

  /** One more kept transaction is counted under exactly one key. */
  lemma {:induction false} CountedOneMore(ts: seq<Transaction>, order: seq<Key>)
    requires ts != [] && Distinct(order)
    ensures var t := ts[|ts| - 1];
            Counted(ts, order) == Counted(ts[..|ts| - 1], order) + (if !t.cancelled && KeyOf(t) in order then 1 else 0)
  {
    if order != [] {
      var init := order[..|order| - 1];
      assert order == init + [order[|order| - 1]];
      CountedOneMore(ts, init);
    }
  }

  lemma {:induction false} CountedAll(ts: seq<Transaction>, order: seq<Key>)
    requires Distinct(order) && forall k :: k in Keys(ts) ==> k in order
    ensures Counted(ts, order) == KeptCount(ts)
  {
    if ts == [] {
      NothingCounted(order);
    } else {
      var n := |ts| - 1;
      assert ts[..n + 1] == ts;
      KeysOneMore(ts, n);
      CountedAll(ts[..n], order);
      CountedOneMore(ts, order);
    }
  }

  lemma {:induction false} NothingCounted(order: seq<Key>)
    ensures Counted([], order) == 0
  {
    if order != [] { NothingCounted(order[..|order| - 1]); }
  }

  /** The sale counts add up to the number of transactions that were not cancelled. */
  lemma SalesExact(ts: seq<Transaction>, macro: Macro)
    ensures Sales(Aggregated(ts, macro)) == KeptCount(ts)
  {
    SortedPairsIn(Keys(ts));
    SalesAreCounted(ts, macro, SortedPairs(Keys(ts)));
    CountedAll(ts, SortedPairs(Keys(ts)));
  }
}
