/** The pivot of the migration matrix: one record per region and month, each count from one matrix row. */
module KostatPivot {
  import opened Wrappers
  import opened Ordering

  /** A matrix row after its cells were read; `None` is a missing or blank cell. */
  datatype Row = Row(
    c1: Option<string>, c2: Option<string>, c1Name: Option<string>, c2Name: Option<string>,
    period: Option<string>, item: Option<string>, value: Option<string>)

  const NATIONAL := "00"
  const GROSS_FLOW := "T70"
  const NET_FLOW := "T80"

  datatype Metric = InCount | OutCount | NetCount

  /** Region and period. */
  type Key = (string, string)

  /** The slot a row opens, and the count it fills if any. */
  datatype Aim = Aim(key: Key, name: string, metric: Option<Metric>)

  function OrEmpty(name: Option<string>): string {
    if name.Some? then name.value else ""
  }

  function AimOf(r: Row): Option<Aim> {
    if r.c1.None? || r.c2.None? || r.period.None? || r.item.None? then None
    else if r.c1.value == NATIONAL && r.c2.value != NATIONAL then
      Some(Aim((r.c2.value, r.period.value), OrEmpty(r.c2Name),
               if r.item.value == GROSS_FLOW then Some(InCount) else if r.item.value == NET_FLOW then Some(NetCount) else None))
    else if r.c2.value == NATIONAL && r.c1.value != NATIONAL && r.item.value == GROSS_FLOW then
      Some(Aim((r.c1.value, r.period.value), OrEmpty(r.c1Name), Some(OutCount)))
    else None
  }

  predicate Opens(r: Row, key: Key) {
    AimOf(r).Some? && AimOf(r).value.key == key
  }

  predicate Hits(r: Row, key: Key, m: Metric) {
    Opens(r, key) && AimOf(r).value.metric == Some(m)
  }

  /** A slot: the counts that are not null. */
  datatype Slot = Slot(name: string, counts: map<Metric, string>)

  datatype Record = Record(
    regionCode: string, regionName: string, year: string, month: Option<string>,
    inCount: Option<string>, outCount: Option<string>, netCount: Option<string>)

  datatype PivotError = DuplicateCount(key: Key, metric: Metric)

  function Count(counts: map<Metric, string>, m: Metric): Option<string> {
    if m in counts then Some(counts[m]) else None
  }

  function RecordOf(key: Key, slot: Slot): Record {
    Record(key.0, slot.name,
           if |key.1| >= 4 then key.1[..4] else key.1, if |key.1| >= 6 then Some(key.1[4..6]) else None,
           Count(slot.counts, InCount), Count(slot.counts, OutCount), Count(slot.counts, NetCount))
  }

  /* ---------- when the pivot raises ---------- */

  /** Row `j` aims at a count that the earlier row `i` has filled. */
  ghost predicate Clash(rows: seq<Row>, i: int, j: int, key: Key, m: Metric) {
    && 0 <= i < j < |rows| && Hits(rows[i], key, m) && Hits(rows[j], key, m) && rows[i].value.Some?
  }

  ghost predicate Clashes(rows: seq<Row>) {
    exists i, j, key, m :: Clash(rows, i, j, key, m)
  }

  /** Two rows aim at the count. */
  ghost predicate TwiceAt(rows: seq<Row>, key: Key, m: Metric) {
    exists i, j :: 0 <= i < j < |rows| && Hits(rows[i], key, m) && Hits(rows[j], key, m)
  }

  ghost predicate AimedTwice(rows: seq<Row>) {
    exists key, m :: TwiceAt(rows, key, m)
  }

  ghost predicate ValuesPresent(rows: seq<Row>) {
    forall i :: 0 <= i < |rows| ==> rows[i].value.Some?
  }

  /** With every value present the pivot clashes exactly when some count is aimed at twice. */
  lemma ClashIsAimedTwice(rows: seq<Row>)
    requires ValuesPresent(rows)
    ensures Clashes(rows) <==> AimedTwice(rows)
  {
    hide Hits;
    if i, j, key, m :| Clash(rows, i, j, key, m) {
      assert TwiceAt(rows, key, m);
    }
    if key, m :| TwiceAt(rows, key, m) {
      var i, j :| 0 <= i < j < |rows| && Hits(rows[i], key, m) && Hits(rows[j], key, m);
      assert Clash(rows, i, j, key, m);
    }
  }

  /* ---------- what the slots hold ---------- */

  /** The name a slot got from the first row that opened it. */
  function FirstName(rows: seq<Row>, key: Key): Option<string> {
    if rows == [] then None else
      var before := FirstName(rows[..|rows| - 1], key);
      if before.Some? then before
      else if Opens(rows[|rows| - 1], key) then Some(AimOf(rows[|rows| - 1]).value.name) else None
  }

  ghost function Opened(rows: seq<Row>): set<Key> {
    set r | r in rows && AimOf(r).Some? :: AimOf(r).value.key
  }

  /** The slot of `key` has its first name and, per metric, the value of the row that aims at it. */
  ghost predicate SlotRight(rows: seq<Row>, key: Key, slot: Slot) {
    && FirstName(rows, key) == Some(slot.name)
    && forall m :: CountRight(rows, key, m, Count(slot.counts, m))
  }

  ghost predicate CountRight(rows: seq<Row>, key: Key, m: Metric, count: Option<string>) {
    && (forall i :: 0 <= i < |rows| && Hits(rows[i], key, m) && rows[i].value.Some? ==> count == rows[i].value)
    && (count.Some? ==> exists i :: 0 <= i < |rows| && Hits(rows[i], key, m) && rows[i].value == count)
  }

  ghost predicate Pivoting(rows: seq<Row>, groups: map<Key, Slot>, order: seq<Key>) {
    && groups.Keys == Opened(rows) && Distinct(order) && Elements(order) == groups.Keys
    && !Clashes(rows)
    && forall key :: key in groups ==> SlotRight(rows, key, groups[key])
  }

  lemma OpenedNext(rows: seq<Row>, r: Row)
    ensures Opened(rows + [r]) == Opened(rows) + (if AimOf(r).Some? then {AimOf(r).value.key} else {})
  {
    hide AimOf;
    forall k | k in Opened(rows) ensures k in Opened(rows + [r]) {
      var q :| q in rows && AimOf(q).Some? && AimOf(q).value.key == k;
      assert q in rows + [r];
    }
    assert r in rows + [r];
  }

  lemma FirstNameNext(rows: seq<Row>, r: Row, key: Key)
    ensures FirstName(rows + [r], key) ==
            if FirstName(rows, key).Some? then FirstName(rows, key)
            else if Opens(r, key) then Some(AimOf(r).value.name) else None
  {
    assert (rows + [r])[..|rows|] == rows;
  }

  lemma {:induction false} NamedIsOpened(rows: seq<Row>, key: Key)
    ensures FirstName(rows, key).Some? <==> key in Opened(rows)
  {
    hide AimOf;
    if rows != [] {
      var n := |rows| - 1;
      assert rows == rows[..n] + [rows[n]];
      NamedIsOpened(rows[..n], key);
      OpenedNext(rows[..n], rows[n]);
      FirstNameNext(rows[..n], rows[n], key);
    }
  }

  /** No row hit this metric of this slot before, or only with a null value. */
  lemma CountNext(rows: seq<Row>, r: Row, key: Key, m: Metric, count: Option<string>)
    requires CountRight(rows, key, m, count)
    ensures !Hits(r, key, m) ==> CountRight(rows + [r], key, m, count)
    ensures Hits(r, key, m) && count.None? ==> CountRight(rows + [r], key, m, r.value)
  {
    hide Hits;
    var rows' := rows + [r];
    if !Hits(r, key, m) && count.Some? {
      var i :| 0 <= i < |rows| && Hits(rows[i], key, m) && rows[i].value == count;
      assert Hits(rows'[i], key, m) && rows'[i].value == count;
    }
    if Hits(r, key, m) && count.None? && r.value.Some? {
      assert Hits(rows'[|rows|], key, m) && rows'[|rows|].value == r.value;
    }
  }

  lemma NewSlotRight(rows: seq<Row>, r: Row, key: Key)
    requires Opens(r, key) && key !in Opened(rows)
    ensures FirstName(rows, key) == None && forall m :: CountRight(rows, key, m, None)
  {
    NamedIsOpened(rows, key);
    forall m, i | 0 <= i < |rows| ensures !Hits(rows[i], key, m) {
      assert rows[i] in rows;
    }
  }

  /* ---------- one row ---------- */

  function SlotFor(groups: map<Key, Slot>, aim: Aim): Slot {
    if aim.key in groups then groups[aim.key] else Slot(aim.name, map[])
  }

  /** The count the row aims at is already there. */
  predicate Taken(slot: Slot, aim: Aim) {
    aim.metric.Some? && aim.metric.value in slot.counts
  }

  function Filled(slot: Slot, aim: Aim, value: Option<string>): Slot {
    if aim.metric.Some? && value.Some? then slot.(counts := slot.counts[aim.metric.value := value.value]) else slot
  }

  lemma SlotForRight(rows: seq<Row>, r: Row, groups: map<Key, Slot>)
    requires AimOf(r).Some? && groups.Keys == Opened(rows)
    requires forall key :: key in groups ==> SlotRight(rows, key, groups[key])
    ensures var aim := AimOf(r).value;
            var slot := SlotFor(groups, aim);
            && FirstName(rows + [r], aim.key) == Some(slot.name)
            && forall m :: CountRight(rows, aim.key, m, Count(slot.counts, m))
  {
    hide CountRight;
    var aim := AimOf(r).value;
    FirstNameNext(rows, r, aim.key);
    if aim.key !in groups { NewSlotRight(rows, r, aim.key); }
  }

  lemma FilledCountRight(rows: seq<Row>, r: Row, slot: Slot, m: Metric)
    requires AimOf(r).Some? && !Taken(slot, AimOf(r).value)
    requires CountRight(rows, AimOf(r).value.key, m, Count(slot.counts, m))
    ensures CountRight(rows + [r], AimOf(r).value.key, m, Count(Filled(slot, AimOf(r).value, r.value).counts, m))
  {
    hide AimOf, CountRight;
    var aim, count := AimOf(r).value, Count(slot.counts, m);
    CountNext(rows, r, aim.key, m, count);
    var count' := Count(Filled(slot, aim, r.value).counts, m);
    if aim.metric == Some(m) {
      assert Hits(r, aim.key, m) && count.None?;
      assert count' == r.value;
    } else {
      assert !Hits(r, aim.key, m) && count' == count;
    }
  }

  lemma FilledRight(rows: seq<Row>, r: Row, groups: map<Key, Slot>)
    requires AimOf(r).Some? && groups.Keys == Opened(rows)
    requires forall key :: key in groups ==> SlotRight(rows, key, groups[key])
    requires !Taken(SlotFor(groups, AimOf(r).value), AimOf(r).value)
    ensures var aim := AimOf(r).value;
            SlotRight(rows + [r], aim.key, Filled(SlotFor(groups, aim), aim, r.value))
  {
    hide CountRight, FirstName, AimOf;
    var aim := AimOf(r).value;
    var slot := SlotFor(groups, aim);
    var filled := Filled(slot, aim, r.value);
    SlotForRight(rows, r, groups);
    forall m: Metric ensures CountRight(rows + [r], aim.key, m, Count(filled.counts, m)) {
      FilledCountRight(rows, r, slot, m);
    }
  }

  lemma OtherSlotRight(rows: seq<Row>, r: Row, key: Key, slot: Slot)
    requires SlotRight(rows, key, slot) && !Opens(r, key)
    ensures SlotRight(rows + [r], key, slot)
  {
    hide CountRight, FirstName, AimOf;
    FirstNameNext(rows, r, key);
    forall m ensures CountRight(rows + [r], key, m, Count(slot.counts, m)) {
      CountNext(rows, r, key, m, Count(slot.counts, m));
    }
  }

  /** Clashes of the rows with one more are those from before, and one with the new row. */
  lemma ClashNext(rows: seq<Row>, r: Row, i: int, j: int, key: Key, m: Metric)
    requires Clash(rows + [r], i, j, key, m)
    ensures || Clash(rows, i, j, key, m)
            || (j == |rows| && 0 <= i < |rows| && Hits(rows[i], key, m) && Hits(r, key, m) && rows[i].value.Some?)
  {}

  /** A row whose count is free in its slot hits no count an earlier row has filled. */
  lemma FreeMeansUnfilled(rows: seq<Row>, r: Row, groups: map<Key, Slot>, i: nat, key: Key, m: Metric)
    requires groups.Keys == Opened(rows) && forall k :: k in groups ==> SlotRight(rows, k, groups[k])
    requires AimOf(r).Some? ==> !Taken(SlotFor(groups, AimOf(r).value), AimOf(r).value)
    requires i < |rows| && Hits(rows[i], key, m) && rows[i].value.Some?
    ensures !Hits(r, key, m)
  {
    hide AimOf;
    if Opens(r, key) {
      SlotForRight(rows, r, groups);
      var slot := SlotFor(groups, AimOf(r).value);
      assert CountRight(rows, key, m, Count(slot.counts, m));
      assert m in slot.counts;
    }
  }

  /** A row that hits a count free in its slot clashes with nothing. */
  lemma NoClashNext(rows: seq<Row>, r: Row, groups: map<Key, Slot>)
    requires !Clashes(rows) && groups.Keys == Opened(rows)
    requires forall key :: key in groups ==> SlotRight(rows, key, groups[key])
    requires AimOf(r).Some? ==> !Taken(SlotFor(groups, AimOf(r).value), AimOf(r).value)
    ensures !Clashes(rows + [r])
  {
    hide AimOf, Clash, SlotRight, Hits;
    forall i, j, key, m ensures !Clash(rows + [r], i, j, key, m) {
      if Clash(rows + [r], i, j, key, m) {
        ClashNext(rows, r, i, j, key, m);
        FreeMeansUnfilled(rows, r, groups, i, key, m);
      }
    }
  }

  /** A row that hits a count taken in its slot clashes with the row that filled it. */
  lemma TakenClashes(rows: seq<Row>, r: Row, groups: map<Key, Slot>)
    requires groups.Keys == Opened(rows) && AimOf(r).Some?
    requires forall key :: key in groups ==> SlotRight(rows, key, groups[key])
    requires Taken(SlotFor(groups, AimOf(r).value), AimOf(r).value)
    ensures exists i :: Clash(rows + [r], i, |rows|, AimOf(r).value.key, AimOf(r).value.metric.value)
  {
    hide AimOf;
    var aim := AimOf(r).value;
    var m := aim.metric.value;
    SlotForRight(rows, r, groups);
    var slot := SlotFor(groups, aim);
    assert CountRight(rows, aim.key, m, Count(slot.counts, m));
    var i :| 0 <= i < |rows| && Hits(rows[i], aim.key, m) && rows[i].value == Count(slot.counts, m);
    assert Clash(rows + [r], i, |rows|, aim.key, m);
  }

  /** A row that opens nothing changes nothing. */
  lemma PivotSkips(rows: seq<Row>, r: Row, groups: map<Key, Slot>, order: seq<Key>)
    requires Pivoting(rows, groups, order) && AimOf(r).None?
    ensures Pivoting(rows + [r], groups, order)
  {
    hide AimOf, Clashes, SlotRight, Opened;
    OpenedNext(rows, r);
    NoClashNext(rows, r, groups);
    forall key | key in groups ensures SlotRight(rows + [r], key, groups[key]) { OtherSlotRight(rows, r, key, groups[key]); }
  }

  lemma PivotFills(rows: seq<Row>, r: Row, groups: map<Key, Slot>, order: seq<Key>)
    requires Pivoting(rows, groups, order) && AimOf(r).Some?
    requires !Taken(SlotFor(groups, AimOf(r).value), AimOf(r).value)
    ensures var aim := AimOf(r).value;
            Pivoting(rows + [r], groups[aim.key := Filled(SlotFor(groups, aim), aim, r.value)],
                     if aim.key in groups then order else order + [aim.key])
  {
    hide AimOf, Clashes, SlotRight, Opened, Filled, Taken;
    var aim := AimOf(r).value;
    OpenedNext(rows, r);
    if aim.key !in groups { ListedOnce(order, aim.key); }
    NoClashNext(rows, r, groups);
    FilledRight(rows, r, groups);
    forall key | key in groups && key != aim.key ensures SlotRight(rows + [r], key, groups[key]) {
      OtherSlotRight(rows, r, key, groups[key]);
    }
  }

  /* ---------- the pivot ---------- */

  ghost predicate RecordRight(rows: seq<Row>, key: Key, record: Record) {
    exists slot :: SlotRight(rows, key, slot) && record == RecordOf(key, slot)
  }

  /** One record per opened region and period, in strictly increasing order. */
  ghost predicate IsPivot(rows: seq<Row>, records: seq<Record>) {
    var keys := SortedPairs(Opened(rows));
    |records| == |keys| && forall i :: 0 <= i < |keys| ==> RecordRight(rows, keys[i], records[i])
  }

  lemma Prefix(rows: seq<Row>, n: nat, i: int, j: int, key: Key, m: Metric)
    requires n <= |rows| && Clash(rows[..n], i, j, key, m)
    ensures Clash(rows, i, j, key, m)
  {}

  lemma PivotDone(rows: seq<Row>, groups: map<Key, Slot>, order: seq<Key>)
    requires Pivoting(rows, groups, order)
    ensures Sort(PairLess, order) == SortedPairs(Opened(rows)) && !Clashes(rows)
    ensures forall key :: key in Sort(PairLess, order) ==> key in groups && RecordRight(rows, key, RecordOf(key, groups[key]))
  {
    hide SlotRight, RecordOf, Clashes;
    PairOrder();
    SortIsSortedSet(PairLess, order);
    forall key | key in Sort(PairLess, order) ensures key in groups && RecordRight(rows, key, RecordOf(key, groups[key])) {
      assert key in Elements(Sort(PairLess, order));
    }
  }

  lemma NothingPivoted()
    ensures Pivoting([], map[], [])
  {}

  /** Fills the slots row by row; raises at the first row whose count is already there. */
  method PivotToRegionRows(rows: seq<Row>) returns (r: Result<seq<Record>, PivotError>)
    ensures r.Failure? <==> Clashes(rows)
    ensures r.Failure? ==> exists i, j :: Clash(rows, i, j, r.error.key, r.error.metric)
    ensures r.Success? ==> IsPivot(rows, r.value)
  {
    hide Clash, AimOf, Pivoting, RecordOf, Filled, Opened;
    var groups: map<Key, Slot> := map[];
    var order: seq<Key> := [];
    var n := 0;
    NothingPivoted();
    assert rows[..0] == [];
    while n < |rows|
      invariant 0 <= n <= |rows|
      invariant Pivoting(rows[..n], groups, order)
    {
      var row := rows[n];
      assert rows[..n + 1] == rows[..n] + [row];
      var aim := AimOf(row);
      if aim.None? {
        PivotSkips(rows[..n], row, groups, order);
        n := n + 1;
        continue;
      }
      var slot := SlotFor(groups, aim.value);
      if Taken(slot, aim.value) {
        RaiseIsClash(rows, n, groups, order);
        return Failure(DuplicateCount(aim.value.key, aim.value.metric.value));
      }
      PivotFills(rows[..n], row, groups, order);
      order := if aim.value.key in groups then order else order + [aim.value.key];
      groups := groups[aim.value.key := Filled(slot, aim.value, row.value)];
      n := n + 1;
    }
    assert rows[..|rows|] == rows;
    PivotDone(rows, groups, order);
    var keys := Sort(PairLess, order);
    r := Success(seq(|keys|, i requires 0 <= i < |keys| => RecordOf(keys[i], groups[keys[i]])));
  }

  lemma RaiseIsClash(rows: seq<Row>, n: nat, groups: map<Key, Slot>, order: seq<Key>)
    requires n < |rows| && Pivoting(rows[..n], groups, order) && AimOf(rows[n]).Some?
    requires Taken(SlotFor(groups, AimOf(rows[n]).value), AimOf(rows[n]).value)
    ensures exists i :: Clash(rows, i, n, AimOf(rows[n]).value.key, AimOf(rows[n]).value.metric.value)
  {
    hide AimOf, Clash;
    var aim := AimOf(rows[n]).value;
    TakenClashes(rows[..n], rows[n], groups);
    assert rows[..n + 1] == rows[..n] + [rows[n]];
    var i :| Clash(rows[..n + 1], i, |rows[..n]|, aim.key, aim.metric.value);
    Prefix(rows, n + 1, i, n, aim.key, aim.metric.value);
  }

  /* ---------- where the counts of the records come from ---------- */

  function CountOf(record: Record, m: Metric): Option<string> {
    match m
    case InCount => record.inCount
    case OutCount => record.outCount
    case NetCount => record.netCount
  }

  /** Row `k` aims at the count with a value. */
  ghost predicate Fills(rows: seq<Row>, k: int, key: Key, m: Metric) {
    0 <= k < |rows| && Hits(rows[k], key, m) && rows[k].value.Some?
  }

  /**
   A count of a record is present exactly when a row fills it, and is that row's value.
   If the pivot does not raise, every other row that aims at it comes before and is null;
   in a complete matrix there is no other.
   */
  lemma CountFromItsRow(rows: seq<Row>, records: seq<Record>, i: nat, m: Metric)
    requires IsPivot(rows, records) && i < |records|
    ensures var key := SortedPairs(Opened(rows))[i];
            && records[i].regionCode == key.0
            && (CountOf(records[i], m).Some? <==> exists k :: Fills(rows, k, key, m))
            && (forall k :: Fills(rows, k, key, m) ==> CountOf(records[i], m) == rows[k].value)
            && (!Clashes(rows) ==>
                  forall k, l :: Fills(rows, k, key, m) && 0 <= l < |rows| && Hits(rows[l], key, m) && k != l ==>
                    l < k && rows[l].value.None?)
            && (!Clashes(rows) && ValuesPresent(rows) ==>
                  forall k, l :: Fills(rows, k, key, m) && 0 <= l < |rows| && Hits(rows[l], key, m) ==> k == l)
  {
    hide Hits, Opened, FirstName, Clashes;
    var key := SortedPairs(Opened(rows))[i];
    assert RecordRight(rows, key, records[i]);
    var slot :| SlotRight(rows, key, slot) && records[i] == RecordOf(key, slot);
    assert CountRight(rows, key, m, Count(slot.counts, m));
    if CountOf(records[i], m).Some? {
      var k :| 0 <= k < |rows| && Hits(rows[k], key, m) && rows[k].value == CountOf(records[i], m);
      assert Fills(rows, k, key, m);
    }
    if !Clashes(rows) {
      forall k, l | Fills(rows, k, key, m) && 0 <= l < |rows| && Hits(rows[l], key, m) && k != l
        ensures l < k && rows[l].value.None?
      {
        NoOtherFills(rows, k, l, key, m);
      }
    }
  }

  lemma NoOtherFills(rows: seq<Row>, k: int, l: int, key: Key, m: Metric)
    requires !Clashes(rows) && Fills(rows, k, key, m) && 0 <= l < |rows| && Hits(rows[l], key, m) && k != l
    ensures l < k && rows[l].value.None?
  {
    hide Hits;
    assert !Clash(rows, k, l, key, m) && !Clash(rows, l, k, key, m);
  }
}
