/** The pivot cell by cell: which rows open a region's record, which fill its counts, and what the record says. */
module PivotExact {
  import opened Wrappers
  import opened Ordering
  import opened KostatPivot

  /** A row about people moving between the nation and a region in a period. */
  ghost predicate Into(r: Row, key: Key) {
    r.c1 == Some("00") && r.c2 == Some(key.0) && key.0 != "00" && r.period == Some(key.1) && r.item.Some?
  }

  ghost predicate OutOf(r: Row, key: Key) {
    r.c2 == Some("00") && r.c1 == Some(key.0) && key.0 != "00" && r.period == Some(key.1) && r.item.Some?
  }

  /** Moves from the nation into the region count as arrivals (T70) or net moves (T80), moves out of it as departures (T70). */
  ghost predicate CountsAs(r: Row, key: Key, m: Metric) {
    match m
    case InCount => Into(r, key) && r.item == Some("T70")
    case NetCount => Into(r, key) && r.item == Some("T80")
    case OutCount => OutOf(r, key) && r.item == Some("T70")
  }

  lemma HitsExactly(r: Row, key: Key, m: Metric)
    ensures Hits(r, key, m) <==> CountsAs(r, key, m)
  {}

  /** Every row into a region opens its record; of those out of it only the T70 rows do. */
  ghost predicate OpensRecord(r: Row, key: Key) {
    Into(r, key) || (OutOf(r, key) && r.item == Some("T70"))
  }

  ghost predicate NameGiven(r: Row, key: Key, name: string) {
    var given := if Into(r, key) then r.c2Name else r.c1Name;
    name == if given.Some? then given.value else ""
  }

  lemma OpensExactly(r: Row, key: Key)
    ensures Opens(r, key) <==> OpensRecord(r, key)
    ensures Opens(r, key) ==> NameGiven(r, key, AimOf(r).value.name)
  {}

  /** The k-th row is the first that opens the record. */
  ghost predicate FirstOpens(rows: seq<Row>, key: Key, k: nat) {
    k < |rows| && OpensRecord(rows[k], key) && forall j :: 0 <= j < k ==> !OpensRecord(rows[j], key)
  }

  lemma {:induction false} NameFirst(rows: seq<Row>, key: Key) returns (k: nat)
    requires FirstName(rows, key).Some?
    ensures FirstOpens(rows, key, k) && NameGiven(rows[k], key, FirstName(rows, key).value)
  {
    hide AimOf, Opens, OpensRecord, NameGiven;
    var n := |rows| - 1;
    SplitLast(rows);
    FirstNameNext(rows[..n], rows[n], key);
    if FirstName(rows[..n], key).Some? {
      k := NameFirst(rows[..n], key);
    } else {
      OpensExactly(rows[n], key);
      NeverOpened(rows[..n], key);
      k := n;
    }
  }

  lemma {:induction false} NeverOpened(rows: seq<Row>, key: Key)
    requires FirstName(rows, key).None?
    ensures forall j :: 0 <= j < |rows| ==> !OpensRecord(rows[j], key)
  {
    hide AimOf, Opens, OpensRecord;
    if rows != [] {
      var n := |rows| - 1;
      SplitLast(rows);
      FirstNameNext(rows[..n], rows[n], key);
      OpensExactly(rows[n], key);
      NeverOpened(rows[..n], key);
    }
  }

  /** The records stand for the regions and periods that some row opens, in order. */
  lemma OpenedExactly(rows: seq<Row>, key: Key)
    ensures key in SortedPairs(Opened(rows)) <==> exists k :: 0 <= k < |rows| && OpensRecord(rows[k], key)
  {
    hide AimOf, OpensRecord;
    SortedPairsIn(Opened(rows));
    if key in Opened(rows) {
      var r :| r in rows && AimOf(r).Some? && AimOf(r).value.key == key;
      OpensExactly(r, key);
    }
    if k :| 0 <= k < |rows| && OpensRecord(rows[k], key) {
      OpensExactly(rows[k], key);
      assert rows[k] in rows;
    }
  }

  /** The records come by region, then by period, and no two stand for one region and period. */
  lemma RecordsInOrder(rows: seq<Row>, i: nat, j: nat)
    requires i < j < |SortedPairs(Opened(rows))|
    ensures var a, b := SortedPairs(Opened(rows))[i], SortedPairs(Opened(rows))[j];
            Less(a.0, b.0) || (a.0 == b.0 && Less(a.1, b.1))
  {
    hide Opened, Less;
    assert PairLess(SortedPairs(Opened(rows))[i], SortedPairs(Opened(rows))[j]);
  }

  /** Year and month are the first four characters of a period and the two after them, as far as there are any. */
  ghost predicate DatedBy(record: Record, period: string) {
    && (if |period| < 4 then record.year == period else |record.year| == 4 && exists rest :: period == record.year + rest)
    && (record.month.Some? <==> |period| >= 6)
    && (record.month.Some? ==> |record.month.value| == 2 && exists rest :: period == record.year + record.month.value + rest)
  }

  lemma DatedExactly(key: Key, slot: Slot)
    ensures DatedBy(RecordOf(key, slot), key.1)
  {
    var period := key.1;
    if |period| >= 4 { assert period == period[..4] + period[4..]; }
    if |period| >= 6 { assert period == period[..4] + period[4..6] + period[6..]; }
  }

  /** What a count of a record says: the value of the row that counts as it, if any has one. */
  ghost predicate CountIs(rows: seq<Row>, key: Key, m: Metric, count: Option<string>) {
    if count.Some? then exists k :: 0 <= k < |rows| && CountsAs(rows[k], key, m) && rows[k].value == count
    else forall k :: 0 <= k < |rows| && CountsAs(rows[k], key, m) ==> rows[k].value.None?
  }

  lemma CountExactly(rows: seq<Row>, key: Key, m: Metric, count: Option<string>)
    requires CountRight(rows, key, m, count)
    ensures CountIs(rows, key, m, count)
  {
    hide Hits, CountsAs;
    forall k | 0 <= k < |rows| ensures Hits(rows[k], key, m) <==> CountsAs(rows[k], key, m) { HitsExactly(rows[k], key, m); }
  }

  /** The i-th record: its region, its name from the first row that opens it, its year and month, and its counts. */
  lemma RecordExactly(rows: seq<Row>, records: seq<Record>, i: nat) returns (k: nat)
    requires IsPivot(rows, records) && i < |records|
    ensures i < |SortedPairs(Opened(rows))|
    ensures var key, record := SortedPairs(Opened(rows))[i], records[i];
            && record.regionCode == key.0 && DatedBy(record, key.1)
            && FirstOpens(rows, key, k) && NameGiven(rows[k], key, record.regionName)
            && CountIs(rows, key, InCount, record.inCount) && CountIs(rows, key, OutCount, record.outCount)
            && CountIs(rows, key, NetCount, record.netCount)
  {
    hide Opened, FirstName, FirstOpens, NameGiven, CountRight, CountIs, DatedBy;
    var key := SortedPairs(Opened(rows))[i];
    assert RecordRight(rows, key, records[i]);
    var slot :| SlotRight(rows, key, slot) && records[i] == RecordOf(key, slot);
    DatedExactly(key, slot);
    k := NameFirst(rows, key);
    CountExactly(rows, key, InCount, Count(slot.counts, InCount));
    CountExactly(rows, key, OutCount, Count(slot.counts, OutCount));
    CountExactly(rows, key, NetCount, Count(slot.counts, NetCount));
  }
}
