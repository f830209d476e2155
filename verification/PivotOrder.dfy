/** How the pivot depends on the order of the matrix rows: what it returns, and whether it raises. */
module PivotOrder {
  import opened Wrappers
  import opened Ordering
  import opened KostatPivot

  /* ---------- the records ---------- */

  /** Every region has one name. */
  ghost predicate OneName(rows: seq<Row>) {
    forall a, b, key :: a in rows && b in rows && Opens(a, key) && Opens(b, key) ==> AimOf(a).value.name == AimOf(b).value.name
  }

  lemma {:induction false} NameFromRow(rows: seq<Row>, key: Key)
    requires FirstName(rows, key).Some?
    ensures exists r :: r in rows && Opens(r, key) && FirstName(rows, key) == Some(AimOf(r).value.name)
  {
    hide AimOf;
    var n := |rows| - 1;
    assert rows == rows[..n] + [rows[n]];
    FirstNameNext(rows[..n], rows[n], key);
    if FirstName(rows[..n], key).Some? {
      NameFromRow(rows[..n], key);
      var r :| r in rows[..n] && Opens(r, key) && FirstName(rows[..n], key) == Some(AimOf(r).value.name);
      assert r in rows;
    }
  }

  lemma SameName(rows: seq<Row>, rows': seq<Row>, key: Key)
    requires OneName(rows) && (forall r :: r in rows <==> r in rows')
    requires FirstName(rows, key).Some? && FirstName(rows', key).Some?
    ensures FirstName(rows, key) == FirstName(rows', key)
  {
    hide AimOf, Opens;
    NameFromRow(rows, key);
    NameFromRow(rows', key);
  }

  lemma SameCount(rows: seq<Row>, rows': seq<Row>, key: Key, m: Metric, count: Option<string>, count': Option<string>)
    requires (forall r :: r in rows <==> r in rows') && CountRight(rows, key, m, count) && CountRight(rows', key, m, count')
    ensures count == count'
  {
    hide Hits;
    if count.Some? {
      var i :| 0 <= i < |rows| && Hits(rows[i], key, m) && rows[i].value == count;
      assert rows[i] in rows';
    }
    if count'.Some? {
      var i :| 0 <= i < |rows'| && Hits(rows'[i], key, m) && rows'[i].value == count';
      assert rows'[i] in rows;
    }
  }

  lemma SameRecord(rows: seq<Row>, rows': seq<Row>, key: Key, a: Record, b: Record)
    requires OneName(rows) && (forall r :: r in rows <==> r in rows') && RecordRight(rows, key, a) && RecordRight(rows', key, b)
    ensures a == b
  {
    hide CountRight, FirstName, OneName;
    var s :| SlotRight(rows, key, s) && a == RecordOf(key, s);
    var t :| SlotRight(rows', key, t) && b == RecordOf(key, t);
    SameName(rows, rows', key);
    forall m ensures Count(s.counts, m) == Count(t.counts, m) {
      SameCount(rows, rows', key, m, Count(s.counts, m), Count(t.counts, m));
    }
  }

  lemma SameOpened(rows: seq<Row>, rows': seq<Row>)
    requires forall r :: r in rows <==> r in rows'
    ensures Opened(rows) == Opened(rows')
  {
    hide AimOf;
    forall k | k in Opened(rows) ensures k in Opened(rows') {
      var r :| r in rows && AimOf(r).Some? && AimOf(r).value.key == k;
      assert r in rows';
    }
    forall k | k in Opened(rows') ensures k in Opened(rows) {
      var r :| r in rows' && AimOf(r).Some? && AimOf(r).value.key == k;
      assert r in rows;
    }
  }

  /** With one name per region, the same matrix rows in another order give the same records. */
  lemma RowOrderIrrelevant(rows: seq<Row>, rows': seq<Row>, records: seq<Record>, records': seq<Record>)
    requires OneName(rows) && (forall r :: r in rows <==> r in rows') && IsPivot(rows, records) && IsPivot(rows', records')
    ensures records == records'
  {
    hide OneName, RecordRight, Opened;
    SameOpened(rows, rows');
    var keys := SortedPairs(Opened(rows));
    forall i | 0 <= i < |keys| ensures records[i] == records'[i] {
      SameRecord(rows, rows', keys[i], records[i], records'[i]);
    }
  }

  /* ---------- whether it raises ---------- */

  /** Two rows with values aim at the same count. */
  ghost predicate FilledTwice(rows: seq<Row>) {
    exists i, j, key, m :: i < j && Fills(rows, i, key, m) && Fills(rows, j, key, m)
  }

  /** A row with a value and another row aim at the same count. */
  ghost predicate FilledAndAimed(rows: seq<Row>) {
    exists i, j, key, m :: i != j && Fills(rows, i, key, m) && AimsAt(rows, j, key, m)
  }

  ghost predicate AimsAt(rows: seq<Row>, j: int, key: Key, m: Metric) {
    0 <= j < |rows| && Hits(rows[j], key, m)
  }

  /** The same rows in another order. */
  ghost predicate Reordered(rows: seq<Row>, rows': seq<Row>) {
    multiset(rows) == multiset(rows')
  }

  lemma StillThere<T>(xs: seq<T>, i: nat, j: nat)
    requires i < |xs| && j < |xs| && i != j
    ensures xs[j] in xs[..i] + xs[i + 1..]
  {
    assert xs[j] == (xs[..i] + xs[i + 1..])[if j < i then j else j - 1];
  }

  lemma FoundElsewhere<T>(ys: seq<T>, i: nat, y: T) returns (j: nat)
    requires i < |ys| && y in ys[..i] + ys[i + 1..]
    ensures j < |ys| && j != i && ys[j] == y
  {
    var rest := ys[..i] + ys[i + 1..];
    var k :| 0 <= k < |rest| && rest[k] == y;
    j := if k < i then k else k + 1;
  }

  /** Two positions of a sequence have counterparts in every reordering. */
  lemma PairMoves<T>(xs: seq<T>, ys: seq<T>, i: nat, j: nat) returns (i': nat, j': nat)
    requires multiset(xs) == multiset(ys) && i < |xs| && j < |xs| && i != j
    ensures i' < |ys| && j' < |ys| && i' != j' && ys[i'] == xs[i] && ys[j'] == xs[j]
  {
    SameElements(xs, ys);
    assert xs[i] in Elements(ys);
    i' :| 0 <= i' < |ys| && ys[i'] == xs[i];
    StillThere(xs, i, j);
    SameRest(xs, i, ys, i', xs[j]);
    j' := FoundElsewhere(ys, i', xs[j]);
  }

  /** What is left beside an element of a sequence is left beside its counterpart in a reordering. */
  lemma SameRest<T>(xs: seq<T>, i: nat, ys: seq<T>, j: nat, x: T)
    requires multiset(xs) == multiset(ys) && i < |xs| && j < |ys| && xs[i] == ys[j]
    requires x in xs[..i] + xs[i + 1..]
    ensures x in ys[..j] + ys[j + 1..]
  {
    Without(xs, i);
    Without(ys, j);
    SameElements(xs[..i] + xs[i + 1..], ys[..j] + ys[j + 1..]);
    assert x in Elements(ys[..j] + ys[j + 1..]);
  }

  lemma FilledTwiceMoves(rows: seq<Row>, rows': seq<Row>)
    requires FilledTwice(rows) && Reordered(rows, rows')
    ensures FilledTwice(rows')
  {
    hide Hits;
    var i, j, key, m :| i < j && Fills(rows, i, key, m) && Fills(rows, j, key, m);
    var i', j' := PairMoves(rows, rows', i, j);
    assert Fills(rows', i', key, m) && Fills(rows', j', key, m);
  }

  lemma FilledAndAimedMoves(rows: seq<Row>, rows': seq<Row>)
    requires FilledAndAimed(rows) && Reordered(rows, rows')
    ensures FilledAndAimed(rows')
  {
    hide Hits;
    var i, j, key, m :| i != j && Fills(rows, i, key, m) && AimsAt(rows, j, key, m);
    var i', j' := PairMoves(rows, rows', i, j);
    assert Fills(rows', i', key, m) && AimsAt(rows', j', key, m);
  }

  lemma AimedTwiceMoves(rows: seq<Row>, rows': seq<Row>)
    requires AimedTwice(rows) && Reordered(rows, rows')
    ensures AimedTwice(rows')
  {
    hide Hits;
    var key, m :| TwiceAt(rows, key, m);
    var i, j :| 0 <= i < j < |rows| && Hits(rows[i], key, m) && Hits(rows[j], key, m);
    var i', j' := PairMoves(rows, rows', i, j);
    assert Hits(rows'[i'], key, m) && Hits(rows'[j'], key, m);
    assert TwiceAt(rows', key, m);
  }

  /** What raises lies between two values for one count and one value among two rows for it. */
  lemma ClashBetween(rows: seq<Row>)
    ensures FilledTwice(rows) ==> Clashes(rows)
    ensures Clashes(rows) ==> FilledAndAimed(rows)
    ensures FilledAndAimed(rows) ==> AimedTwice(rows)
  {
    hide Hits;
    if FilledTwice(rows) {
      var i, j, key, m :| i < j && Fills(rows, i, key, m) && Fills(rows, j, key, m);
      assert Clash(rows, i, j, key, m);
    }
    if i, j, key, m :| Clash(rows, i, j, key, m) {
      assert Fills(rows, i, key, m) && AimsAt(rows, j, key, m);
    }
    if FilledAndAimed(rows) {
      var i, j, key, m :| i != j && Fills(rows, i, key, m) && AimsAt(rows, j, key, m);
      assert TwiceAt(rows, key, m);
    }
  }

  /** The rows with (without) a value, in their order. */
  function Valued(rows: seq<Row>, present: bool): seq<Row> {
    if rows == [] then [] else (if rows[0].value.Some? == present then [rows[0]] else []) + Valued(rows[1..], present)
  }

  lemma {:induction false} ValuedOnly(rows: seq<Row>, present: bool)
    ensures forall k :: 0 <= k < |Valued(rows, present)| ==> Valued(rows, present)[k].value.Some? == present
  {
    if rows != [] { ValuedOnly(rows[1..], present); }
  }

  lemma {:induction false} ValuedAll(rows: seq<Row>)
    ensures multiset(Valued(rows, true)) + multiset(Valued(rows, false)) == multiset(rows)
  {
    if rows != [] {
      ValuedAll(rows[1..]);
      assert rows == [rows[0]] + rows[1..];
    }
  }

  ghost function NullsFirst(rows: seq<Row>): seq<Row> { Valued(rows, false) + Valued(rows, true) }

  ghost function ValuesFirst(rows: seq<Row>): seq<Row> { Valued(rows, true) + Valued(rows, false) }

  /** With the nulls first, the pivot raises exactly when some count has two values. */
  lemma NullsFirstRaises(rows: seq<Row>)
    ensures Reordered(rows, NullsFirst(rows)) && (Clashes(NullsFirst(rows)) <==> FilledTwice(rows))
  {
    hide Hits, Valued, FilledTwice;
    var listed := NullsFirst(rows);
    ValuedAll(rows);
    ValuedOnly(rows, false);
    ValuedOnly(rows, true);
    if i, j, key, m :| Clash(listed, i, j, key, m) {
      LaterHasValue(listed, |Valued(rows, false)|, i, j, key, m);
      FilledTwiceMoves(listed, rows);
    }
    if FilledTwice(rows) {
      FilledTwiceMoves(rows, listed);
      ClashBetween(listed);
    }
  }

  lemma LaterHasValue(listed: seq<Row>, n: nat, i: int, j: int, key: Key, m: Metric)
    requires n <= |listed| && (forall k :: 0 <= k < |listed| ==> (listed[k].value.Some? <==> k >= n))
    requires Clash(listed, i, j, key, m)
    ensures FilledTwice(listed)
  {
    hide Hits;
    assert Fills(listed, i, key, m) && Fills(listed, j, key, m);
  }

  /** With the values first, it raises exactly when some count has a value and another row. */
  lemma ValuesFirstRaises(rows: seq<Row>)
    ensures Reordered(rows, ValuesFirst(rows)) && (Clashes(ValuesFirst(rows)) <==> FilledAndAimed(rows))
  {
    hide Hits, Valued, FilledAndAimed;
    var listed := ValuesFirst(rows);
    ValuedAll(rows);
    ValuedOnly(rows, false);
    ValuedOnly(rows, true);
    ClashBetween(listed);
    if Clashes(listed) { FilledAndAimedMoves(listed, rows); }
    if FilledAndAimed(rows) {
      FilledAndAimedMoves(rows, listed);
      FilledComesFirst(listed, |Valued(rows, true)|);
    }
  }

  lemma FilledComesFirst(listed: seq<Row>, n: nat)
    requires n <= |listed| && (forall k :: 0 <= k < |listed| ==> (listed[k].value.Some? <==> k < n))
    requires FilledAndAimed(listed)
    ensures Clashes(listed)
  {
    hide Hits;
    var i, j, key, m :| i != j && Fills(listed, i, key, m) && AimsAt(listed, j, key, m);
    assert if i < j then Clash(listed, i, j, key, m) else Clash(listed, j, i, key, m);
  }

  /** The pivot raises in every order of the rows exactly when some count has two values. */
  lemma RaisesInEveryOrder(rows: seq<Row>)
    ensures (forall rows' :: Reordered(rows, rows') ==> Clashes(rows')) <==> FilledTwice(rows)
  {
    hide FilledTwice, Clashes;
    NullsFirstRaises(rows);
    forall rows' | Reordered(rows, rows') && FilledTwice(rows) ensures Clashes(rows') {
      FilledTwiceMoves(rows, rows');
      ClashBetween(rows');
    }
  }

  /** It raises in no order exactly when no count has both a value and another row. */
  lemma RaisesInNoOrder(rows: seq<Row>)
    ensures (forall rows' :: Reordered(rows, rows') ==> !Clashes(rows')) <==> !FilledAndAimed(rows)
  {
    hide FilledAndAimed, Clashes;
    ValuesFirstRaises(rows);
    forall rows' | Reordered(rows, rows') && !FilledAndAimed(rows) ensures !Clashes(rows') {
      ClashBetween(rows');
      if Clashes(rows') { FilledAndAimedMoves(rows', rows); }
    }
  }

  /** All orders agree on raising exactly when some count has two values, or none has both a value and another row. */
  lemma RaisingOrderIrrelevant(rows: seq<Row>)
    ensures (forall rows' :: Reordered(rows, rows') ==> (Clashes(rows') <==> Clashes(rows))) <==>
            FilledTwice(rows) || !FilledAndAimed(rows)
  {
    hide FilledTwice, FilledAndAimed, Clashes;
    RaisesInEveryOrder(rows);
    RaisesInNoOrder(rows);
    assert Reordered(rows, rows);
  }

  /** In a complete matrix all orders agree. */
  lemma CompleteAgree(rows: seq<Row>)
    requires ValuesPresent(rows)
    ensures FilledTwice(rows) || !FilledAndAimed(rows)
  {
    hide Hits;
    if i, j, key, m :| i != j && Fills(rows, i, key, m) && AimsAt(rows, j, key, m) {
      assert Fills(rows, j, key, m);
      var first, second := if i < j then i else j, if i < j then j else i;
      assert Fills(rows, first, key, m) && Fills(rows, second, key, m);
    }
  }

  /**
   The promise to raise when a count is filled twice, read as two rows for one count: it
   is kept in every order exactly when two rows for one count come with two values for one.
   */
  lemma PromiseInEveryOrder(rows: seq<Row>)
    ensures (forall rows' :: Reordered(rows, rows') ==> (Clashes(rows') <==> AimedTwice(rows'))) <==>
            (AimedTwice(rows) ==> FilledTwice(rows))
  {
    hide FilledTwice, FilledAndAimed, Clashes, AimedTwice;
    NullsFirstRaises(rows);
    if AimedTwice(rows) { AimedTwiceMoves(rows, NullsFirst(rows)); }
    forall rows' | Reordered(rows, rows') && (AimedTwice(rows) ==> FilledTwice(rows))
      ensures Clashes(rows') <==> AimedTwice(rows')
    {
      ClashBetween(rows');
      if AimedTwice(rows') {
        AimedTwiceMoves(rows', rows);
        FilledTwiceMoves(rows, rows');
      }
    }
  }

  /** A matrix row on the inflow of one region in one month. */
  function Inflow(value: Option<string>): Row {
    Row(Some(NATIONAL), Some("11"), None, None, Some("202401"), Some(GROSS_FLOW), value)
  }

  /** Two rows for one count, one of them null, raise in one order and not in the other. */
  lemma OrderWitness()
    ensures Clashes([Inflow(Some("5")), Inflow(None)]) && !Clashes([Inflow(None), Inflow(Some("5"))])
  {
    var five, blank := Inflow(Some("5")), Inflow(None);
    assert Hits(five, ("11", "202401"), InCount) && Hits(blank, ("11", "202401"), InCount);
    assert Clash([five, blank], 0, 1, ("11", "202401"), InCount);
  }
}
