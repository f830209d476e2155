/** Snapshot ids: the text that is hashed, and why it determines the tables it was made from. */
module SnapshotId {
  import opened Wrappers
  import opened Ordering

  /** Table hashes by table name. */
  type Tables = map<string, string>

  predicate Hex(c: char) { '0' <= c <= '9' || 'a' <= c <= 'f' }

  /** A lowercase SHA-256 digest. */
  predicate IsDigest(h: string) {
    |h| == 64 && forall i :: 0 <= i < |h| ==> Hex(h[i])
  }

  /** A digest is 64 of the sixteen hexadecimal digits. */
  lemma DigestExactly(h: string)
    ensures IsDigest(h) <==> |h| == 64 && forall i :: 0 <= i < |h| ==> h[i] in "0123456789abcdef"
  {
    forall i | 0 <= i < |h| ensures Hex(h[i]) <==> h[i] in "0123456789abcdef" { HexDigit(h[i]); }
  }

  lemma HexDigit(c: char)
    ensures Hex(c) <==> c in "0123456789abcdef"
  {
    var digits := "0123456789abcdef";
    if '0' <= c <= '9' { assert digits[(c - '0') as int] == c; }
    if 'a' <= c <= 'f' { assert digits[10 + (c - 'a') as int] == c; }
  }

  ghost predicate ValidTables(t: Tables) {
    forall name :: name in t ==> IsDigest(t[name])
  }

  ghost predicate ColonFree(t: Tables) {
    forall name :: name in t ==> ':' !in name
  }

  /** `f"{name}:{hash}"`, and what follows. */
  function Item(name: string, hash: string, rest: string): string {
    name + ":" + (hash + rest)
  }

  /** `"".join(f"{table_name}:{table_hash}" ...)` */
  function Joined(names: seq<string>, t: Tables): string
    requires forall name :: name in names ==> name in t
  {
    if names == [] then "" else Item(names[0], t[names[0]], Joined(names[1..], t))
  }

  /** What is hashed: the tables' `name:hash` in name order. */
  ghost function Preimage(t: Tables): string {
    SortedIdsIn(t.Keys);
    Joined(SortedIds(t.Keys), t)
  }

  /** The text made from a dictionary whose keys were inserted in the order `names`. */
  function PreimageOf(names: seq<string>, t: Tables): string
    requires forall name :: name in Sort(Less, names) ==> name in t
  {
    Joined(Sort(Less, names), t)
  }

  /** The insertion order of the dictionary does not matter. */
  lemma InsertionOrderIrrelevant(names: seq<string>, t: Tables)
    requires Distinct(names) && Elements(names) == t.Keys
    ensures forall name :: name in Sort(Less, names) ==> name in t
    ensures PreimageOf(names, t) == Preimage(t)
  {
    StringOrder();
    SortIsSortedSet(Less, names);
    SortedIdsIn(t.Keys);
  }

  lemma ListedFrom(xs: seq<string>, t: Tables, t': Tables)
    requires (forall x :: x in xs ==> x in t) && (forall x :: x in xs ==> x in t' && t'[x] == t[x])
    ensures Joined(xs, t) == Joined(xs, t')
  {}

  lemma LeastFirst(s: set<string>, x: string)
    requires x in s && forall y :: y in s && y != x ==> Less(x, y)
    ensures SortedIds(s) == [x] + SortedIds(s - {x})
  {
    hide Less;
    StringOrder();
    SortedIdsIn(s);
    SortedIdsIn(s - {x});
    var xs := [x] + SortedIds(s - {x});
    assert Elements(xs) == s by {
      forall y ensures y in xs <==> y in s { assert y in SortedIds(s - {x}) <==> y in Elements(SortedIds(s - {x})); }
    }
    StrictCons(Less, x, SortedIds(s - {x}));
    SortedUnique(Less, SortedIds(s), xs);
  }

  lemma JoinedFirst(name: string, rest: seq<string>, t: Tables)
    requires forall x :: x in [name] + rest ==> x in t
    ensures name in t && (forall x :: x in rest ==> x in t)
    ensures Joined([name] + rest, t) == name + ":" + t[name] + Joined(rest, t)
  {
    assert name in [name] + rest && (forall x :: x in rest ==> x in [name] + rest) && ([name] + rest)[1..] == rest;
    var text := Joined(rest, t);
    assert name + ":" + (t[name] + text) == name + ":" + t[name] + text;
  }

  lemma NoText()
    ensures Preimage(map[]) == ""
  {
    var nothing: Tables := map[];
    assert nothing.Keys == {} && SortedIds({}) == [] by { EmptyTogether(SortedIds({}), []); }
  }

  /** The hashed text: the name that comes first, a colon, its hash, and the text of the other tables. */
  lemma TextExactly(t: Tables, name: string)
    requires name in t && forall other :: other in t && other != name ==> Less(name, other)
    ensures Preimage(t) == name + ":" + t[name] + Preimage(t - {name}) && Preimage(map[]) == ""
  {
    hide Less, Joined, SortedIds;
    NoText();
    LeastFirst(t.Keys, name);
    SortedIdsIn(t.Keys);
    SortedIdsIn(t.Keys - {name});
    var others := t - {name};
    assert others.Keys == t.Keys - {name};
    ListedFrom(SortedIds(others.Keys), t, others);
    JoinedFirst(name, SortedIds(others.Keys), t);
  }

  /* ---------- decoding ---------- */

  /** Cuts the text at the first colon and 64 characters after it, as long as there is any. */
  function Decode(s: string): Option<seq<(string, string)>>
    decreases |s|
  {
    if s == "" then Some([]) else
      var i := First(s, ':');
      if i + 65 > |s| then None else
        var rest := Decode(s[i + 65..]);
        if rest.None? then None else Some([(s[..i], s[i + 1..i + 65])] + rest.value)
  }

  function Items(names: seq<string>, t: Tables): seq<(string, string)>
    requires forall name :: name in names ==> name in t
  {
    seq(|names|, i requires 0 <= i < |names| => (names[i], t[names[i]]))
  }

  /** Cutting `name:hash` off the front of a text. */
  lemma CutItem(name: string, hash: string, rest: string)
    requires ':' !in name && |hash| == 64
    ensures var s := name + ":" + (hash + rest);
            && First(s, ':') == |name| && |name| + 65 <= |s|
            && s[..|name|] == name && s[|name| + 1..|name| + 65] == hash && s[|name| + 65..] == rest
  {
    FirstAfter(name, ':', hash + rest);
  }

  /** Decoding the hashed text gives back its items. */
  lemma {:induction false} DecodeJoined(names: seq<string>, t: Tables)
    requires ValidTables(t) && ColonFree(t) && forall name :: name in names ==> name in t
    ensures Decode(Joined(names, t)) == Some(Items(names, t))
  {
    if names != [] {
      DecodeJoined(names[1..], t);
      CutItem(names[0], t[names[0]], Joined(names[1..], t));
      assert Items(names, t) == [(names[0], t[names[0]])] + Items(names[1..], t);
    }
  }

  lemma ItemsDetermine(names: seq<string>, t: Tables, names': seq<string>, t': Tables)
    requires Elements(names) == t.Keys && Elements(names') == t'.Keys
    requires forall name :: name in names ==> name in t
    requires forall name :: name in names' ==> name in t'
    requires Items(names, t) == Items(names', t')
    ensures t == t'
  {
    assert |names| == |Items(names, t)| && |names'| == |Items(names', t')|;
    forall i | 0 <= i < |names| ensures names[i] == names'[i] && t[names[i]] == t'[names'[i]] {
      assert Items(names, t)[i] == Items(names', t')[i];
    }
    assert names == names';
    forall name | name in t ensures t[name] == t'[name] {
      assert name in Elements(names);
    }
  }

  /** Equal hashed texts come from equal tables, when no table name contains a colon. */
  lemma PreimageInjective(t: Tables, t': Tables)
    requires ValidTables(t) && ColonFree(t) && ValidTables(t') && ColonFree(t')
    ensures Preimage(t) == Preimage(t') <==> t == t'
  {
    if Preimage(t) == Preimage(t') {
      SortedIdsIn(t.Keys);
      SortedIdsIn(t'.Keys);
      DecodeJoined(SortedIds(t.Keys), t);
      DecodeJoined(SortedIds(t'.Keys), t');
      ItemsDetermine(SortedIds(t.Keys), t, SortedIds(t'.Keys), t');
    }
  }

  lemma JoinedOne(name: string, t: Tables)
    requires name in t
    ensures Joined([name], t) == name + ":" + t[name]
  {
    assert t[name] + "" == t[name];
  }

  lemma SortedIs(names: seq<string>, t: Tables)
    requires StrictlySorted(Less, names) && Elements(names) == t.Keys
    ensures SortedIds(t.Keys) == names
  {
    StringOrder();
    SortedUnique(Less, names, SortedIds(t.Keys));
  }

  lemma OneTable(name: string, hash: string)
    ensures Preimage(map[name := hash]) == name + ":" + hash
  {
    var t: Tables := map[name := hash];
    assert Elements([name]) == t.Keys;
    SortedIs([name], t);
    JoinedOne(name, t);
  }

  lemma JoinedTwo(x: string, y: string, t: Tables)
    requires x in t && y in t
    ensures Joined([x, y], t) == x + ":" + (t[x] + (y + ":" + t[y]))
  {
    JoinedOne(y, t);
    assert [x, y][1..] == [y];
  }

  lemma TwoSorted(x: string, y: string, t: Tables)
    requires Less(x, y) && t.Keys == {x, y}
    ensures SortedIds(t.Keys) == [x, y]
  {
    hide Less;
    assert Elements([x, y]) == t.Keys;
    SortedIs([x, y], t);
  }

  lemma TwoTables(x: string, y: string, hx: string, hy: string)
    requires Less(x, y)
    ensures Preimage(map[x := hx, y := hy]) == x + ":" + (hx + (y + ":" + hy)) && x != y
  {
    hide Less, Joined;
    var t: Tables := map[x := hx, y := hy];
    LessIrreflexive(x);
    TwoSorted(x, y, t);
    JoinedTwo(x, y, t);
  }

  /** With a colon in a name two different snapshots share one hashed text, hence one id. */
  lemma ColonCollides(x: string, y: string, hx: string, hy: string)
    requires Less(x, y) && IsDigest(hx) && IsDigest(hy)
    ensures var two, one: Tables := map[x := hx, y := hy], map[x + ":" + hx + y := hy];
            ValidTables(two) && ValidTables(one) && two != one && Preimage(two) == Preimage(one)
  {
    hide Preimage, Less, Hex;
    var two, one: Tables := map[x := hx, y := hy], map[x + ":" + hx + y := hy];
    OneTable(x + ":" + hx + y, hy);
    TwoTables(x, y, hx, hy);
    assert |x + ":" + hx + y| > |x|;
    assert x in two && x !in one;
    assert x + ":" + (hx + (y + ":" + hy)) == (x + ":" + hx + y) + ":" + hy;
  }

  /* ---------- which snapshots share their text ---------- */

  /** The text without the last `:hash`: the name under which one table would have the same text. */
  function Merged(names: seq<string>, t: Tables): string
    requires names != [] && forall name :: name in names ==> name in t
  {
    if |names| == 1 then names[0] else Item(names[0], t[names[0]], Merged(names[1..], t))
  }

  lemma MoveLast(name: string, hash: string, rest: string, last: string)
    ensures Item(name, hash, rest + ":" + last) == Item(name, hash, rest) + ":" + last
  {}

  lemma MoreNames(names: seq<string>, t: Tables)
    requires |names| >= 2 && forall name :: name in names ==> name in t
    ensures Joined(names, t) == Item(names[0], t[names[0]], Joined(names[1..], t))
    ensures Merged(names, t) == Item(names[0], t[names[0]], Merged(names[1..], t))
    ensures names[1..][|names| - 2] == names[|names| - 1]
  {
    hide Item;
  }

  lemma OneName(names: seq<string>, t: Tables)
    requires |names| == 1 && names[0] in t
    ensures Joined(names, t) == names[0] + ":" + t[names[0]] && Merged(names, t) == names[0]
  {
    assert names == [names[0]];
    JoinedOne(names[0], t);
  }

  lemma {:induction false} JoinedMerges(names: seq<string>, t: Tables)
    requires names != [] && forall name :: name in names ==> name in t
    ensures Joined(names, t) == Merged(names, t) + ":" + t[names[|names| - 1]]
  {
    hide Item, Joined, Merged;
    if |names| == 1 {
      OneName(names, t);
    } else {
      JoinedMerges(names[1..], t);
      MoreNames(names, t);
      MoveLast(names[0], t[names[0]], Merged(names[1..], t), t[names[|names| - 1]]);
    }
  }

  lemma {:induction false} LessExtended(a: string, b: string, c: string)
    requires Less(a, b)
    ensures Less(a, b + c)
  {
    assert (b + c)[0] == b[0];
    if a != "" && a[0] == b[0] {
      assert (b + c)[1..] == b[1..] + c;
      LessExtended(a[1..], b[1..], c);
    }
  }

  /** A name that reads as a table, its hash, and a later name. */
  ghost predicate Splits(name: string) {
    exists x, y, h :: SplitsInto(name, x, h, y)
  }

  predicate SplitsInto(name: string, x: string, h: string, y: string) {
    IsDigest(h) && Less(x, y) && name == x + ":" + (h + y)
  }

  /** The merged name of two or more sorted tables splits. */
  lemma MergedSplits(names: seq<string>, t: Tables)
    requires |names| >= 2 && StrictlySorted(Less, names) && ValidTables(t) && forall name :: name in names ==> name in t
    ensures Splits(Merged(names, t))
  {
    var y := Merged(names[1..], t);
    if |names| > 2 {
      LessExtended(names[0], names[1], ":" + (t[names[1]] + Merged(names[2..], t)));
      assert names[1..][1..] == names[2..];
      assert names[1] + ":" + (t[names[1]] + Merged(names[2..], t)) == names[1] + (":" + (t[names[1]] + Merged(names[2..], t)));
    }
    assert SplitsInto(Merged(names, t), names[0], t[names[0]], y);
  }

  /** No other valid tables have the same hashed text. */
  ghost predicate SoleText(t: Tables) {
    forall t': Tables :: ValidTables(t') && Preimage(t') == Preimage(t) ==> t' == t
  }

  /** What a caller can check: at most one table, under a name that does not split. */
  ghost predicate Unsplit(t: Tables) {
    |t| <= 1 && forall name :: name in t ==> !Splits(name)
  }

  lemma SortedNames(t: Tables)
    ensures |SortedIds(t.Keys)| == |t| && (forall name :: name in SortedIds(t.Keys) <==> name in t)
  {
    SortedIdsIn(t.Keys);
  }

  /** The text of a non-empty snapshot is that of one table under its merged name. */
  lemma TextAsOne(t: Tables)
    requires t != map[]
    ensures var names := SortedIds(t.Keys);
            && names != [] && (forall name :: name in names ==> name in t)
            && Preimage(t) == Merged(names, t) + ":" + t[names[|names| - 1]]
  {
    SortedNames(t);
    JoinedMerges(SortedIds(t.Keys), t);
  }

  lemma CutLast(a: string, h: string, b: string, g: string)
    requires |h| == |g| && a + ":" + h == b + ":" + g
    ensures a == b && h == g
  {
    var s, s' := a + ":" + h, b + ":" + g;
    assert |s| == |s'|;
    assert s[..|a|] == a && s'[..|b|] == b && s[|a| + 1..] == h && s'[|b| + 1..] == g;
  }

  lemma OnlyTable(t: Tables)
    requires |t| == 1
    ensures var names := SortedIds(t.Keys); |names| == 1 && names[0] in t && t == map[names[0] := t[names[0]]]
  {
    SortedNames(t);
    var name := SortedIds(t.Keys)[0];
    assert Elements(SortedIds(t.Keys)) == {name};
    assert t == map[name := t[name]];
  }

  /** Two or more tables share their text with one table, whatever their names. */
  lemma OneValid(t: Tables, last: string, name: string)
    requires ValidTables(t) && last in t
    ensures ValidTables(map[name := t[last]])
  {
    hide IsDigest;
  }

  lemma ManyShare(t: Tables)
    requires ValidTables(t) && |t| >= 2
    ensures !SoleText(t)
  {
    hide Preimage, IsDigest, Merged, Less, StrictlySorted, Distinct, Elements, ValidTables;
    TextAsOne(t);
    SortedNames(t);
    var names := SortedIds(t.Keys);
    var name, hash := Merged(names, t), t[names[|names| - 1]];
    OneTable(name, hash);
    OneValid(t, names[|names| - 1], name);
    SmallerTable(t, name, hash);
  }

  lemma SmallerTable(t: Tables, name: string, hash: string)
    requires |t| >= 2
    ensures map[name := hash] != t
  {
    var one: Tables := map[name := hash];
    assert one.Keys == {name} && |one| == |one.Keys|;
  }

  /** One table whose name splits shares its text with two tables. */
  lemma SplitShares(t: Tables)
    requires ValidTables(t) && |t| == 1 && exists name :: name in t && Splits(name)
    ensures !SoleText(t)
  {
    hide Preimage, Hex, Less;
    OnlyTable(t);
    var n := SortedIds(t.Keys)[0];
    var x, y, h :| SplitsInto(n, x, h, y);
    var hash := t[n];
    var two: Tables := map[x := h, y := hash];
    OneTable(n, hash);
    TwoTables(x, y, h, hash);
    assert x + ":" + (h + (y + ":" + hash)) == (x + ":" + (h + y)) + ":" + hash;
    assert |n| > |x|;
    assert x in two && x !in t;
    assert ValidTables(two) && Preimage(two) == Preimage(t);
  }

  lemma HashLength(t: Tables, name: string)
    requires ValidTables(t) && name in t
    ensures |t[name]| == 64
  {
    hide Hex;
  }

  /** Tables with the text of a single table under a name that does not split are that table. */
  lemma UnsplitAlone(t: Tables, t': Tables)
    requires ValidTables(t) && Unsplit(t) && ValidTables(t') && Preimage(t') == Preimage(t)
    ensures t' == t
  {
    hide IsDigest, Splits, Less, Preimage, Merged, Joined, StrictlySorted, Distinct, Elements;
    EmptyText(t);
    EmptyText(t');
    if t != map[] {
      OnlyTable(t);
      OneName(SortedIds(t.Keys), t);
      TextAsOne(t);
      TextAsOne(t');
      SortedNames(t');
      var names, names' := SortedIds(t.Keys), SortedIds(t'.Keys);
      HashLength(t, names[0]);
      HashLength(t', names'[|names'| - 1]);
      CutLast(Merged(names, t), t[names[0]], Merged(names', t'), t'[names'[|names'| - 1]]);
      if |t'| >= 2 {
        MergedSplits(names', t');
      } else {
        OnlyTable(t');
        OneName(names', t');
      }
    }
  }

  /** Only the empty snapshot has the empty text. */
  lemma EmptyText(t: Tables)
    ensures Preimage(t) == "" <==> t == map[]
  {
    if t != map[] { TextAsOne(t); }
    SortedNames(t);
  }

  /**
   Exactly which snapshots have a hashed text of their own: the empty one, and those of a
   single table whose name does not read as a table, its hash and a later name.
   */
  lemma SoleTextExactly(t: Tables)
    requires ValidTables(t)
    ensures SoleText(t) <==> Unsplit(t)
  {
    hide Preimage, Splits, Hex;
    if |t| >= 2 {
      ManyShare(t);
    } else if Unsplit(t) {
      forall t': Tables | ValidTables(t') && Preimage(t') == Preimage(t) ensures t' == t { UnsplitAlone(t, t'); }
    } else {
      SplitShares(t);
    }
  }

  /* ---------- manifests ---------- */

  datatype TableEntry = TableEntry(name: string, hash: string, recordCount: nat)

  datatype Manifest = Manifest(snapshotId: string, entries: seq<TableEntry>)

  /** The dictionary comprehension over entries: a later entry of a name replaces an earlier one. */
  function TableHashes(entries: seq<TableEntry>): Tables {
    if entries == [] then map[] else
      TableHashes(entries[..|entries| - 1])[entries[|entries| - 1].name := entries[|entries| - 1].hash]
  }

  ghost predicate ValidEntries(entries: seq<TableEntry>) {
    forall i :: 0 <= i < |entries| ==> IsDigest(entries[i].hash)
  }

  ghost predicate ColonFreeEntries(entries: seq<TableEntry>) {
    forall i :: 0 <= i < |entries| ==> ':' !in entries[i].name
  }

  /** `validate_integrity`, for a given hash function. */
  ghost predicate Intact(m: Manifest, sha: string -> string) {
    sha(Preimage(TableHashes(m.entries))) == m.snapshotId
  }

  /** The hash function does not collide on the two texts. */
  ghost predicate NoCollision(sha: string -> string, a: string, b: string) {
    sha(a) == sha(b) ==> a == b
  }

  ghost predicate Lists(entries: seq<TableEntry>, name: string, hash: string) {
    exists i :: 0 <= i < |entries| && entries[i].name == name && entries[i].hash == hash
  }

  lemma {:induction false} HashListed(entries: seq<TableEntry>, name: string)
    requires name in TableHashes(entries)
    ensures Lists(entries, name, TableHashes(entries)[name])
  {
    var n := |entries| - 1;
    if name != entries[n].name {
      HashListed(entries[..n], name);
      var i :| 0 <= i < n && entries[..n][i].name == name && entries[..n][i].hash == TableHashes(entries[..n])[name];
      assert entries[i].name == name;
    } else {
      assert entries[n].name == name;
    }
  }

  lemma EntriesValid(entries: seq<TableEntry>)
    requires ValidEntries(entries) && ColonFreeEntries(entries)
    ensures ValidTables(TableHashes(entries)) && ColonFree(TableHashes(entries))
  {
    forall name | name in TableHashes(entries) ensures IsDigest(TableHashes(entries)[name]) && ':' !in name {
      HashListed(entries, name);
    }
  }

  /** Two intact manifests of one id describe the same tables, unless the hash function collided. */
  lemma SameIdSameTables(m: Manifest, m': Manifest, sha: string -> string)
    requires ValidEntries(m.entries) && ColonFreeEntries(m.entries) && ValidEntries(m'.entries) && ColonFreeEntries(m'.entries)
    requires Intact(m, sha) && Intact(m', sha)
    requires NoCollision(sha, Preimage(TableHashes(m.entries)), Preimage(TableHashes(m'.entries)))
    ensures m.snapshotId == m'.snapshotId <==> TableHashes(m.entries) == TableHashes(m'.entries)
  {
    EntriesValid(m.entries);
    EntriesValid(m'.entries);
    PreimageInjective(TableHashes(m.entries), TableHashes(m'.entries));
  }

  lemma HashesValid(entries: seq<TableEntry>)
    requires ValidEntries(entries)
    ensures ValidTables(TableHashes(entries))
  {
    forall name | name in TableHashes(entries) ensures IsDigest(TableHashes(entries)[name]) { HashListed(entries, name); }
  }

  /** The id of an intact manifest with a text of its own belongs to its tables only, whatever names others use. */
  lemma SoleIdSoleTables(m: Manifest, m': Manifest, sha: string -> string)
    requires ValidEntries(m.entries) && ValidEntries(m'.entries) && Unsplit(TableHashes(m.entries))
    requires Intact(m, sha) && Intact(m', sha)
    requires NoCollision(sha, Preimage(TableHashes(m.entries)), Preimage(TableHashes(m'.entries)))
    ensures m.snapshotId == m'.snapshotId <==> TableHashes(m.entries) == TableHashes(m'.entries)
  {
    hide Preimage, Unsplit;
    HashesValid(m.entries);
    HashesValid(m'.entries);
    if m.snapshotId == m'.snapshotId { UnsplitAlone(TableHashes(m.entries), TableHashes(m'.entries)); }
  }

  ghost predicate UniqueNames(entries: seq<TableEntry>) {
    forall i, j :: 0 <= i < j < |entries| ==> entries[i].name != entries[j].name
  }

  lemma {:induction false} EntryHashed(entries: seq<TableEntry>, e: TableEntry)
    requires UniqueNames(entries) && e in entries
    ensures e.name in TableHashes(entries) && TableHashes(entries)[e.name] == e.hash
  {
    var n := |entries| - 1;
    assert entries == entries[..n] + [entries[n]];
    if e != entries[n] {
      EntryHashed(entries[..n], e);
      var i :| 0 <= i < n && entries[i] == e;
      assert entries[i].name != entries[n].name;
    }
  }

  /** A table has the hash of the last entry of its name. */
  lemma {:induction false} LastEntryCounts(entries: seq<TableEntry>, k: nat)
    requires k < |entries| && forall j :: k < j < |entries| ==> entries[j].name != entries[k].name
    ensures entries[k].name in TableHashes(entries) && TableHashes(entries)[entries[k].name] == entries[k].hash
  {
    var n := |entries| - 1;
    if k < n {
      assert entries[..n][k] == entries[k];
      LastEntryCounts(entries[..n], k);
    }
  }

  lemma EntriesWithin(entries: seq<TableEntry>, other: seq<TableEntry>, name: string)
    requires UniqueNames(other) && (forall e :: e in entries ==> e in other) && name in TableHashes(entries)
    ensures name in TableHashes(other) && TableHashes(other)[name] == TableHashes(entries)[name]
  {
    HashListed(entries, name);
    var i :| 0 <= i < |entries| && entries[i].name == name && entries[i].hash == TableHashes(entries)[name];
    assert entries[i] in entries;
    EntryHashed(other, entries[i]);
  }

  /** Listing the same tables in another order gives the same tables, so the same id. */
  lemma EntryOrderIrrelevant(entries: seq<TableEntry>, other: seq<TableEntry>)
    requires UniqueNames(entries) && UniqueNames(other) && forall e :: e in entries <==> e in other
    ensures TableHashes(entries) == TableHashes(other)
    ensures Preimage(TableHashes(entries)) == Preimage(TableHashes(other))
  {
    hide TableHashes, Preimage, UniqueNames;
    forall name | name in TableHashes(entries)
      ensures name in TableHashes(other) && TableHashes(other)[name] == TableHashes(entries)[name]
    {
      EntriesWithin(entries, other, name);
    }
    forall name | name in TableHashes(other) ensures name in TableHashes(entries) {
      EntriesWithin(other, entries, name);
    }
  }
}
