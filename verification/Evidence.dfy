/** Evidence records, the store that keeps them, and the totals per role they report. */
module Evidence {
  import opened Wrappers
  import opened Ordering
  import opened Numbers
  import opened Market
  import opened Matching
  import opened MarketLaws
  import opened Roster
  import opened RunLoop

  /* ---------- records and the store ---------- */

  datatype RoleTotals = RoleTotals(count: int, capital: int, holdings: int)

  datatype Kind = SimulationKind | SegmentKind | RoleKind | RoundKind | OtherKind(name: string)

  datatype SubjectType = AboutSimulation | AboutSegment | AboutRole | AboutRound | AboutOther(name: string)

  datatype Fact =
    | SimulationFact(totalRounds: int, segments: nat, participants: nat, reason: CompletionReason)
    | SegmentFact(guCode: string, guName: string, price: int, volume: int, trend: Trend, sentiment: real)
    | RoleFact(role: string, totals: RoleTotals)
    | RoundFact(roundNo: int, resolved: int, cleared: map<string, int>, prices: map<string, real>)
    | OtherFact

  /** A record before it is filed under a fresh id. */
  datatype Draft = Draft(kind: Kind, subjectType: SubjectType, subjectId: string, roundNo: int, fact: Fact)

  datatype EvidenceRecord = EvidenceRecord(evidenceId: string, draft: Draft)

  type Records = map<string, EvidenceRecord>

  /** The queries the report writer makes of the store, and the unions of them it cites. */
  datatype Query =
    | ByKind(kind: Kind)
    | BySubject(subjectType: SubjectType, subject: string)
    | ByKindOn(kind: Kind, subject: string)
    | About(subjectType: SubjectType, kind: Kind, subject: string)
    | Risks
    | Overall(runId: string)

  predicate Wanted(query: Query, d: Draft) {
    match query
    case ByKind(kind) => d.kind == kind
    case BySubject(subjectType, subject) => d.subjectType == subjectType && d.subjectId == subject
    case ByKindOn(kind, subject) => d.kind == kind && d.subjectId == subject
    case About(subjectType, kind, subject) => d.subjectId == subject && (d.subjectType == subjectType || d.kind == kind)
    case Risks => d.kind == SimulationKind || d.kind == RoundKind
    case Overall(runId) => d.kind == SimulationKind || (d.subjectType == AboutSimulation && d.subjectId == runId)
  }

  ghost function Matches(records: Records, query: Query): set<string> {
    set id | id in records && Wanted(query, records[id].draft)
  }

  ghost predicate WellFiled(records: Records) {
    forall id :: id in records ==> records[id].evidenceId == id
  }

  class EvidenceStore {
    var records: Records
    var order: seq<string>

    ghost predicate Valid()
      reads this
    {
      WellFiled(records) && Distinct(order) && Elements(order) == records.Keys
    }

    constructor ()
      ensures Valid() && records == map[]
    {
      records, order := map[], [];
    }

    /** Adds a record; `false` stands for the error raised on a duplicate id. */
    method Add(record: EvidenceRecord) returns (ok: bool)
      requires Valid()
      modifies this
      ensures Valid() && ok == (record.evidenceId !in old(records))
      ensures records == if ok then old(records)[record.evidenceId := record] else old(records)
      ensures order == if ok then old(order) + [record.evidenceId] else old(order)
    {
      ok := record.evidenceId !in records;
      if ok {
        ListedOnce(order, record.evidenceId);
        records := records[record.evidenceId := record];
        order := order + [record.evidenceId];
      }
    }

    function Get(id: string): (r: Option<EvidenceRecord>)
      reads this
      ensures r.Some? <==> id in records
      ensures r.Some? ==> r.value == records[id]
    {
      if id in records then Some(records[id]) else None
    }

    /** The ids of the records that satisfy a query, in insertion order. */
    method Select(query: Query) returns (ids: seq<string>)
      requires Valid()
      ensures ids == Filter(order, Matches(records, query))
      ensures Elements(ids) == Matches(records, query)
    {
      hide Filter, Wanted;
      ids := [];
      var i := 0;
      ghost var wanted := Matches(records, query);
      assert forall k :: 0 <= k < |order| ==> order[k] in Elements(order);
      NothingFiltered(order, wanted);
      while i < |order|
        invariant 0 <= i <= |order|
        invariant ids == Filter(order[..i], wanted)
      {
        assert order[..i + 1] == order[..i] + [order[i]];
        FilterAppend(order[..i], order[i], wanted);
        if Wanted(query, records[order[i]].draft) {
          ids := ids + [order[i]];
        }
        i := i + 1;
      }
      assert order[..|order|] == order;
      FilterKeeps(order, wanted);
    }
  }

  lemma NothingFiltered(xs: seq<string>, keep: set<string>)
    ensures Filter(xs[..0], keep) == []
  {}

  /** Filtering by a part of the elements leaves exactly that part. */
  lemma FilterKeeps(xs: seq<string>, keep: set<string>)
    requires keep <= Elements(xs)
    ensures Elements(Filter(xs, keep)) == keep
  {
    FilterIn(xs, keep);
    assert forall x :: x in xs <==> x in Elements(xs);
  }

  lemma {:induction false} FilterAppend(xs: seq<string>, x: string, keep: set<string>)
    ensures Filter(xs + [x], keep) == Filter(xs, keep) + (if x in keep then [x] else [])
  {
    if xs == [] {
      assert Filter([x], keep) == if x in keep then [x] + Filter([], keep) else Filter([], keep);
    } else {
      assert (xs + [x])[1..] == xs[1..] + [x];
      FilterAppend(xs[1..], x, keep);
    }
  }

  /* ---------- role totals ---------- */

  ghost function InRole(people: People, role: string): set<string> {
    set p | p in people && RoleName(people[p].role) == role
  }

  ghost function RolesOf(people: People): set<string> {
    set p | p in people :: RoleName(people[p].role)
  }

  ghost function TotalsOf(people: People, role: string): RoleTotals {
    var s := InRole(people, role);
    RoleTotals(|s|, SumOver(Capital(people), s), SumOver(Holdings(people), s))
  }

  function Plus(t: RoleTotals, x: Participant): RoleTotals {
    RoleTotals(t.count + 1, t.capital + x.capital, t.holdings + x.holdings)
  }

  lemma {:induction false} SumOneMoreKey(m: map<string, int>, s: set<string>, p: string, v: int)
    requires s <= m.Keys && p !in m
    ensures SumOver(m[p := v], s) == SumOver(m, s)
    ensures SumOver(m[p := v], s + {p}) == SumOver(m, s) + v
  {
    SumOverSame(m, m[p := v], s);
    SumOverPick(m[p := v], s + {p}, p);
    assert s + {p} - {p} == s;
  }

  lemma TablesOneMore(before: People, p: string, x: Participant)
    requires p !in before
    ensures Capital(before[p := x]) == Capital(before)[p := x.capital]
    ensures Holdings(before[p := x]) == Holdings(before)[p := x.holdings]
  {}

  lemma InRoleOneMore(before: People, p: string, x: Participant, role: string)
    requires p !in before
    ensures InRole(before[p := x], role) == InRole(before, role) + (if role == RoleName(x.role) then {p} else {})
    ensures p !in InRole(before, role) && InRole(before, role) <= before.Keys
  {}

  lemma TotalsOneMore(before: People, p: string, x: Participant, role: string)
    requires p !in before
    ensures TotalsOf(before[p := x], role) ==
            if role == RoleName(x.role) then Plus(TotalsOf(before, role), x) else TotalsOf(before, role)
  {
    var s := InRole(before, role);
    TablesOneMore(before, p, x);
    InRoleOneMore(before, p, x, role);
    SumOneMoreKey(Capital(before), s, p, x.capital);
    SumOneMoreKey(Holdings(before), s, p, x.holdings);
  }

  lemma RolesOneMore(before: People, p: string, x: Participant)
    requires p !in before
    ensures RolesOf(before[p := x]) == RolesOf(before) + {RoleName(x.role)}
  {
    var after := before[p := x];
    forall r | r in RolesOf(before) ensures r in RolesOf(after) {
      var q :| q in before && RoleName(before[q].role) == r;
      assert q in after && RoleName(after[q].role) == r;
    }
    assert p in after && RoleName(after[p].role) in RolesOf(after);
  }

  lemma NobodyInRole(people: People, role: string)
    requires role !in RolesOf(people)
    ensures TotalsOf(people, role) == RoleTotals(0, 0, 0)
  {
    forall p ensures p !in InRole(people, role) { NotInRole(people, role, p); }
    assert InRole(people, role) == {};
  }

  lemma NotInRole(people: People, role: string, p: string)
    requires role !in RolesOf(people)
    ensures p !in InRole(people, role)
  {}

  /** `data` and the order its keys were added in describe the roles of `people`. */
  ghost predicate Tallied(people: People, data: map<string, RoleTotals>, roles: seq<string>) {
    data.Keys == RolesOf(people) && Distinct(roles) && Elements(roles) == data.Keys && TotalsRight(people, data)
  }

  function TotalsIn(data: map<string, RoleTotals>, role: string): RoleTotals {
    if role in data then data[role] else RoleTotals(0, 0, 0)
  }

  lemma RolesListed(before: People, p: string, x: Participant, roles: seq<string>)
    requires p !in before && Distinct(roles) && Elements(roles) == RolesOf(before)
    ensures var role := RoleName(x.role);
            var roles' := if role in RolesOf(before) then roles else roles + [role];
            && Distinct(roles') && Elements(roles') == RolesOf(before[p := x])
            && RolesOf(before[p := x]) == RolesOf(before) + {role}
  {
    RolesOneMore(before, p, x);
    if RoleName(x.role) !in RolesOf(before) { ListedOnce(roles, RoleName(x.role)); }
  }

  ghost predicate TotalsRight(people: People, data: map<string, RoleTotals>) {
    forall role :: role in data ==> data[role] == TotalsOf(people, role)
  }

  lemma TotalsStep(before: People, p: string, x: Participant, data: map<string, RoleTotals>)
    requires p !in before && data.Keys == RolesOf(before) && TotalsRight(before, data)
    ensures TotalsRight(before[p := x], data[RoleName(x.role) := Plus(TotalsIn(data, RoleName(x.role)), x)])
  {
    var role := RoleName(x.role);
    if role !in data { NobodyInRole(before, role); }
    forall r | r in data || r == role
      ensures TotalsOf(before[p := x], r) == if r == role then Plus(TotalsOf(before, r), x) else TotalsOf(before, r)
    {
      TotalsOneMore(before, p, x, r);
    }
  }

  lemma TallyOneMore(before: People, p: string, x: Participant, data: map<string, RoleTotals>, roles: seq<string>)
    requires p !in before && Tallied(before, data, roles)
    ensures var role := RoleName(x.role);
            Tallied(before[p := x], data[role := Plus(TotalsIn(data, role), x)], if role in data then roles else roles + [role])
  {
    RolesListed(before, p, x, roles);
    TotalsStep(before, p, x, data);
  }

  /** The people listed so far. */
  ghost function Among(people: People, members: seq<string>): People {
    map p | p in people && p in members :: people[p]
  }

  lemma AmongOneMore(people: People, members: seq<string>, i: nat)
    requires Distinct(members) && Elements(members) == people.Keys && i < |members|
    ensures members[i] in people && members[i] !in Among(people, members[..i])
    ensures Among(people, members[..i + 1]) == Among(people, members[..i])[members[i] := people[members[i]]]
  {
    assert members[i] in Elements(members);
    assert members[..i + 1] == members[..i] + [members[i]];
  }

  lemma AmongAll(people: People, members: seq<string>)
    requires Elements(members) == people.Keys
    ensures Among(people, members[..|members|]) == people && Among(people, members[..0]) == map[]
  {
    assert members[..|members|] == members;
    assert forall p :: p in people ==> p in Elements(members);
  }

  lemma RoleDataStep(people: People, members: seq<string>, i: nat, data: map<string, RoleTotals>, roles: seq<string>)
    requires Distinct(members) && Elements(members) == people.Keys && i < |members|
    requires Tallied(Among(people, members[..i]), data, roles)
    ensures members[i] in people
    ensures var x := people[members[i]];
            var role := RoleName(x.role);
            Tallied(Among(people, members[..i + 1]), data[role := Plus(TotalsIn(data, role), x)],
                    if role in data then roles else roles + [role])
  {
    AmongOneMore(people, members, i);
    TallyOneMore(Among(people, members[..i]), members[i], people[members[i]], data, roles);
  }

  lemma NobodyTallied()
    ensures Tallied(map[], map[], [])
  {}

  /** `role_data` / `role_summary`: per role the number of participants and their totals. */
  method RoleData(members: seq<string>, people: People) returns (data: map<string, RoleTotals>, roles: seq<string>)
    requires Distinct(members) && Elements(members) == people.Keys
    ensures Tallied(people, data, roles)
  {
    data, roles := map[], [];
    var i := 0;
    AmongAll(people, members);
    NobodyTallied();
    while i < |members|
      invariant 0 <= i <= |members|
      invariant Tallied(Among(people, members[..i]), data, roles)
    {
      RoleDataStep(people, members, i, data, roles);
      var x := people[members[i]];
      var role := RoleName(x.role);
      roles := if role in data then roles else roles + [role];
      data := data[role := Plus(TotalsIn(data, role), x)];
      i := i + 1;
    }
  }
}
