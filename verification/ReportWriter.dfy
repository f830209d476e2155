/** The node that turns evidence into report claims, each citing the records it rests on. */
module ReportWriter {
  import opened Ordering
  import opened Market
  import opened Evidence
  import opened EvidenceBuilder
  import opened RunLoop

  datatype ClaimType = Direction | Volume | ParticipantSummary | RiskFactors | SimulationOverview

  datatype Metrics =
    | SegmentMetrics(price: int, volume: int, roundNo: int)
    | RoleMetrics(totals: RoleTotals, roundNo: int)
    | RiskMetrics(shocks: nat, governance: nat, roundNo: int)
    | OverviewMetrics(roundNo: int, segments: nat, participants: nat)

  /** What a claim says and cites; the prose of the statement is left out. */
  datatype Body = Body(claimType: ClaimType, subject: string, metrics: Metrics, evidenceIds: seq<string>)

  datatype Claim = Claim(claimId: string, body: Body)

  /* ---------- citations ---------- */

  /** The ids of the records that satisfy a query, merged and sorted. */
  ghost function Cited(records: Records, query: Query): seq<string> {
    SortedIds(Matches(records, query))
  }

  lemma CitedAre(records: Records, query: Query, id: string)
    ensures id in Cited(records, query) <==> id in records && Wanted(query, records[id].draft)
  {
    SortedIdsIn(Matches(records, query));
  }

  ghost function SegmentCites(records: Records, gu: string): seq<string> {
    Cited(records, About(AboutSegment, SegmentKind, gu))
  }

  ghost function RoleCites(records: Records, role: string): seq<string> {
    Cited(records, About(AboutRole, RoleKind, role))
  }

  /* ---------- the claims ---------- */

  function SegmentBody(claimType: ClaimType, gu: string, s: Segment, roundNo: int, cites: seq<string>): Body {
    Body(claimType, gu, SegmentMetrics(s.medianPrice, s.volume, roundNo), cites)
  }

  function RoleBody(role: string, totals: RoleTotals, roundNo: int, cites: seq<string>): Body {
    Body(ParticipantSummary, "role:" + role, RoleMetrics(totals, roundNo), cites)
  }

  function RiskBody(s: RunState, governance: nat, cites: seq<string>): Body {
    Body(RiskFactors, "simulation", RiskMetrics(|s.scenario.shocks|, governance, s.roundNo), cites)
  }

  function OverviewBody(s: RunState, cites: seq<string>): Body {
    Body(SimulationOverview, "simulation", OverviewMetrics(s.roundNo, |s.world|, |s.people|), cites)
  }

  /** The two claims per segment, numbered from 0. */
  ghost function SegmentBodyNo(records: Records, roundNo: int, world: World, gus: seq<string>, k: nat): Body
    requires k < 2 * |gus| && forall gu :: gu in gus ==> gu in world
  {
    var gu := gus[k / 2];
    SegmentBody(if k % 2 == 0 then Direction else Volume, gu, world[gu], roundNo, SegmentCites(records, gu))
  }

  ghost function SegmentBodies(records: Records, roundNo: int, world: World, gus: seq<string>): (bodies: seq<Body>)
    requires forall gu :: gu in gus ==> gu in world
    ensures |bodies| == 2 * |gus|
  {
    seq(2 * |gus|, k requires 0 <= k < 2 * |gus| => SegmentBodyNo(records, roundNo, world, gus, k))
  }

  /** One claim per role. */
  ghost function RoleBodies(records: Records, roundNo: int, people: People, roles: seq<string>): (bodies: seq<Body>)
    ensures |bodies| == |roles|
  {
    seq(|roles|, i requires 0 <= i < |roles| =>
      RoleBody(roles[i], TotalsOf(people, roles[i]), roundNo, RoleCites(records, roles[i])))
  }

  /** The claims about segments and roles. */
  ghost function MarketBodies(records: Records, s: RunState): seq<Body> {
    SortedIdsIn(s.world.Keys);
    SegmentBodies(records, s.roundNo, s.world, SortedIds(s.world.Keys))
    + RoleBodies(records, s.roundNo, s.people, SortedIds(RolesOf(s.people)))
  }

  /** Every claim of a report, in order. */
  ghost function Bodies(records: Records, runId: string, s: RunState, governance: nat): seq<Body> {
    MarketBodies(records, s)
    + [RiskBody(s, governance, Cited(records, Risks)), OverviewBody(s, Cited(records, Overall(runId)))]
  }

  lemma SegmentPair(records: Records, roundNo: int, world: World, gus: seq<string>, i: nat)
    requires i < |gus| && forall gu :: gu in gus ==> gu in world
    ensures var bodies, cites := SegmentBodies(records, roundNo, world, gus), SegmentCites(records, gus[i]);
            && gus[i] in world
            && bodies[2 * i] == SegmentBody(Direction, gus[i], world[gus[i]], roundNo, cites)
            && bodies[2 * i + 1] == SegmentBody(Volume, gus[i], world[gus[i]], roundNo, cites)
  {
    hide SegmentBody, SegmentCites;
    assert (2 * i) / 2 == i && (2 * i + 1) / 2 == i;
  }

  lemma SegmentBodyAt(records: Records, roundNo: int, world: World, gus: seq<string>, b: Body)
    requires forall gu :: gu in gus ==> gu in world
    ensures b in SegmentBodies(records, roundNo, world, gus) <==>
              && b.subject in gus && b.claimType in {Direction, Volume}
              && b == SegmentBody(b.claimType, b.subject, world[b.subject], roundNo, SegmentCites(records, b.subject))
  {
    hide SegmentBodies, SegmentCites;
    var bodies := SegmentBodies(records, roundNo, world, gus);
    if b in bodies {
      var k :| 0 <= k < |bodies| && bodies[k] == b;
      SegmentPair(records, roundNo, world, gus, k / 2);
      assert k == 2 * (k / 2) || k == 2 * (k / 2) + 1;
    }
    if b.subject in gus {
      var i :| 0 <= i < |gus| && gus[i] == b.subject;
      SegmentPair(records, roundNo, world, gus, i);
      assert bodies[2 * i] in bodies && bodies[2 * i + 1] in bodies;
    }
  }

  lemma RoleBodyNo(records: Records, roundNo: int, people: People, roles: seq<string>, i: nat)
    requires i < |roles|
    ensures RoleBodies(records, roundNo, people, roles)[i] ==
            RoleBody(roles[i], TotalsOf(people, roles[i]), roundNo, RoleCites(records, roles[i]))
  {}

  lemma RoleBodyAt(records: Records, roundNo: int, people: People, roles: seq<string>, b: Body)
    ensures b in RoleBodies(records, roundNo, people, roles) <==>
              exists role :: role in roles && b == RoleBody(role, TotalsOf(people, role), roundNo, RoleCites(records, role))
  {
    hide RoleBodies, RoleBody, RoleCites, TotalsOf;
    var bodies := RoleBodies(records, roundNo, people, roles);
    if b in bodies {
      var i :| 0 <= i < |bodies| && bodies[i] == b;
      RoleBodyNo(records, roundNo, people, roles, i);
    }
    if role :| role in roles && b == RoleBody(role, TotalsOf(people, role), roundNo, RoleCites(records, role)) {
      var i :| 0 <= i < |roles| && roles[i] == role;
      RoleBodyNo(records, roundNo, people, roles, i);
    }
  }

  /** `b` is one of the two claims on a district of the final world. */
  ghost predicate OnSegment(b: Body, records: Records, s: RunState) {
    && b.subject in s.world && b.claimType in {Direction, Volume}
    && b == SegmentBody(b.claimType, b.subject, s.world[b.subject], s.roundNo, SegmentCites(records, b.subject))
  }

  ghost predicate OnRole(b: Body, records: Records, s: RunState, role: string) {
    role in RolesOf(s.people) && b == RoleBody(role, TotalsOf(s.people, role), s.roundNo, RoleCites(records, role))
  }

  /** Every claim of a report is on a district, on a role, or on the run. */
  lemma BodyCases(records: Records, runId: string, s: RunState, governance: nat, b: Body)
    requires b in Bodies(records, runId, s, governance)
    ensures || OnSegment(b, records, s)
            || (exists role :: OnRole(b, records, s, role))
            || b == RiskBody(s, governance, Cited(records, Risks))
            || b == OverviewBody(s, Cited(records, Overall(runId)))
  {
    if b in MarketBodies(records, s) { MarketCases(records, s, b); }
  }

  lemma MarketCases(records: Records, s: RunState, b: Body)
    requires b in MarketBodies(records, s)
    ensures OnSegment(b, records, s) || exists role :: OnRole(b, records, s, role)
  {
    var gus, roles := SortedIds(s.world.Keys), SortedIds(RolesOf(s.people));
    SortedIdsIn(s.world.Keys);
    SortedIdsIn(RolesOf(s.people));
    if b in SegmentBodies(records, s.roundNo, s.world, gus) {
      SegmentBodyAt(records, s.roundNo, s.world, gus, b);
    } else {
      RoleBodyAt(records, s.roundNo, s.people, roles, b);
      var role :| role in roles && b == RoleBody(role, TotalsOf(s.people, role), s.roundNo, RoleCites(records, role));
      assert OnRole(b, records, s, role);
    }
  }

  lemma BodyCount(records: Records, runId: string, s: RunState, governance: nat)
    ensures |Bodies(records, runId, s, governance)| == 2 * |s.world| + |RolesOf(s.people)| + 2
  {}

  /* ---------- writing ---------- */

  /** `sorted` of the union of two lists of ids. */
  method MergeIds(xs: seq<string>, ys: seq<string>) returns (merged: seq<string>)
    ensures merged == SortedIds(Elements(xs) + Elements(ys))
  {
    var pending := (set x | x in xs) + (set y | y in ys);
    merged := [];
    while pending != {}
      invariant Distinct(merged) && pending !! Elements(merged)
      invariant pending + Elements(merged) == Elements(xs) + Elements(ys)
      decreases |pending|
    {
      var x :| x in pending;
      ListedOnce(merged, x);
      merged, pending := merged + [x], pending - {x};
    }
    SortGivesIds(merged);
    merged := Sort(Less, merged);
  }

  /** The union of two queries' answers. */
  method Cite(store: EvidenceStore, first: Query, second: Query) returns (ids: seq<string>)
    requires store.Valid()
    ensures ids == SortedIds(Matches(store.records, first) + Matches(store.records, second))
  {
    var xs := store.Select(first);
    var ys := store.Select(second);
    ids := MergeIds(xs, ys);
  }

  lemma AboutIsUnion(records: Records, subjectType: SubjectType, kind: Kind, subject: string)
    ensures Matches(records, BySubject(subjectType, subject)) + Matches(records, ByKindOn(kind, subject)) ==
            Matches(records, About(subjectType, kind, subject))
  {}

  lemma RisksIsUnion(records: Records)
    ensures Matches(records, ByKind(SimulationKind)) + Matches(records, ByKind(RoundKind)) == Matches(records, Risks)
  {}

  lemma OverallIsUnion(records: Records, runId: string)
    ensures Matches(records, ByKind(SimulationKind)) + Matches(records, BySubject(AboutSimulation, runId)) ==
            Matches(records, Overall(runId))
  {}

  method CiteSubject(store: EvidenceStore, subjectType: SubjectType, kind: Kind, subject: string) returns (ids: seq<string>)
    requires store.Valid()
    ensures ids == Cited(store.records, About(subjectType, kind, subject))
  {
    ids := Cite(store, BySubject(subjectType, subject), ByKindOn(kind, subject));
    AboutIsUnion(store.records, subjectType, kind, subject);
  }

  method CiteRisks(store: EvidenceStore) returns (ids: seq<string>)
    requires store.Valid()
    ensures ids == Cited(store.records, Risks)
  {
    ids := Cite(store, ByKind(SimulationKind), ByKind(RoundKind));
    RisksIsUnion(store.records);
  }

  method CiteRun(store: EvidenceStore, runId: string) returns (ids: seq<string>)
    requires store.Valid()
    ensures ids == Cited(store.records, Overall(runId))
  {
    ids := Cite(store, ByKind(SimulationKind), BySubject(AboutSimulation, runId));
    OverallIsUnion(store.records, runId);
  }

  /** Claims number `bodies` with the given ids. */
  ghost predicate Numbered(claims: seq<Claim>, bodies: seq<Body>, ids: seq<string>) {
    |claims| == |bodies| <= |ids| && forall k :: 0 <= k < |claims| ==> claims[k] == Claim(ids[k], bodies[k])
  }

  /** Writes one more claim under the next id. */
  function Write(claims: seq<Claim>, ids: seq<string>, body: Body): seq<Claim>
    requires |claims| < |ids|
  {
    claims + [Claim(ids[|claims|], body)]
  }

  lemma WrittenNext(claims: seq<Claim>, all: seq<Body>, i: nat, ids: seq<string>)
    requires i < |all| <= |ids| && Numbered(claims, all[..i], ids)
    ensures |claims| == i && Numbered(Write(claims, ids, all[i]), all[..i + 1], ids)
  {}

  method WriteSegments(store: EvidenceStore, roundNo: int, segments: seq<string>, world: World, ids: seq<string>)
    returns (claims: seq<Claim>)
    requires store.Valid() && Distinct(segments) && Elements(segments) == world.Keys && 2 * |segments| <= |ids|
    ensures forall gu :: gu in SortedIds(world.Keys) ==> gu in world
    ensures Numbered(claims, SegmentBodies(store.records, roundNo, world, SortedIds(world.Keys)), ids)
  {
    hide SegmentBodies, SegmentBody, Write, Numbered, Sort, Elements, Distinct, WellFiled;
    DistrictsInOrder(segments, world);
    var gus := Sort(Less, segments);
    ghost var all := SegmentBodies(store.records, roundNo, world, gus);
    claims := [];
    NothingWritten(all, ids);
    var i := 0;
    while i < |gus|
      invariant 0 <= i <= |gus|
      invariant Numbered(claims, all[..2 * i], ids)
    {
      SegmentPair(store.records, roundNo, world, gus, i);
      var cites := CiteSubject(store, AboutSegment, SegmentKind, gus[i]);
      WrittenNext(claims, all, 2 * i, ids);
      claims := Write(claims, ids, SegmentBody(Direction, gus[i], world[gus[i]], roundNo, cites));
      WrittenNext(claims, all, 2 * i + 1, ids);
      claims := Write(claims, ids, SegmentBody(Volume, gus[i], world[gus[i]], roundNo, cites));
      i := i + 1;
    }
    assert all[..|all|] == all;
  }

  lemma NothingWritten(all: seq<Body>, ids: seq<string>)
    ensures Numbered([], all[..0], ids)
  {}

  /** From position `n` on, the claims to write are those on the roles. */
  ghost predicate RolesFrom(all: seq<Body>, n: nat, records: Records, roundNo: int, roles: seq<string>,
                            data: map<string, RoleTotals>)
  {
    |all| == n + |roles| && forall i :: 0 <= i < |roles| ==>
      roles[i] in data && all[n + i] == RoleBody(roles[i], data[roles[i]], roundNo, RoleCites(records, roles[i]))
  }

  /** The claims so far, and one per role of the list. */
  method WriteRoleClaims(store: EvidenceStore, roundNo: int, roles: seq<string>, data: map<string, RoleTotals>,
                         ids: seq<string>, before: seq<Claim>, ghost all: seq<Body>, ghost n: nat)
    returns (claims: seq<Claim>)
    requires store.Valid() && RolesFrom(all, n, store.records, roundNo, roles, data)
    requires Numbered(before, all[..n], ids) && |all| <= |ids|
    ensures Numbered(claims, all, ids)
  {
    hide RoleBody, RoleCites, Write, Numbered, WellFiled;
    claims := before;
    var i := 0;
    while i < |roles|
      invariant 0 <= i <= |roles|
      invariant Numbered(claims, all[..n + i], ids)
    {
      WrittenNext(claims, all, n + i, ids);
      var cites := CiteSubject(store, AboutRole, RoleKind, roles[i]);
      assert cites == RoleCites(store.records, roles[i]) by { RoleCitesAre(store.records, roles[i]); }
      claims := Write(claims, ids, RoleBody(roles[i], data[roles[i]], roundNo, cites));
      i := i + 1;
    }
    assert all[..|all|] == all;
  }

  lemma RoleCitesAre(records: Records, role: string)
    ensures RoleCites(records, role) == Cited(records, About(AboutRole, RoleKind, role))
  {}

  lemma RolesAppended(written: seq<Body>, records: Records, roundNo: int, people: People, roles: seq<string>,
                      data: map<string, RoleTotals>)
    requires forall role :: role in roles ==> role in data && data[role] == TotalsOf(people, role)
    ensures var all := written + RoleBodies(records, roundNo, people, roles);
            all[..|written|] == written && RolesFrom(all, |written|, records, roundNo, roles, data)
  {
    hide RoleBodies, RoleBody, RoleCites, TotalsOf;
    forall i | 0 <= i < |roles|
      ensures RoleBodies(records, roundNo, people, roles)[i] ==
              RoleBody(roles[i], data[roles[i]], roundNo, RoleCites(records, roles[i]))
    {
      RoleBodyNo(records, roundNo, people, roles, i);
    }
  }

  /** The claims so far, and one per role present. */
  method WriteRoles(store: EvidenceStore, roundNo: int, members: seq<string>, people: People, ids: seq<string>,
                    before: seq<Claim>, ghost written: seq<Body>)
    returns (claims: seq<Claim>)
    requires store.Valid() && Distinct(members) && Elements(members) == people.Keys
    requires Numbered(before, written, ids) && |written| + |RolesOf(people)| <= |ids|
    ensures Numbered(claims, written + RoleBodies(store.records, roundNo, people, SortedIds(RolesOf(people))), ids)
  {
    hide RoleBodies, RolesOf, TotalsOf, Numbered, Sort, Elements, Distinct, WellFiled, Tallied, RolesFrom;
    var data, order := RoleData(members, people);
    RolesInOrder(people, data, order);
    var roles := Sort(Less, order);
    RolesAppended(written, store.records, roundNo, people, roles, data);
    claims := WriteRoleClaims(store, roundNo, roles, data, ids, before,
                              written + RoleBodies(store.records, roundNo, people, roles), |written|);
  }

  method WriteMarket(store: EvidenceStore, s: RunState, ids: seq<string>) returns (claims: seq<Claim>)
    requires store.Valid() && s.WellKeyed() && |MarketBodies(store.records, s)| <= |ids|
    ensures Numbered(claims, MarketBodies(store.records, s), ids)
  {
    DistinctCount(s.segments);
    SortedIdsIn(s.world.Keys);
    claims := WriteSegments(store, s.roundNo, s.segments, s.world, ids);
    claims := WriteRoles(store, s.roundNo, s.members, s.people, ids, claims,
                         SegmentBodies(store.records, s.roundNo, s.world, SortedIds(s.world.Keys)));
  }

  lemma LastTwo(claims: seq<Claim>, bodies: seq<Body>, ids: seq<string>, risk: Body, overview: Body)
    requires Numbered(claims, bodies, ids) && |bodies| + 2 <= |ids|
    ensures Numbered(Write(Write(claims, ids, risk), ids, overview), bodies + [risk, overview], ids)
  {}

  /** The claims of a report on a final state, under fresh claim ids. */
  method WriteReport(store: EvidenceStore, runId: string, s: RunState, governance: nat, ids: seq<string>)
    returns (claims: seq<Claim>)
    requires store.Valid() && s.WellKeyed() && |Bodies(store.records, runId, s, governance)| <= |ids|
    ensures Numbered(claims, Bodies(store.records, runId, s, governance), ids)
  {
    claims := WriteMarket(store, s, ids);
    var risks := CiteRisks(store);
    var overview := CiteRun(store, runId);
    LastTwo(claims, MarketBodies(store.records, s), ids, RiskBody(s, governance, risks), OverviewBody(s, overview));
    claims := Write(claims, ids, RiskBody(s, governance, risks));
    claims := Write(claims, ids, OverviewBody(s, overview));
  }
}
