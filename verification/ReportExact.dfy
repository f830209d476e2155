/** A report in numbers: every record the builder files, every claim the writer makes, and every verdict of the gate. */
module ReportExact {
  import opened Wrappers
  import opened Ordering
  import opened Numbers
  import opened Market
  import opened Roster
  import opened RunLoop
  import opened Evidence
  import opened EvidenceBuilder
  import opened ReportWriter
  import opened CitationGate

  /* ---------- roles ---------- */

  /** The participants of a role, and what they have between them. */
  ghost predicate TotalsAre(people: People, role: Role, totals: RoleTotals) {
    var those := set p | p in people && people[p].role == role;
    && totals.count == |those|
    && totals.capital == SumOver(map p | p in people :: people[p].capital, those)
    && totals.holdings == SumOver(map p | p in people :: people[p].holdings, those)
  }

  ghost predicate Named(role: Role, name: string) {
    match role
    case Buyer => name == "buyer"
    case Investor => name == "investor"
    case Tenant => name == "tenant"
    case Landlord => name == "landlord"
    case Broker => name == "broker"
  }

  lemma NameIs(role: Role)
    ensures Named(role, RoleName(role))
  {}

  /** The roles reported are those somebody has. */
  lemma RolesExactly(people: People, name: string)
    ensures name in RolesOf(people) <==> exists p :: p in people && Named(people[p].role, name)
  {
    hide Named;
    if p :| p in people && Named(people[p].role, name) {
      NameIs(people[p].role);
      OneName(people[p].role, name, RoleName(people[p].role));
    }
    if p :| p in people && RoleName(people[p].role) == name { NameIs(people[p].role); }
  }

  lemma OneName(role: Role, a: string, b: string)
    requires Named(role, a) && Named(role, b)
    ensures a == b
  {}

  lemma RoleOf(people: People, name: string) returns (role: Role)
    requires name in RolesOf(people)
    ensures Named(role, name) && TotalsAre(people, role, TotalsOf(people, name))
    ensures exists p :: p in people && people[p].role == role
  {
    var p :| p in people && RoleName(people[p].role) == name;
    role := people[p].role;
    NameIs(role);
    SameRole(people, role);
  }

  lemma SameRole(people: People, role: Role)
    ensures TotalsAre(people, role, TotalsOf(people, RoleName(role)))
  {
    forall p | p in people && RoleName(people[p].role) == RoleName(role) ensures people[p].role == role {
      RoleNameInjective(people[p].role, role);
    }
    assert InRole(people, RoleName(role)) == set p | p in people && people[p].role == role;
  }

  /* ---------- what the builder files ---------- */

  ghost predicate RunRecord(d: Draft, runId: string, s: RunState) {
    var frozen := s.lastOutcome.Some? && s.lastOutcome.value.resolved <= 0;
    d == Draft(SimulationKind, AboutSimulation, runId, s.roundNo,
               SimulationFact(s.roundNo, |s.world|, |s.people|, if frozen then MarketFrozen else ReachedMaxRounds))
  }

  ghost predicate DistrictRecord(d: Draft, roundNo: int, gu: string, district: Segment) {
    d == Draft(SegmentKind, AboutSegment, gu, roundNo,
               SegmentFact(gu, district.guName, district.medianPrice, district.volume, district.trend, district.sentiment))
  }

  ghost predicate RoleRecord(d: Draft, roundNo: int, name: string, people: People) {
    exists role, totals :: Named(role, name) && TotalsAre(people, role, totals)
                           && d == Draft(RoleKind, AboutRole, name, roundNo, RoleFact(name, totals))
  }

  ghost predicate RoundRecorded(d: Draft, subject: string, outcome: RoundOutcome) {
    d == Draft(RoundKind, AboutRound, subject, outcome.roundNo,
               RoundFact(outcome.roundNo, outcome.resolved, outcome.clearedVolume, outcome.priceChanges))
  }

  ghost predicate DistrictRecords(drafts: seq<Draft>, roundNo: int, world: World) {
    var gus := SortedIds(world.Keys);
    && |drafts| == |gus|
    && forall i :: 0 <= i < |gus| ==> gus[i] in world && DistrictRecord(drafts[i], roundNo, gus[i], world[gus[i]])
  }

  ghost predicate RoleRecords(drafts: seq<Draft>, roundNo: int, people: People) {
    var roles := SortedIds(RolesOf(people));
    |drafts| == |roles| && forall i :: 0 <= i < |roles| ==> RoleRecord(drafts[i], roundNo, roles[i], people)
  }

  ghost predicate LastRoundRecord(drafts: seq<Draft>, subject: string, lastOutcome: Option<RoundOutcome>) {
    if lastOutcome.None? then drafts == [] else |drafts| == 1 && RoundRecorded(drafts[0], subject, lastOutcome.value)
  }

  /**
   The drafts of a final state: the run, each district in order of its code, each role
   present in order of its name, and the last round if there was one.
   */
  ghost predicate DraftsAre(drafts: seq<Draft>, runId: string, subject: string, s: RunState) {
    var n, m := |s.world|, |RolesOf(s.people)|;
    && |drafts| >= 1 + n + m
    && RunRecord(drafts[0], runId, s)
    && DistrictRecords(drafts[1..1 + n], s.roundNo, s.world)
    && RoleRecords(drafts[1 + n..1 + n + m], s.roundNo, s.people)
    && LastRoundRecord(drafts[1 + n + m..], subject, s.lastOutcome)
  }

  lemma RunDrafted(runId: string, s: RunState)
    ensures RunRecord(SimulationDraft(runId, s), runId, s)
  {}

  lemma DistrictsDrafted(roundNo: int, world: World)
    ensures forall gu :: gu in SortedIds(world.Keys) ==> gu in world
    ensures |SortedIds(world.Keys)| == |world|
    ensures DistrictRecords(SegmentDrafts(roundNo, world, SortedIds(world.Keys)), roundNo, world)
  {
    SortedIdsIn(world.Keys);
    SortedCount(world.Keys);
  }

  lemma SortedCount(s: set<string>)
    ensures |SortedIds(s)| == |s|
  {
    SortedIdsIn(s);
    DistinctCount(SortedIds(s));
  }

  lemma RoleRecorded(roundNo: int, people: People, name: string)
    requires name in RolesOf(people)
    ensures RoleRecord(RoleDraft(roundNo, name, TotalsOf(people, name)), roundNo, name, people)
  {
    hide TotalsOf, RolesOf, TotalsAre, Named;
    var role := RoleOf(people, name);
  }

  lemma RolesDrafted(roundNo: int, people: People)
    ensures |SortedIds(RolesOf(people))| == |RolesOf(people)|
    ensures RoleRecords(RoleDrafts(roundNo, people, SortedIds(RolesOf(people))), roundNo, people)
  {
    hide RolesOf, TotalsOf, RoleRecord, RoleDrafts;
    var roles := SortedIds(RolesOf(people));
    SortedCount(RolesOf(people));
    forall i | 0 <= i < |roles| ensures RoleRecord(RoleDrafts(roundNo, people, roles)[i], roundNo, roles[i], people) {
      assert roles[i] in Elements(roles);
      RoleDraftAt(roundNo, people, roles, i);
      RoleRecorded(roundNo, people, roles[i]);
    }
  }

  lemma Sections<T>(a: seq<T>, b: seq<T>, c: seq<T>, d: seq<T>)
    ensures var xs := a + b + c + d;
            && |xs| == |a| + |b| + |c| + |d| && xs[..|a|] == a && xs[|a|..|a| + |b|] == b
            && xs[|a| + |b|..|a| + |b| + |c|] == c && xs[|a| + |b| + |c|..] == d
  {}

  lemma FirstOf<T>(xs: seq<T>, x: T)
    requires xs != [] && xs[..1] == [x]
    ensures xs[0] == x
  {
    assert xs[..1][0] == x;
  }

  lemma DraftsJoin(run: Draft, districts: seq<Draft>, totals: seq<Draft>, last: seq<Draft>, runId: string, subject: string,
                   s: RunState)
    requires RunRecord(run, runId, s) && DistrictRecords(districts, s.roundNo, s.world) && |districts| == |s.world|
    requires RoleRecords(totals, s.roundNo, s.people) && |totals| == |RolesOf(s.people)|
    requires LastRoundRecord(last, subject, s.lastOutcome)
    ensures DraftsAre([run] + districts + totals + last, runId, subject, s)
  {
    hide RolesOf, RoleRecords, DistrictRecords, RunRecord, LastRoundRecord;
    Sections([run], districts, totals, last);
    FirstOf([run] + districts + totals + last, run);
  }

  lemma DraftsExactly(runId: string, subject: string, s: RunState)
    ensures DraftsAre(Drafts(runId, subject, s), runId, subject, s)
  {
    hide SimulationDraft, SegmentDrafts, RoleDrafts, RolesOf, RoleRecords, DistrictRecords, RunRecord, SortedIds, RoundDrafts,
      LastRoundRecord, DraftsAre;
    DistrictsDrafted(s.roundNo, s.world);
    RolesDrafted(s.roundNo, s.people);
    RunDrafted(runId, s);
    LastDrafted(subject, s.lastOutcome);
    DraftsJoin(SimulationDraft(runId, s), SegmentDrafts(s.roundNo, s.world, SortedIds(s.world.Keys)),
               RoleDrafts(s.roundNo, s.people, SortedIds(RolesOf(s.people))), RoundDrafts(subject, s.lastOutcome),
               runId, subject, s);
  }

  lemma LastDrafted(subject: string, lastOutcome: Option<RoundOutcome>)
    ensures LastRoundRecord(RoundDrafts(subject, lastOutcome), subject, lastOutcome)
  {}

  ghost predicate FiledUnder(records: Records, ids: seq<string>, drafts: seq<Draft>) {
    && |ids| == |drafts|
    && forall k :: 0 <= k < |ids| ==> ids[k] in records && records[ids[k]] == EvidenceRecord(ids[k], drafts[k])
  }

  /**
   After a build the store holds what it held and, under the fresh ids in order, the
   records of the final state: nothing else.
   */
  lemma BuildExactly(start: Records, ids: seq<string>, runId: string, subject: string, s: RunState)
    requires |ids| == |Drafts(runId, subject, s)| && Fresh(ids, start)
    ensures var records := Filed(start, ids, Drafts(runId, subject, s));
            && records.Keys == start.Keys + Elements(ids)
            && (forall id :: id in start ==> records[id] == start[id])
            && exists drafts :: DraftsAre(drafts, runId, subject, s) && FiledUnder(records, ids, drafts)
  {
    hide Drafts, DraftsAre, Filed;
    var drafts := Drafts(runId, subject, s);
    DraftsExactly(runId, subject, s);
    FiledAt(start, ids, drafts);
    assert forall k :: 0 <= k < |ids| ==> ids[k] in Elements(ids);
  }

  /* ---------- what the writer claims ---------- */

  /** The sorted ids of the records that satisfy a condition. */
  ghost predicate CitesAll(cites: seq<string>, records: Records, wanted: Draft -> bool) {
    && StrictlySorted(Less, cites)
    && forall id :: id in cites <==> id in records && wanted(records[id].draft)
  }

  ghost predicate DistrictClaim(b: Body, kind: ClaimType, gu: string, d: Segment, roundNo: int, records: Records) {
    && b == Body(kind, gu, SegmentMetrics(d.medianPrice, d.volume, roundNo), b.evidenceIds)
    && CitesAll(b.evidenceIds, records,
                (x: Draft) => x.subjectId == gu && (x.subjectType == AboutSegment || x.kind == SegmentKind))
  }

  ghost predicate RoleClaimed(b: Body, name: string, people: People, roundNo: int, records: Records) {
    && (exists role, totals :: Named(role, name) && TotalsAre(people, role, totals)
                               && b == Body(ParticipantSummary, "role:" + name, RoleMetrics(totals, roundNo), b.evidenceIds))
    && CitesAll(b.evidenceIds, records,
                (x: Draft) => x.subjectId == name && (x.subjectType == AboutRole || x.kind == RoleKind))
  }

  ghost predicate RiskClaim(b: Body, s: RunState, governance: nat, records: Records) {
    && b == Body(RiskFactors, "simulation", RiskMetrics(|s.scenario.shocks|, governance, s.roundNo), b.evidenceIds)
    && CitesAll(b.evidenceIds, records, (x: Draft) => x.kind == SimulationKind || x.kind == RoundKind)
  }

  ghost predicate OverviewClaim(b: Body, s: RunState, runId: string, records: Records) {
    && b == Body(SimulationOverview, "simulation", OverviewMetrics(s.roundNo, |s.world|, |s.people|), b.evidenceIds)
    && CitesAll(b.evidenceIds, records,
                (x: Draft) => x.kind == SimulationKind || (x.subjectType == AboutSimulation && x.subjectId == runId))
  }

  lemma CitedAll(records: Records, query: Query, wanted: Draft -> bool)
    requires forall d :: Wanted(query, d) <==> wanted(d)
    ensures CitesAll(Cited(records, query), records, wanted)
  {
    hide Wanted;
    var cites := Cited(records, query);
    SortedIdsIn(Matches(records, query));
    forall id ensures id in cites <==> id in records && wanted(records[id].draft) { CitedAre(records, query, id); }
  }

  lemma DistrictClaimed(kind: ClaimType, gu: string, d: Segment, roundNo: int, records: Records)
    ensures DistrictClaim(SegmentBody(kind, gu, d, roundNo, SegmentCites(records, gu)), kind, gu, d, roundNo, records)
  {
    hide CitesAll;
    CitedAll(records, About(AboutSegment, SegmentKind, gu),
             (x: Draft) => x.subjectId == gu && (x.subjectType == AboutSegment || x.kind == SegmentKind));
  }

  lemma RoleIsClaimed(name: string, people: People, roundNo: int, records: Records)
    requires name in RolesOf(people)
    ensures RoleClaimed(RoleBody(name, TotalsOf(people, name), roundNo, RoleCites(records, name)), name, people, roundNo, records)
  {
    hide CitesAll, TotalsOf, RolesOf, TotalsAre, Named;
    var role := RoleOf(people, name);
    CitedAll(records, About(AboutRole, RoleKind, name),
             (x: Draft) => x.subjectId == name && (x.subjectType == AboutRole || x.kind == RoleKind));
  }

  lemma RunClaimed(records: Records, runId: string, s: RunState, governance: nat)
    ensures RiskClaim(RiskBody(s, governance, Cited(records, Risks)), s, governance, records)
    ensures OverviewClaim(OverviewBody(s, Cited(records, Overall(runId))), s, runId, records)
  {
    hide CitesAll;
    CitedAll(records, Risks, (x: Draft) => x.kind == SimulationKind || x.kind == RoundKind);
    CitedAll(records, Overall(runId),
             (x: Draft) => x.kind == SimulationKind || (x.subjectType == AboutSimulation && x.subjectId == runId));
  }

  ghost predicate DistrictClaims(bodies: seq<Body>, roundNo: int, world: World, records: Records) {
    var gus := SortedIds(world.Keys);
    && |bodies| == 2 * |gus|
    && forall i :: 0 <= i < |gus| ==>
         && gus[i] in world
         && DistrictClaim(bodies[2 * i], Direction, gus[i], world[gus[i]], roundNo, records)
         && DistrictClaim(bodies[2 * i + 1], Volume, gus[i], world[gus[i]], roundNo, records)
  }

  ghost predicate RoleClaims(bodies: seq<Body>, roundNo: int, people: People, records: Records) {
    var roles := SortedIds(RolesOf(people));
    |bodies| == |roles| && forall i :: 0 <= i < |roles| ==> RoleClaimed(bodies[i], roles[i], people, roundNo, records)
  }

  /**
   The claims of a report: direction and volume of each district in order of its code, a
   summary of each role present in order of its name, the risks and the overview.
   */
  ghost predicate ClaimsAre(bodies: seq<Body>, records: Records, runId: string, s: RunState, governance: nat) {
    var n, m := 2 * |s.world|, |RolesOf(s.people)|;
    && |bodies| == n + m + 2
    && DistrictClaims(bodies[..n], s.roundNo, s.world, records)
    && RoleClaims(bodies[n..n + m], s.roundNo, s.people, records)
    && RiskClaim(bodies[n + m], s, governance, records)
    && OverviewClaim(bodies[n + m + 1], s, runId, records)
  }

  lemma DistrictsClaimed(records: Records, roundNo: int, world: World)
    ensures forall gu :: gu in SortedIds(world.Keys) ==> gu in world
    ensures |SortedIds(world.Keys)| == |world|
    ensures DistrictClaims(SegmentBodies(records, roundNo, world, SortedIds(world.Keys)), roundNo, world, records)
  {
    hide SegmentBodies, DistrictClaim, SortedIds;
    var gus := SortedIds(world.Keys);
    SortedIdsIn(world.Keys);
    SortedCount(world.Keys);
    forall i | 0 <= i < |gus|
      ensures var bodies := SegmentBodies(records, roundNo, world, gus);
              && DistrictClaim(bodies[2 * i], Direction, gus[i], world[gus[i]], roundNo, records)
              && DistrictClaim(bodies[2 * i + 1], Volume, gus[i], world[gus[i]], roundNo, records)
    {
      PairClaimed(records, roundNo, world, gus, i);
    }
  }

  lemma PairClaimed(records: Records, roundNo: int, world: World, gus: seq<string>, i: nat)
    requires i < |gus| && forall gu :: gu in gus ==> gu in world
    ensures var bodies := SegmentBodies(records, roundNo, world, gus);
            && DistrictClaim(bodies[2 * i], Direction, gus[i], world[gus[i]], roundNo, records)
            && DistrictClaim(bodies[2 * i + 1], Volume, gus[i], world[gus[i]], roundNo, records)
  {
    hide SegmentBodies, SegmentBody, SegmentCites, DistrictClaim;
    SegmentPair(records, roundNo, world, gus, i);
    DistrictClaimed(Direction, gus[i], world[gus[i]], roundNo, records);
    DistrictClaimed(Volume, gus[i], world[gus[i]], roundNo, records);
  }

  lemma RolesClaimed(records: Records, roundNo: int, people: People)
    ensures |SortedIds(RolesOf(people))| == |RolesOf(people)|
    ensures RoleClaims(RoleBodies(records, roundNo, people, SortedIds(RolesOf(people))), roundNo, people, records)
  {
    hide RoleBodies, RoleBody, RoleCites, TotalsOf, RolesOf, RoleClaimed;
    var roles := SortedIds(RolesOf(people));
    SortedCount(RolesOf(people));
    forall i | 0 <= i < |roles|
      ensures RoleClaimed(RoleBodies(records, roundNo, people, roles)[i], roles[i], people, roundNo, records)
    {
      assert roles[i] in Elements(roles);
      RoleBodyNo(records, roundNo, people, roles, i);
      RoleIsClaimed(roles[i], people, roundNo, records);
    }
  }

  lemma TwoLast<T>(xs: seq<T>, n: nat, a: T, b: T)
    requires n <= |xs| && xs[n..] == [a, b]
    ensures |xs| == n + 2 && xs[n] == a && xs[n + 1] == b
  {
    assert xs[n..][0] == a && xs[n..][1] == b;
  }

  lemma ClaimsExactly(records: Records, runId: string, s: RunState, governance: nat)
    ensures ClaimsAre(Bodies(records, runId, s, governance), records, runId, s, governance)
  {
    hide SegmentBodies, RoleBodies, RolesOf, DistrictClaims, RoleClaims, RiskClaim, OverviewClaim, RiskBody,
      OverviewBody, Cited, SortedIds;
    DistrictsClaimed(records, s.roundNo, s.world);
    RolesClaimed(records, s.roundNo, s.people);
    RunClaimed(records, runId, s, governance);
    var risk, overview := RiskBody(s, governance, Cited(records, Risks)), OverviewBody(s, Cited(records, Overall(runId)));
    Sections([], SegmentBodies(records, s.roundNo, s.world, SortedIds(s.world.Keys)),
             RoleBodies(records, s.roundNo, s.people, SortedIds(RolesOf(s.people))), [risk, overview]);
    assert [] + SegmentBodies(records, s.roundNo, s.world, SortedIds(s.world.Keys)) ==
           SegmentBodies(records, s.roundNo, s.world, SortedIds(s.world.Keys));
    TwoLast(Bodies(records, runId, s, governance), 2 * |s.world| + |RolesOf(s.people)|, risk, overview);
  }

  /* ---------- what the gate decides ---------- */

  /** A record speaks for a subject: the run, a role, a district, or whatever has that very id. */
  ghost predicate SpeaksFor(d: Draft, subject: string, runId: string, world: World) {
    if subject == "simulation" then d.subjectType == AboutSimulation && d.subjectId == runId
    else if exists name :: subject == "role:" + name then d.subjectType == AboutRole && subject == "role:" + d.subjectId
    else d.subjectId == subject && (subject in world ==> d.subjectType == AboutSegment)
  }

  lemma SpeaksExactly(d: Draft, subject: string, runId: string, s: RunState)
    ensures Supports(d, subject, ScopeOf(runId, s)) <==> SpeaksFor(d, subject, runId, s.world)
  {
    if "role:" <= subject {
      assert subject == "role:" + subject[5..];
    }
    if name :| subject == "role:" + name {
      assert name == subject[5..];
    }
  }

  ghost predicate AllKnown(b: Body, records: Records) {
    forall id :: id in b.evidenceIds ==> id in records
  }

  ghost predicate OnSubject(b: Body, records: Records, runId: string, s: RunState) {
    || b.subject == ""
    || exists id :: id in b.evidenceIds && id in records && SpeaksFor(records[id].draft, b.subject, runId, s.world)
  }

  ghost predicate OfRound(b: Body, records: Records, s: RunState) {
    exists id :: id in b.evidenceIds && id in records && records[id].draft.roundNo == s.roundNo
  }

  /** `id` is the first unknown one a claim cites. */
  ghost predicate FirstUnknown(b: Body, records: Records, id: string) {
    exists k :: 0 <= k < |b.evidenceIds| && b.evidenceIds[k] == id && id !in records
                && forall j :: 0 <= j < k ==> b.evidenceIds[j] in records
  }

  lemma SubjectExactly(b: Body, records: Records, runId: string, s: RunState)
    ensures OnSubject(b, records, runId, s) <==>
            b.subject == "" || SomeSupports(records, b.evidenceIds, b.subject, ScopeOf(runId, s))
  {
    hide Supports, SpeaksFor, ScopeOf;
    forall id | id in records
      ensures Supports(records[id].draft, b.subject, ScopeOf(runId, s)) <==>
              SpeaksFor(records[id].draft, b.subject, runId, s.world)
    {
      SpeaksExactly(records[id].draft, b.subject, runId, s);
    }
  }

  /** The verdict on a claim: the first thing wrong with it, in the order cited, known, on its subject, of the round. */
  lemma VerdictExactly(b: Body, records: Records, runId: string, s: RunState)
    ensures match Judge(b, records, ScopeOf(runId, s))
            case None => b.evidenceIds != [] && AllKnown(b, records) && OnSubject(b, records, runId, s) && OfRound(b, records, s)
            case Some(MissingIds) => b.evidenceIds == []
            case Some(MissingRecord(id)) => FirstUnknown(b, records, id)
            case Some(SubjectMismatch) =>
              b.evidenceIds != [] && AllKnown(b, records) && !OnSubject(b, records, runId, s)
            case Some(NoEvidenceForRound(n)) =>
              && b.evidenceIds != [] && AllKnown(b, records) && OnSubject(b, records, runId, s) && !OfRound(b, records, s)
              && n == s.roundNo
  {
    hide SomeSupports, OnSubject;
    SubjectExactly(b, records, runId, s);
    var ids := b.evidenceIds;
    var n := Found(records, ids);
    if n < |ids| {
      assert FirstUnknown(b, records, ids[n]);
    } else {
      forall id | id in ids ensures id in records { var k :| 0 <= k < |ids| && ids[k] == id; }
    }
  }

  /** The positions of the failing claims, in order. */
  ghost predicate FailedAt(at: seq<nat>, claims: seq<Claim>, records: Records, scope: Scope) {
    && (forall i, j :: 0 <= i < j < |at| ==> at[i] < at[j])
    && (forall i :: 0 <= i < |at| ==> at[i] < |claims|)
    && (forall k: nat :: k < |claims| ==> (k in at <==> Judge(claims[k].body, records, scope).Some?))
  }

  ghost predicate WarningsAt(at: seq<nat>, warnings: seq<GateWarning>, claims: seq<Claim>, records: Records, scope: Scope) {
    && |warnings| == |at|
    && forall i :: 0 <= i < |at| ==>
         at[i] < |claims| && Some(warnings[i].1) == Judge(claims[at[i]].body, records, scope)
         && warnings[i].0 == claims[at[i]].claimId
  }

  lemma FailedNext(at: seq<nat>, claims: seq<Claim>, records: Records, scope: Scope)
    requires claims != [] && FailedAt(at, claims[..|claims| - 1], records, scope)
    ensures var n := |claims| - 1;
            FailedAt(if Judge(claims[n].body, records, scope).Some? then at + [n] else at, claims, records, scope)
  {
    hide Judge;
    var n := |claims| - 1;
    var at' := if Judge(claims[n].body, records, scope).Some? then at + [n] else at;
    forall k: nat | k < |claims| ensures k in at' <==> Judge(claims[k].body, records, scope).Some? {
      if k < n { assert claims[..n][k] == claims[k]; }
      assert k in at ==> k < n;
    }
  }

  /** The warnings of a report are the verdicts on the failing claims, in order. */
  lemma {:induction false} WarningsExactly(claims: seq<Claim>, records: Records, scope: Scope) returns (at: seq<nat>)
    ensures FailedAt(at, claims, records, scope)
    ensures WarningsAt(at, Failing(claims, records, scope), claims, records, scope)
  {
    hide Judge, FailedAt;
    if claims == [] {
      at := [];
      NothingFailed(records, scope);
    } else {
      var n := |claims| - 1;
      var before := WarningsExactly(claims[..n], records, scope);
      FailedNext(before, claims, records, scope);
      at := if Judge(claims[n].body, records, scope).Some? then before + [n] else before;
    }
  }

  lemma NothingFailed(records: Records, scope: Scope)
    ensures FailedAt([], [], records, scope)
  {}
}
