/** The citation gate, and the chain builder, writer, gate: which claims of a report pass, exactly. */
module CitationGate {
  import opened Wrappers
  import opened Ordering
  import opened Market
  import opened Policies
  import opened Evidence
  import opened EvidenceBuilder
  import opened ReportWriter
  import opened RunLoop

  datatype Failure = MissingIds | MissingRecord(id: string) | SubjectMismatch | NoEvidenceForRound(roundNo: int)

  /** Whose report is checked: the run, its districts, and its final round. */
  datatype Scope = Scope(runId: string, gus: set<string>, roundNo: int)

  function ScopeOf(runId: string, s: RunState): Scope {
    Scope(runId, s.world.Keys, s.roundNo)
  }

  /** Subjects the gate reads as something other than a district code. */
  predicate Reserved(subject: string) {
    subject == "simulation" || "role:" <= subject
  }

  /** `_matches_subject` for a single record. */
  predicate Supports(d: Draft, subject: string, scope: Scope) {
    if subject == "simulation" then d.subjectType == AboutSimulation && d.subjectId == scope.runId
    else if "role:" <= subject then d.subjectType == AboutRole && d.subjectId == subject[5..]
    else if subject in scope.gus then d.subjectType == AboutSegment && d.subjectId == subject
    else d.subjectId == subject
  }

  /* ---------- the verdict on one claim ---------- */

  /** How many ids resolve before the first that does not. */
  function Found(records: Records, ids: seq<string>): (n: nat)
    ensures n <= |ids|
    ensures forall k :: 0 <= k < n ==> ids[k] in records
    ensures n < |ids| ==> ids[n] !in records
  {
    if ids == [] || ids[0] !in records then 0 else 1 + Found(records, ids[1..])
  }

  ghost predicate SomeSupports(records: Records, ids: seq<string>, subject: string, scope: Scope) {
    exists id :: id in ids && id in records && Supports(records[id].draft, subject, scope)
  }

  ghost predicate SomeInRound(records: Records, ids: seq<string>, roundNo: int) {
    exists id :: id in ids && id in records && records[id].draft.roundNo == roundNo
  }

  /** The gate's verdict: the first check that fails, if any. */
  ghost function Judge(b: Body, records: Records, scope: Scope): Option<Failure> {
    var ids := b.evidenceIds;
    if ids == [] then Some(MissingIds)
    else if Found(records, ids) < |ids| then Some(MissingRecord(ids[Found(records, ids)]))
    else if b.subject != "" && !SomeSupports(records, ids, b.subject, scope) then Some(SubjectMismatch)
    else if !SomeInRound(records, ids, scope.roundNo) then Some(NoEvidenceForRound(scope.roundNo))
    else None
  }

  /** A claim passes exactly when it cites only known records, among them one on its subject and one of the round. */
  lemma PassesExactly(b: Body, records: Records, scope: Scope)
    ensures Judge(b, records, scope).None? <==>
              && (forall id :: id in b.evidenceIds ==> id in records)
              && (b.subject == "" || SomeSupports(records, b.evidenceIds, b.subject, scope))
              && SomeInRound(records, b.evidenceIds, scope.roundNo)
  {
    var n := Found(records, b.evidenceIds);
    if n < |b.evidenceIds| {
      assert b.evidenceIds[n] in b.evidenceIds;
    }
  }

  /** Whether some record satisfies the subject check. */
  method AnySupports(records: seq<EvidenceRecord>, subject: string, scope: Scope) returns (found: bool)
    ensures found <==> exists k :: 0 <= k < |records| && Supports(records[k].draft, subject, scope)
  {
    found := false;
    var k := 0;
    while k < |records| && !found
      invariant 0 <= k <= |records|
      invariant found <==> exists j :: 0 <= j < k && Supports(records[j].draft, subject, scope)
    {
      found := Supports(records[k].draft, subject, scope);
      k := k + 1;
    }
  }

  method AnyInRound(records: seq<EvidenceRecord>, roundNo: int) returns (found: bool)
    ensures found <==> exists k :: 0 <= k < |records| && records[k].draft.roundNo == roundNo
  {
    found := false;
    var k := 0;
    while k < |records| && !found
      invariant 0 <= k <= |records|
      invariant found <==> exists j :: 0 <= j < k && records[j].draft.roundNo == roundNo
    {
      found := records[k].draft.roundNo == roundNo;
      k := k + 1;
    }
  }

  /** Looks the ids up one by one, stopping at the first unknown one. */
  method ResolveIds(store: EvidenceStore, ids: seq<string>) returns (failure: Option<Failure>, resolved: seq<EvidenceRecord>)
    ensures failure == if Found(store.records, ids) < |ids| then Some(MissingRecord(ids[Found(store.records, ids)])) else None
    ensures failure.None? ==> |resolved| == |ids|
    ensures failure.None? ==> forall k :: 0 <= k < |ids| ==> ids[k] in store.records && resolved[k] == store.records[ids[k]]
  {
    failure, resolved := None, [];
    var k := 0;
    while k < |ids|
      invariant 0 <= k <= |ids| && |resolved| == k
      invariant forall j :: 0 <= j < k ==> ids[j] in store.records && resolved[j] == store.records[ids[j]]
    {
      var record := store.Get(ids[k]);
      if record.None? {
        FoundIs(store.records, ids, k);
        failure := Some(MissingRecord(ids[k]));
        return;
      }
      resolved := resolved + [record.value];
      k := k + 1;
    }
  }

  lemma FoundIs(records: Records, ids: seq<string>, k: nat)
    requires k < |ids| && ids[k] !in records && forall j :: 0 <= j < k ==> ids[j] in records
    ensures Found(records, ids) == k
  {}

  lemma ResolvedSame(records: Records, ids: seq<string>, resolved: seq<EvidenceRecord>, subject: string, scope: Scope)
    requires |resolved| == |ids| && forall k :: 0 <= k < |ids| ==> ids[k] in records && resolved[k] == records[ids[k]]
    ensures SomeSupports(records, ids, subject, scope) <==>
              exists k :: 0 <= k < |resolved| && Supports(resolved[k].draft, subject, scope)
    ensures SomeInRound(records, ids, scope.roundNo) <==>
              exists k :: 0 <= k < |resolved| && resolved[k].draft.roundNo == scope.roundNo
  {
    if k :| 0 <= k < |resolved| && Supports(resolved[k].draft, subject, scope) {
      assert ids[k] in ids;
    }
    if k :| 0 <= k < |resolved| && resolved[k].draft.roundNo == scope.roundNo {
      assert ids[k] in ids;
    }
  }

  /** The checks on one claim, in the gate's order. */
  method CheckClaim(store: EvidenceStore, b: Body, scope: Scope) returns (failure: Option<Failure>)
    ensures failure == Judge(b, store.records, scope)
  {
    if b.evidenceIds == [] {
      return Some(MissingIds);
    }
    var resolved;
    failure, resolved := ResolveIds(store, b.evidenceIds);
    if failure.None? {
      ResolvedSame(store.records, b.evidenceIds, resolved, b.subject, scope);
    }
    if failure.None? && b.subject != "" {
      var matches := AnySupports(resolved, b.subject, scope);
      if !matches {
        failure := Some(SubjectMismatch);
      }
    }
    if failure.None? {
      var current := AnyInRound(resolved, scope.roundNo);
      if !current {
        failure := Some(NoEvidenceForRound(scope.roundNo));
      }
    }
  }

  /* ---------- the gate ---------- */

  type GateWarning = (string, Failure)

  datatype GateReport = GateReport(total: nat, passed: nat, failedIds: seq<string>, warnings: seq<GateWarning>)

  /** One warning per failing claim, in order. */
  ghost function Failing(claims: seq<Claim>, records: Records, scope: Scope): seq<GateWarning> {
    if claims == [] then [] else
      var last := claims[|claims| - 1];
      var verdict := Judge(last.body, records, scope);
      Failing(claims[..|claims| - 1], records, scope) + (if verdict.Some? then [(last.claimId, verdict.value)] else [])
  }

  /** Passed and failed claims add up to the total, and each failed claim has one warning. */
  method RunGate(store: EvidenceStore, claims: seq<Claim>, scope: Scope) returns (report: GateReport)
    ensures report.warnings == Failing(claims, store.records, scope)
    ensures report.total == |claims| == report.passed + |report.failedIds|
    ensures |report.failedIds| == |report.warnings|
    ensures forall k :: 0 <= k < |report.warnings| ==> report.failedIds[k] == report.warnings[k].0
  {
    var passed, failedIds, warnings := 0, [], [];
    var i := 0;
    while i < |claims|
      invariant 0 <= i <= |claims| && i == passed + |failedIds|
      invariant warnings == Failing(claims[..i], store.records, scope) && |failedIds| == |warnings|
      invariant forall k :: 0 <= k < |warnings| ==> failedIds[k] == warnings[k].0
    {
      assert claims[..i + 1][..i] == claims[..i];
      var failure := CheckClaim(store, claims[i].body, scope);
      if failure.None? {
        passed := passed + 1;
      } else {
        failedIds := failedIds + [claims[i].claimId];
        warnings := warnings + [(claims[i].claimId, failure.value)];
      }
      i := i + 1;
    }
    assert claims[..|claims|] == claims;
    report := GateReport(|claims|, passed, failedIds, warnings);
  }

  lemma {:induction false} AllPass(claims: seq<Claim>, records: Records, scope: Scope)
    ensures Failing(claims, records, scope) == [] <==>
              forall k :: 0 <= k < |claims| ==> Judge(claims[k].body, records, scope).None?
  {
    if claims != [] {
      AllPass(claims[..|claims| - 1], records, scope);
    }
  }

  /* ---------- what the builder recorded, the writer cites and the gate finds ---------- */

  /** Some record says `d`. */
  ghost predicate Holds(records: Records, d: Draft) {
    exists id :: id in records && records[id].draft == d
  }

  /** The store holds everything the builder records about the state. */
  ghost predicate Backed(records: Records, runId: string, s: RunState) {
    && Holds(records, SimulationDraft(runId, s))
    && (forall gu :: gu in s.world ==> Holds(records, SegmentDraft(s.roundNo, gu, s.world[gu])))
    && (forall role :: role in RolesOf(s.people) ==> Holds(records, RoleDraft(s.roundNo, role, TotalsOf(s.people, role))))
  }

  lemma FiledHolds(start: Records, ids: seq<string>, drafts: seq<Draft>, d: Draft)
    requires |ids| == |drafts| && Fresh(ids, start) && d in drafts
    ensures Holds(Filed(start, ids, drafts), d)
  {
    FiledAt(start, ids, drafts);
    var k :| 0 <= k < |drafts| && drafts[k] == d;
    assert ids[k] in Elements(ids);
  }

  lemma SegmentDrafted(roundNo: int, world: World, gus: seq<string>, gu: string)
    requires gu in gus && forall g :: g in gus ==> g in world
    ensures SegmentDraft(roundNo, gu, world[gu]) in SegmentDrafts(roundNo, world, gus)
  {
    var k :| 0 <= k < |gus| && gus[k] == gu;
    SegmentDraftAt(roundNo, world, gus, k);
  }

  lemma RoleDrafted(roundNo: int, people: People, roles: seq<string>, role: string)
    requires role in roles
    ensures RoleDraft(roundNo, role, TotalsOf(people, role)) in RoleDrafts(roundNo, people, roles)
  {
    var k :| 0 <= k < |roles| && roles[k] == role;
    RoleDraftAt(roundNo, people, roles, k);
  }

  /** After the build the store holds what the report needs, whatever it held before. */
  lemma BuildBacks(start: Records, ids: seq<string>, runId: string, roundSubject: string, s: RunState)
    requires |ids| == |Drafts(runId, roundSubject, s)| && Fresh(ids, start)
    ensures Backed(Filed(start, ids, Drafts(runId, roundSubject, s)), runId, s)
  {
    var drafts := Drafts(runId, roundSubject, s);
    SortedIdsIn(s.world.Keys);
    SortedIdsIn(RolesOf(s.people));
    assert drafts[0] == SimulationDraft(runId, s);
    FiledHolds(start, ids, drafts, SimulationDraft(runId, s));
    forall gu | gu in s.world ensures Holds(Filed(start, ids, drafts), SegmentDraft(s.roundNo, gu, s.world[gu])) {
      SegmentDrafted(s.roundNo, s.world, SortedIds(s.world.Keys), gu);
      FiledHolds(start, ids, drafts, SegmentDraft(s.roundNo, gu, s.world[gu]));
    }
    forall role | role in RolesOf(s.people)
      ensures Holds(Filed(start, ids, drafts), RoleDraft(s.roundNo, role, TotalsOf(s.people, role)))
    {
      RoleDrafted(s.roundNo, s.people, SortedIds(RolesOf(s.people)), role);
      FiledHolds(start, ids, drafts, RoleDraft(s.roundNo, role, TotalsOf(s.people, role)));
    }
  }

  /**
   A claim that cites what a query finds passes if the query finds a record that
   supports its subject and a record of the round.
   */
  lemma CitedPasses(b: Body, records: Records, query: Query, scope: Scope, d: Draft, current: Draft)
    requires b.evidenceIds == Cited(records, query)
    requires Holds(records, d) && Wanted(query, d) && (b.subject != "" ==> Supports(d, b.subject, scope))
    requires Holds(records, current) && Wanted(query, current) && current.roundNo == scope.roundNo
    ensures Judge(b, records, scope).None?
  {
    var id :| id in records && records[id].draft == d;
    CitedAre(records, query, id);
    var id' :| id' in records && records[id'].draft == current;
    CitedAre(records, query, id');
    forall other | other in b.evidenceIds ensures other in records { CitedAre(records, query, other); }
    PassesExactly(b, records, scope);
  }

  /** If a query finds records but none that supports the subject, the claim fails for its subject. */
  lemma UnsupportedFails(b: Body, records: Records, query: Query, scope: Scope, d: Draft)
    requires b.evidenceIds == Cited(records, query) && b.subject != "" && Holds(records, d) && Wanted(query, d)
    requires forall id :: id in records && Wanted(query, records[id].draft) ==> !Supports(records[id].draft, b.subject, scope)
    ensures Judge(b, records, scope) == Some(SubjectMismatch)
  {
    var found :| found in records && records[found].draft == d;
    CitedAre(records, query, found);
    forall id | id in b.evidenceIds ensures id in records && Wanted(query, records[id].draft) { CitedAre(records, query, id); }
    var n := Found(records, b.evidenceIds);
    if n < |b.evidenceIds| {
      CitedAre(records, query, b.evidenceIds[n]);
    }
  }

  /** A segment fact filed about a run called "simulation": no builder writes one. */
  ghost predicate Impostor(records: Records, runId: string) {
    runId == "simulation" && exists id :: id in records && PosesAsRun(records[id].draft)
  }

  predicate PosesAsRun(d: Draft) {
    d.kind == SegmentKind && d.subjectType == AboutSimulation && d.subjectId == "simulation"
  }

  /** The claims the gate rejects: those on a district whose code it reads as something else. */
  ghost predicate Rejected(b: Body, records: Records, runId: string) {
    && b.claimType in {Direction, Volume} && Reserved(b.subject)
    && !(b.subject == "simulation" && Impostor(records, runId))
  }

  /** A claim passes exactly when it is not rejected, and a rejected one fails for its subject. */
  ghost predicate ExactVerdict(b: Body, records: Records, runId: string, scope: Scope) {
    Judge(b, records, scope) == if Rejected(b, records, runId) then Some(SubjectMismatch) else None
  }

  /** No record about a district supports a reserved code, unless it poses as a fact about the run. */
  lemma ReservedUnsupported(d: Draft, gu: string, scope: Scope)
    requires Reserved(gu) && Wanted(About(AboutSegment, SegmentKind, gu), d)
    ensures Supports(d, gu, scope) <==> gu == "simulation" && scope.runId == "simulation" && PosesAsRun(d)
  {
    if "role:" <= gu {
      assert |gu[5..]| == |gu| - 5;
      assert gu[0] == 'r';
    }
  }

  lemma SegmentVerdict(records: Records, runId: string, s: RunState, b: Body)
    requires Backed(records, runId, s) && OnSegment(b, records, s)
    ensures ExactVerdict(b, records, runId, ScopeOf(runId, s))
  {
    var gu, query, scope := b.subject, About(AboutSegment, SegmentKind, b.subject), ScopeOf(runId, s);
    var built := SegmentDraft(s.roundNo, gu, s.world[gu]);
    if !Reserved(gu) {
      CitedPasses(b, records, query, scope, built, built);
    } else if gu == "simulation" && Impostor(records, runId) {
      var id :| id in records && PosesAsRun(records[id].draft);
      ReservedUnsupported(records[id].draft, gu, scope);
      CitedPasses(b, records, query, scope, records[id].draft, built);
    } else {
      forall id | id in records && Wanted(query, records[id].draft) ensures !Supports(records[id].draft, gu, scope) {
        ReservedUnsupported(records[id].draft, gu, scope);
      }
      UnsupportedFails(b, records, query, scope, built);
    }
  }

  lemma RolePasses(records: Records, runId: string, s: RunState, role: string)
    requires Backed(records, runId, s) && role in RolesOf(s.people)
    ensures Judge(RoleBody(role, TotalsOf(s.people, role), s.roundNo, RoleCites(records, role)),
                  records, ScopeOf(runId, s)).None?
  {
    var subject := "role:" + role;
    assert subject[0] == 'r' && subject[5..] == role;
    CitedPasses(RoleBody(role, TotalsOf(s.people, role), s.roundNo, RoleCites(records, role)), records,
                About(AboutRole, RoleKind, role), ScopeOf(runId, s), RoleDraft(s.roundNo, role, TotalsOf(s.people, role)),
                RoleDraft(s.roundNo, role, TotalsOf(s.people, role)));
  }

  lemma SimulationPasses(records: Records, runId: string, s: RunState, governance: nat)
    requires Backed(records, runId, s)
    ensures Judge(RiskBody(s, governance, Cited(records, Risks)), records, ScopeOf(runId, s)).None?
    ensures Judge(OverviewBody(s, Cited(records, Overall(runId))), records, ScopeOf(runId, s)).None?
  {
    var d := SimulationDraft(runId, s);
    CitedPasses(RiskBody(s, governance, Cited(records, Risks)), records, Risks, ScopeOf(runId, s), d, d);
    CitedPasses(OverviewBody(s, Cited(records, Overall(runId))), records, Overall(runId), ScopeOf(runId, s), d, d);
  }

  lemma RoleVerdict(records: Records, runId: string, s: RunState, b: Body, role: string)
    requires Backed(records, runId, s) && OnRole(b, records, s, role)
    ensures ExactVerdict(b, records, runId, ScopeOf(runId, s))
  {
    RolePasses(records, runId, s, role);
  }

  lemma SimulationVerdict(records: Records, runId: string, s: RunState, governance: nat)
    requires Backed(records, runId, s)
    ensures ExactVerdict(RiskBody(s, governance, Cited(records, Risks)), records, runId, ScopeOf(runId, s))
    ensures ExactVerdict(OverviewBody(s, Cited(records, Overall(runId))), records, runId, ScopeOf(runId, s))
  {
    SimulationPasses(records, runId, s, governance);
  }

  /** Which claims of a report pass: all but the rejected ones. */
  lemma BodyPasses(records: Records, runId: string, s: RunState, governance: nat, b: Body)
    requires Backed(records, runId, s) && b in Bodies(records, runId, s, governance)
    ensures ExactVerdict(b, records, runId, ScopeOf(runId, s))
  {
    BodyCases(records, runId, s, governance, b);
    SimulationVerdict(records, runId, s, governance);
    if OnSegment(b, records, s) {
      SegmentVerdict(records, runId, s, b);
    } else if role :| OnRole(b, records, s, role) {
      RoleVerdict(records, runId, s, b, role);
    }
  }

  lemma NumberedBody(claims: seq<Claim>, bodies: seq<Body>, ids: seq<string>, k: nat)
    requires Numbered(claims, bodies, ids) && k < |claims|
    ensures claims[k].body in bodies
  {}

  lemma SegmentDraftsAbout(roundNo: int, world: World, gus: seq<string>)
    requires forall gu :: gu in gus ==> gu in world
    ensures forall d :: d in SegmentDrafts(roundNo, world, gus) ==> d.subjectType == AboutSegment
  {}

  lemma RoleDraftsKind(roundNo: int, people: People, roles: seq<string>)
    ensures forall d :: d in RoleDrafts(roundNo, people, roles) ==> d.kind == RoleKind
  {}

  lemma DraftCoherent(runId: string, roundSubject: string, s: RunState, d: Draft)
    requires d in Drafts(runId, roundSubject, s) && d.kind == SegmentKind
    ensures d.subjectType == AboutSegment
  {
    SortedIdsIn(s.world.Keys);
    SegmentDraftsAbout(s.roundNo, s.world, SortedIds(s.world.Keys));
    RoleDraftsKind(s.roundNo, s.people, SortedIds(RolesOf(s.people)));
  }

  /** Records of the segment kind are about segments, as every record the builder makes is. */
  ghost predicate Coherent(records: Records) {
    forall id :: id in records && records[id].draft.kind == SegmentKind ==> records[id].draft.subjectType == AboutSegment
  }

  /** Building keeps a store coherent. */
  lemma BuildCoherent(start: Records, ids: seq<string>, runId: string, roundSubject: string, s: RunState)
    requires |ids| == |Drafts(runId, roundSubject, s)| && Fresh(ids, start) && Coherent(start)
    ensures Coherent(Filed(start, ids, Drafts(runId, roundSubject, s)))
    ensures !Impostor(Filed(start, ids, Drafts(runId, roundSubject, s)), runId)
  {
    var drafts := Drafts(runId, roundSubject, s);
    var records := Filed(start, ids, drafts);
    FiledAt(start, ids, drafts);
    forall id | id in records && records[id].draft.kind == SegmentKind ensures records[id].draft.subjectType == AboutSegment {
      if id !in start {
        var k :| 0 <= k < |ids| && ids[k] == id;
        DraftCoherent(runId, roundSubject, s, drafts[k]);
      }
    }
  }

  /** A build never files a record that poses as a fact about the run. */
  lemma BuildAddsNoImpostor(start: Records, ids: seq<string>, runId: string, roundSubject: string, s: RunState)
    requires |ids| == |Drafts(runId, roundSubject, s)| && Fresh(ids, start)
    ensures Impostor(Filed(start, ids, Drafts(runId, roundSubject, s)), runId) <==> Impostor(start, runId)
  {
    var drafts := Drafts(runId, roundSubject, s);
    var records := Filed(start, ids, drafts);
    FiledAt(start, ids, drafts);
    if id :| id in start && PosesAsRun(start[id].draft) {
      assert id in records && PosesAsRun(records[id].draft);
    }
    if id :| id in records && PosesAsRun(records[id].draft) {
      if id !in start {
        var k :| 0 <= k < |ids| && ids[k] == id;
        NoDraftPoses(runId, roundSubject, s, drafts[k]);
      }
    }
  }

  lemma NoDraftPoses(runId: string, roundSubject: string, s: RunState, d: Draft)
    requires d in Drafts(runId, roundSubject, s)
    ensures !PosesAsRun(d)
  {
    if d.kind == SegmentKind { DraftCoherent(runId, roundSubject, s, d); }
  }

  /**
   The chain, for any prior contents of the store: every claim written about a state
   after its evidence was built passes the gate, except exactly the claims on a district
   whose code starts with "role:", or is "simulation" while the store held no segment
   fact posing as one about a run of that name. Those fail for their subject.
   */
  lemma ReportPasses(start: Records, ids: seq<string>, roundSubject: string, runId: string, s: RunState, governance: nat,
                     claims: seq<Claim>, claimIds: seq<string>, k: nat)
    requires |ids| == |Drafts(runId, roundSubject, s)| && Fresh(ids, start) && k < |claims|
    requires Numbered(claims, Bodies(Filed(start, ids, Drafts(runId, roundSubject, s)), runId, s, governance), claimIds)
    ensures Judge(claims[k].body, Filed(start, ids, Drafts(runId, roundSubject, s)), ScopeOf(runId, s)) ==
            if Rejected(claims[k].body, start, runId) then Some(SubjectMismatch) else None
  {
    var records := Filed(start, ids, Drafts(runId, roundSubject, s));
    BuildBacks(start, ids, runId, roundSubject, s);
    BuildAddsNoImpostor(start, ids, runId, roundSubject, s);
    NumberedBody(claims, Bodies(records, runId, s, governance), claimIds, k);
    BodyPasses(records, runId, s, governance, claims[k].body);
  }

  /** The direction claim on the district is in the report, and the gate rejects it. */
  ghost predicate DirectionRejected(start: Records, ids: seq<string>, runId: string, s: RunState, governance: nat, gu: string) {
    && gu in s.world && |ids| == |Drafts(runId, "", s)| && Fresh(ids, start)
    && var records := Filed(start, ids, Drafts(runId, "", s));
       var b := SegmentBody(Direction, gu, s.world[gu], s.roundNo, SegmentCites(records, gu));
       b in Bodies(records, runId, s, governance) && Judge(b, records, ScopeOf(runId, s)) == Some(SubjectMismatch)
  }

  /** On every store, the direction of a district whose code starts with "role:" is rejected. */
  lemma RoleDistrictRejected(start: Records, ids: seq<string>, runId: string, s: RunState, governance: nat, gu: string)
    requires |ids| == |Drafts(runId, "", s)| && Fresh(ids, start) && gu in s.world && "role:" <= gu
    ensures DirectionRejected(start, ids, runId, s, governance, gu)
  {
    hide Bodies, Judge, Filed, Drafts, Backed;
    var records := Filed(start, ids, Drafts(runId, "", s));
    assert gu[0] == 'r';
    DirectionWritten(records, runId, s, governance, gu);
    BuildBacks(start, ids, runId, "", s);
    BodyPasses(records, runId, s, governance, SegmentBody(Direction, gu, s.world[gu], s.roundNo, SegmentCites(records, gu)));
  }

  /** There is a sound initial state, with a single district, whose report the gate rejects in part. */
  lemma RejectionWitness(runId: string, governance: nat) returns (s: RunState)
    ensures s.Ready() && DirectionRejected(map[], ["a", "b"], runId, s, governance, "role:x")
  {
    hide DirectionRejected;
    var gu := "role:x";
    s := RunState(Scenario("", [], 0, 0, []), [gu], map[gu := Segment(gu, "x", 1, 0, Flat, 0.5, 0.0)], [], map[],
                  0, 0, [], None);
    assert Elements(s.segments) == s.world.Keys && Elements(s.members) == s.people.Keys;
    DraftsOfOne(runId, s, gu);
    assert "a"[0] != "b"[0];
    RoleDistrictRejected(map[], ["a", "b"], runId, s, governance, gu);
  }

  lemma DraftsOfOne(runId: string, s: RunState, gu: string)
    requires s.world.Keys == {gu} && s.people == map[] && s.lastOutcome == None
    ensures |Drafts(runId, "", s)| == 2
  {
    assert RolesOf(s.people) == {};
    assert |s.world| == |s.world.Keys|;
  }

  lemma DirectionWritten(records: Records, runId: string, s: RunState, governance: nat, gu: string)
    requires gu in s.world
    ensures SegmentBody(Direction, gu, s.world[gu], s.roundNo, SegmentCites(records, gu))
            in Bodies(records, runId, s, governance)
  {
    SortedIdsIn(s.world.Keys);
    SegmentBodyAt(records, s.roundNo, s.world, SortedIds(s.world.Keys),
                  SegmentBody(Direction, gu, s.world[gu], s.roundNo, SegmentCites(records, gu)));
  }

  /** No district code makes the gate reject a claim. */
  ghost predicate Accepted(world: World, prior: Records, runId: string) {
    forall gu :: gu in world && Reserved(gu) ==> gu == "simulation" && Impostor(prior, runId)
  }

  lemma NotRejected(records: Records, start: Records, runId: string, s: RunState, governance: nat, b: Body)
    requires b in Bodies(records, runId, s, governance) && Accepted(s.world, start, runId)
    ensures !Rejected(b, start, runId)
  {
    hide Reserved, Impostor, Bodies, OnRole;
    BodyCases(records, runId, s, governance, b);
    if role :| OnRole(b, records, s, role) { RoleClaim(b, records, s, role); }
  }

  lemma RoleClaim(b: Body, records: Records, s: RunState, role: string)
    requires OnRole(b, records, s, role)
    ensures b.claimType == ParticipantSummary
  {}

  lemma ClaimOf(claims: seq<Claim>, bodies: seq<Body>, ids: seq<string>, b: Body) returns (k: nat)
    requires Numbered(claims, bodies, ids) && b in bodies
    ensures k < |claims| && claims[k].body == b
  {
    k :| 0 <= k < |bodies| && bodies[k] == b;
  }

  /** The gate has nothing to say exactly when every district code is accepted. */
  lemma NothingFails(start: Records, ids: seq<string>, roundSubject: string, runId: string, s: RunState, governance: nat,
                     claims: seq<Claim>, claimIds: seq<string>)
    requires |ids| == |Drafts(runId, roundSubject, s)| && Fresh(ids, start)
    requires Numbered(claims, Bodies(Filed(start, ids, Drafts(runId, roundSubject, s)), runId, s, governance), claimIds)
    ensures Failing(claims, Filed(start, ids, Drafts(runId, roundSubject, s)), ScopeOf(runId, s)) == [] <==>
            Accepted(s.world, start, runId)
  {
    hide Filed, Drafts, Bodies, Judge, Failing, Numbered, Rejected, Reserved, Impostor, Fresh;
    var records := Filed(start, ids, Drafts(runId, roundSubject, s));
    forall k | 0 <= k < |claims|
      ensures Judge(claims[k].body, records, ScopeOf(runId, s)).None? <==> !Rejected(claims[k].body, start, runId)
      ensures claims[k].body in Bodies(records, runId, s, governance)
    {
      ReportPasses(start, ids, roundSubject, runId, s, governance, claims, claimIds, k);
      NumberedBody(claims, Bodies(records, runId, s, governance), claimIds, k);
    }
    AllPass(claims, records, ScopeOf(runId, s));
    if Accepted(s.world, start, runId) {
      forall k | 0 <= k < |claims| ensures !Rejected(claims[k].body, start, runId) {
        NotRejected(records, start, runId, s, governance, claims[k].body);
      }
    } else {
      var gu :| gu in s.world && Reserved(gu) && !(gu == "simulation" && Impostor(start, runId));
      DirectionWritten(records, runId, s, governance, gu);
      var b := SegmentBody(Direction, gu, s.world[gu], s.roundNo, SegmentCites(records, gu));
      var k := ClaimOf(claims, Bodies(records, runId, s, governance), claimIds, b);
      ReservedRejected(b, start, runId);
    }
  }

  lemma ReservedRejected(b: Body, start: Records, runId: string)
    requires b.claimType == Direction && Reserved(b.subject) && !(b.subject == "simulation" && Impostor(start, runId))
    ensures Rejected(b, start, runId)
  {}

  /** Each claim of the report gets its exact verdict: none, or a rejection of its district's code. */
  ghost predicate Judged(claims: seq<Claim>, records: Records, start: Records, runId: string, s: RunState) {
    forall k :: 0 <= k < |claims| ==>
      Judge(claims[k].body, records, ScopeOf(runId, s)) ==
        if Rejected(claims[k].body, start, runId) then Some(SubjectMismatch) else None
  }

  lemma AllJudged(start: Records, ids: seq<string>, roundSubject: string, runId: string, s: RunState, governance: nat,
                  claims: seq<Claim>, claimIds: seq<string>)
    requires |ids| == |Drafts(runId, roundSubject, s)| && Fresh(ids, start)
    requires Numbered(claims, Bodies(Filed(start, ids, Drafts(runId, roundSubject, s)), runId, s, governance), claimIds)
    ensures Judged(claims, Filed(start, ids, Drafts(runId, roundSubject, s)), start, runId, s)
  {
    hide Judge, Rejected, Filed, Drafts, Bodies;
    forall k | 0 <= k < |claims|
      ensures Judge(claims[k].body, Filed(start, ids, Drafts(runId, roundSubject, s)), ScopeOf(runId, s)) ==
              if Rejected(claims[k].body, start, runId) then Some(SubjectMismatch) else None
    {
      ReportPasses(start, ids, roundSubject, runId, s, governance, claims, claimIds, k);
    }
  }

  /* ---------- the numbers agree ---------- */

  /** What a claim reports is what the fact records. */
  predicate Agrees(m: Metrics, fact: Fact) {
    match (m, fact)
    case (SegmentMetrics(price, volume, _), SegmentFact(_, _, p, v, _, _)) => price == p && volume == v
    case (RoleMetrics(totals, _), RoleFact(_, t)) => totals == t
    case (OverviewMetrics(rounds, segments, people), SimulationFact(r, n, m, _)) => rounds == r && segments == n && people == m
    case (RiskMetrics(_, _, rounds), SimulationFact(r, _, _, _)) => rounds == r
    case _ => false
  }

  ghost predicate CitesItsSource(b: Body, records: Records, roundNo: int) {
    exists id :: id in b.evidenceIds && id in records && records[id].draft.roundNo == roundNo
                 && Agrees(b.metrics, records[id].draft.fact)
  }

  lemma CitesDraft(b: Body, records: Records, query: Query, d: Draft)
    requires b.evidenceIds == Cited(records, query) && Holds(records, d) && Wanted(query, d) && Agrees(b.metrics, d.fact)
    ensures CitesItsSource(b, records, d.roundNo)
  {
    var id :| id in records && records[id].draft == d;
    CitedAre(records, query, id);
  }

  /** Every claim cites a record of the final round that states the very numbers the claim reports. */
  lemma ClaimsCiteTheirSource(records: Records, runId: string, s: RunState, governance: nat, b: Body)
    requires Backed(records, runId, s) && b in Bodies(records, runId, s, governance)
    ensures CitesItsSource(b, records, s.roundNo)
  {
    BodyCases(records, runId, s, governance, b);
    if OnSegment(b, records, s) {
      CitesDraft(b, records, About(AboutSegment, SegmentKind, b.subject),
                 SegmentDraft(s.roundNo, b.subject, s.world[b.subject]));
    } else if role :| OnRole(b, records, s, role) {
      CitesDraft(b, records, About(AboutRole, RoleKind, role), RoleDraft(s.roundNo, role, TotalsOf(s.people, role)));
    } else if b == RiskBody(s, governance, Cited(records, Risks)) {
      CitesDraft(b, records, Risks, SimulationDraft(runId, s));
    } else {
      CitesDraft(b, records, Overall(runId), SimulationDraft(runId, s));
    }
  }

  /* ---------- the chain ---------- */

  /**
   The report on a state: its claims in order, each citing a record with its own numbers
   and judged exactly; nothing fails exactly when every district code is accepted.
   */
  ghost predicate Reported(claims: seq<Claim>, report: GateReport, records: Records, prior: Records, runId: string,
                           s: RunState, governance: nat, claimIds: seq<string>)
  {
    && Numbered(claims, Bodies(records, runId, s, governance), claimIds)
    && |claims| == 2 * |s.world| + |RolesOf(s.people)| + 2
    && (forall k :: 0 <= k < |claims| ==> CitesItsSource(claims[k].body, records, s.roundNo))
    && Judged(claims, records, prior, runId, s)
    && report.warnings == Failing(claims, records, ScopeOf(runId, s))
    && report.total == |claims| == report.passed + |report.failedIds| && |report.failedIds| == |report.warnings|
    && (report.warnings == [] <==> Accepted(s.world, prior, runId))
  }

  /** Without a reserved code every claim passes. */
  lemma AllPassUnreserved(claims: seq<Claim>, report: GateReport, records: Records, prior: Records, runId: string,
                          s: RunState, governance: nat, claimIds: seq<string>)
    requires Reported(claims, report, records, prior, runId, s, governance, claimIds)
    requires forall gu :: gu in s.world ==> !Reserved(gu)
    ensures report == GateReport(|claims|, |claims|, [], [])
  {
    hide Numbered, Judged, Failing, CitesItsSource, Reserved, Bodies, RolesOf, ScopeOf, Impostor;
    NoWarnings(report, |claims|);
  }

  lemma NoWarnings(report: GateReport, n: nat)
    requires report.total == n == report.passed + |report.failedIds| && |report.failedIds| == |report.warnings|
    ensures report.warnings == [] ==> report == GateReport(n, n, [], [])
  {}

  lemma AllCiteTheirSource(records: Records, runId: string, s: RunState, governance: nat, claims: seq<Claim>,
                           claimIds: seq<string>)
    requires Backed(records, runId, s) && Numbered(claims, Bodies(records, runId, s, governance), claimIds)
    ensures forall k :: 0 <= k < |claims| ==> CitesItsSource(claims[k].body, records, s.roundNo)
  {
    hide Backed, CitesItsSource, Numbered, Bodies;
    forall k | 0 <= k < |claims| ensures CitesItsSource(claims[k].body, records, s.roundNo) {
      NumberedBody(claims, Bodies(records, runId, s, governance), claimIds, k);
      ClaimsCiteTheirSource(records, runId, s, governance, claims[k].body);
    }
  }

  /**
   Builder, writer and gate in a row, for any prior contents of the store: the store keeps
   them and holds the run's evidence, and the report is that of the state.
   */
  method ReportChain(store: EvidenceStore, runId: string, roundSubject: string, s: RunState, governance: nat,
                     evidenceIds: seq<string>, claimIds: seq<string>)
    returns (claims: seq<Claim>, report: GateReport)
    requires store.Valid() && s.WellKeyed() && Fresh(evidenceIds, store.records)
    requires |Drafts(runId, roundSubject, s)| <= |evidenceIds| && 2 * |s.world| + |RolesOf(s.people)| + 2 <= |claimIds|
    modifies store
    ensures store.records ==
            Filed(old(store.records), evidenceIds[..|Drafts(runId, roundSubject, s)|], Drafts(runId, roundSubject, s))
    ensures Reported(claims, report, store.records, old(store.records), runId, s, governance, claimIds)
  {
    hide Filed, Drafts, Bodies, WellFiled, Judged, Accepted, Numbered, Failing, Backed, Fresh, CitesItsSource, RolesOf,
      RunState.WellKeyed;
    ghost var prior := store.records;
    var refs := BuildEvidence(store, runId, roundSubject, s, evidenceIds);
    BodyCount(store.records, runId, s, governance);
    claims := WriteReport(store, runId, s, governance, claimIds);
    ClaimCount(claims, Bodies(store.records, runId, s, governance), claimIds);
    FreshPrefix(evidenceIds, |refs|, prior);
    AllJudged(prior, refs, roundSubject, runId, s, governance, claims, claimIds);
    NothingFails(prior, refs, roundSubject, runId, s, governance, claims, claimIds);
    BuildBacks(prior, refs, runId, roundSubject, s);
    AllCiteTheirSource(store.records, runId, s, governance, claims, claimIds);
    report := RunGate(store, claims, ScopeOf(runId, s));
  }

  lemma ClaimCount(claims: seq<Claim>, bodies: seq<Body>, ids: seq<string>)
    requires Numbered(claims, bodies, ids)
    ensures |claims| == |bodies|
  {}

  lemma FreshPrefix(ids: seq<string>, n: nat, records: Records)
    requires Fresh(ids, records) && n <= |ids|
    ensures Fresh(ids[..n], records)
  {}
}
