/** The node that records the evidence of a run's final state. */
module EvidenceBuilder {
  import opened Wrappers
  import opened Ordering
  import opened Market
  import opened Evidence
  import opened RunLoop

  /* ---------- what the builder records ---------- */

  function SimulationDraft(runId: string, s: RunState): Draft {
    Draft(SimulationKind, AboutSimulation, runId, s.roundNo,
          SimulationFact(s.roundNo, |s.world|, |s.people|, ReasonFor(s.lastOutcome)))
  }

  function SegmentDraft(roundNo: int, gu: string, s: Segment): Draft {
    Draft(SegmentKind, AboutSegment, gu, roundNo,
          SegmentFact(gu, s.guName, s.medianPrice, s.volume, s.trend, s.sentiment))
  }

  function RoleDraft(roundNo: int, role: string, totals: RoleTotals): Draft {
    Draft(RoleKind, AboutRole, role, roundNo, RoleFact(role, totals))
  }

  /** `subject` is the printed `round-n`. */
  function RoundDraft(subject: string, outcome: RoundOutcome): Draft {
    Draft(RoundKind, AboutRound, subject, outcome.roundNo,
          RoundFact(outcome.roundNo, outcome.resolved, outcome.clearedVolume, outcome.priceChanges))
  }

  ghost function SegmentDrafts(roundNo: int, world: World, gus: seq<string>): (drafts: seq<Draft>)
    requires forall gu :: gu in gus ==> gu in world
    ensures |drafts| == |gus|
  {
    seq(|gus|, i requires 0 <= i < |gus| => SegmentDraft(roundNo, gus[i], world[gus[i]]))
  }

  ghost function RoleDrafts(roundNo: int, people: People, roles: seq<string>): (drafts: seq<Draft>)
    ensures |drafts| == |roles|
  {
    seq(|roles|, i requires 0 <= i < |roles| => RoleDraft(roundNo, roles[i], TotalsOf(people, roles[i])))
  }

  ghost function RoundDrafts(subject: string, lastOutcome: Option<RoundOutcome>): seq<Draft> {
    if lastOutcome.Some? then [RoundDraft(subject, lastOutcome.value)] else []
  }

  /** What the builder records about the run, its segments and its roles. */
  ghost function MarketDrafts(runId: string, s: RunState): (drafts: seq<Draft>)
    ensures |drafts| == 1 + |s.world| + |RolesOf(s.people)|
  {
    SortedIdsIn(s.world.Keys);
    [SimulationDraft(runId, s)] + SegmentDrafts(s.roundNo, s.world, SortedIds(s.world.Keys))
    + RoleDrafts(s.roundNo, s.people, SortedIds(RolesOf(s.people)))
  }

  /** Everything the builder records about a final state, in order. */
  ghost function Drafts(runId: string, subject: string, s: RunState): seq<Draft> {
    MarketDrafts(runId, s) + RoundDrafts(subject, s.lastOutcome)
  }

  /* ---------- filing under fresh ids ---------- */

  /** `records` with draft k filed under `ids[k]`. */
  ghost function Filed(records: Records, ids: seq<string>, drafts: seq<Draft>): Records
    requires |ids| == |drafts|
  {
    if drafts == [] then records else
      var n := |drafts| - 1;
      Filed(records, ids[..n], drafts[..n])[ids[n] := EvidenceRecord(ids[n], drafts[n])]
  }

  /** Ids that have not been handed out before. */
  ghost predicate Fresh(ids: seq<string>, records: Records) {
    Distinct(ids) && forall id :: id in ids ==> id !in records
  }

  lemma FreshSplit(ids: seq<string>, n: nat, records: Records)
    requires Fresh(ids, records) && n < |ids|
    ensures Fresh(ids[..n], records) && ids[n] !in records && ids[n] !in ids[..n]
  {}

  /** Filing one more draft under an unused id keeps what was filed. */
  lemma FiledAtNext(records: Records, filed: Records, ids: seq<string>, drafts: seq<Draft>, n: nat)
    requires |ids| == |drafts| == n + 1 && ids[n] !in records && ids[n] !in ids[..n]
    requires filed.Keys == records.Keys + Elements(ids[..n])
    requires forall id :: id in records ==> filed[id] == records[id]
    requires forall k :: 0 <= k < n ==> filed[ids[..n][k]] == EvidenceRecord(ids[..n][k], drafts[..n][k])
    ensures var filed' := filed[ids[n] := EvidenceRecord(ids[n], drafts[n])];
            && filed'.Keys == records.Keys + Elements(ids)
            && (forall id :: id in records ==> filed'[id] == records[id])
            && forall k :: 0 <= k < |ids| ==> filed'[ids[k]] == EvidenceRecord(ids[k], drafts[k])
  {
    assert ids == ids[..n] + [ids[n]];
    assert Elements(ids) == Elements(ids[..n]) + {ids[n]};
    assert forall k :: 0 <= k < n ==> ids[k] == ids[..n][k] && drafts[k] == drafts[..n][k];
  }

  lemma {:induction false} FiledAt(records: Records, ids: seq<string>, drafts: seq<Draft>)
    requires |ids| == |drafts| && Fresh(ids, records)
    ensures Filed(records, ids, drafts).Keys == records.Keys + Elements(ids)
    ensures forall id :: id in records ==> Filed(records, ids, drafts)[id] == records[id]
    ensures forall k :: 0 <= k < |ids| ==> Filed(records, ids, drafts)[ids[k]] == EvidenceRecord(ids[k], drafts[k])
    decreases |drafts|
  {
    if drafts != [] {
      var n := |drafts| - 1;
      FreshSplit(ids, n, records);
      FiledAt(records, ids[..n], drafts[..n]);
      FiledAtNext(records, Filed(records, ids[..n], drafts[..n]), ids, drafts, n);
    } else {
      assert Elements(ids) == {};
    }
  }

  /** The store after some drafts of a build have been filed. */
  ghost predicate Building(store: EvidenceStore, start: Records, ids: seq<string>, drafts: seq<Draft>, refs: seq<string>)
    reads store
  {
    && store.Valid() && Fresh(ids, start) && |refs| == |drafts| <= |ids| && refs == ids[..|drafts|]
    && store.records == Filed(start, refs, drafts)
  }

  lemma NextFresh(ids: seq<string>, n: nat, records: Records)
    requires Fresh(ids, records) && n < |ids|
    ensures ids[n] !in records && ids[n] !in Elements(ids[..n])
  {}

  lemma FiledOneMore(records: Records, ids: seq<string>, drafts: seq<Draft>, id: string, draft: Draft)
    requires |ids| == |drafts|
    ensures Filed(records, ids + [id], drafts + [draft]) == Filed(records, ids, drafts)[id := EvidenceRecord(id, draft)]
  {
    assert (ids + [id])[..|drafts|] == ids && (drafts + [draft])[..|drafts|] == drafts;
  }

  /** The next id is unused, and filing a draft under it continues the build. */
  lemma NextFiled(start: Records, ids: seq<string>, drafts: seq<Draft>, refs: seq<string>, draft: Draft)
    requires Fresh(ids, start) && |refs| == |drafts| < |ids| && refs == ids[..|drafts|]
    ensures ids[|refs|] !in Filed(start, refs, drafts)
    ensures refs + [ids[|refs|]] == ids[..|drafts| + 1]
    ensures Filed(start, refs + [ids[|refs|]], drafts + [draft]) ==
            Filed(start, refs, drafts)[ids[|refs|] := EvidenceRecord(ids[|refs|], draft)]
  {
    FiledAt(start, refs, drafts);
    NextFresh(ids, |refs|, start);
    FiledOneMore(start, refs, drafts, ids[|refs|], draft);
  }

  /** Files one draft under the next fresh id. */
  method File(store: EvidenceStore, ghost start: Records, ids: seq<string>, ghost drafts: seq<Draft>, refs: seq<string>,
              draft: Draft)
    returns (refs': seq<string>)
    requires Building(store, start, ids, drafts, refs) && |drafts| < |ids|
    modifies store
    ensures Building(store, start, ids, drafts + [draft], refs')
  {
    hide Filed, Fresh;
    NextFiled(start, ids, drafts, refs, draft);
    var id := ids[|refs|];
    refs' := refs + [id];
    var ok := store.Add(EvidenceRecord(id, draft));
  }

  lemma SegmentDraftAt(roundNo: int, world: World, gus: seq<string>, i: nat)
    requires i < |gus| && forall gu :: gu in gus ==> gu in world
    ensures gus[i] in world && SegmentDrafts(roundNo, world, gus)[i] == SegmentDraft(roundNo, gus[i], world[gus[i]])
  {}

  lemma RoleDraftAt(roundNo: int, people: People, roles: seq<string>, i: nat)
    requires i < |roles|
    ensures RoleDrafts(roundNo, people, roles)[i] == RoleDraft(roundNo, roles[i], TotalsOf(people, roles[i]))
  {}

  lemma OneMoreOf(before: seq<Draft>, all: seq<Draft>, i: nat)
    requires i < |all|
    ensures before + all[..i + 1] == (before + all[..i]) + [all[i]]
  {}

  /** The roles present in order, each with its totals. */
  lemma RolesInOrder(people: People, data: map<string, RoleTotals>, order: seq<string>)
    requires Tallied(people, data, order)
    ensures Sort(Less, order) == SortedIds(RolesOf(people))
    ensures forall role :: role in SortedIds(RolesOf(people)) ==> role in data && data[role] == TotalsOf(people, role)
  {
    hide TotalsOf, RolesOf;
    SortGivesIds(order);
    SortedIdsIn(RolesOf(people));
  }

  lemma DistrictsInOrder(segments: seq<string>, world: World)
    requires Distinct(segments) && Elements(segments) == world.Keys
    ensures Sort(Less, segments) == SortedIds(world.Keys) && |SortedIds(world.Keys)| == |segments|
    ensures forall gu :: gu in SortedIds(world.Keys) ==> gu in world
  {
    SortGivesIds(segments);
    DistinctCount(segments);
    SortedIdsIn(world.Keys);
  }

  /** The segments of a state, filed in sorted order. */
  method FileSegments(store: EvidenceStore, ghost start: Records, ids: seq<string>, ghost drafts: seq<Draft>, refs: seq<string>,
                      roundNo: int, segments: seq<string>, world: World)
    returns (refs': seq<string>)
    requires Building(store, start, ids, drafts, refs) && |drafts| + |segments| <= |ids|
    requires Distinct(segments) && Elements(segments) == world.Keys
    modifies store
    ensures forall gu :: gu in SortedIds(world.Keys) ==> gu in world
    ensures Building(store, start, ids, drafts + SegmentDrafts(roundNo, world, SortedIds(world.Keys)), refs')
  {
    hide Building, SegmentDrafts, Sort, Elements, Distinct;
    DistrictsInOrder(segments, world);
    var gus := Sort(Less, segments);
    ghost var all := SegmentDrafts(roundNo, world, gus);
    refs' := refs;
    var i := 0;
    assert drafts + all[..0] == drafts;
    while i < |gus|
      invariant 0 <= i <= |gus|
      invariant Building(store, start, ids, drafts + all[..i], refs')
    {
      SegmentDraftAt(roundNo, world, gus, i);
      OneMoreOf(drafts, all, i);
      refs' := File(store, start, ids, drafts + all[..i], refs', SegmentDraft(roundNo, gus[i], world[gus[i]]));
      i := i + 1;
    }
    assert all[..|gus|] == all;
  }

  /** The totals of the roles present, filed in sorted order. */
  method FileRoles(store: EvidenceStore, ghost start: Records, ids: seq<string>, ghost drafts: seq<Draft>, refs: seq<string>,
                   roundNo: int, members: seq<string>, people: People)
    returns (refs': seq<string>)
    requires Building(store, start, ids, drafts, refs) && |drafts| + |RolesOf(people)| <= |ids|
    requires Distinct(members) && Elements(members) == people.Keys
    modifies store
    ensures Building(store, start, ids, drafts + RoleDrafts(roundNo, people, SortedIds(RolesOf(people))), refs')
  {
    hide Building, RoleDrafts, TotalsOf, Sort, RolesOf, Tallied, Elements, Distinct;
    var data, order := RoleData(members, people);
    RolesInOrder(people, data, order);
    var roles := Sort(Less, order);
    ghost var all := RoleDrafts(roundNo, people, roles);
    refs' := refs;
    var i := 0;
    assert drafts + all[..0] == drafts;
    while i < |roles|
      invariant 0 <= i <= |roles|
      invariant Building(store, start, ids, drafts + all[..i], refs')
    {
      RoleDraftAt(roundNo, people, roles, i);
      OneMoreOf(drafts, all, i);
      refs' := File(store, start, ids, drafts + all[..i], refs', RoleDraft(roundNo, roles[i], data[roles[i]]));
      i := i + 1;
    }
    assert all[..|roles|] == all;
  }

  /** Records the run, its segments and its roles. */
  method FileMarket(store: EvidenceStore, runId: string, s: RunState, ids: seq<string>) returns (refs: seq<string>)
    requires store.Valid() && s.WellKeyed() && Fresh(ids, store.records) && 1 + |s.world| + |RolesOf(s.people)| <= |ids|
    modifies store
    ensures Building(store, old(store.records), ids, MarketDrafts(runId, s), refs)
  {
    ghost var start := store.records;
    DistinctCount(s.segments);
    refs := File(store, start, ids, [], [], SimulationDraft(runId, s));
    ghost var drafts := [] + [SimulationDraft(runId, s)];
    refs := FileSegments(store, start, ids, drafts, refs, s.roundNo, s.segments, s.world);
    drafts := drafts + SegmentDrafts(s.roundNo, s.world, SortedIds(s.world.Keys));
    refs := FileRoles(store, start, ids, drafts, refs, s.roundNo, s.members, s.people);
  }

  /** Records the final state of a run under fresh ids and returns those ids. */
  method BuildEvidence(store: EvidenceStore, runId: string, roundSubject: string, s: RunState, ids: seq<string>)
    returns (refs: seq<string>)
    requires store.Valid() && s.WellKeyed() && Fresh(ids, store.records) && |Drafts(runId, roundSubject, s)| <= |ids|
    modifies store
    ensures Building(store, old(store.records), ids, Drafts(runId, roundSubject, s), refs)
  {
    hide MarketDrafts, Filed, Fresh;
    ghost var start := store.records;
    refs := FileMarket(store, runId, s, ids);
    if s.lastOutcome.Some? {
      refs := File(store, start, ids, MarketDrafts(runId, s), refs, RoundDraft(roundSubject, s.lastOutcome.value));
    } else {
      assert Drafts(runId, roundSubject, s) == MarketDrafts(runId, s);
    }
  }
}
