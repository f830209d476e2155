/** Participant rosters: sanitizing of the requested buckets, and deterministic generation. */
module Roster {
  import opened Wrappers
  import opened Ordering
  import opened Numbers
  import opened Decimals
  import opened Market
  import opened Statistics

  datatype RoleBucket = RoleBucket(
    role: Role, count: int, capitalMin: real, capitalMax: real,
    holdingsMin: int, holdingsMax: int, riskMin: real, riskMax: real, mood: Mood)
  {
    /** The bounds of the bucket schema. */
    predicate Valid() {
      && 1 <= count <= 50 && 0.0 <= capitalMin <= 10.0 && 0.0 <= capitalMax <= 10.0
      && 0 <= holdingsMin <= 20 && 0 <= holdingsMax <= 20
      && 0.0 <= riskMin <= 1.0 && 0.0 <= riskMax <= 1.0
    }

    /** What sanitizing adds: every range is the right way round. */
    predicate Sanitized() {
      Valid() && capitalMin <= capitalMax && holdingsMin <= holdingsMax && riskMin <= riskMax
    }
  }

  datatype RosterSpec = RosterSpec(seed: string, buckets: seq<RoleBucket>)

  /* ---------- sanitizing ---------- */

  /** A value of unknown type: absent, not convertible to a number, or a number. */
  datatype RawNumber = Missing | Unconvertible | Number(value: real)

  /** A requested bucket; `None` where the value is not one of the allowed names. */
  datatype RawBucket = RawBucket(
    role: Option<Role>, count: RawNumber, capitalMin: RawNumber, capitalMax: RawNumber,
    holdingsMin: RawNumber, holdingsMax: RawNumber, riskMin: RawNumber, riskMax: RawNumber, mood: Option<Mood>)

  function ClampInt(value: RawNumber, low: int, high: int, fallback: int): int {
    match value
    case Number(x) => Max(low, Min(high, Trunc(x)))
    case _ => if value == Missing then Max(low, Min(high, fallback)) else fallback
  }

  function ClampFloat(value: RawNumber, low: real, high: real, fallback: real): real {
    match value
    case Number(x) => Clamp(x, low, high)
    case _ => if value == Missing then Clamp(fallback, low, high) else fallback
  }

  /** Both ends of a range, swapped if they are the wrong way round. */
  function Ordered(a: real, b: real): (real, real) { if a > b then (b, a) else (a, b) }

  function OrderedInt(a: int, b: int): (int, int) { if a > b then (b, a) else (a, b) }

  function SanitizeOne(raw: RawBucket): (b: RoleBucket)
    requires raw.role.Some?
    ensures b.Sanitized() && b.role == raw.role.value
  {
    var capital := Ordered(ClampFloat(raw.capitalMin, 0.0, 10.0, 0.5), ClampFloat(raw.capitalMax, 0.0, 10.0, 1.5));
    var holdings := OrderedInt(ClampInt(raw.holdingsMin, 0, 20, 0), ClampInt(raw.holdingsMax, 0, 20, 2));
    var risk := Ordered(ClampFloat(raw.riskMin, 0.0, 1.0, 0.2), ClampFloat(raw.riskMax, 0.0, 1.0, 0.8));
    RoleBucket(raw.role.value, ClampInt(raw.count, 1, 50, 1), capital.0, capital.1, holdings.0, holdings.1,
               risk.0, risk.1, if raw.mood.Some? then raw.mood.value else Neutral)
  }

  /** A bucket as a request that spells out every field. */
  function AsRequest(b: RoleBucket): RawBucket {
    RawBucket(Some(b.role), Number(b.count as real), Number(b.capitalMin), Number(b.capitalMax),
              Number(b.holdingsMin as real), Number(b.holdingsMax as real), Number(b.riskMin), Number(b.riskMax), Some(b.mood))
  }

  /** Sanitizing changes exactly the buckets that need it. */
  lemma SanitizingKeepsTheSane(b: RoleBucket)
    ensures SanitizeOne(AsRequest(b)) == b <==> b.Sanitized()
  {}

  /** A request with its ranges the wrong way round is sanitized like the request with them the right way round. */
  lemma RangesUnordered(raw: RawBucket)
    requires raw.role.Some? && raw.capitalMin.Number? && raw.capitalMax.Number? && raw.holdingsMin.Number?
    requires raw.holdingsMax.Number? && raw.riskMin.Number? && raw.riskMax.Number?
    ensures SanitizeOne(raw) ==
            SanitizeOne(raw.(capitalMin := raw.capitalMax, capitalMax := raw.capitalMin, holdingsMin := raw.holdingsMax,
                             holdingsMax := raw.holdingsMin, riskMin := raw.riskMax, riskMax := raw.riskMin))
  {}

  const DEFAULT_BUCKET := RoleBucket(Buyer, 10, 0.8, 1.2, 0, 2, 0.2, 0.7, Neutral)

  /** The sanitized buckets of the requests that name a role, in order. */
  function Kept(raw: seq<RawBucket>): seq<RoleBucket> {
    if raw == [] then [] else
      Kept(raw[..|raw| - 1]) + (if raw[|raw| - 1].role.Some? then [SanitizeOne(raw[|raw| - 1])] else [])
  }

  method SanitizeRosterBuckets(raw: seq<RawBucket>) returns (buckets: seq<RoleBucket>)
    ensures buckets == if Kept(raw) == [] then [DEFAULT_BUCKET] else Kept(raw)
    ensures buckets != [] && forall k :: 0 <= k < |buckets| ==> buckets[k].Sanitized()
  {
    buckets := [];
    var i := 0;
    while i < |raw|
      invariant 0 <= i <= |raw|
      invariant buckets == Kept(raw[..i])
      invariant forall k :: 0 <= k < |buckets| ==> buckets[k].Sanitized()
    {
      assert raw[..i + 1][..i] == raw[..i];
      if raw[i].role.Some? {
        buckets := buckets + [SanitizeOne(raw[i])];
      }
      i := i + 1;
    }
    assert raw[..|raw|] == raw;
    if buckets == [] {
      buckets := [DEFAULT_BUCKET];
    }
  }

  /* ---------- generation ---------- */

  function RoleName(role: Role): string {
    match role
    case Buyer => "buyer"
    case Investor => "investor"
    case Tenant => "tenant"
    case Landlord => "landlord"
    case Broker => "broker"
  }

  lemma RoleNameInjective(a: Role, b: Role)
    requires RoleName(a) == RoleName(b)
    ensures a == b
  {
    assert RoleName(a)[0] == RoleName(b)[0] && RoleName(a)[1] == RoleName(b)[1];
  }

  /** `f"{role}-{n:04d}"` */
  function ParticipantId(role: Role, n: nat): string {
    RoleName(role) + "-" + Padded(n, 4)
  }

  /** Participant ids determine the role and the number. */
  lemma ParticipantIdInjective(a: Role, m: nat, b: Role, n: nat)
    requires ParticipantId(a, m) == ParticipantId(b, n)
    ensures a == b && m == n
  {
    assert '-' !in RoleName(a) && '-' !in RoleName(b);
    CutUnique(RoleName(a), '-', Padded(m, 4), RoleName(b), Padded(n, 4));
    RoleNameInjective(a, b);
    PaddedParses(m, 4);
    PaddedParses(n, 4);
  }

  /** A source of fractions in [0, 1), such as the hash the generator draws from. */
  ghost predicate Fractions(draw: nat -> real) {
    forall i: nat :: 0.0 <= draw(i) < 1.0
  }

  function DrawInt(draw: nat -> real, i: nat, low: int, high: int): int {
    if low == high then low else low + Trunc(draw(i) * (high - low + 1) as real)
  }

  function DrawBetween(draw: nat -> real, i: nat, low: real, high: real): real {
    if low == high then low else low + (high - low) * draw(i)
  }

  lemma DrawIntWithin(draw: nat -> real, i: nat, low: int, high: int)
    requires Fractions(draw) && low <= high
    ensures low <= DrawInt(draw, i, low, high) <= high
  {
    var x, span := draw(i), (high - low + 1) as real;
    Product(x, span);
    assert x * span - 1.0 < (x * span).Floor as real <= x * span;
  }

  lemma Product(x: real, span: real)
    requires 0.0 <= x < 1.0 && span > 0.0
    ensures 0.0 <= x * span < span
  {}

  lemma Share(span: real, x: real) returns (y: real)
    requires 0.0 <= x < 1.0 && span > 0.0
    ensures y == span * x && 0.0 <= y < span
  {
    y := span * x;
    assert span - span * x == span * (1.0 - x);
  }

  lemma Interpolated(low: real, high: real, x: real)
    requires low < high && 0.0 <= x < 1.0
    ensures low <= low + (high - low) * x <= high
  {
    var y := Share(high - low, x);
  }

  lemma DrawBetweenWithin(draw: nat -> real, i: nat, low: real, high: real)
    requires Fractions(draw) && low <= high
    ensures low <= DrawBetween(draw, i, low, high) <= high
  {
    if low < high {
      Interpolated(low, high, draw(i));
    }
  }

  /** `int(reference * factor)` */
  function Multiple(reference: int, factor: real): int { Trunc(reference as real * factor) }

  function CapitalLow(b: RoleBucket, reference: int): int {
    Min(Multiple(reference, b.capitalMin), Multiple(reference, b.capitalMax))
  }

  function CapitalHigh(b: RoleBucket, reference: int): int {
    Max(Multiple(reference, b.capitalMin), Multiple(reference, b.capitalMax))
  }

  /** The participant generated from three draws starting at `i`. */
  function Generated(b: RoleBucket, reference: int, draw: nat -> real, i: nat, id: string): Participant {
    Participant(id, b.role,
      Trunc(DrawBetween(draw, i, CapitalLow(b, reference) as real, CapitalHigh(b, reference) as real)),
      DrawInt(draw, i + 1, b.holdingsMin, b.holdingsMax), b.mood, DrawBetween(draw, i + 2, b.riskMin, b.riskMax))
  }

  /** `p` is a participant the bucket may produce. */
  predicate Fits(p: Participant, b: RoleBucket, reference: int) {
    && p.role == b.role && p.mood == b.mood
    && CapitalLow(b, reference) <= p.capital <= CapitalHigh(b, reference)
    && b.holdingsMin <= p.holdings <= b.holdingsMax
    && b.riskMin <= p.risk <= b.riskMax
  }

  lemma GeneratedFits(b: RoleBucket, reference: int, draw: nat -> real, i: nat, id: string)
    requires Fractions(draw) && b.Sanitized()
    ensures Fits(Generated(b, reference, draw, i, id), b, reference)
  {
    DrawBetweenWithin(draw, i, CapitalLow(b, reference) as real, CapitalHigh(b, reference) as real);
    TruncWithin(DrawBetween(draw, i, CapitalLow(b, reference) as real, CapitalHigh(b, reference) as real),
                CapitalLow(b, reference), CapitalHigh(b, reference));
    DrawIntWithin(draw, i + 1, b.holdingsMin, b.holdingsMax);
    DrawBetweenWithin(draw, i + 2, b.riskMin, b.riskMax);
  }

  /** How many participants the first `k` buckets ask for. */
  function CountUpTo(buckets: seq<RoleBucket>, k: nat): int
    requires k <= |buckets|
  {
    if k == 0 then 0 else CountUpTo(buckets, k - 1) + buckets[k - 1].count
  }

  function Counter(counters: map<Role, nat>, role: Role): nat {
    if role in counters then counters[role] else 0
  }

  /** Every id handed out so far was counted. */
  ghost predicate Counted(ids: seq<string>, counters: map<Role, nat>) {
    forall id :: id in ids ==> exists role, n :: 1 <= n <= Counter(counters, role) && id == ParticipantId(role, n)
  }

  lemma FreshId(ids: seq<string>, counters: map<Role, nat>, role: Role)
    requires Counted(ids, counters)
    ensures ParticipantId(role, Counter(counters, role) + 1) !in ids
  {
    var id := ParticipantId(role, Counter(counters, role) + 1);
    if id in ids {
      var r, n :| 1 <= n <= Counter(counters, r) && id == ParticipantId(r, n);
      ParticipantIdInjective(role, Counter(counters, role) + 1, r, n);
    }
  }

  /** How many participants of one role the first `k` buckets yield. */
  function RoleCountUpTo(buckets: seq<RoleBucket>, k: nat, role: Role): nat
    requires k <= |buckets|
  {
    if k == 0 then 0 else
      RoleCountUpTo(buckets, k - 1, role) +
      (if buckets[k - 1].role == role && buckets[k - 1].count > 0 then buckets[k - 1].count else 0)
  }

  /** The id at position `j`, in bucket `k`: its role's participants are numbered across the buckets from 1. */
  function IdAt(buckets: seq<RoleBucket>, k: nat, j: int): string
    requires k < |buckets| && CountUpTo(buckets, k) <= j
  {
    ParticipantId(buckets[k].role, RoleCountUpTo(buckets, k, buckets[k].role) + (j - CountUpTo(buckets, k)) + 1)
  }

  /** `p` is the participant at position `j`, in bucket `k`. */
  ghost predicate PlacedAt(p: Participant, buckets: seq<RoleBucket>, reference: int, draw: nat -> real, k: nat, j: nat)
    requires k < |buckets| && CountUpTo(buckets, k) <= j
  {
    && p == Generated(buckets[k], reference, draw, 3 * j, IdAt(buckets, k, j))
    && Fits(p, buckets[k], reference)
  }

  /** The positions of bucket `k` hold the participants generated for it. */
  ghost predicate BucketFilled(people: People, ids: seq<string>, buckets: seq<RoleBucket>, reference: int,
                               draw: nat -> real, k: nat, upTo: int)
    requires k < |buckets|
  {
    forall j :: CountUpTo(buckets, k) <= j < CountUpTo(buckets, k) + upTo && 0 <= j < |ids| ==>
      ids[j] == IdAt(buckets, k, j) && ids[j] in people && PlacedAt(people[ids[j]], buckets, reference, draw, k, j)
  }

  /** Adding a participant at the end disturbs no earlier bucket. */
  lemma FilledOneMore(people: People, ids: seq<string>, buckets: seq<RoleBucket>, reference: int, draw: nat -> real,
                      k: nat, upTo: int, id: string, p: Participant)
    requires k < |buckets| && id !in ids && BucketFilled(people, ids, buckets, reference, draw, k, upTo)
    requires CountUpTo(buckets, k) + upTo <= |ids|
    ensures BucketFilled(people[id := p], ids + [id], buckets, reference, draw, k, upTo)
  {
    hide IdAt, PlacedAt;
  }

  lemma FilledNext(people: People, ids: seq<string>, buckets: seq<RoleBucket>, reference: int, draw: nat -> real,
                   k: nat, j: int, id: string, p: Participant)
    requires k < |buckets| && id !in ids && BucketFilled(people, ids, buckets, reference, draw, k, j)
    requires 0 <= j && CountUpTo(buckets, k) + j == |ids|
    requires id == IdAt(buckets, k, |ids|) && PlacedAt(p, buckets, reference, draw, k, |ids|)
    ensures BucketFilled(people[id := p], ids + [id], buckets, reference, draw, k, j + 1)
  {
    hide IdAt, PlacedAt;
  }

  lemma {:induction false} CountsIncrease(buckets: seq<RoleBucket>, m: nat, k: nat)
    requires m < k <= |buckets| && forall i :: 0 <= i < |buckets| ==> buckets[i].count >= 0
    ensures CountUpTo(buckets, m) + buckets[m].count <= CountUpTo(buckets, k)
  {
    if m + 1 < k { CountsIncrease(buckets, m, k - 1); }
  }

  ghost predicate Listed(people: People, ids: seq<string>) {
    Distinct(ids) && Elements(ids) == people.Keys
  }

  lemma ListOneMore(people: People, ids: seq<string>, id: string, p: Participant)
    requires Listed(people, ids) && id !in ids
    ensures Listed(people[id := p], ids + [id])
  {
    assert Elements(ids + [id]) == Elements(ids) + {id};
  }

  lemma CountOneMore(ids: seq<string>, counters: map<Role, nat>, role: Role, n: nat)
    requires Counted(ids, counters[role := n])
    ensures Counted(ids + [ParticipantId(role, n + 1)], counters[role := n + 1])
  {
    var counters' := counters[role := n + 1];
    var ids' := ids + [ParticipantId(role, n + 1)];
    forall id | id in ids'
      ensures exists r, m :: 1 <= m <= Counter(counters', r) && id == ParticipantId(r, m)
    {
      if id in ids {
        var r, m :| 1 <= m <= Counter(counters[role := n], r) && id == ParticipantId(r, m);
        assert 1 <= m <= Counter(counters', r);
      } else {
        assert 1 <= n + 1 <= Counter(counters', role) && id == ParticipantId(role, n + 1);
      }
    }
  }

  /** All buckets before `k` are filled. */
  ghost predicate FilledBefore(people: People, ids: seq<string>, buckets: seq<RoleBucket>, reference: int,
                               draw: nat -> real, k: nat)
  {
    forall m :: 0 <= m < k && m < |buckets| ==> BucketFilled(people, ids, buckets, reference, draw, m, buckets[m].count)
  }

  lemma FilledBeforeOneMore(people: People, ids: seq<string>, buckets: seq<RoleBucket>, reference: int,
                            draw: nat -> real, k: nat, id: string, p: Participant)
    requires k <= |buckets| && id !in ids && FilledBefore(people, ids, buckets, reference, draw, k)
    requires CountUpTo(buckets, k) <= |ids| && forall i :: 0 <= i < |buckets| ==> buckets[i].count >= 0
    ensures FilledBefore(people[id := p], ids + [id], buckets, reference, draw, k)
  {
    hide BucketFilled;
    forall m | 0 <= m < k ensures BucketFilled(people[id := p], ids + [id], buckets, reference, draw, m, buckets[m].count) {
      CountsIncrease(buckets, m, k);
      FilledOneMore(people, ids, buckets, reference, draw, m, buckets[m].count, id, p);
    }
  }

  /** The counters hold how many participants of each role the first `k` buckets yield. */
  ghost predicate CountersAt(counters: map<Role, nat>, buckets: seq<RoleBucket>, k: nat) {
    k <= |buckets| && forall role :: Counter(counters, role) == RoleCountUpTo(buckets, k, role)
  }

  /** The state of the generator before bucket `k`. */
  ghost predicate Progress(people: People, ids: seq<string>, counters: map<Role, nat>, buckets: seq<RoleBucket>,
                           reference: int, draw: nat -> real, k: nat)
  {
    && k <= |buckets| && Listed(people, ids) && |ids| == CountUpTo(buckets, k) && Counted(ids, counters)
    && CountersAt(counters, buckets, k) && FilledBefore(people, ids, buckets, reference, draw, k)
  }

  /** The state of the generator after `j` participants of bucket `k`; `n` of their role so far. */
  ghost predicate Within(people: People, ids: seq<string>, counters: map<Role, nat>, buckets: seq<RoleBucket>,
                         reference: int, draw: nat -> real, k: nat, j: int, n: nat)
  {
    && k < |buckets| && Listed(people, ids) && |ids| == CountUpTo(buckets, k) + j
    && Counted(ids, counters[buckets[k].role := n])
    && CountersAt(counters, buckets, k) && n == RoleCountUpTo(buckets, k, buckets[k].role) + j
    && FilledBefore(people, ids, buckets, reference, draw, k) && BucketFilled(people, ids, buckets, reference, draw, k, j)
  }

  lemma AddParticipant(people: People, ids: seq<string>, counters: map<Role, nat>, buckets: seq<RoleBucket>,
                       reference: int, draw: nat -> real, k: nat, j: nat, n: nat, p: Participant)
    requires k < |buckets| && forall i :: 0 <= i < |buckets| ==> buckets[i].count >= 0
    requires Within(people, ids, counters, buckets, reference, draw, k, j, n)
    requires p.id == ParticipantId(buckets[k].role, n + 1) && Fits(p, buckets[k], reference)
    requires p == Generated(buckets[k], reference, draw, 3 * |ids|, p.id)
    ensures Within(people[p.id := p], ids + [p.id], counters, buckets, reference, draw, k, j + 1, n + 1)
  {
    hide Listed, Counted, FilledBefore, BucketFilled, Fits, Generated, ParticipantId, CountUpTo, RoleCountUpTo, Counter;
    FreshId(ids, counters[buckets[k].role := n], buckets[k].role);
    assert Counter(counters[buckets[k].role := n], buckets[k].role) == n by {
      CounterSet(counters, buckets[k].role, n, buckets[k].role);
    }
    CountOneMore(ids, counters, buckets[k].role, n);
    FilledNext(people, ids, buckets, reference, draw, k, j, p.id, p);
    FilledBeforeOneMore(people, ids, buckets, reference, draw, k, p.id, p);
    ListOneMore(people, ids, p.id, p);
  }

  lemma CounterSet(counters: map<Role, nat>, role: Role, n: nat, other: Role)
    ensures Counter(counters[role := n], other) == (if other == role then n else Counter(counters, other))
  {}

  lemma OpenBucket(people: People, ids: seq<string>, counters: map<Role, nat>, buckets: seq<RoleBucket>, reference: int,
                   draw: nat -> real, k: nat)
    requires k < |buckets| && Progress(people, ids, counters, buckets, reference, draw, k)
    ensures Within(people, ids, counters, buckets, reference, draw, k, 0, Counter(counters, buckets[k].role))
  {
    SameCounts(ids, counters, buckets[k].role);
  }

  lemma SameCounts(ids: seq<string>, counters: map<Role, nat>, role: Role)
    requires Counted(ids, counters)
    ensures Counted(ids, counters[role := Counter(counters, role)])
  {
    var counters' := counters[role := Counter(counters, role)];
    forall id | id in ids ensures exists r, n :: 1 <= n <= Counter(counters', r) && id == ParticipantId(r, n) {
      var r, n :| 1 <= n <= Counter(counters, r) && id == ParticipantId(r, n);
      assert 1 <= n <= Counter(counters', r);
    }
  }

  lemma CloseBucket(people: People, ids: seq<string>, counters: map<Role, nat>, buckets: seq<RoleBucket>, reference: int,
                    draw: nat -> real, k: nat, n: nat)
    requires k < |buckets| && buckets[k].count >= 0
    requires Within(people, ids, counters, buckets, reference, draw, k, buckets[k].count, n)
    ensures Progress(people, ids, counters[buckets[k].role := n], buckets, reference, draw, k + 1)
  {
    hide Listed, Counted, FilledBefore, BucketFilled, Counter;
    assert CountUpTo(buckets, k + 1) == CountUpTo(buckets, k) + buckets[k].count;
    var counters' := counters[buckets[k].role := n];
    forall role ensures Counter(counters', role) == RoleCountUpTo(buckets, k + 1, role) {
      CounterSet(counters, buckets[k].role, n, role);
    }
    FilledOneBucket(people, ids, buckets, reference, draw, k);
  }

  lemma FilledOneBucket(people: People, ids: seq<string>, buckets: seq<RoleBucket>, reference: int, draw: nat -> real, k: nat)
    requires k < |buckets| && FilledBefore(people, ids, buckets, reference, draw, k)
    requires BucketFilled(people, ids, buckets, reference, draw, k, buckets[k].count)
    ensures FilledBefore(people, ids, buckets, reference, draw, k + 1)
  {}

  /** The ids of a roster: every role's participants, numbered from 1 to the role's total. */
  ghost predicate RosterIds(ids: seq<string>, buckets: seq<RoleBucket>) {
    forall id :: id in ids <==>
      exists role, n :: 1 <= n <= RoleCountUpTo(buckets, |buckets|, role) && id == ParticipantId(role, n)
  }

  /** Position of a role's n-th participant. */
  lemma {:induction false} PositionOf(buckets: seq<RoleBucket>, upTo: nat, role: Role, n: nat) returns (k: nat, j: int)
    requires upTo <= |buckets| && 1 <= n <= RoleCountUpTo(buckets, upTo, role)
    ensures k < upTo && CountUpTo(buckets, k) <= j < CountUpTo(buckets, k) + buckets[k].count
    ensures IdAt(buckets, k, j) == ParticipantId(role, n)
  {
    if n <= RoleCountUpTo(buckets, upTo - 1, role) {
      k, j := PositionOf(buckets, upTo - 1, role, n);
    } else {
      k := upTo - 1;
      j := CountUpTo(buckets, k) + n - RoleCountUpTo(buckets, k, role) - 1;
    }
  }

  lemma IdsExactly(people: People, ids: seq<string>, counters: map<Role, nat>, buckets: seq<RoleBucket>,
                   reference: int, draw: nat -> real)
    requires forall i :: 0 <= i < |buckets| ==> buckets[i].count >= 0
    requires Progress(people, ids, counters, buckets, reference, draw, |buckets|)
    ensures RosterIds(ids, buckets)
  {
    hide ParticipantId, Counter, RoleCountUpTo, PlacedAt, Listed;
    forall role, n | 1 <= n <= RoleCountUpTo(buckets, |buckets|, role) ensures ParticipantId(role, n) in ids {
      var k, j := PositionOf(buckets, |buckets|, role, n);
      CountsBelow(buckets, k);
      assert BucketFilled(people, ids, buckets, reference, draw, k, buckets[k].count);
      assert ids[j] == IdAt(buckets, k, j);
    }
  }

  lemma CountsBelow(buckets: seq<RoleBucket>, k: nat)
    requires k < |buckets| && forall i :: 0 <= i < |buckets| ==> buckets[i].count >= 0
    ensures 0 <= CountUpTo(buckets, k) && CountUpTo(buckets, k) + buckets[k].count <= CountUpTo(buckets, |buckets|)
  {
    CountsIncrease(buckets, k, |buckets|);
    if k > 0 { CountsIncrease(buckets, 0, k); }
  }

  /**
   One participant per unit of every bucket's count. The ids number each role's
   participants from 1, also across buckets of the same role, so they never collide; the
   participant at position j is generated from the three draws from 3j on and lies inside
   its bucket's bounds.
   */
  method BuildParticipants(roster: RosterSpec, reference: int, draw: nat -> real)
    returns (people: People, ids: seq<string>)
    requires Fractions(draw) && forall k :: 0 <= k < |roster.buckets| ==> roster.buckets[k].Sanitized()
    ensures Distinct(ids) && Elements(ids) == people.Keys
    ensures |people| == |ids| == CountUpTo(roster.buckets, |roster.buckets|)
    ensures RosterIds(ids, roster.buckets)
    ensures FilledBefore(people, ids, roster.buckets, reference, draw, |roster.buckets|)
  {
    hide Listed, Counted, FilledBefore, BucketFilled, Generated, Fits, ParticipantId, RosterIds, CountersAt, Fractions;
    var buckets := roster.buckets;
    people, ids := map[], [];
    var counters: map<Role, nat> := map[];
    var next: nat := 0;
    NothingBuilt(buckets, reference, draw);
    var k := 0;
    while k < |buckets|
      invariant 0 <= k <= |buckets|
      invariant Progress(people, ids, counters, buckets, reference, draw, k) && next == 3 * |ids|
    {
      var b := buckets[k];
      var roleCount := Counter(counters, b.role);
      var j := 0;
      OpenBucket(people, ids, counters, buckets, reference, draw, k);
      while j < b.count
        invariant 0 <= j <= b.count
        invariant Within(people, ids, counters, buckets, reference, draw, k, j, roleCount) && next == 3 * |ids|
      {
        var id := ParticipantId(b.role, roleCount + 1);
        var p := Generated(b, reference, draw, next, id);
        GeneratedNamed(b, reference, draw, next, id);
        GeneratedFits(b, reference, draw, next, id);
        AddParticipant(people, ids, counters, buckets, reference, draw, k, j, roleCount, p);
        roleCount := roleCount + 1;
        people, ids := people[id := p], ids + [id];
        next := next + 3;
        j := j + 1;
      }
      CloseBucket(people, ids, counters, buckets, reference, draw, k, roleCount);
      counters := counters[b.role := roleCount];
      k := k + 1;
    }
    IdsExactly(people, ids, counters, buckets, reference, draw);
    ListedOnceEach(people, ids);
  }

  lemma NothingBuilt(buckets: seq<RoleBucket>, reference: int, draw: nat -> real)
    ensures Progress(map[], [], map[], buckets, reference, draw, 0)
  {}

  lemma GeneratedNamed(b: RoleBucket, reference: int, draw: nat -> real, i: nat, id: string)
    ensures Generated(b, reference, draw, i, id).id == id
  {}

  lemma ListedOnceEach(people: People, ids: seq<string>)
    requires Listed(people, ids)
    ensures Distinct(ids) && Elements(ids) == people.Keys && |people| == |ids|
  {
    DistinctCount(ids);
  }

  /* ---------- the generated participants are sound ---------- */

  lemma MultipleNonNegative(reference: nat, factor: real)
    requires factor >= 0.0
    ensures Multiple(reference, factor) >= 0
  {
    MulNonNeg(reference as real, factor);
  }

  lemma FitsSound(p: Participant, b: RoleBucket, reference: int)
    requires reference >= 0 && b.Sanitized() && Fits(p, b, reference)
    ensures SoundParticipant(p)
  {
    MultipleNonNegative(reference, b.capitalMin);
    MultipleNonNegative(reference, b.capitalMax);
  }

  /** Position `j` belongs to bucket `k`. */
  ghost predicate PositionIn(buckets: seq<RoleBucket>, k: nat, j: int) {
    k < |buckets| && CountUpTo(buckets, k) <= j < CountUpTo(buckets, k) + buckets[k].count
  }

  lemma {:induction false} BucketOfPosition(buckets: seq<RoleBucket>, upTo: nat, j: nat) returns (k: nat)
    requires upTo <= |buckets| && j < CountUpTo(buckets, upTo)
    ensures k < upTo && PositionIn(buckets, k, j)
  {
    if j < CountUpTo(buckets, upTo - 1) {
      k := BucketOfPosition(buckets, upTo - 1, j);
    } else {
      k := upTo - 1;
    }
  }

  /** Everyone is filed under their own id. */
  lemma RosterKeyed(people: People, ids: seq<string>, buckets: seq<RoleBucket>, reference: int, draw: nat -> real)
    requires Elements(ids) == people.Keys && |ids| == CountUpTo(buckets, |buckets|)
    requires FilledBefore(people, ids, buckets, reference, draw, |buckets|)
    ensures forall p :: p in people ==> people[p].id == p
  {
    hide Fits, IdAt;
    forall p | p in people ensures people[p].id == p {
      assert p in Elements(ids);
      var j :| 0 <= j < |ids| && ids[j] == p;
      var k := BucketOfPosition(buckets, |buckets|, j);
      assert BucketFilled(people, ids, buckets, reference, draw, k, buckets[k].count);
    }
  }

  /** Everyone a roster of sanitized buckets yields is sound and filed under their own id. */
  lemma RosterSound(people: People, ids: seq<string>, buckets: seq<RoleBucket>, reference: int, draw: nat -> real)
    requires reference >= 0 && forall k :: 0 <= k < |buckets| ==> buckets[k].Sanitized()
    requires Elements(ids) == people.Keys && |ids| == CountUpTo(buckets, |buckets|)
    requires FilledBefore(people, ids, buckets, reference, draw, |buckets|)
    ensures SoundPeople(people) && forall p :: p in people ==> people[p].id == p
  {
    hide SoundParticipant, Fits, RoleBucket.Sanitized, IdAt;
    forall p | p in people ensures SoundParticipant(people[p]) && people[p].id == p {
      assert p in Elements(ids);
      var j :| 0 <= j < |ids| && ids[j] == p;
      var k := BucketOfPosition(buckets, |buckets|, j);
      assert BucketFilled(people, ids, buckets, reference, draw, k, buckets[k].count);
      FitsSound(people[p], buckets[k], reference);
    }
  }

  function Prices(segments: seq<string>, world: World): seq<int>
    requires forall gu :: gu in segments ==> gu in world
  {
    seq(|segments|, i requires 0 <= i < |segments| => world[segments[i]].medianPrice)
  }

  /** `int(median(...))` of the districts' prices. */
  function ReferencePrice(segments: seq<string>, world: World): int
    requires segments != [] && forall gu :: gu in segments ==> gu in world
  {
    Trunc(Median(Prices(segments, world)))
  }

  /** The reference price lies between the smallest and the largest price of the world. */
  lemma ReferenceWithin(segments: seq<string>, world: World, low: int, high: int)
    requires segments != [] && forall gu :: gu in segments ==> gu in world
    requires forall gu :: gu in segments ==> low <= world[gu].medianPrice <= high
    ensures low <= ReferencePrice(segments, world) <= high
  {
    var prices := Prices(segments, world);
    MedianBounds(prices);
    Extremes(prices);
    forall x | x in prices ensures low <= x <= high {
      var i :| 0 <= i < |prices| && prices[i] == x;
      assert segments[i] in segments;
    }
  }
}
