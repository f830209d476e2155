/** Rosters in numbers: what becomes of a requested bucket, and who is generated from which draws. */
module RosterExact {
  import opened Numbers
  import opened Decimals
  import opened Market
  import opened Statistics
  import opened Roster
  import opened ForecastExact
  import opened GoldExact

  /* ---------- sanitizing ---------- */

  /** A requested number cut to its bounds, or the fallback where there is none. */
  ghost predicate CutTo(x: real, raw: RawNumber, low: real, high: real, fallback: real) {
    match raw
    case Number(v) => if v < low then x == low else if v > high then x == high else x == v
    case Missing => x == fallback
    case Unconvertible => x == fallback
  }

  /** The same for whole numbers, after dropping the fraction. */
  ghost predicate CutToInt(x: int, raw: RawNumber, low: int, high: int, fallback: int) {
    match raw
    case Number(v) => exists n :: Whole(n, v) && if n < low then x == low else if n > high then x == high else x == n
    case Missing => x == fallback
    case Unconvertible => x == fallback
  }

  /** The ends of a range, the smaller one first. */
  ghost predicate Ends<T>(low: T, high: T, a: T, b: T) {
    (low == a && high == b) || (low == b && high == a)
  }

  ghost predicate RealRange(low: real, high: real, rawLow: RawNumber, rawHigh: RawNumber, min: real, max: real,
                            lowFallback: real, highFallback: real)
  {
    low <= high && exists a, b ::
      CutTo(a, rawLow, min, max, lowFallback) && CutTo(b, rawHigh, min, max, highFallback) && Ends(low, high, a, b)
  }

  ghost predicate IntRange(low: int, high: int, rawLow: RawNumber, rawHigh: RawNumber, min: int, max: int,
                           lowFallback: int, highFallback: int)
  {
    low <= high && exists a, b ::
      CutToInt(a, rawLow, min, max, lowFallback) && CutToInt(b, rawHigh, min, max, highFallback) && Ends(low, high, a, b)
  }

  lemma CutFloat(raw: RawNumber, low: real, high: real, fallback: real)
    requires low <= fallback <= high
    ensures CutTo(ClampFloat(raw, low, high, fallback), raw, low, high, fallback)
  {}

  lemma CutInt(raw: RawNumber, low: int, high: int, fallback: int)
    requires low <= fallback <= high
    ensures CutToInt(ClampInt(raw, low, high, fallback), raw, low, high, fallback)
  {
    hide Trunc, Whole;
    if raw.Number? { TruncIsWhole(raw.value); }
  }

  /** A request that names a role becomes a bucket with every field cut to its bounds and every range the right way round. */
  lemma SanitizedExactly(raw: RawBucket)
    requires raw.role.Some?
    ensures var b := SanitizeOne(raw);
            && b.role == raw.role.value && b.mood == (if raw.mood.Some? then raw.mood.value else Neutral)
            && CutToInt(b.count, raw.count, 1, 50, 1)
            && RealRange(b.capitalMin, b.capitalMax, raw.capitalMin, raw.capitalMax, 0.0, 10.0, 0.5, 1.5)
            && IntRange(b.holdingsMin, b.holdingsMax, raw.holdingsMin, raw.holdingsMax, 0, 20, 0, 2)
            && RealRange(b.riskMin, b.riskMax, raw.riskMin, raw.riskMax, 0.0, 1.0, 0.2, 0.8)
  {
    hide ClampInt, ClampFloat, CutTo, CutToInt;
    CutInt(raw.count, 1, 50, 1);
    CutFloat(raw.capitalMin, 0.0, 10.0, 0.5);
    CutFloat(raw.capitalMax, 0.0, 10.0, 1.5);
    CutInt(raw.holdingsMin, 0, 20, 0);
    CutInt(raw.holdingsMax, 0, 20, 2);
    CutFloat(raw.riskMin, 0.0, 1.0, 0.2);
    CutFloat(raw.riskMax, 0.0, 1.0, 0.8);
  }

  /** The positions of the requests that name a role, in order. */
  ghost predicate NamedAt(at: seq<nat>, raw: seq<RawBucket>) {
    && (forall i, j :: 0 <= i < j < |at| ==> at[i] < at[j])
    && (forall i :: 0 <= i < |at| ==> at[i] < |raw|)
    && forall k: nat :: k < |raw| ==> (k in at <==> raw[k].role.Some?)
  }

  ghost predicate KeptFrom(buckets: seq<RoleBucket>, at: seq<nat>, raw: seq<RawBucket>) {
    && |buckets| == |at|
    && forall i :: 0 <= i < |at| ==> at[i] < |raw| && raw[at[i]].role.Some? && buckets[i] == SanitizeOne(raw[at[i]])
  }

  lemma NamedNext(at: seq<nat>, raw: seq<RawBucket>)
    requires raw != [] && NamedAt(at, raw[..|raw| - 1])
    ensures var n := |raw| - 1; NamedAt(if raw[n].role.Some? then at + [n] else at, raw)
  {
    var n := |raw| - 1;
    var at' := if raw[n].role.Some? then at + [n] else at;
    forall k: nat | k < |raw| ensures k in at' <==> raw[k].role.Some? {
      if k < n { assert raw[..n][k] == raw[k]; }
      assert k in at ==> k < n;
    }
  }

  lemma KeptNext(buckets: seq<RoleBucket>, at: seq<nat>, raw: seq<RawBucket>)
    requires raw != [] && KeptFrom(buckets, at, raw[..|raw| - 1])
    ensures KeptFrom(buckets, at, raw)
    ensures var n := |raw| - 1; raw[n].role.Some? ==> KeptFrom(buckets + [SanitizeOne(raw[n])], at + [n], raw)
  {
    hide SanitizeOne;
  }

  lemma KeptSplit(raw: seq<RawBucket>)
    requires raw != []
    ensures var n := |raw| - 1;
            Kept(raw) == if raw[n].role.Some? then Kept(raw[..n]) + [SanitizeOne(raw[n])] else Kept(raw[..n])
  {
    hide SanitizeOne;
  }

  /** Requests that name a role are kept in order, each sanitized, and the others are dropped. */
  lemma {:induction false} KeptExactly(raw: seq<RawBucket>) returns (at: seq<nat>)
    ensures NamedAt(at, raw) && KeptFrom(Kept(raw), at, raw)
  {
    hide NamedAt, KeptFrom, SanitizeOne;
    if raw == [] {
      at := [];
      NothingKept();
    } else {
      var n := |raw| - 1;
      var before := KeptExactly(raw[..n]);
      NamedNext(before, raw);
      KeptNext(Kept(raw[..n]), before, raw);
      KeptSplit(raw);
      at := if raw[n].role.Some? then before + [n] else before;
    }
  }

  lemma NothingKept()
    ensures NamedAt([], []) && KeptFrom(Kept([]), [], [])
  {}

  /* ---------- generation ---------- */

  /** `text` is the number in digits, with zeros in front up to four of them. */
  ghost predicate FourDigitsOf(text: string, n: nat) {
    && AllDigits(text) && Parse(text) == n && |text| >= 4 && (|text| > 4 ==> text[0] != '0')
  }

  lemma {:induction false} NoZeroFirst(n: nat)
    ensures Decimal(n) != "" && (n > 0 ==> Decimal(n)[0] != '0')
  {
    if n >= 10 { NoZeroFirst(n / 10); }
  }

  lemma PaddedFour(n: nat)
    ensures FourDigitsOf(Padded(n, 4), n)
  {
    hide Decimal, Parse, AllDigits;
    PaddedParses(n, 4);
    NoZeroFirst(n);
    if |Padded(n, 4)| > 4 {
      PaddedShort(n);
      assert Decimal(0) == "0" by { OneZero(); }
    }
  }

  lemma PaddedShort(n: nat)
    ensures |Decimal(n)| > 4 ==> Padded(n, 4) == Decimal(n)
    ensures |Decimal(n)| <= 4 ==> |Padded(n, 4)| == 4
  {
    if |Decimal(n)| < 4 { LeadingZeros(4 - |Decimal(n)|, ""); }
  }

  lemma OneZero()
    ensures Decimal(0) == "0"
  {}

  /** A participant's id: the role, a dash and the number. */
  lemma IdExactly(role: Role, n: nat)
    ensures exists digits :: FourDigitsOf(digits, n) && ParticipantId(role, n) == RoleName(role) + "-" + digits
  {
    PaddedFour(n);
  }

  /** The point a fraction of the way from one bound to the other. */
  ghost function PartWay(low: real, high: real, part: real): real { low + (high - low) * part }

  /** The whole part of a multiple. */
  ghost predicate WholeTimes(x: int, n: int, factor: real) {
    var product := n as real * factor;
    Whole(x, product)
  }

  /** Part of the way between the whole parts of the reference price times the bucket's bounds. */
  ghost predicate CapitalFrom(capital: int, b: RoleBucket, reference: int, part: real) {
    exists x, y ::
      && WholeTimes(x, reference, b.capitalMin) && WholeTimes(y, reference, b.capitalMax)
      && Whole(capital, PartWay((if x < y then x else y) as real, (if x < y then y else x) as real, part))
  }

  /** The participant generated from three draws: capital, holdings and risk, each part of the way between its bounds. */
  ghost predicate DrawnFrom(p: Participant, b: RoleBucket, reference: int, money: real, stock: real, nerve: real) {
    && p.role == b.role && p.mood == b.mood
    && CapitalFrom(p.capital, b, reference, money)
    && WholeTimes(p.holdings - b.holdingsMin, b.holdingsMax - b.holdingsMin + 1, stock)
    && p.risk == PartWay(b.riskMin, b.riskMax, nerve)
  }

  lemma TimesExactly(n: int, factor: real)
    ensures WholeTimes(Multiple(n, factor), n, factor)
  {
    TruncIsWhole(n as real * factor);
  }

  lemma CapitalIs(b: RoleBucket, reference: int, draw: nat -> real, i: nat)
    ensures var low, high := CapitalLow(b, reference) as real, CapitalHigh(b, reference) as real;
            CapitalFrom(Trunc(DrawBetween(draw, i, low, high)), b, reference, draw(i))
  {
    hide Trunc, Whole, WholeTimes, DrawBetween, PartWay, Multiple;
    var x, y := Multiple(reference, b.capitalMin), Multiple(reference, b.capitalMax);
    TimesExactly(reference, b.capitalMin);
    TimesExactly(reference, b.capitalMax);
    var low, high := CapitalLow(b, reference) as real, CapitalHigh(b, reference) as real;
    BetweenIs(draw, i, low, high);
    TruncIsWhole(DrawBetween(draw, i, low, high));
  }

  lemma BetweenIs(draw: nat -> real, i: nat, low: real, high: real)
    ensures DrawBetween(draw, i, low, high) == PartWay(low, high, draw(i))
  {}

  lemma IntIs(draw: nat -> real, i: nat, low: int, high: int)
    requires Fractions(draw)
    ensures WholeTimes(DrawInt(draw, i, low, high) - low, high - low + 1, draw(i))
  {
    if low == high {
      OnceIs(draw(i));
    } else {
      var span := high - low + 1;
      TimesExactly(span, draw(i));
      Swapped(draw(i), span);
    }
  }

  lemma OnceIs(x: real)
    requires 0.0 <= x < 1.0
    ensures WholeTimes(0, 1, x)
  {}

  lemma Swapped(x: real, span: int)
    ensures Trunc(x * span as real) == Multiple(span, x)
  {
    assert x * span as real == span as real * x;
  }

  lemma GeneratedExactly(b: RoleBucket, reference: int, draw: nat -> real, i: nat, id: string)
    requires Fractions(draw)
    ensures var p := Generated(b, reference, draw, i, id);
            p.id == id && DrawnFrom(p, b, reference, draw(i), draw(i + 1), draw(i + 2))
  {
    hide Trunc, Whole, WholeTimes, CapitalFrom, PartWay, DrawBetween, DrawInt, CapitalLow, CapitalHigh, Fractions;
    CapitalIs(b, reference, draw, i);
    IntIs(draw, i + 1, b.holdingsMin, b.holdingsMax);
    BetweenIs(draw, i + 2, b.riskMin, b.riskMax);
  }

  /** The participant at position j of a roster comes from the draws 3j, 3j + 1 and 3j + 2 and from their own bucket. */
  lemma RosterExactly(people: People, ids: seq<string>, buckets: seq<RoleBucket>, reference: int, draw: nat -> real, j: nat)
    returns (k: nat)
    requires Fractions(draw) && forall m :: 0 <= m < |buckets| ==> buckets[m].Sanitized()
    requires |ids| == CountUpTo(buckets, |buckets|) && j < |ids|
    requires FilledBefore(people, ids, buckets, reference, draw, |buckets|)
    ensures k < |buckets| && CountUpTo(buckets, k) <= j < CountUpTo(buckets, k) + buckets[k].count
    ensures ids[j] in people && people[ids[j]].id == ids[j]
    ensures DrawnFrom(people[ids[j]], buckets[k], reference, draw(3 * j), draw(3 * j + 1), draw(3 * j + 2))
  {
    hide Generated, DrawnFrom, Fits, IdAt, RoleBucket.Sanitized, Fractions;
    k := BucketOfPosition(buckets, |buckets|, j);
    assert BucketFilled(people, ids, buckets, reference, draw, k, buckets[k].count);
    GeneratedExactly(buckets[k], reference, draw, 3 * j, ids[j]);
  }

  /* ---------- the reference price ---------- */

  /** The whole part of the median price of the districts listed. */
  lemma ReferenceExactly(segments: seq<string>, world: World, prices: seq<int>)
    requires segments != [] && forall gu :: gu in segments ==> gu in world
    requires |prices| == |segments| && forall i :: 0 <= i < |segments| ==> prices[i] == world[segments[i]].medianPrice
    ensures exists m :: MiddleOf(m, prices) && Whole(ReferencePrice(segments, world), m)
  {
    hide Median, Trunc, Whole, MiddleOf;
    assert prices == Prices(segments, world);
    MedianExactly(prices);
    TruncIsWhole(Median(prices));
  }
}
