/**
 Python arithmetic over exact numbers: `int(x)` truncates toward zero, `max`,
 `min` and the clamp built from them; and sums over the entries of a dictionary.
 */
module Numbers {

  /** `int(x)` of a float. */
  function Trunc(x: real): int {
    if x >= 0.0 then x.Floor else -((-x).Floor)
  }

  function Min(a: int, b: int): int { if b < a then b else a }

  function Max(a: int, b: int): int { if b > a then b else a }

  /** `max(low, min(high, value))`, with Python's choice of the first argument on ties. */
  function Clamp(value: real, low: real, high: real): real {
    var capped := if value < high then value else high;
    if capped > low then capped else low
  }

  /** Truncation never leaves an integer interval that holds the number. */
  lemma TruncWithin(x: real, low: int, high: int)
    requires low as real <= x <= high as real
    ensures low <= Trunc(x) <= high
  {
    if x < 0.0 {
      assert (-x).Floor as real <= -x;
      assert -x - 1.0 < (-x).Floor as real;
    } else {
      assert x.Floor as real <= x && x - 1.0 < x.Floor as real;
    }
  }

  lemma MulNonNeg(a: real, b: real)
    requires a >= 0.0 && b >= 0.0
    ensures a * b >= 0.0
  {}

  /* ---------- sums over dictionaries ---------- */

  /** Sum of `m[k]` over the keys in `s`. */
  ghost function SumOver<K>(m: map<K, int>, s: set<K>): int
    requires s <= m.Keys
  {
    if s == {} then 0 else
      var k :| k in s;
      m[k] + SumOver(m, s - {k})
  }

  lemma {:induction false} SumOverPick<K>(m: map<K, int>, s: set<K>, k: K)
    requires s <= m.Keys && k in s
    ensures SumOver(m, s) == m[k] + SumOver(m, s - {k})
  {
    var c :| c in s && SumOver(m, s) == m[c] + SumOver(m, s - {c});
    if c != k {
      SumOverPick(m, s - {c}, k);
      SumOverPick(m, s - {k}, c);
      assert s - {c} - {k} == s - {k} - {c};
    }
  }

  lemma {:induction false} SumOverSame<K>(m: map<K, int>, n: map<K, int>, s: set<K>)
    requires s <= m.Keys && s <= n.Keys && forall k :: k in s ==> m[k] == n[k]
    ensures SumOver(m, s) == SumOver(n, s)
  {
    if s != {} {
      var k :| k in s;
      SumOverPick(m, s, k);
      SumOverPick(n, s, k);
      SumOverSame(m, n, s - {k});
    }
  }

  lemma OneMore(step: int, count: int)
    ensures step * count == step * (count - 1) + step
  {}

  /** Raising every entry in `up` and lowering every entry in `down` by `step`. */
  lemma {:induction false} SumOverShift<K>(m: map<K, int>, n: map<K, int>, s: set<K>, up: set<K>, down: set<K>, step: int)
    requires s <= m.Keys && s <= n.Keys && up <= s && down <= s && up !! down
    requires forall k :: k in s ==>
      n[k] == m[k] + (if k in up then step else if k in down then -step else 0)
    ensures SumOver(n, s) == SumOver(m, s) + step * |up| - step * |down|
  {
    if s == {} {
      assert up == {} && down == {};
    } else {
      var k :| k in s;
      var up', down' := up - {k}, down - {k};
      SumOverPick(m, s, k);
      SumOverPick(n, s, k);
      SumOverShift(m, n, s - {k}, up', down', step);
      OneMore(step, |up|);
      OneMore(step, |down|);
      assert |up'| == if k in up then |up| - 1 else |up|;
      assert |down'| == if k in down then |down| - 1 else |down|;
    }
  }

  /** Sum of `m[k]` over the keys in `s`, for fractions. */
  ghost function RealSumOver<K>(m: map<K, real>, s: set<K>): real
    requires s <= m.Keys
  {
    if s == {} then 0.0 else
      var k :| k in s;
      m[k] + RealSumOver(m, s - {k})
  }

  lemma {:induction false} RealSumOverPick<K>(m: map<K, real>, s: set<K>, k: K)
    requires s <= m.Keys && k in s
    ensures RealSumOver(m, s) == m[k] + RealSumOver(m, s - {k})
  {
    var c :| c in s && RealSumOver(m, s) == m[c] + RealSumOver(m, s - {c});
    if c != k {
      RealSumOverPick(m, s - {c}, k);
      RealSumOverPick(m, s - {k}, c);
      assert s - {c} - {k} == s - {k} - {c};
    }
  }

  lemma {:induction false} RealSumOverSame<K>(m: map<K, real>, n: map<K, real>, s: set<K>)
    requires s <= m.Keys && s <= n.Keys && forall k :: k in s ==> m[k] == n[k]
    ensures RealSumOver(m, s) == RealSumOver(n, s)
  {
    if s != {} {
      var k :| k in s;
      RealSumOverPick(m, s, k);
      RealSumOverPick(n, s, k);
      RealSumOverSame(m, n, s - {k});
    }
  }

  /** Fractions in [0, 1] sum to something between 0 and their number. */
  lemma {:induction false} RealSumOverBounds<K>(m: map<K, real>, s: set<K>)
    requires s <= m.Keys && forall k :: k in s ==> 0.0 <= m[k] <= 1.0
    ensures 0.0 <= RealSumOver(m, s) <= |s| as real
  {
    if s != {} {
      var k :| k in s;
      RealSumOverPick(m, s, k);
      RealSumOverBounds(m, s - {k});
    }
  }
}
