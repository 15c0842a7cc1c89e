/** Expected update and rank-metric steps of a field-binding run (`read_field_binding_contrast_config`). */
module UpdateSchedule {
  /** The closed form of the number of update steps. */
  function ExpectedUpdates(start: int, maxIters: int, every: int): nat
    requires every > 0
  {
    if maxIters > start then (maxIters - 1 - start) / every + 1 else 0
  }

  function Count(hit: nat -> bool, n: nat): nat {
    if n == 0 then 0 else Count(hit, n - 1) + (if hit(n - 1) then 1 else 0)
  }

  /** Whether the step with index `k` falls on a multiple of `rankEvery`. */
  function OnRankStep(start: int, every: int, rankEvery: int): nat -> bool
    requires rankEvery > 0
  {
    (k: nat) => (start + k * every) % rankEvery == 0
  }

  /** The closed form counts the steps of `range(start, maxIters, every)`: step `k` exists iff `k` is below it. */
  lemma UpdatesAreRangeSteps(start: int, maxIters: int, every: int, k: nat)
    requires every > 0
    ensures k < ExpectedUpdates(start, maxIters, every) <==> start + k * every < maxIters
  {
    if maxIters > start {
      var room := maxIters - 1 - start;
      assert room == every * (room / every) + room % every;
      if k <= room / every {
        assert k * every <= (room / every) * every;
      } else {
        assert k * every >= (room / every + 1) * every;
      }
    } else {
      assert k * every >= 0;
    }
  }

  /** The two counts the analyzer reports. */
  method ExpectedSteps(
    enabled: bool, weight: real, every: int, start: int, rankEvery: int, maxIters: int)
    returns (updates: nat, rankMetrics: nat)
    ensures enabled && weight > 0.0 && every > 0 ==> updates == ExpectedUpdates(start, maxIters, every)
    ensures enabled && weight > 0.0 && every > 0 && rankEvery > 0 ==>
              rankMetrics == Count(OnRankStep(start, every, rankEvery), ExpectedUpdates(start, maxIters, every))
    ensures !(enabled && weight > 0.0 && every > 0) ==> updates == 0
    ensures !(enabled && weight > 0.0 && every > 0 && rankEvery > 0) ==> rankMetrics == 0
  {
    updates, rankMetrics := 0, 0;
    if enabled && weight > 0.0 && every > 0 && maxIters > start {
      updates := (maxIters - 1 - start) / every + 1;
    }
    if enabled && weight > 0.0 && every > 0 && rankEvery > 0 && maxIters > start {
      var step := start;
      ghost var k: nat := 0;
      while step < maxIters
        invariant step == start + k * every
        invariant k <= ExpectedUpdates(start, maxIters, every)
        invariant rankMetrics == Count(OnRankStep(start, every, rankEvery), k)
        decreases maxIters - step
      {
        UpdatesAreRangeSteps(start, maxIters, every, k);
        if step % rankEvery == 0 {
          rankMetrics := rankMetrics + 1;
        }
        step := step + every;
        k := k + 1;
      }
      UpdatesAreRangeSteps(start, maxIters, every, k);
    }
  }

  function Gcd(a: nat, b: nat): nat
    decreases b
  {
    if b == 0 then a else Gcd(b, a % b)
  }

  lemma ModWitness(a: int, n: int) returns (q: int)
    requires n > 0 && a % n == 0
    ensures a == n * q
  {
    q := a / n;
  }

  lemma MultipleIsZero(n: int, q: int)
    requires n > 0
    ensures (n * q) % n == 0
  {
    var r, d := (n * q) % n, (n * q) / n;
    assert n * q == n * d + r;
    assert r == n * (q - d);
    assert q - d >= 1 ==> n * (q - d) >= n;
    assert q - d <= -1 ==> n * (q - d) <= -n;
  }

  lemma GcdStepDivides(b: int, q: int, r: int, g: int, e: int, p: int)
    requires b == g * e && r == g * p
    ensures b * q + r == g * (e * q + p)
  {
    assert (g * e) * q == g * (e * q);
  }

  lemma GcdStepBezout(b: int, q: int, r: int, g: int, x: int, y: int)
    requires x * b + y * r == g
    ensures y * (b * q + r) + (x - q * y) * b == g
  {
    assert y * (b * q + r) == y * (b * q) + y * r;
    assert (x - q * y) * b == x * b - (q * y) * b;
    assert y * (b * q) == (q * y) * b;
  }

  /** The greatest common divisor, its cofactors and its Bezout coefficients. */
  lemma {:induction false} GcdWitness(a: nat, b: nat) returns (e: nat, p: nat, x: int, y: int)
    requires a > 0
    ensures var g := Gcd(a, b); g > 0 && a == g * e && b == g * p && x * a + y * b == g
    decreases b
  {
    if b == 0 {
      e, p, x, y := 1, 0, 1, 0;
    } else {
      var q, r := a / b, a % b;
      assert a == b * q + r;
      var e1, p1, x1, y1 := GcdWitness(b, r);
      GcdStepDivides(b, q, r, Gcd(b, r), e1, p1);
      GcdStepBezout(b, q, r, Gcd(b, r), x1, y1);
      e, p, x, y := e1 * q + p1, e1, y1, x1 - q * y1;
    }
  }

  /** The cofactors have Bezout coefficients for 1. */
  lemma CofactorsCoprime(g: int, e: int, p: int, x: int, y: int)
    requires g > 0 && x * (g * e) + y * (g * p) == g
    ensures x * e + y * p == 1
  {
    var s := x * e + y * p;
    assert g * s == x * (g * e) + y * (g * p);
    assert g * (s - 1) == 0;
  }

  /** Some step index solves `start + k * every = 0` modulo `rankEvery`, when the gcd divides `start`. */
  lemma OneHit(start: int, every: int, rankEvery: int, g: int, x: int, y: int) returns (k0: int)
    requires rankEvery > 0 && g > 0 && start % g == 0
    requires x * every + y * rankEvery == g
    ensures (start + k0 * every) % rankEvery == 0
  {
    var s := ModWitness(start, g);
    k0 := -(s * x);
    assert start + k0 * every == rankEvery * (s * y) by {
      assert s * g == s * (x * every) + s * (y * rankEvery);
      assert k0 * every == -(s * (x * every));
      assert s * (y * rankEvery) == rankEvery * (s * y);
    }
    MultipleIsZero(rankEvery, s * y);
  }

  /** Moving `d` steps on from a multiple of `g * p`. */
  lemma Shifted(start: int, g: int, e: int, p: int, k0: int, d: int, t0: int)
    requires start + k0 * (g * e) == (g * p) * t0
    ensures start + (k0 + d) * (g * e) == (g * p) * t0 + g * (d * e)
  {
    assert (k0 + d) * (g * e) == k0 * (g * e) + d * (g * e);
    assert d * (g * e) == g * (d * e);
  }

  /** `p` divides `d` when it divides `d * e` and is coprime to `e`. */
  lemma CoprimeCancels(e: int, p: int, x: int, y: int, d: int, w: int)
    requires x * e + y * p == 1 && d * e == p * w
    ensures d == p * (x * w + y * d)
  {
    assert d == (x * e + y * p) * d;
    assert (x * e + y * p) * d == (x * e) * d + (y * p) * d;
    assert (x * e) * d == x * (d * e);
    assert x * (p * w) == p * (x * w);
    assert (y * p) * d == p * (y * d);
    assert p * (x * w + y * d) == p * (x * w) + p * (y * d);
  }

  lemma HitForward(start: int, g: int, e: int, p: int, k0: int, d: int, t0: int)
    requires g > 0 && p > 0 && g * p > 0
    requires start + k0 * (g * e) == (g * p) * t0 && d % p == 0
    ensures (start + (k0 + d) * (g * e)) % (g * p) == 0
  {
    Shifted(start, g, e, p, k0, d, t0);
    var m := ModWitness(d, p);
    assert g * ((p * m) * e) == (g * p) * (m * e);
    assert (g * p) * t0 + (g * p) * (m * e) == (g * p) * (t0 + m * e);
    MultipleIsZero(g * p, t0 + m * e);
  }

  lemma HitBackward(start: int, g: int, e: int, p: int, x: int, y: int, k0: int, d: int, t0: int, t: int)
    requires g > 0 && p > 0 && x * e + y * p == 1
    requires start + k0 * (g * e) == (g * p) * t0
    requires start + (k0 + d) * (g * e) == (g * p) * t
    ensures d % p == 0
  {
    Shifted(start, g, e, p, k0, d, t0);
    assert (g * p) * t - (g * p) * t0 == g * (p * (t - t0)) by {
      assert (g * p) * t == g * (p * t) && (g * p) * t0 == g * (p * t0);
      assert p * (t - t0) == p * t - p * t0;
      assert g * (p * t - p * t0) == g * (p * t) - g * (p * t0);
    }
    Cancel(g, d * e, p * (t - t0));
    CoprimeCancels(e, p, x, y, d, t - t0);
    MultipleIsZero(p, x * (t - t0) + y * d);
  }

  /** From one hit, the hits are exactly the indices a multiple of `p` away. */
  lemma HitsRecur(start: int, g: int, e: int, p: int, x: int, y: int, k0: int, k: int)
    requires g > 0 && p > 0 && g * p > 0 && x * e + y * p == 1
    requires (start + k0 * (g * e)) % (g * p) == 0
    ensures (start + k * (g * e)) % (g * p) == 0 <==> (k - k0) % p == 0
  {
    var t0 := ModWitness(start + k0 * (g * e), g * p);
    var d := k - k0;
    if d % p == 0 {
      HitForward(start, g, e, p, k0, d, t0);
    }
    if (start + k * (g * e)) % (g * p) == 0 {
      var t := ModWitness(start + k * (g * e), g * p);
      HitBackward(start, g, e, p, x, y, k0, d, t0, t);
    }
  }

  lemma Cancel(g: int, a: int, b: int)
    requires g > 0 && g * a == g * b
    ensures a == b
  {
    assert g * (a - b) == 0;
  }

  /** A hit would make the gcd divide the start. */
  lemma NoHitUnlessDivides(start: int, g: int, e: int, p: int, k: int)
    requires g > 0 && p > 0 && start % g != 0
    ensures g * p > 0
    ensures (start + k * (g * e)) % (g * p) != 0
  {
    assert g * p > 0;
    if (start + k * (g * e)) % (g * p) == 0 {
      var t := ModWitness(start + k * (g * e), g * p);
      assert start == g * (p * t - k * e) by {
        assert (g * p) * t == g * (p * t);
        assert k * (g * e) == g * (k * e);
      }
      MultipleIsZero(g, p * t - k * e);
      assert false;
    }
  }

  /** The hits among the first `n` indices when exactly one residue modulo `p` hits. */
  lemma {:induction false} OneResidue(hit: nat -> bool, p: nat, first: nat, n: nat)
    requires first < p
    requires forall k: nat :: hit(k) <==> k % p == first
    ensures Count(hit, n) == n / p + (if n % p > first then 1 else 0)
  {
    if n > 0 {
      OneResidue(hit, p, first, n - 1);
      assert hit(n - 1) <==> (n - 1) % p == first;
      NextResidue(n - 1, p);
    } else {
      DivMod(0, p, 0, 0);
    }
  }

  lemma NextResidue(m: nat, p: nat)
    requires p > 0
    ensures if m % p == p - 1 then (m + 1) / p == m / p + 1 && (m + 1) % p == 0
            else (m + 1) / p == m / p && (m + 1) % p == m % p + 1
  {
    var q, r := m / p, m % p;
    assert m == p * q + r;
    if r == p - 1 {
      assert m + 1 == p * (q + 1);
      DivMod(m + 1, p, q + 1, 0);
    } else {
      DivMod(m + 1, p, q, r + 1);
    }
  }

  lemma SameResidue(k: int, k0: int, p: int)
    requires p > 0
    ensures (k - k0) % p == 0 <==> k % p == k0 % p
  {
    var d := k / p - k0 / p;
    assert k - k0 == p * d + (k % p - k0 % p);
    if k % p == k0 % p {
      MultipleIsZero(p, d);
    }
    if (k - k0) % p == 0 {
      var q := ModWitness(k - k0, p);
      var gap := k % p - k0 % p;
      assert gap == p * (q - d);
      assert q - d >= 1 ==> p * (q - d) >= p;
      assert q - d <= -1 ==> p * (q - d) <= -p;
    }
  }

  /** When the gcd divides the start, the hits are one residue class modulo p. */
  lemma HitClass(start: int, every: int, rankEvery: int, g: int, e: int, p: int, x: int, y: int) returns (first: nat)
    requires g > 0 && p > 0 && rankEvery > 0 && every == g * e && rankEvery == g * p
    requires x * every + y * rankEvery == g && start % g == 0
    ensures first < p
    ensures forall k: nat :: OnRankStep(start, every, rankEvery)(k) <==> k % p == first
  {
    CofactorsCoprime(g, e, p, x, y);
    var k0 := OneHit(start, every, rankEvery, g, x, y);
    first := k0 % p;
    forall k: nat
      ensures OnRankStep(start, every, rankEvery)(k) <==> k % p == first
    {
      HitsRecur(start, g, e, p, x, y, k0, k);
      SameResidue(k, k0, p);
    }
  }

  lemma {:induction false} NoHits(start: int, every: int, rankEvery: int, g: int, e: int, p: int, n: nat)
    requires g > 0 && p > 0 && start % g != 0 && every == g * e && rankEvery == g * p && rankEvery > 0
    ensures Count(OnRankStep(start, every, rankEvery), n) == 0
  {
    if n > 0 {
      NoHits(start, every, rankEvery, g, e, p, n - 1);
      NoHitUnlessDivides(start, g, e, p, n - 1);
    }
  }

  lemma PositiveCofactor(g: int, p: int)
    requires g > 0 && g * p > 0
    ensures p > 0
  {
    assert p <= 0 ==> g * p <= 0;
  }

  /**
   * With p = rankEvery / gcd(every, rankEvery): no step ever falls on a rank step unless the gcd
   * divides the start; otherwise one index in every p does, beginning with `first`, so that of n
   * steps between floor(n / p) and ceil(n / p) do.
   */
  lemma RankMetricCount(start: int, every: nat, rankEvery: nat, n: nat) returns (p: nat, first: nat)
    requires every > 0 && rankEvery > 0
    ensures p > 0 && Gcd(every, rankEvery) > 0 && rankEvery == Gcd(every, rankEvery) * p
    ensures var hits := Count(OnRankStep(start, every, rankEvery), n);
            if start % Gcd(every, rankEvery) != 0 then hits == 0
            else
              && first < p
              && hits == n / p + (if n % p > first then 1 else 0)
              && n / p <= hits <= (n + p - 1) / p
              && (start + first * every) % rankEvery == 0
              && forall k: nat :: OnRankStep(start, every, rankEvery)(k) <==> k % p == first
  {
    var g := Gcd(every, rankEvery);
    var e, cofactor, x, y := GcdWitness(every, rankEvery);
    PositiveCofactor(g, cofactor);
    p, first := cofactor, 0;
    if start % g != 0 {
      NoHits(start, every, rankEvery, g, e, p, n);
    } else {
      first := HitClass(start, every, rankEvery, g, e, p, x, y);
      OneResidue(OnRankStep(start, every, rankEvery), p, first, n);
      FirstHits(start, every, rankEvery, p, first);
      CeilBound(n, p);
    }
  }

  lemma FirstHits(start: int, every: nat, rankEvery: nat, p: nat, first: nat)
    requires rankEvery > 0 && first < p
    requires forall k: nat :: OnRankStep(start, every, rankEvery)(k) <==> k % p == first
    ensures (start + first * every) % rankEvery == 0
  {
    DivMod(first, p, 0, first);
    assert OnRankStep(start, every, rankEvery)(first);
  }

  lemma CeilBound(n: nat, p: nat)
    requires p > 0
    ensures n / p + (if n % p > 0 then 1 else 0) == (n + p - 1) / p
  {
    var q, r := n / p, n % p;
    assert n == p * q + r;
    if r > 0 {
      assert n + p - 1 == p * (q + 1) + (r - 1);
      DivMod(n + p - 1, p, q + 1, r - 1);
    } else {
      DivMod(n + p - 1, p, q, p - 1);
    }
  }

  lemma DivMod(a: int, p: int, q: int, r: int)
    requires p > 0 && 0 <= r < p && a == p * q + r
    ensures a / p == q && a % p == r
  {
    var d := a / p;
    assert a == p * d + a % p;
    assert d - q >= 1 ==> p * (d - q) >= p;
    assert d - q <= -1 ==> p * (d - q) <= -p;
    assert p * (d - q) == p * d - p * q;
  }
}
