/** The accept-or-correct rule of speculative sampling, and why it is exact. */
module Acceptance {
  import opened Backend
  import opened Sampling

  predicate Accept(p: real, q: real, r: real) { r * q < p }

  function Sum(s: seq<real>): real {
    if s == [] then 0.0 else Sum(s[..|s| - 1]) + s[|s| - 1]
  }

  lemma {:induction false} SumZeros(s: seq<real>)
    requires forall j :: 0 <= j < |s| ==> s[j] == 0.0
    ensures Sum(s) == 0.0
    decreases |s|
  {
    if s == [] {
    } else {
      SumZeros(s[..|s| - 1]);
    }
  }

  /** A draft vector may be shorter than the target's vocabulary. */
  function At(s: seq<real>, i: int): real {
    if 0 <= i < |s| then s[i] else 0.0
  }

  function Excess(p: real, q: real): real { if p - q > 0.0 then p - q else 0.0 }

  function RawResidual(p: seq<real>, q: seq<real>): (r: seq<real>)
    ensures |r| == |p|
  {
    seq(|p|, i requires 0 <= i < |p| => Excess(p[i], At(q, i)))
  }

  function Residual(p: seq<real>, q: seq<real>): (r: seq<real>)
    ensures |r| == |p|
  {
    var raw := RawResidual(p, q);
    var total := Sum(raw);
    if total <= 0.0 then p else seq(|p|, i requires 0 <= i < |p| => raw[i] / total)
  }

  method ResidualDistribution(target: seq<real>, draft: seq<real>) returns (residual: seq<real>)
    ensures residual == Residual(target, draft)
  {
    residual := [];
    var sum := 0.0;
    for i := 0 to |target|
      invariant residual == RawResidual(target, draft)[..i]
      invariant sum == Sum(residual)
    {
      var q := if i < |draft| then draft[i] else 0.0;
      var v := if target[i] - q > 0.0 then target[i] - q else 0.0;
      assert (residual + [v])[..|residual|] == residual;
      residual, sum := residual + [v], sum + v;
    }
    assert residual == RawResidual(target, draft);
    if sum <= 0.0 { return target; }
    ghost var raw := residual;
    for i := 0 to |residual|
      invariant |residual| == |target|
      invariant forall j :: 0 <= j < i ==> residual[j] == raw[j] / sum
      invariant forall j :: i <= j < |residual| ==> residual[j] == raw[j]
    {
      residual := residual[i := residual[i] / sum];
    }
    assert residual == Residual(target, draft);
  }

  // ---- What the two uniform draws are worth -------------------------------

  predicate IsDistribution(p: seq<real>) {
    (forall i :: 0 <= i < |p| ==> p[i] >= 0.0) && Sum(p) == 1.0
  }

  /** The length of the set of draws that accept. */
  function AcceptMass(p: real, q: real): real
    requires q > 0.0
  {
    if q <= p then 1.0 else p / q
  }

  lemma Product(x: real, q: real)
    requires x > 0.0 && q > 0.0
    ensures x * q > 0.0
  {
  }

  lemma Scaling(r: real, a: real, q: real)
    requires q > 0.0
    ensures r < a <==> r * q < a * q
  {
    if r < a {
      Product(a - r, q);
      assert (a - r) * q == a * q - r * q;
    } else if a < r {
      Product(r - a, q);
      assert (r - a) * q == r * q - a * q;
    }
  }

  lemma Quotient(p: real, q: real)
    requires q > 0.0
    ensures p / q * q == p
  {
  }

  lemma Share(a: real, c: real)
    requires a >= 0.0 && c > 0.0
    ensures a / c >= 0.0
  {
  }

  lemma BelowQuotient(p: real, q: real, a: real, r: real)
    requires 0.0 <= p < q && a * q == p
    ensures 0.0 <= a <= 1.0
    ensures r * q < p <==> r < a
  {
    Scaling(r, a, q);
    Scaling(1.0, a, q);
    Scaling(a, 0.0, q);
  }

  lemma AcceptIsAnInterval(p: real, q: real, r: real)
    requires 0.0 <= p && 0.0 < q && 0.0 <= r < 1.0
    ensures 0.0 <= AcceptMass(p, q) <= 1.0
    ensures Accept(p, q, r) <==> r < AcceptMass(p, q)
  {
    if q <= p {
      Scaling(r, 1.0, q);
    } else {
      Quotient(p, q);
      BelowQuotient(p, q, p / q, r);
    }
  }

  function Cdf(p: seq<real>, i: nat): real
    requires i <= |p|
  {
    Sum(p[..i])
  }

  lemma CdfStep(p: seq<real>, i: nat)
    requires i < |p|
    ensures Cdf(p, i + 1) == Cdf(p, i) + p[i]
  {
    assert p[..i + 1][..i] == p[..i];
  }

  lemma {:induction false} CdfMonotone(p: seq<real>, i: nat, j: nat)
    requires i <= j <= |p|
    requires forall k :: 0 <= k < |p| ==> p[k] >= 0.0
    ensures Cdf(p, i) <= Cdf(p, j)
    decreases j - i
  {
    if i == j {
    } else {
      CdfStep(p, i);
      CdfMonotone(p, i + 1, j);
    }
  }

  /** The draws that yield token `x`: an interval as long as x's probability. */
  predicate InInterval(p: seq<real>, x: nat, r: real)
    requires x < |p|
  {
    && p[x] > 0.0
    && (Cdf(p, x) < r || Cdf(p, x) == r == 0.0)
    && r <= Cdf(p, x + 1)
  }

  lemma {:induction false} DrawFromInterval(p: seq<real>, r: real, i: nat, last: nat)
    requires i <= |p| && (forall k :: 0 <= k < |p| ==> p[k] >= 0.0)
    requires 0.0 <= r <= Cdf(p, |p|)
    requires Cdf(p, i) < r || (Cdf(p, i) == r == 0.0)
    requires r > 0.0 || Cdf(p, |p|) > 0.0
    ensures i < |p|
    ensures var k := DrawFrom(p, r - Cdf(p, i), i, last); i <= k < |p| && InInterval(p, k, r)
    decreases |p| - i
  {
    assert p[..|p|] == p;
    if i < |p| {
      CdfStep(p, i);
      if p[i] <= 0.0 || r - Cdf(p, i) - p[i] > 0.0 {
        DrawFromInterval(p, r, i + 1, if p[i] <= 0.0 then last else i);
      }
    }
  }

  lemma IntervalsAreDisjoint(p: seq<real>, x: nat, y: nat, r: real)
    requires forall k :: 0 <= k < |p| ==> p[k] >= 0.0
    requires x < |p| && y < |p| && InInterval(p, x, r) && InInterval(p, y, r)
    ensures x == y
  {
    if x < y {
      CdfStep(p, x);
      CdfMonotone(p, x + 1, y);
      CdfMonotone(p, 0, x);
    } else if y < x {
      CdfStep(p, y);
      CdfMonotone(p, y + 1, x);
      CdfMonotone(p, 0, y);
    }
  }

  /** Inverse-CDF drawing: token x comes out exactly on an interval of draws
      of length p[x]. */
  lemma DrawIsExact(p: seq<real>, r: real, x: nat)
    requires IsDistribution(p) && 0.0 <= r < 1.0 && x < |p|
    ensures DrawIndex(p, r) == x <==> InInterval(p, x, r)
    ensures p[x] > 0.0 ==> Cdf(p, x + 1) - Cdf(p, x) == p[x]
  {
    assert p[..|p|] == p;
    assert Cdf(p, 0) == 0.0;
    DrawFromInterval(p, r, 0, 0);
    CdfStep(p, x);
    var k := DrawIndex(p, r);
    if InInterval(p, x, r) {
      IntervalsAreDisjoint(p, x, k, r);
    }
  }
}
