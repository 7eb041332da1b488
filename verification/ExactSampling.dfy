/** Speculative sampling does not change the output distribution: first for one
    position, then for a whole drafted block. Probabilities are real vectors
    and expectations are finite weighted sums. */
module ExactSampling {
  import opened Backend
  import opened Acceptance

  // ---- Finite sums --------------------------------------------------------

  ghost function SumOf(t: nat -> real, n: nat): real {
    if n == 0 then 0.0 else SumOf(t, n - 1) + t(n - 1)
  }

  lemma {:induction false} SumSame(s: nat -> real, t: nat -> real, n: nat)
    requires forall i: nat :: i < n ==> s(i) == t(i)
    ensures SumOf(s, n) == SumOf(t, n)
  {
    if n == 0 {
    } else {
      SumSame(s, t, n - 1);
    }
  }

  lemma {:induction false} SumAdd(s: nat -> real, t: nat -> real, u: nat -> real, n: nat)
    requires forall i: nat :: i < n ==> u(i) == s(i) + t(i)
    ensures SumOf(u, n) == SumOf(s, n) + SumOf(t, n)
  {
    if n == 0 {
    } else {
      SumAdd(s, t, u, n - 1);
    }
  }

  lemma {:induction false} SumScale(c: real, s: nat -> real, t: nat -> real, n: nat)
    requires forall i: nat :: i < n ==> t(i) == c * s(i)
    ensures SumOf(t, n) == c * SumOf(s, n)
  {
    if n == 0 {
    } else {
      SumScale(c, s, t, n - 1);
      Distribute(SumOf(s, n - 1), s(n - 1), c);
    }
  }

  lemma {:induction false} SumPad(t: nat -> real, m: nat, n: nat)
    requires m <= n && forall i: nat :: m <= i < n ==> t(i) == 0.0
    ensures SumOf(t, n) == SumOf(t, m)
    decreases n
  {
    if m == n {
    } else {
      SumPad(t, m, n - 1);
    }
  }

  lemma {:induction false} SumZero(t: nat -> real, n: nat)
    requires forall i: nat :: i < n ==> t(i) == 0.0
    ensures SumOf(t, n) == 0.0
  {
    SumPad(t, 0, n);
  }

  lemma Distribute(a: real, b: real, c: real)
    ensures c * (a + b) == c * a + c * b
  {
  }

  ghost function Vec(s: seq<real>): nat -> real { (i: nat) => At(s, i) }

  lemma {:induction false} SumOfVector(s: seq<real>, n: nat)
    requires n <= |s|
    ensures SumOf(Vec(s), n) == Cdf(s, n)
  {
    if n == 0 {
    } else {
      SumOfVector(s, n - 1);
      CdfStep(s, n - 1);
    }
  }

  // ---- Expectations -------------------------------------------------------

  ghost function Weighted(p: seq<real>, f: nat -> real): nat -> real {
    (i: nat) => At(p, i) * f(i)
  }

  /** The mean of `f` over the outcomes of `p`. */
  ghost function Expect(p: seq<real>, f: nat -> real): real { SumOf(Weighted(p, f), |p|) }

  lemma ExpectPadded(p: seq<real>, f: nat -> real, n: nat)
    requires |p| <= n
    ensures SumOf(Weighted(p, f), n) == Expect(p, f)
  {
    forall i: nat | |p| <= i < n ensures Weighted(p, f)(i) == 0.0 { assert At(p, i) == 0.0; }
    SumPad(Weighted(p, f), |p|, n);
  }

  lemma TotalPadded(p: seq<real>, n: nat)
    requires |p| <= n
    ensures SumOf(Vec(p), n) == Sum(p)
  {
    SumPad(Vec(p), |p|, n);
    SumOfVector(p, |p|);
    assert p[..|p|] == p;
  }

  lemma ExpectSame(p: seq<real>, f: nat -> real, g: nat -> real)
    requires forall i: nat :: i < |p| ==> f(i) == g(i)
    ensures Expect(p, f) == Expect(p, g)
  {
    SumSame(Weighted(p, f), Weighted(p, g), |p|);
  }

  lemma AffineTerm(w: real, a: real, b: real, u: real)
    ensures w * (a * u + b) == a * (w * u) + b * w
  {
    assert w * (a * u) == a * (w * u);
  }

  ghost function Scaled(c: real, t: nat -> real): nat -> real { (i: nat) => c * t(i) }

  lemma ExpectAffine(p: seq<real>, f: nat -> real, g: nat -> real, a: real, b: real)
    requires forall i: nat :: i < |p| ==> g(i) == a * f(i) + b
    ensures Expect(p, g) == a * Expect(p, f) + b * Sum(p)
  {
    hide SumOf, Sum;
    var s, t := Scaled(a, Weighted(p, f)), Scaled(b, Vec(p));
    forall i: nat | i < |p|
      ensures Weighted(p, g)(i) == s(i) + t(i)
    {
      AffineTerm(p[i], a, b, f(i));
    }
    SumAdd(s, t, Weighted(p, g), |p|);
    SumScale(a, Weighted(p, f), s, |p|);
    SumScale(b, Vec(p), t, |p|);
    TotalPadded(p, |p|);
  }

  // ---- One position -------------------------------------------------------

  /** Draft probabilities live inside the target's vocabulary. */
  ghost predicate Drafts(p: seq<real>, q: seq<real>) {
    && IsDistribution(p)
    && IsDistribution(q)
    && (forall i :: |p| <= i < |q| ==> q[i] == 0.0)
  }

  ghost function AcceptRate(p: real, q: real): real {
    if q > 0.0 then AcceptMass(p, q) else 0.0
  }

  /** The value of one drafted position once verified: `accepted` when token d
      is accepted, the mean `corrected` value otherwise. */
  ghost function Verified(p: seq<real>, q: seq<real>, d: int, accepted: real, corrected: real): real {
    var a := AcceptRate(At(p, d), At(q, d));
    a * accepted + (1.0 - a) * corrected
  }

  ghost function VerifiedAt(p: seq<real>, q: seq<real>, f: nat -> real, corrected: real): nat -> real {
    (d: nat) => Verified(p, q, d, f(d), corrected)
  }

  /** Mean of `f` over the token that accept-or-correct emits. */
  ghost function Emitted(p: seq<real>, q: seq<real>, f: nat -> real): real {
    Expect(q, VerifiedAt(p, q, f, Expect(Residual(p, q), f)))
  }

  ghost function Shared(p: real, q: real): real { if p < q then p else q }

  lemma AcceptedMass(p: real, q: real)
    requires p >= 0.0 && q >= 0.0
    ensures q * AcceptRate(p, q) == Shared(p, q)
  {
    if q > 0.0 && p < q { assert p / q * q == p; }
  }

  lemma VerifiedTerm(w: real, a: real, u: real, e: real)
    ensures w * (a * u + (1.0 - a) * e) == (w * a) * u + e * (w - w * a)
  {
    assert w * (a * u) == (w * a) * u;
    assert w * ((1.0 - a) * e) == e * (w - w * a);
  }

  ghost function SharedAt(p: seq<real>, q: seq<real>): nat -> real {
    (i: nat) => Shared(At(p, i), At(q, i))
  }

  ghost function SharedTerm(p: seq<real>, q: seq<real>, f: nat -> real): nat -> real {
    (i: nat) => Shared(At(p, i), At(q, i)) * f(i)
  }

  lemma AtNonNegative(p: seq<real>, i: int)
    requires IsDistribution(p)
    ensures At(p, i) >= 0.0
  {
  }

  lemma EmittedTerm(p: seq<real>, q: seq<real>, d: nat, u: real, e: real)
    requires IsDistribution(p) && IsDistribution(q)
    ensures At(q, d) * Verified(p, q, d, u, e)
            == Shared(At(p, d), At(q, d)) * u + e * (At(q, d) - Shared(At(p, d), At(q, d)))
  {
    AtNonNegative(p, d);
    AtNonNegative(q, d);
    AcceptedMass(At(p, d), At(q, d));
    VerifiedTerm(At(q, d), AcceptRate(At(p, d), At(q, d)), u, e);
  }

  ghost function CorrectedAt(p: seq<real>, q: seq<real>): nat -> real {
    (d: nat) => At(q, d) - Shared(At(p, d), At(q, d))
  }

  ghost function CorrectedTerm(p: seq<real>, q: seq<real>, e: real): nat -> real {
    (d: nat) => e * (At(q, d) - Shared(At(p, d), At(q, d)))
  }

  lemma CorrectedTotal(p: seq<real>, q: seq<real>, e: real, n: nat)
    requires IsDistribution(q) && |q| <= n
    ensures SumOf(CorrectedTerm(p, q, e), n) == e * (1.0 - SumOf(SharedAt(p, q), n))
  {
    hide SumOf, Sum;
    SumScale(e, CorrectedAt(p, q), CorrectedTerm(p, q, e), n);
    SumAdd(CorrectedAt(p, q), SharedAt(p, q), Vec(q), n);
    TotalPadded(q, n);
  }

  /** What is emitted: the shared mass as it stands, and the rest corrected. */
  lemma EmittedSplits(p: seq<real>, q: seq<real>, f: nat -> real, e: real, n: nat)
    requires IsDistribution(p) && IsDistribution(q) && |q| <= n
    ensures Expect(q, VerifiedAt(p, q, f, e))
            == SumOf(SharedTerm(p, q, f), n) + SumOf(CorrectedTerm(p, q, e), n)
  {
    var w := Weighted(q, VerifiedAt(p, q, f, e));
    forall d: nat | d < n
      ensures w(d) == SharedTerm(p, q, f)(d) + CorrectedTerm(p, q, e)(d)
    {
      EmittedTerm(p, q, d, f(d), e);
    }
    ExpectPadded(q, VerifiedAt(p, q, f, e), n);
    SumAdd(SharedTerm(p, q, f), CorrectedTerm(p, q, e), w, n);
  }

  lemma ExcessTerm(p: real, q: real, u: real)
    ensures p == Shared(p, q) + Excess(p, q)
    ensures p * u == Shared(p, q) * u + Excess(p, q) * u
  {
    Distribute(Shared(p, q), Excess(p, q), u);
  }

  lemma ExcessAt(p: seq<real>, q: seq<real>, i: nat)
    requires Drafts(p, q)
    ensures At(RawResidual(p, q), i) == Excess(At(p, i), At(q, i))
  {
    if i < |p| {
    } else {
      assert At(p, i) == 0.0;
      assert At(q, i) == 0.0;
    }
  }

  /** Shared and excess mass make up the target. */
  lemma TargetSplits(p: seq<real>, q: seq<real>, f: nat -> real, n: nat)
    requires Drafts(p, q) && |p| <= n
    ensures SumOf(SharedAt(p, q), n) + Sum(RawResidual(p, q)) == 1.0
    ensures Expect(p, f) == SumOf(SharedTerm(p, q, f), n) + Expect(RawResidual(p, q), f)
  {
    var raw := RawResidual(p, q);
    forall i: nat | i < n
      ensures At(p, i) == SharedAt(p, q)(i) + At(raw, i)
      ensures Weighted(p, f)(i) == SharedTerm(p, q, f)(i) + Weighted(raw, f)(i)
    {
      ExcessAt(p, q, i);
      ExcessTerm(At(p, i), At(q, i), f(i));
    }
    SumAdd(SharedAt(p, q), Vec(raw), Vec(p), n);
    SumAdd(SharedTerm(p, q, f), Weighted(raw, f), Weighted(p, f), n);
    TotalPadded(p, n);
    TotalPadded(raw, n);
    ExpectPadded(p, f, n);
    ExpectPadded(raw, f, n);
  }

  lemma NonNegativeTotal(s: seq<real>, k: nat)
    requires k < |s| && (forall i :: 0 <= i < |s| ==> s[i] >= 0.0)
    ensures 0.0 <= s[k] <= Sum(s)
  {
    assert s[..|s|] == s;
    CdfStep(s, k);
    CdfMonotone(s, 0, k);
    CdfMonotone(s, k + 1, |s|);
  }

  lemma ScaledTerm(raw: real, total: real, u: real)
    requires total != 0.0
    ensures raw * u == total * (raw / total * u)
  {
    var s := raw / total;
    assert s * total == raw;
    assert total * (s * u) == (s * total) * u;
  }

  /** The excess, times the mean over the normalised residual, is the mean over
      the excess itself, also when there is no excess to normalise. */
  lemma ResidualMean(p: seq<real>, q: seq<real>, f: nat -> real)
    requires Drafts(p, q)
    ensures Expect(RawResidual(p, q), f) == Sum(RawResidual(p, q)) * Expect(Residual(p, q), f)
  {
    hide SumOf, Sum;
    var raw := RawResidual(p, q);
    if Sum(raw) <= 0.0 {
      forall k: nat | k < |raw|
        ensures Weighted(raw, f)(k) == 0.0
      {
        NonNegativeTotal(raw, k);
        assert At(raw, k) == 0.0;
      }
      SumZero(Weighted(raw, f), |raw|);
      if raw != [] { NonNegativeTotal(raw, 0); }
      assert Sum(raw) == 0.0;
    } else {
      forall k: nat | k < |raw|
        ensures Weighted(raw, f)(k) == Sum(raw) * Weighted(Residual(p, q), f)(k)
      {
        ScaledTerm(raw[k], Sum(raw), f(k));
      }
      SumScale(Sum(raw), Weighted(Residual(p, q), f), Weighted(raw, f), |raw|);
    }
  }

  /** Accept-or-correct has the target's mean for every test function. */
  lemma EmittedIsExact(p: seq<real>, q: seq<real>, f: nat -> real)
    requires Drafts(p, q)
    ensures Emitted(p, q, f) == Expect(p, f)
  {
    hide SumOf, Sum;
    var n, e := Max(|p|, |q|), Expect(Residual(p, q), f);
    EmittedSplits(p, q, f, e, n);
    CorrectedTotal(p, q, e, n);
    TargetSplits(p, q, f, n);
    ResidualMean(p, q, f);
  }

  ghost function Indicator(x: nat): nat -> real { (i: nat) => if i == x then 1.0 else 0.0 }

  lemma IndicatorMean(p: seq<real>, x: nat)
    ensures Expect(p, Indicator(x)) == At(p, x)
  {
    var t := Weighted(p, Indicator(x));
    if x < |p| {
      SumPad(t, x + 1, |p|);
      SumZero(t, x);
    } else {
      SumZero(t, |p|);
    }
  }

  /** The mass with which accept-or-correct emits token x is exactly p(x). */
  lemma EmittedMassIsExact(p: seq<real>, q: seq<real>, x: nat)
    requires Drafts(p, q)
    ensures Emitted(p, q, Indicator(x)) == At(p, x)
  {
    EmittedIsExact(p, q, Indicator(x));
    IndicatorMean(p, x);
  }

  // ---- A whole drafted block ----------------------------------------------

  /** A model under a sampler: the distribution of the next token. */
  type Chain = seq<Token> -> seq<real>

  type Test = seq<Token> -> real

  ghost predicate Compatible(P: Chain, Q: Chain) {
    forall h {:trigger P(h)} {:trigger Q(h)} :: Drafts(P(h), Q(h))
  }

  /** Mean of f over histories grown from h by n target samples. */
  ghost function Target(P: Chain, h: seq<Token>, n: nat, f: Test): real
    decreases n
  {
    if n == 0 then f(h) else Expect(P(h), (x: nat) => Target(P, h + [x], n - 1, f))
  }

  ghost function After(d: Token, f: Test): Test { (rest: seq<Token>) => f([d] + rest) }

  /** Mean of f over drafts grown from h: at most n tokens, ending early where
      `halt` says so (the drafter stops at the end-of-sequence token). */
  ghost function Drafted(Q: Chain, halt: seq<Token> -> bool, h: seq<Token>, n: nat, f: Test): real
    decreases n
  {
    if n == 0 || halt(h) then f([])
    else Expect(Q(h), (d: nat) => Drafted(Q, halt, h + [d], n - 1, After(d, f)))
  }

  /** Mean of g over the history that verifying `draft` from h leaves behind:
      the accepted prefix, plus one corrected token after a rejection. */
  ghost function Checked(P: Chain, Q: Chain, h: seq<Token>, draft: seq<Token>, g: Test): real
    decreases |draft|
  {
    if draft == [] then g(h)
    else Verified(P(h), Q(h), draft[0], Checked(P, Q, h + [draft[0]], draft[1..], g), Corrected(P, Q, h, g))
  }

  ghost function Grown(h: seq<Token>, g: Test): nat -> real { (x: nat) => g(h + [x]) }

  /** Mean of g over the corrections made at h. */
  ghost function Corrected(P: Chain, Q: Chain, h: seq<Token>, g: Test): real {
    Expect(Residual(P(h), Q(h)), Grown(h, g))
  }

  ghost function CheckedFrom(P: Chain, Q: Chain, h: seq<Token>, g: Test): Test {
    (draft: seq<Token>) => Checked(P, Q, h, draft, g)
  }

  /** Drafting is a probability: affine functions pass through it. */
  lemma {:induction false} DraftedAffine(Q: Chain, halt: seq<Token> -> bool, h: seq<Token>, n: nat,
                                         f: Test, g: Test, a: real, b: real)
    requires forall h :: IsDistribution(Q(h))
    requires forall s {:trigger f(s)} {:trigger g(s)} :: g(s) == a * f(s) + b
    ensures Drafted(Q, halt, h, n, g) == a * Drafted(Q, halt, h, n, f) + b
    decreases n
  {
    if n > 0 && !halt(h) {
      var F := (d: nat) => Drafted(Q, halt, h + [d], n - 1, After(d, f));
      var G := (d: nat) => Drafted(Q, halt, h + [d], n - 1, After(d, g));
      forall d: nat | d < |Q(h)|
        ensures G(d) == a * F(d) + b
      {
        DraftedAffine(Q, halt, h + [d], n - 1, After(d, f), After(d, g), a, b);
      }
      ExpectAffine(Q(h), F, G, a, b);
    }
  }

  /** Mean, over drafts of at most n tokens from h, of what verification leaves. */
  ghost function Speculated(P: Chain, Q: Chain, halt: seq<Token> -> bool, h: seq<Token>, n: nat, g: Test): real {
    Drafted(Q, halt, h, n, CheckedFrom(P, Q, h, g))
  }

  /** One step of the block: the head of the draft is verified, and the rest of
      the draft is speculation from the longer history. */
  lemma SpeculatedStep(P: Chain, Q: Chain, halt: seq<Token> -> bool, h: seq<Token>, n: nat, g: Test, d: nat)
    requires Compatible(P, Q)
    ensures Drafted(Q, halt, h + [d], n, After(d, CheckedFrom(P, Q, h, g)))
            == Verified(P(h), Q(h), d, Speculated(P, Q, halt, h + [d], n, g), Corrected(P, Q, h, g))
  {
    hide SumOf, Sum, Expect, Drafted, Residual, AcceptRate;
    var f := CheckedFrom(P, Q, h + [d], g);
    var k := After(d, CheckedFrom(P, Q, h, g));
    var a := AcceptRate(At(P(h), d), At(Q(h), d));
    var b := (1.0 - a) * Corrected(P, Q, h, g);
    forall s
      ensures k(s) == a * f(s) + b
    {
      var draft := [d] + s;
      assert draft[0] == d && draft[1..] == s;
    }
    forall h ensures IsDistribution(Q(h)) { assert Drafts(P(h), Q(h)); }
    DraftedAffine(Q, halt, h + [d], n, f, k, a, b);
  }

  // ---- A whole run --------------------------------------------------------

  /** What is left to sample, by the target alone, once the history has reached
      `h'`: enough to make `total` tokens in all. */
  ghost function Completed(P: Chain, total: nat, f: Test): Test {
    (h': seq<Token>) => Target(P, h', if |h'| <= total then total - |h'| else 0, f)
  }

  /** Only the first `total` tokens matter: a draft may overshoot the budget, and
      what is over is not delivered. */
  ghost predicate Within(f: Test, total: nat) {
    forall h {:trigger f(h)} :: |h| > total ==> f(h) == f(h[..total])
  }

  /** One more target sample does not change what the target makes of h. */
  lemma CompletedStep(P: Chain, h: seq<Token>, total: nat, f: Test)
    requires IsDistribution(P(h)) && Within(f, total)
    ensures Expect(P(h), Grown(h, Completed(P, total, f))) == Completed(P, total, f)(h)
  {
    hide SumOf, Sum, Expect;
    var v := Grown(h, Completed(P, total, f));
    if |h| < total {
      ExpectSame(P(h), v, (x: nat) => Target(P, h + [x], total - |h| - 1, f));
    } else {
      forall x: nat | x < |P(h)|
        ensures v(x) == 0.0 * v(x) + f(h)
      {
        assert (h + [x])[..total] == h[..total];
        assert |h| == total ==> h[..total] == h;
      }
      ExpectAffine(P(h), v, v, 0.0, f(h));
    }
  }

  /** A speculative round followed by plain target sampling has exactly the
      distribution of plain target sampling from the start: every test function
      on the delivered text has the same mean, whatever the drafting model, the
      draft length and the drafter's stopping rule. */
  lemma {:induction false} SpeculationIsExact(P: Chain, Q: Chain, halt: seq<Token> -> bool,
                                              h: seq<Token>, n: nat, total: nat, f: Test)
    requires Compatible(P, Q) && Within(f, total)
    ensures Speculated(P, Q, halt, h, n, Completed(P, total, f)) == Completed(P, total, f)(h)
    decreases n
  {
    hide SumOf, Sum, Expect, Residual, Verified, Completed;
    var g := Completed(P, total, f);
    if n > 0 && !halt(h) {
      var F := (d: nat) => Drafted(Q, halt, h + [d], n - 1, After(d, CheckedFrom(P, Q, h, g)));
      var v := Grown(h, g);
      var G := VerifiedAt(P(h), Q(h), v, Expect(Residual(P(h), Q(h)), v));
      forall d: nat | d < |Q(h)|
        ensures F(d) == G(d)
      {
        SpeculatedStep(P, Q, halt, h, n - 1, g, d);
        SpeculationIsExact(P, Q, halt, h + [d], n - 1, total, f);
      }
      ExpectSame(Q(h), F, G);
      EmittedIsExact(P(h), Q(h), v);
      CompletedStep(P, h, total, f);
    }
  }

  /** What the next round does: sample the target once, or draft and verify. */
  datatype Source = Plain | Drafting(model: Chain, halt: seq<Token> -> bool, n: nat)

  /** How many tokens each round so far drafted, and how many were accepted. */
  type Trace = seq<(nat, nat)>

  /** The decoder's choice of source, which may depend on all that happened:
      adaptive draft lengths, retrieval, switching speculation off. */
  type Policy = (seq<Token>, Trace) -> Source

  ghost predicate Proper(P: Chain, policy: Policy) {
    && (forall h :: IsDistribution(P(h)))
    && (forall h, t {:trigger policy(h, t)} :: policy(h, t).Drafting? ==> Compatible(P, policy(h, t).model))
  }

  /** As `Checked`, for a test that also looks at how many were accepted. */
  ghost function Tracked(P: Chain, Q: Chain, h: seq<Token>, draft: seq<Token>, accepted: nat,
                         g: (seq<Token>, nat) -> real): real
    decreases |draft|
  {
    if draft == [] then g(h, accepted)
    else
      Verified(P(h), Q(h), draft[0], Tracked(P, Q, h + [draft[0]], draft[1..], accepted + 1, g),
               Expect(Residual(P(h), Q(h)), (x: nat) => g(h + [x], accepted)))
  }

  /** Mean of f over the text delivered by k rounds under the policy, plain
      sampling after them. */
  ghost function Rounds(P: Chain, policy: Policy, h: seq<Token>, trace: Trace, k: nat, total: nat, f: Test): real
    decreases k, 0
  {
    if k == 0 || |h| >= total then Completed(P, total, f)(h)
    else
      match policy(h, trace)
      case Plain => Expect(P(h), (x: nat) => Rounds(P, policy, h + [x], trace, k - 1, total, f))
      case Drafting(Q, halt, n) => Drafted(Q, halt, h, n, RoundFrom(P, Q, policy, h, trace, k - 1, total, f))
  }

  /** The mean over one draft: verify it, record what came of it, and go on. */
  ghost function RoundFrom(P: Chain, Q: Chain, policy: Policy, h: seq<Token>, trace: Trace, k: nat, total: nat,
                           f: Test): Test
    decreases k, 2
  {
    (draft: seq<Token>) => Tracked(P, Q, h, draft, 0, RoundsAfter(P, policy, trace, |draft|, k, total, f))
  }

  ghost function RoundsAfter(P: Chain, policy: Policy, trace: Trace, drafted: nat, k: nat, total: nat, f: Test)
    : (seq<Token>, nat) -> real
    decreases k, 1
  {
    (h': seq<Token>, a: nat) => Rounds(P, policy, h', trace + [(drafted, a)], k, total, f)
  }

  /** A test that ignores the count is an ordinary one. */
  lemma {:induction false} TrackedIsChecked(P: Chain, Q: Chain, h: seq<Token>, draft: seq<Token>, accepted: nat,
                                            g': (seq<Token>, nat) -> real, g: Test)
    requires forall h, a {:trigger g'(h, a)} :: g'(h, a) == g(h)
    ensures Tracked(P, Q, h, draft, accepted, g') == Checked(P, Q, h, draft, g)
    decreases |draft|
  {
    hide SumOf, Sum, Expect, Residual, Verified;
    if draft == [] {
    } else {
      TrackedIsChecked(P, Q, h + [draft[0]], draft[1..], accepted + 1, g', g);
      ExpectSame(Residual(P(h), Q(h)), (x: nat) => g'(h + [x], accepted), Grown(h, g));
    }
  }

  /** The whole run is exact: however many rounds, whatever is drafted in each,
      and however the decoder adapts to what was accepted, the text delivered
      has the distribution of plain target sampling. */
  lemma {:induction false} RunIsExact(P: Chain, policy: Policy, h: seq<Token>, trace: Trace, k: nat, total: nat,
                                      f: Test)
    requires Proper(P, policy) && Within(f, total)
    ensures Rounds(P, policy, h, trace, k, total, f) == Completed(P, total, f)(h)
    decreases k
  {
    hide SumOf, Sum, Expect, Residual, Verified, Completed, Drafted, Checked, Tracked;
    if k > 0 && |h| < total {
      var g := Completed(P, total, f);
      match policy(h, trace)
      case Plain =>
        var v := (x: nat) => Rounds(P, policy, h + [x], trace, k - 1, total, f);
        forall x: nat | x < |P(h)| ensures v(x) == Grown(h, g)(x) {
          RunIsExact(P, policy, h + [x], trace, k - 1, total, f);
        }
        ExpectSame(P(h), v, Grown(h, g));
        CompletedStep(P, h, total, f);
      case Drafting(Q, halt, n) =>
        var round := RoundFrom(P, Q, policy, h, trace, k - 1, total, f);
        forall s: seq<Token>
          ensures round(s) == 1.0 * CheckedFrom(P, Q, h, g)(s) + 0.0
        {
          var after := RoundsAfter(P, policy, trace, |s|, k - 1, total, f);
          forall h', a: nat
            ensures after(h', a) == g(h')
          {
            RunIsExact(P, policy, h', trace + [(|s|, a)], k - 1, total, f);
          }
          TrackedIsChecked(P, Q, h, s, 0, after, g);
        }
        forall h ensures IsDistribution(Q(h)) { assert Drafts(P(h), Q(h)); }
        DraftedAffine(Q, halt, h, n, CheckedFrom(P, Q, h, g), round, 1.0, 0.0);
        SpeculationIsExact(P, Q, halt, h, n, total, f);
    }
  }
}
