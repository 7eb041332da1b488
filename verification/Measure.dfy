/** The verifier's two uniform draws realise the probabilities that the exactness
    theorem speaks of: an interval of draws for each outcome, as long as the
    outcome is likely. */
module Measure {
  import opened Backend
  import opened Sampling
  import opened Acceptance
  import opened ExactSampling
  import opened Verifier
  import Nucleus

  lemma ScaledTotal(raw: seq<real>, scaled: seq<real>, total: real)
    requires total == Sum(raw) > 0.0 && |raw| == |scaled|
    requires forall i :: 0 <= i < |raw| ==> scaled[i] == raw[i] / total
    ensures Sum(scaled) == 1.0
  {
    hide SumOf, Sum;
    forall i: nat | i < |raw|
      ensures Vec(raw)(i) == total * Vec(scaled)(i)
    {
      Quotient(raw[i], total);
    }
    SumScale(total, Vec(scaled), Vec(raw), |raw|);
    TotalPadded(raw, |raw|);
    TotalPadded(scaled, |scaled|);
    Cancel(total, SumOf(Vec(scaled), |raw|), SumOf(Vec(raw), |raw|));
  }

  lemma Cancel(c: real, x: real, y: real)
    requires c > 0.0 && y == c * x && y == c
    ensures x == 1.0
  {
    assert c * (x - 1.0) == 0.0;
  }

  /** Corrections are drawn from a genuine distribution. */
  lemma ResidualIsDistribution(p: seq<real>, q: seq<real>)
    requires IsDistribution(p)
    ensures IsDistribution(Residual(p, q))
  {
    hide Sum;
    var raw := RawResidual(p, q);
    if Sum(raw) > 0.0 {
      ScaledTotal(raw, Residual(p, q), Sum(raw));
      forall i | 0 <= i < |raw|
        ensures Residual(p, q)[i] >= 0.0
      {
        Share(raw[i], Sum(raw));
      }
    }
  }

  /** One verified position. A draw below the acceptance rate moves on to the
      next position; any other draw ends the block with a corrected token, and
      which one depends on the second draw through an interval of the length of
      that token's residual probability. */
  lemma VerifyIsMeasured(m: Model, cfg: GenConfig, h: seq<Token>, tokens: seq<Token>, probs: seq<seq<real>>,
                         tape: Tape, used: nat, i: nat, x: nat)
    requires m.Valid() && cfg.Valid() && Checkable(m, tokens, probs) && i < |tokens| && Uniform(tape) && x < m.vocab
    requires probs[i][tokens[i]] > 0.0
    requires IsDistribution(Dist(cfg, m.logits(h + tokens[..i]), h + tokens[..i]))
    ensures var p, q := Dist(cfg, m.logits(h + tokens[..i]), h + tokens[..i]), probs[i];
      var v := Verify(m, cfg, h, tokens, probs, tape, used, i);
      if tape(used) < AcceptRate(p[tokens[i]], q[tokens[i]])
      then v == Verify(m, cfg, h, tokens, probs, tape, used + 1, i + 1)
      else v.accepted == tokens[..i] && (v.corrected == Some(x) <==> InInterval(Residual(p, q), x, tape(used + 1)))
  {
    hide Dist, Residual, DrawIndex, InInterval, Accept, Sum;
    var context := h + tokens[..i];
    var p, q := Dist(cfg, m.logits(context), context), probs[i];
    AcceptIsAnInterval(p[tokens[i]], q[tokens[i]], tape(used));
    ResidualIsDistribution(p, q);
    DrawIsExact(Residual(p, q), tape(used + 1), x);
  }

  // ---- Retrieved drafts ---------------------------------------------------

  /** Retrieval as a drafting model: after `start` it is certain of `tokens`. */
  ghost function Retrieved(vocab: nat, start: seq<Token>, tokens: seq<Token>): Chain {
    (h: seq<Token>) =>
      OneHot(vocab, if 0 <= |h| - |start| < |tokens| then tokens[|h| - |start|] else 0)
  }

  ghost function Exhausted(start: seq<Token>, tokens: seq<Token>): seq<Token> -> bool {
    (h: seq<Token>) => |h| >= |start| + |tokens|
  }

  lemma PointMean(n: nat, k: nat, f: nat -> real)
    requires k < n
    ensures IsDistribution(OneHot(n, k)) && Expect(OneHot(n, k), f) == f(k)
  {
    var t := Weighted(OneHot(n, k), f);
    SumOnlyAt(OneHot(n, k), k);
    forall i: nat | i != k ensures t(i) == 0.0 { assert At(OneHot(n, k), i) == 0.0; }
    assert At(OneHot(n, k), k) == 1.0;
    SumPad(t, k + 1, n);
    SumZero(t, k);
  }

  /** Its one-hot vectors are distributions. */
  lemma RetrievedProper(vocab: nat, start: seq<Token>, tokens: seq<Token>, h: seq<Token>)
    requires vocab > 0 && (forall j :: 0 <= j < |tokens| ==> 0 <= tokens[j] < vocab)
    ensures IsDistribution(Retrieved(vocab, start, tokens)(h)) && |Retrieved(vocab, start, tokens)(h)| == vocab
  {
    hide Expect, IsDistribution;
    PointMean(vocab, if 0 <= |h| - |start| < |tokens| then tokens[|h| - |start|] else 0, (x: nat) => 0.0);
  }

  /** A drafter that is certain of its next token drafts it. */
  lemma CertainStep(Q: Chain, halt: seq<Token> -> bool, h: seq<Token>, n: nat, f: Test, vocab: nat, t: nat)
    requires n > 0 && !halt(h) && t < vocab && Q(h) == OneHot(vocab, t)
    ensures Drafted(Q, halt, h, n, f) == Drafted(Q, halt, h + [t], n - 1, After(t, f))
  {
    hide Expect, IsDistribution, OneHot;
    PointMean(vocab, t, (d: nat) => Drafted(Q, halt, h + [d], n - 1, After(d, f)));
  }

  lemma DraftNothing(Q: Chain, halt: seq<Token> -> bool, h: seq<Token>, n: nat, f: Test)
    requires halt(h)
    ensures Drafted(Q, halt, h, n, f) == f([])
  {
  }

  /** And it drafts just these tokens: a retrieved draft is one more drafting
      model of the exactness theorem. */
  lemma {:induction false} RetrievalIsDrafting(vocab: nat, start: seq<Token>, tokens: seq<Token>, i: nat, n: nat,
                                               f: Test)
    requires forall j :: 0 <= j < |tokens| ==> 0 <= tokens[j] < vocab
    requires i <= |tokens| <= i + n
    ensures Drafted(Retrieved(vocab, start, tokens), Exhausted(start, tokens), start + tokens[..i], n, f)
            == f(tokens[i..])
    decreases n
  {
    hide Drafted, OneHot;
    var Q, halt, h := Retrieved(vocab, start, tokens), Exhausted(start, tokens), start + tokens[..i];
    if i == |tokens| {
      DraftNothing(Q, halt, h, n, f);
      assert tokens[i..] == [];
    } else {
      var t := tokens[i];
      assert !halt(h) && Q(h) == OneHot(vocab, t);
      hide Retrieved, Exhausted;
      CertainStep(Q, halt, h, n, f, vocab, t);
      assert h + [t] == start + tokens[..i + 1];
      RetrievalIsDrafting(vocab, start, tokens, i + 1, n - 1, After(t, f));
      assert [t] + tokens[i + 1..] == tokens[i..];
    }
  }

  // ---- The decoder's own policies -----------------------------------------

  /** The next token of a model under a sampler. */
  ghost function Sampled(m: Model, cfg: GenConfig): Chain
    requires m.Valid() && cfg.Valid()
  {
    (h: seq<Token>) => Dist(cfg, m.logits(h), h)
  }

  /** The sampler turns logits into a distribution. Greedy ones always do; those
      that shape by top-p do by TopPShapes. */
  ghost predicate Shapes(cfg: GenConfig) {
    cfg.Greedy() || forall l {:trigger cfg.shape(l)} :: l != [] ==> IsDistribution(cfg.shape(l))
  }

  /** These weights make a positive distribution of the logits, as softmax does. */
  ghost predicate Weighs(weights: seq<real> -> seq<real>, l: seq<real>) {
    l != [] && |weights(l)| == |l| && Nucleus.Positive(weights(l)) && Sum(weights(l)) == 1.0
  }

  /** The shaping step: weights, then top-p. */
  ghost function Shaping(weights: seq<real> -> seq<real>, topP: real): seq<real> -> seq<real> {
    (l: seq<real>) => if Weighs(weights, l) then TopPOf(weights(l), topP) else l
  }

  ghost function TopPOf(probs: seq<real>, topP: real): (r: seq<real>)
    requires probs != [] && Nucleus.Positive(probs)
    ensures Nucleus.IsTopP(probs, topP, r)
  {
    Nucleus.TopPExists(probs, topP);
    var r :| Nucleus.IsTopP(probs, topP, r);
    r
  }

  /** So a sampler whose shaping step is top-p over such weights gives
      distributions. */
  lemma TopPShapes(cfg: GenConfig, weights: seq<real> -> seq<real>, topP: real)
    requires cfg.repeatPenalty != 0.0 && forall l :: l != [] ==> Weighs(weights, l)
    ensures var c := cfg.(shape := Shaping(weights, topP));
      && c.Valid() && Shapes(c)
      && forall l {:trigger c.shape(l)} :: l != [] ==> Nucleus.IsTopP(weights(l), topP, c.shape(l))
  {
    hide Nucleus.IsTopP, IsDistribution, Weighs, Shaping;
    var shape := Shaping(weights, topP);
    forall l
      ensures |shape(l)| == |l|
      ensures l != [] ==> IsDistribution(shape(l)) && Nucleus.IsTopP(weights(l), topP, shape(l))
    {
      if l != [] { ShapedOnce(weights, topP, l); } else { NothingShaped(weights, topP); }
    }
  }

  lemma NothingShaped(weights: seq<real> -> seq<real>, topP: real)
    ensures Shaping(weights, topP)([]) == []
  {
    var none: seq<real> := [];
    assert !Weighs(weights, none) && Shaping(weights, topP)(none) == none;
  }

  lemma ShapedOnce(weights: seq<real> -> seq<real>, topP: real, l: seq<real>)
    requires Weighs(weights, l)
    ensures var r := Shaping(weights, topP)(l);
      |r| == |l| && IsDistribution(r) && Nucleus.IsTopP(weights(l), topP, r)
  {
    hide Nucleus.IsTopP, IsDistribution, Sum;
    Nucleus.TopPIsDistribution(weights(l), topP, Shaping(weights, topP)(l));
  }

  lemma SampledProper(m: Model, cfg: GenConfig, h: seq<Token>)
    requires m.Valid() && cfg.Valid() && Shapes(cfg)
    ensures IsDistribution(Sampled(m, cfg)(h)) && |Sampled(m, cfg)(h)| == m.vocab
  {
    hide IsDistribution, Expect;
    var l := Penalised(cfg, m.logits(h), h);
    if cfg.Greedy() { PointMean(|l|, ArgMax(l), (x: nat) => 0.0); }
  }

  /** What a turn of the decoder does: one plain step, a rollout of the draft
      model, or a retrieved draft. */
  datatype Choice = Step | Rollout(n: nat) | Retrieve(tokens: seq<Token>)

  type Chooser = (seq<Token>, Trace) -> Choice

  /** The rollout stops after the end-of-sequence token. */
  ghost function EndsDraft(d: Model, h: seq<Token>): seq<Token> -> bool {
    (h': seq<Token>) => |h'| > |h| && h'[|h'| - 1] == d.eos
  }

  ghost function SourceOf(m: Model, d: Model, cfg: GenConfig, h: seq<Token>, c: Choice): Source
    requires d.Valid() && cfg.Valid()
  {
    match c
    case Step => Plain
    case Rollout(n) => Drafting(Sampled(d, cfg), EndsDraft(d, h), n)
    case Retrieve(tokens) => Drafting(Retrieved(m.vocab, h, tokens), Exhausted(h, tokens), |tokens|)
  }

  ghost function PolicyOf(m: Model, d: Model, cfg: GenConfig, choose: Chooser): Policy
    requires d.Valid() && cfg.Valid()
  {
    (h: seq<Token>, t: Trace) => SourceOf(m, d, cfg, h, choose(h, t))
  }

  lemma SourceCompatible(m: Model, d: Model, cfg: GenConfig, h: seq<Token>, c: Choice)
    requires m.Valid() && d.Valid() && cfg.Valid() && Shapes(cfg) && d.vocab <= m.vocab
    requires c.Retrieve? ==> m.InVocab(c.tokens)
    ensures c != Step ==> Compatible(Sampled(m, cfg), SourceOf(m, d, cfg, h, c).model)
  {
    hide IsDistribution, Sampled, Retrieved;
    if c != Step {
      forall g
        ensures Drafts(Sampled(m, cfg)(g), SourceOf(m, d, cfg, h, c).model(g))
      {
        SampledProper(m, cfg, g);
        match c
        case Rollout(_) => SampledProper(d, cfg, g);
        case Retrieve(tokens) => RetrievedProper(m.vocab, h, tokens, g);
      }
    }
  }

  /** The decoder is exact, for any models, any sampler that gives distributions,
      and any way of choosing what to draft: the text delivered has the
      distribution of sampling the target token by token. */
  lemma DecoderIsExact(m: Model, d: Model, cfg: GenConfig, choose: Chooser, prompt: seq<Token>, k: nat, total: nat,
                       f: Test)
    requires m.Valid() && d.Valid() && cfg.Valid() && Shapes(cfg) && d.vocab <= m.vocab
    requires forall h, t {:trigger choose(h, t)} :: choose(h, t).Retrieve? ==> m.InVocab(choose(h, t).tokens)
    requires |prompt| <= total && Within(f, total)
    ensures Rounds(Sampled(m, cfg), PolicyOf(m, d, cfg, choose), prompt, [], k, total, f)
            == Target(Sampled(m, cfg), prompt, total - |prompt|, f)
  {
    hide Sampled, IsDistribution, Rounds, Target;
    var policy := PolicyOf(m, d, cfg, choose);
    forall h ensures IsDistribution(Sampled(m, cfg)(h)) { SampledProper(m, cfg, h); }
    forall h, t | policy(h, t).Drafting?
      ensures Compatible(Sampled(m, cfg), policy(h, t).model)
    {
      SourceCompatible(m, d, cfg, h, choose(h, t));
    }
    RunIsExact(Sampled(m, cfg), policy, prompt, [], k, total, f);
  }
}
