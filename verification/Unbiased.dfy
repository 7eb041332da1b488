/** The runs of the decoder are draws from the process whose mean ExactSampling
    computes: the same policy, every mean replaced by a draw from a tape. */
module Unbiased {
  import opened Backend
  import opened Sampling
  import opened Reference
  import opened Acceptance
  import opened ExactSampling
  import opened Verifier
  import opened Measure
  import S = Speculation
  import D = Drafts

  // ---- Rounds, drawn ------------------------------------------------------

  /** Where the process stands: the arguments of `Rounds`, and how far the two
      tapes have been read. */
  datatype Place = Place(h: seq<Token>, trace: Trace, drawn: nat, checked: nat)

  /** A draw from p at this tape position: the position is spent, unless there was
      nothing to decide. */
  ghost predicate Spends(p: seq<real>, at: nat, next: nat) {
    next > at || exists k: nat :: k < |p| && p == OneHot(|p|, k)
  }

  /** `Drafted`, drawn: token by token from Q, until n tokens or a halt. */
  ghost predicate DrawnDraft(Q: Chain, halt: seq<Token> -> bool, h: seq<Token>, n: nat, tape: Tape, at: nat,
                             next: nat, draft: seq<Token>)
  {
    && |draft| <= n && (|draft| == n || halt(h + draft))
    && forall i :: 0 <= i < |draft| ==> DrawnToken(Q, halt, h + draft[..i], tape, at + i, next, draft[i])
  }

  ghost predicate DrawnToken(Q: Chain, halt: seq<Token> -> bool, h: seq<Token>, tape: Tape, at: nat, next: nat,
                             t: Token)
  {
    !halt(h) && t == DrawIndex(Q(h), tape(at)) && Spends(Q(h), at, next)
  }

  /** `Tracked`, drawn: the text that verifying leaves, how many tokens were
      accepted, and the next position of the acceptance tape. */
  ghost function DrawnCheck(P: Chain, Q: Chain, h: seq<Token>, draft: seq<Token>, accepted: nat, tape: Tape, at: nat)
    : (seq<Token>, nat, nat)
    decreases |draft|
  {
    if draft == [] then (h, accepted, at)
    else if tape(at) < AcceptRate(At(P(h), draft[0]), At(Q(h), draft[0]))
    then DrawnCheck(P, Q, h + [draft[0]], draft[1..], accepted + 1, tape, at + 1)
    else (h + [DrawIndex(Residual(P(h), Q(h)), tape(at + 1))], accepted, at + 2)
  }

  /** One round of `Rounds`, drawn. */
  ghost predicate DrawnRound(P: Chain, policy: Policy, tape: Tape, accepts: Tape, from: Place, at: nat,
                             draft: seq<Token>, next: Place)
  {
    at >= from.drawn &&
    match policy(from.h, from.trace)
    case Plain =>
      && next == Place(from.h + [DrawIndex(P(from.h), tape(at))], from.trace, next.drawn, from.checked)
      && Spends(P(from.h), at, next.drawn) && next.drawn >= at
    case Drafting(Q, halt, n) =>
      && DrawnDraft(Q, halt, from.h, n, tape, at, next.drawn, draft) && next.drawn >= at
      && var c := DrawnCheck(P, Q, from.h, draft, 0, accepts, from.checked);
         next == Place(c.0, from.trace + [(|draft|, c.1)], next.drawn, c.2)
  }

  /** Any number of rounds: `places` are the places passed. */
  ghost predicate DrawnRun(P: Chain, policy: Policy, tape: Tape, accepts: Tape, places: seq<Place>) {
    && places != []
    && forall i :: 0 <= i < |places| - 1 ==> LeadsTo(P, policy, tape, accepts, places[i], places[i + 1])
  }

  ghost predicate LeadsTo(P: Chain, policy: Policy, tape: Tape, accepts: Tape, from: Place, next: Place) {
    exists at, draft :: DrawnRound(P, policy, tape, accepts, from, at, draft, next)
  }

  /** What a draw is worth: as a function of the uniform number, g of the token
      drawn takes the value g(x) on an interval as long as p(x), so its mean is
      the one that `Rounds` takes. */
  lemma MeanOfDraw(p: seq<real>, g: nat -> real, r: real, x: nat)
    requires IsDistribution(p) && 0.0 <= r < 1.0 && x < |p|
    ensures InInterval(p, x, r) ==> g(DrawIndex(p, r)) == g(x)
    ensures Expect(p, g) == SumOf((i: nat) => (if i < |p| then Cdf(p, i + 1) - Cdf(p, i) else 0.0) * g(i), |p|)
  {
    hide SumOf, Sum, InInterval, DrawIndex, Cdf, IsDistribution;
    DrawIsExact(p, r, x);
    var t := (i: nat) => (if i < |p| then Cdf(p, i + 1) - Cdf(p, i) else 0.0) * g(i);
    forall i: nat | i < |p|
      ensures Weighted(p, g)(i) == t(i)
    {
      CdfStep(p, i);
      SameProduct(At(p, i), Cdf(p, i + 1) - Cdf(p, i), g(i));
    }
    SumSame(Weighted(p, g), t, |p|);
  }

  lemma SameProduct(a: real, b: real, c: real)
    requires a == b
    ensures a * c == b * c
  {
  }

  // ---- The decoder's policy -----------------------------------------------

  /** The plan after the rounds of a trace. */
  ghost function Tally(cfg: S.Config, plan: S.Plan, trace: Trace): S.Plan
    decreases |trace|
  {
    if trace == [] then plan
    else
      var last := trace[|trace| - 1];
      S.Review(cfg, Tally(cfg, plan, trace[..|trace| - 1]), last.0, last.1)
  }

  /** How long the text is after the rounds of a trace alone. */
  ghost function Reach(n: nat, trace: Trace): nat
    decreases |trace|
  {
    if trace == [] then n
    else
      var last := trace[|trace| - 1];
      Reach(n, trace[..|trace| - 1]) + last.1 + if last.1 < last.0 then 1 else 0
  }

  /** The plan at h: a decoder with a draft model that has made a plain step (the
      text is longer than its rounds account for) has given up drafting. */
  ghost function PlanAt(cfg: S.Config, plan: S.Plan, n: nat, h: seq<Token>, trace: Trace): S.Plan {
    var p := Tally(cfg, plan, trace);
    if cfg.modelMode && |h| != Reach(n, trace) then p.(armed := false) else p
  }

  /** The decoder's choice as a function of the text and of the rounds so far: the
      plan it started with, the prompt's length, and the text length at which the
      draft model fails, if it does, are given. */
  ghost function Chooses(env: S.Env, plan: S.Plan, n: nat, quit: int): Chooser {
    (h: seq<Token>, t: Trace) => ChoiceAt(env, S.Spot(h, PlanAt(env.cfg, plan, n, h, t), 0, 0), quit)
  }

  ghost function ChoiceAt(env: S.Env, s: S.Spot, quit: int): Choice {
    if s.h == [] || !S.WouldDraft(env, s) then Step
    else if env.cfg.modelMode then if |s.h| == quit then Step else Rollout(S.Asked(env, s))
    else
      var tokens := S.Retrieved(env.cfg, s.h, S.Asked(env, s));
      if env.m.InVocab(tokens) then Retrieve(tokens) else Step
  }

  ghost function DraftModel(env: S.Env): Model { if env.d.Some? then env.d.value else env.m }

  ghost function DecoderPolicy(env: S.Env, plan: S.Plan, n: nat, quit: int): Policy
    requires env.Valid()
  {
    PolicyOf(env.m, DraftModel(env), env.job.cfg, Chooses(env, plan, n, quit))
  }

  /** The decoder samples exactly: whatever its configuration, its plan and the
      point where the draft model fails, the text of its rounds has the
      distribution of sampling the target token by token. */
  lemma DecoderPolicyIsExact(env: S.Env, plan: S.Plan, prompt: seq<Token>, quit: int, k: nat, total: nat, f: Test)
    requires env.Valid() && Shapes(env.job.cfg) && DraftModel(env).vocab <= env.m.vocab
    requires |prompt| <= total && Within(f, total)
    ensures Rounds(Sampled(env.m, env.job.cfg), DecoderPolicy(env, plan, |prompt|, quit), prompt, [], k, total, f)
            == Target(Sampled(env.m, env.job.cfg), prompt, total - |prompt|, f)
  {
    hide Rounds, Target, Sampled;
    var choose := Chooses(env, plan, |prompt|, quit);
    forall h, t | choose(h, t).Retrieve?
      ensures env.m.InVocab(choose(h, t).tokens)
    {
      hide S.WouldDraft, S.Retrieved, PlanAt;
    }
    DecoderIsExact(env.m, DraftModel(env), env.job.cfg, choose, prompt, k, total, f);
  }

  // ---- A move is a round --------------------------------------------------

  lemma OneHotDraw(vocab: nat, k: nat, r: real)
    requires k < vocab
    ensures DrawIndex(OneHot(vocab, k), r) == k && Spends(OneHot(vocab, k), 0, 0)
  {
    var p := OneHot(vocab, k);
    DrawOnlyPositive(p, r, k, 0, 0);
    assert |p| == vocab;
  }

  /** A sampled token is a draw from the sampler's distribution. */
  lemma PickIsDraw(m: Model, cfg: GenConfig, h: seq<Token>, r: real, at: nat)
    requires m.Valid() && cfg.Valid()
    ensures Pick(cfg, m.logits(h), h, r) == DrawIndex(Sampled(m, cfg)(h), r)
    ensures Spends(Sampled(m, cfg)(h), at, if cfg.Greedy() then at else at + 1)
  {
    hide DrawIndex, Penalised, ArgMax;
    var l := Penalised(cfg, m.logits(h), h);
    if cfg.Greedy() { OneHotDraw(|l|, ArgMax(l), r); }
  }

  /** The verifier's verdict is the drawn check. */
  lemma {:induction false} VerifyIsCheck(m: Model, cfg: GenConfig, Q: Chain, h: seq<Token>, tokens: seq<Token>,
                                         probs: seq<seq<real>>, tape: Tape, used: nat, i: nat)
    requires m.Valid() && cfg.Valid() && Shapes(cfg) && Uniform(tape) && Checkable(m, tokens, probs) && i <= |tokens|
    requires forall j :: 0 <= j < |tokens| ==> probs[j] == Q(h + tokens[..j]) && probs[j][tokens[j]] > 0.0
    ensures var v := Verify(m, cfg, h, tokens, probs, tape, used, i);
      DrawnCheck(Sampled(m, cfg), Q, h + tokens[..i], tokens[i..], i, tape, used)
      == (h + v.Fresh(), |v.accepted|, v.used)
    decreases |tokens| - i
  {
    hide Verify, Dist, Residual, DrawIndex, AcceptRate, IsDistribution;
    VerifyStep(m, cfg, h, tokens, probs, tape, used, i);
    if i == |tokens| {
      assert tokens[..i] == tokens && tokens[i..] == [] && tokens + [] == tokens;
    } else {
      var context, d := h + tokens[..i], tokens[i];
      var P := Sampled(m, cfg);
      assert tokens[i..][0] == d && tokens[i..][1..] == tokens[i + 1..];
      assert context + [d] == h + tokens[..i + 1];
      SampledProper(m, cfg, context);
      TestIsRate(P(context), probs[i], d, tape(used));
      if Accept(P(context)[d], probs[i][d], tape(used)) {
        VerifyIsCheck(m, cfg, Q, h, tokens, probs, tape, used + 1, i + 1);
      } else {
        var x := DrawIndex(Residual(P(context), probs[i]), tape(used + 1));
        assert context + [x] == h + (tokens[..i] + [x]);
      }
    }
  }

  lemma TestIsRate(p: seq<real>, q: seq<real>, d: Token, r: real)
    requires IsDistribution(p) && 0 <= d < |p| && d < |q| && q[d] > 0.0 && 0.0 <= r < 1.0
    ensures Accept(p[d], q[d], r) <==> r < AcceptRate(At(p, d), At(q, d))
  {
    hide Sum;
    AcceptIsAnInterval(p[d], q[d], r);
  }

  /** A drawn token has positive probability. */
  lemma DrawnIsPositive(q: seq<real>, r: real)
    requires IsDistribution(q) && 0.0 <= r < 1.0 && q != []
    ensures q[DrawIndex(q, r)] > 0.0
  {
    hide Sum, DrawIndex;
    DrawIsExact(q, r, DrawIndex(q, r));
  }

  /** A rollout is a drawn draft. */
  lemma RolloutIsDrawn(d: Model, cfg: GenConfig, h: seq<Token>, tape: Tape, at: nat, n: nat, tokens: seq<Token>,
                       probs: seq<seq<real>>)
    requires d.Valid() && cfg.Valid() && Shapes(cfg) && Uniform(tape)
    requires S.FullRollout(d, cfg, h, tape, at, n, tokens, probs)
    ensures DrawnDraft(Sampled(d, cfg), EndsDraft(d, h), h, n, tape, at, at + |tokens|, tokens)
    ensures |probs| == |tokens|
    ensures forall j :: 0 <= j < |tokens| ==> probs[j] == Sampled(d, cfg)(h + tokens[..j])
    ensures forall j :: 0 <= j < |tokens| ==> 0 <= tokens[j] < |probs[j]| && probs[j][tokens[j]] > 0.0
  {
    hide Dist, DrawIndex, IsDistribution;
    var Q, halt := Sampled(d, cfg), EndsDraft(d, h);
    forall i | 0 <= i < |tokens|
      ensures probs[i] == Q(h + tokens[..i]) && 0 <= tokens[i] < |probs[i]| && probs[i][tokens[i]] > 0.0
      ensures DrawnToken(Q, halt, h + tokens[..i], tape, at + i, at + |tokens|, tokens[i])
    {
      assert D.Rolled(d, cfg, h, h, tape, at, tokens[..i], tokens[i], probs[i]);
      SampledProper(d, cfg, h + tokens[..i]);
      DrawnIsPositive(probs[i], tape(at + i));
      if i > 0 { assert (h + tokens[..i])[|h| + i - 1] == tokens[i - 1]; }
    }
    assert (h + tokens)[|h + tokens| - 1] == tokens[|tokens| - 1];
  }

  /** A retrieved draft is one too: there is nothing to decide in it. */
  lemma RetrievedIsDrawn(vocab: nat, h: seq<Token>, tape: Tape, at: nat, tokens: seq<Token>)
    requires forall j :: 0 <= j < |tokens| ==> 0 <= tokens[j] < vocab
    ensures var Q := Retrieved(vocab, h, tokens);
      && DrawnDraft(Q, Exhausted(h, tokens), h, |tokens|, tape, at, at, tokens)
      && forall j :: 0 <= j < |tokens| ==>
           S.OneHots(vocab, tokens)[j] == Q(h + tokens[..j]) && S.OneHots(vocab, tokens)[j][tokens[j]] > 0.0
  {
    var Q, halt := Retrieved(vocab, h, tokens), Exhausted(h, tokens);
    forall i | 0 <= i < |tokens|
      ensures S.OneHots(vocab, tokens)[i] == Q(h + tokens[..i]) && S.OneHots(vocab, tokens)[i][tokens[i]] > 0.0
      ensures DrawnToken(Q, halt, h + tokens[..i], tape, at + i, at, tokens[i])
    {
      assert |h + tokens[..i]| == |h| + i;
      assert Q(h + tokens[..i]) == OneHot(vocab, tokens[i]);
      OneHotDraw(vocab, tokens[i], tape(at + i));
    }
  }

  // ---- A run is a drawn run -----------------------------------------------

  /** The rounds of the trace, as the decoder counts them. */
  ghost function TraceAfter(env: S.Env, s: S.Spot, mv: S.Move, trace: Trace): Trace
    requires env.Valid() && s.h != [] && S.Legal(env, s, mv)
  {
    match mv
    case Picked(_, _) => trace
    case Block(tokens, _) => trace + [(|tokens|, |S.Verdict(env, s, mv).accepted|)]
  }

  /** The spot is where the policy expects the decoder to be. */
  ghost predicate OnPolicy(env: S.Env, plan: S.Plan, n: nat, s: S.Spot, trace: Trace) {
    s.h != [] && s.plan == PlanAt(env.cfg, plan, n, s.h, trace) && |s.h| >= Reach(n, trace)
  }

  ghost function PlaceAt(s: S.Spot, trace: Trace): Place { Place(s.h, trace, s.drawn, s.checked) }

  /** The draft model fails at texts of length `quit` and at no other. */
  ghost predicate QuitsHere(env: S.Env, s: S.Spot, mv: S.Move, quit: int) {
    match mv
    case Picked(_, gaveUp) => gaveUp ==> |s.h| == quit
    case Block(_, _) => |s.h| != quit
  }

  /** What the policy says at the spot. */
  lemma PolicyAt(env: S.Env, plan: S.Plan, n: nat, quit: int, s: S.Spot, trace: Trace)
    requires env.Valid() && OnPolicy(env, plan, n, s, trace)
    ensures DecoderPolicy(env, plan, n, quit)(s.h, trace) ==
      SourceOf(env.m, DraftModel(env), env.job.cfg, s.h, ChoiceAt(env, s, quit))
  {
    hide S.WouldDraft, S.Retrieved, Reach, Sampled;
    SameDecision(env, s, s.plan);
  }

  lemma PickedIsRound(env: S.Env, plan: S.Plan, n: nat, quit: int, s: S.Spot, trace: Trace, mv: S.Move)
    requires env.Valid() && OnPolicy(env, plan, n, s, trace) && S.Legal(env, s, mv) && mv.Picked?
    requires QuitsHere(env, s, mv, quit)
    ensures DrawnRound(Sampled(env.m, env.job.cfg), DecoderPolicy(env, plan, n, quit), env.job.tape, env.accepts,
                       PlaceAt(s, trace), mv.drawn, [], PlaceAt(S.Next(env, s, mv), trace))
  {
    hide S.WouldDraft, Pick, Dist, DrawIndex, PlanAt, Reach, DecoderPolicy;
    PolicyAt(env, plan, n, quit, s, trace);
    PickIsDraw(env.m, env.job.cfg, s.h, env.job.tape(mv.drawn), mv.drawn);
  }

  /** The decision does not depend on how far the tapes were read. */
  lemma SameDecision(env: S.Env, s: S.Spot, plan: S.Plan)
    requires s.h != [] && s.plan == plan
    ensures S.WouldDraft(env, s) == S.WouldDraft(env, S.Spot(s.h, plan, 0, 0))
    ensures S.Asked(env, s) == S.Asked(env, S.Spot(s.h, plan, 0, 0))
  {
    hide S.Retrieved;
  }

  lemma BlockIsRound(env: S.Env, plan: S.Plan, n: nat, quit: int, s: S.Spot, trace: Trace, mv: S.Move)
    requires env.Valid() && OnPolicy(env, plan, n, s, trace) && S.Legal(env, s, mv) && mv.Block?
    requires Shapes(env.job.cfg) && Uniform(env.job.tape) && Uniform(env.accepts) && QuitsHere(env, s, mv, quit)
    ensures DrawnRound(Sampled(env.m, env.job.cfg), DecoderPolicy(env, plan, n, quit), env.job.tape, env.accepts,
                       PlaceAt(s, trace), s.drawn, mv.tokens,
                       PlaceAt(S.Next(env, s, mv), TraceAfter(env, s, mv, trace)))
  {
    hide S.Retrieved, Verify, Dist, DrawIndex, PlanAt, Reach, DrawnCheck, S.FullRollout, Retrieved, Sampled;
    hide DecoderPolicy;
    var tokens, probs, P := mv.tokens, mv.probs, Sampled(env.m, env.job.cfg);
    PolicyAt(env, plan, n, quit, s, trace);
    var source := DecoderPolicy(env, plan, n, quit)(s.h, trace);
    assert tokens[..0] == [] && s.h + [] == s.h && tokens[0..] == tokens;
    if env.cfg.modelMode {
      RolloutIsDrawn(env.d.value, env.job.cfg, s.h, env.job.tape, s.drawn, S.Asked(env, s), tokens, probs);
    } else {
      RetrievedIsDrawn(env.m.vocab, s.h, env.job.tape, s.drawn, tokens);
    }
    VerifyIsCheck(env.m, env.job.cfg, source.model, s.h, tokens, probs, env.accepts, s.checked, 0);
  }

  /** A legal move leaves the decoder where the policy expects it. */
  lemma StaysOnPolicy(env: S.Env, plan: S.Plan, n: nat, s: S.Spot, trace: Trace, mv: S.Move)
    requires env.Valid() && OnPolicy(env, plan, n, s, trace) && S.Legal(env, s, mv)
    ensures OnPolicy(env, plan, n, S.Next(env, s, mv), TraceAfter(env, s, mv, trace))
    ensures |S.Next(env, s, mv).h| > |s.h|
  {
    hide Verify, S.Retrieved, Pick, S.FullRollout, S.Asked, S.Review;
    if mv.Block? {
      var v := S.Verdict(env, s, mv);
      var trace' := TraceAfter(env, s, mv, trace);
      assert trace'[..|trace|] == trace && trace'[|trace|] == (|mv.tokens|, |v.accepted|);
      assert s.plan == Tally(env.cfg, plan, trace);
      assert mv.tokens != [] by { NotEmpty(env, s, mv); }
    }
  }

  lemma NotEmpty(env: S.Env, s: S.Spot, mv: S.Move)
    requires env.Valid() && s.h != [] && S.Legal(env, s, mv) && mv.Block?
    ensures mv.tokens != []
  {
    hide S.Retrieved, D.Rollout;
  }

  /** The draft model fails, if at all, at texts of length `quit` only. */
  ghost predicate Quits(env: S.Env, start: S.Spot, moves: seq<S.Move>, quit: int)
    requires env.Valid() && start.h != []
    decreases |moves|
  {
    moves == [] ||
    (var front, mv := moves[..|moves| - 1], moves[|moves| - 1];
     var f := S.Follow(env, start, front);
     f.Some? && Quits(env, start, front, quit) && QuitsHere(env, f.value, mv, quit))
  }

  /** A run in which nothing failed so far may still fail at the next spot. */
  lemma {:induction false} QuitsLater(env: S.Env, start: S.Spot, moves: seq<S.Move>, quit: int)
    requires env.Valid() && start.h != [] && S.Follow(env, start, moves).Some? && Quits(env, start, moves, -1)
    requires quit >= |S.Follow(env, start, moves).value.h|
    ensures Quits(env, start, moves, quit)
    decreases |moves|
  {
    hide S.Legal;
    if moves == [] {
    } else {
      var front, mv := moves[..|moves| - 1], moves[|moves| - 1];
      var s := S.Follow(env, start, front).value;
      SaysSomething(env, s, mv);
      hide S.Next;
      QuitsLater(env, start, front, quit);
    }
  }

  lemma SaysSomething(env: S.Env, s: S.Spot, mv: S.Move)
    requires env.Valid() && s.h != [] && S.Legal(env, s, mv)
    ensures |S.Next(env, s, mv).h| > |s.h|
  {
    hide Verify, S.Retrieved, Pick, S.FullRollout, S.Asked, S.Review;
    if mv.Block? { NotEmpty(env, s, mv); }
  }

  /** There is one point at most where the draft model is given up for failing:
      a decoder that has given it up does not draft again. */
  lemma {:induction false} QuitExists(env: S.Env, start: S.Spot, moves: seq<S.Move>) returns (quit: int)
    requires env.Valid() && start.h != [] && S.Follow(env, start, moves).Some?
    ensures Quits(env, start, moves, quit)
    ensures quit == -1 || (env.cfg.modelMode && !S.Follow(env, start, moves).value.plan.armed)
    decreases |moves|
  {
    if moves == [] {
      quit := -1;
    } else {
      var front, mv := moves[..|moves| - 1], moves[|moves| - 1];
      quit := QuitExists(env, start, front);
      var s := S.Follow(env, start, front).value;
      hide S.Follow, S.Retrieved, Verify, Pick, S.FullRollout, S.Asked;
      if mv.Picked? && mv.gaveUp {
        QuitsLater(env, start, front, |s.h|);
        quit := |s.h|;
      }
    }
  }

  /** Every run of the decoder is a drawn run of the process that
      DecoderPolicyIsExact speaks of: its moves are the rounds, its tapes the
      draws, its text the text. */
  lemma {:induction false} RunIsDrawn(env: S.Env, plan: S.Plan, prompt: seq<Token>, moves: seq<S.Move>, quit: int)
    returns (places: seq<Place>, trace: Trace)
    requires env.Valid() && prompt != [] && Shapes(env.job.cfg) && Uniform(env.job.tape) && Uniform(env.accepts)
    requires S.Follow(env, S.Spot(prompt, plan, 0, 0), moves).Some?
    requires Quits(env, S.Spot(prompt, plan, 0, 0), moves, quit)
    ensures DrawnRun(Sampled(env.m, env.job.cfg), DecoderPolicy(env, plan, |prompt|, quit), env.job.tape, env.accepts,
                     places)
    ensures |places| == |moves| + 1 && places[0] == Place(prompt, [], 0, 0)
    ensures places[|moves|] == PlaceAt(S.Follow(env, S.Spot(prompt, plan, 0, 0), moves).value, trace)
    ensures OnPolicy(env, plan, |prompt|, S.Follow(env, S.Spot(prompt, plan, 0, 0), moves).value, trace)
    decreases |moves|
  {
    hide S.Legal, S.Next, DecoderPolicy, Sampled, OnPolicy, QuitsHere, LeadsTo, TraceAfter;
    var start := S.Spot(prompt, plan, 0, 0);
    if moves == [] {
      trace := [];
      places := [Place(prompt, [], 0, 0)];
      StartsOnPolicy(env, plan, prompt);
    } else {
      var k := |moves| - 1;
      var front, mv := moves[..k], moves[k];
      var passed, sofar := RunIsDrawn(env, plan, prompt, front, quit);
      var s := S.Follow(env, start, front).value;
      assert S.Follow(env, start, moves) == Some(S.Next(env, s, mv)) && QuitsHere(env, s, mv, quit);
      hide S.Follow, Quits, DrawnRun, Shapes, Uniform;
      MoveIsRound(env, plan, |prompt|, quit, s, sofar, mv);
      trace := TraceAfter(env, s, mv, sofar);
      var next := PlaceAt(S.Next(env, s, mv), trace);
      places := passed + [next];
      OneMoreRound(Sampled(env.m, env.job.cfg), DecoderPolicy(env, plan, |prompt|, quit), env.job.tape, env.accepts,
                   passed, next);
    }
  }

  lemma StartsOnPolicy(env: S.Env, plan: S.Plan, prompt: seq<Token>)
    requires prompt != []
    ensures OnPolicy(env, plan, |prompt|, S.Spot(prompt, plan, 0, 0), [])
  {
  }

  /** Every legal move is a round of the process, drawn. */
  lemma MoveIsRound(env: S.Env, plan: S.Plan, n: nat, quit: int, s: S.Spot, trace: Trace, mv: S.Move)
    requires env.Valid() && OnPolicy(env, plan, n, s, trace) && S.Legal(env, s, mv) && QuitsHere(env, s, mv, quit)
    requires Shapes(env.job.cfg) && Uniform(env.job.tape) && Uniform(env.accepts)
    ensures LeadsTo(Sampled(env.m, env.job.cfg), DecoderPolicy(env, plan, n, quit), env.job.tape, env.accepts,
                    PlaceAt(s, trace), PlaceAt(S.Next(env, s, mv), TraceAfter(env, s, mv, trace)))
    ensures OnPolicy(env, plan, n, S.Next(env, s, mv), TraceAfter(env, s, mv, trace))
  {
    hide S.Legal, S.Next, DecoderPolicy, Sampled, OnPolicy, DrawnRound, QuitsHere, Shapes, Uniform;
    StaysOnPolicy(env, plan, n, s, trace, mv);
    if mv.Picked? {
      PickedIsRound(env, plan, n, quit, s, trace, mv);
    } else {
      BlockIsRound(env, plan, n, quit, s, trace, mv);
    }
  }

  lemma OneMoreRound(P: Chain, policy: Policy, tape: Tape, accepts: Tape, places: seq<Place>, next: Place)
    requires DrawnRun(P, policy, tape, accepts, places)
    requires LeadsTo(P, policy, tape, accepts, places[|places| - 1], next)
    ensures DrawnRun(P, policy, tape, accepts, places + [next])
  {
    hide LeadsTo;
    var longer := places + [next];
    forall i | 0 <= i < |longer| - 1
      ensures LeadsTo(P, policy, tape, accepts, longer[i], longer[i + 1])
    {
      assert longer[i] == places[i];
    }
  }

  /** For every sampler: what the decoder says is drawn from the process that has,
      at every length, exactly the target's distribution; and the caller is told
      the cut of it. */
  lemma SpeechIsDrawn(env: S.Env, prompt: seq<Token>, plan: S.Plan, moves: seq<S.Move>, end: S.End,
                      delivered: seq<Token>)
    returns (quit: int, places: seq<Place>)
    requires env.Valid() && prompt != [] && Shapes(env.job.cfg) && Uniform(env.job.tape) && Uniform(env.accepts)
    requires S.Speaks(env, prompt, plan, moves, end, delivered)
    ensures DrawnRun(Sampled(env.m, env.job.cfg), DecoderPolicy(env, plan, |prompt|, quit), env.job.tape, env.accepts,
                     places)
    ensures places[0] == Place(prompt, [], 0, 0)
    ensures var said := places[|places| - 1].h;
      && said == S.SaidBy(env, prompt, plan, moves)
      && S.Told(env.m, env.job, prompt, said, delivered, Max(env.job.cfg.maxTokens, 0), end == S.Threw)
  {
    hide S.Told, S.Over, DrawnRun;
    quit := QuitExists(env, S.Spot(prompt, plan, 0, 0), moves);
    var trace;
    places, trace := RunIsDrawn(env, plan, prompt, moves, quit);
  }
}
