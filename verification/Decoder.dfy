/** The speculative decoder: draft, verify in one batch, accept or correct, roll
    back, and fall back to plain decoding when speculation does not pay. */
module Decoder {
  import opened Backend
  import opened Sampling
  import opened Reference
  import opened Verifier
  import opened Acceptance
  import opened Speculation
  import Drafts

  /** Vocabularies may differ by padding. */
  const PADDING := 128

  predicate Tolerated(target: Model, draft: Model) {
    -PADDING <= draft.vocab - target.vocab <= PADDING
  }

  function Front(h: seq<Token>): seq<Token>
    requires h != []
  {
    h[..|h| - 1]
  }

  /** One is a prefix of the other. */
  predicate Comparable(a: seq<Token>, b: seq<Token>) { a <= b || b <= a }

  // ---- Which draft models are safe ----------------------------------------

  /** Whatever the sampler and the history, a rollout of d can be verified by m. */
  ghost predicate AlwaysCheckable(m: Model, d: Model)
    requires d.Valid()
  {
    forall gen: GenConfig, context, recent, tape, used, tokens, probs ::
      gen.Valid() && Drafts.Rollout(d, gen, context, recent, tape, used, tokens, probs) ==> Checkable(m, tokens, probs)
  }

  /** Exactly the draft models whose vocabulary is no larger than the target's
      are safe: any larger one, within the tolerated padding or not, can propose
      a token that the target's probabilities have no entry for. */
  lemma SafeDraftModels(m: Model, d: Model)
    requires m.Valid() && d.Valid()
    ensures AlwaysCheckable(m, d) <==> d.vocab <= m.vocab
  {
    if d.vocab <= m.vocab {
      forall gen: GenConfig, context, recent, tape, used, tokens, probs |
        gen.Valid() && Drafts.Rollout(d, gen, context, recent, tape, used, tokens, probs)
        ensures Checkable(m, tokens, probs)
      {
        hide Drafts.Rolled;
        forall i: nat | i < |tokens| ensures |probs[i]| == d.vocab && 0 <= tokens[i] < d.vocab {
          Drafts.RolloutShape(d, gen, context, recent, tape, used, tokens, probs, i);
        }
      }
    } else {
      var gen, tape, probs := PaddingRollout(m, d);
      var tokens: seq<Token> := [m.vocab];
      assert !(0 <= tokens[0] < m.vocab);
      assert !Checkable(m, tokens, probs);
    }
  }

  /** A sampler under which d proposes the first token that m does not have. */
  lemma PaddingRollout(m: Model, d: Model) returns (gen: GenConfig, tape: Tape, probs: seq<seq<real>>)
    requires m.Valid() && d.Valid() && m.vocab < d.vocab
    ensures gen.Valid() && Drafts.Rollout(d, gen, [], [], tape, 0, [m.vocab], probs)
  {
    gen := GenConfig(1, 1.0, 1.0, 0, (l: seq<real>) => OneHot(|l|, m.vocab));
    tape := (k: nat) => 0.0;
    var p := OneHot(d.vocab, m.vocab);
    probs := [p];
    DrawOnlyPositive(p, 0.0, m.vocab, 0, 0);
    var none: seq<Token> := [];
    assert [m.vocab][..0] == none && none + none == none;
    assert Dist(gen, d.logits([]), []) == p;
    assert Drafts.Rolled(d, gen, [], [], tape, 0, [], m.vocab, p);
  }

  // ---- The decoder --------------------------------------------------------

  class SpeculativeDecoder {
    const target: LlamaBackend
    const draft: LlamaBackend?
    const cfg: Config
    var drafted: nat
    var accepted: nat
    var rejected: nat
    var generated: nat
    var draftTokens: int
    var active: bool

    ghost predicate Valid()
      reads this
    {
      && target.model.Valid() && cfg.Valid()
      && (draft != null ==> draft != target && draft.model.Valid() && Tolerated(target.model, draft.model))
      && (active && cfg.modelMode ==> draft != null)
      && cfg.minDraft <= draftTokens <= cfg.maxDraft
      && drafted == accepted + rejected
    }

    constructor (target: LlamaBackend, draft: LlamaBackend?, cfg: Config)
      requires target.model.Valid() && cfg.Valid()
      requires draft != null ==> draft != target && draft.model.Valid() && Tolerated(target.model, draft.model)
      ensures Valid() && this.target == target && this.draft == draft && this.cfg == cfg
      ensures active <==> cfg.useSpeculative && (!cfg.modelMode || draft != null)
      ensures drafted == 0 && generated == 0
      ensures cfg.minDraft <= cfg.draftTokens <= cfg.maxDraft ==> draftTokens == cfg.draftTokens
      ensures cfg.draftTokens < cfg.minDraft ==> draftTokens == cfg.minDraft
      ensures cfg.draftTokens > cfg.maxDraft ==> draftTokens == cfg.maxDraft
    {
      this.target, this.draft, this.cfg := target, draft, cfg;
      drafted, accepted, rejected, generated := 0, 0, 0, 0;
      draftTokens := Min(Max(cfg.draftTokens, cfg.minDraft), cfg.maxDraft);
      active := cfg.useSpeculative && (!cfg.modelMode || draft != null);
    }

    /** A decoder, or nothing for two models that cannot share a tokenizer. */
    static method Create(target: LlamaBackend, draft: LlamaBackend?, cfg: Config) returns (r: SpeculativeDecoder?)
      requires target.model.Valid() && cfg.Valid() && (draft != null ==> draft != target && draft.model.Valid())
      ensures r == null <==>
        draft != null && (draft.model.vocab > target.model.vocab + 128 || target.model.vocab > draft.model.vocab + 128)
      ensures r != null ==> r.Valid() && fresh(r) && r.target == target && r.draft == draft && r.cfg == cfg
    {
      if draft != null && !Tolerated(target.model, draft.model) { return null; }
      r := new SpeculativeDecoder(target, draft, cfg);
    }

    /** No source of drafts can leave the target's vocabulary. */
    ghost predicate Indexable() {
      if cfg.modelMode then draft == null || draft.model.vocab <= target.model.vocab
      else cfg.RetrievesFrom(target.model)
    }

    /** What the decoder remembers of its drafts. */
    ghost function PlanNow(): Plan
      reads this
    {
      Plan(drafted, accepted, draftTokens, active)
    }

    /** What a generation for this request is given. */
    ghost function EnvFor(job: Job, accepts: Tape): Env {
      Env(target.model, if draft == null then None else Some(draft.model), cfg, job, accepts)
    }

    /** The KV protocol: each model in use holds the history without its newest
        token. */
    ghost predicate Lockstep(history: seq<Token>)
      requires history != []
      reads this, target, draft
    {
      && target.Holds(Front(history))
      && (active && cfg.modelMode ==> draft != null && draft.Holds(Front(history)))
    }

    /** Failed operations of either model so far. */
    ghost function Faults(): nat
      reads target, draft
    {
      target.faults + if draft == null then 0 else draft.faults
    }

    method AdaptDraftLength(nAccepted: nat, nDrafted: nat)
      requires cfg.minDraft <= draftTokens <= cfg.maxDraft
      modifies `draftTokens
      ensures cfg.minDraft <= draftTokens <= cfg.maxDraft
      ensures draftTokens == Adapted(cfg, old(draftTokens), nAccepted, nDrafted)
      ensures var many := nDrafted > 0 && 10 * nAccepted >= 9 * nDrafted;
        && (draftTokens > old(draftTokens) <==> many && old(draftTokens) < cfg.maxDraft)
        && (many ==> draftTokens == old(draftTokens) + 2 || draftTokens == cfg.maxDraft <= old(draftTokens) + 2)
      ensures var few := nDrafted > 0 && 10 * nAccepted <= 4 * nDrafted;
        && (draftTokens < old(draftTokens) <==> few && old(draftTokens) > cfg.minDraft)
        && (few ==> draftTokens == old(draftTokens) - 2 || draftTokens == cfg.minDraft >= old(draftTokens) - 2)
    {
      if nDrafted == 0 { return; }
      var rate := nAccepted as real / nDrafted as real;
      RateAgainst(nAccepted, nDrafted, 0.9);
      RateAgainst(nAccepted, nDrafted, 0.4);
      if rate >= 0.9 {
        draftTokens := Min(draftTokens + 2, cfg.maxDraft);
      } else if rate <= 0.4 {
        draftTokens := Max(draftTokens - 2, cfg.minDraft);
      }
    }

    /** A rate compared with a limit, without the division. */
    static lemma RateAgainst(a: nat, d: nat, limit: real)
      requires d > 0
      ensures a as real / d as real >= limit <==> a as real >= limit * d as real
      ensures a as real / d as real <= limit <==> a as real <= limit * d as real
    {
      var rate := a as real / d as real;
      Quotient(a as real, d as real);
      Scaling(rate, limit, d as real);
      Scaling(limit, rate, d as real);
    }

    /** One-way: speculation is switched off once enough was drafted and too
        little of it accepted, and never on. */
    method MaybeAutoDisable()
      modifies `active
      ensures active ==> old(active)
      ensures old(active) ==> (!active <==> drafted >= cfg.disableAfter && LowRate(cfg, drafted, accepted))
      ensures old(active) && drafted > 0 ==>
        (!active <==> drafted >= cfg.disableAfter && accepted as real < cfg.disableBelow * drafted as real)
      ensures old(active) && drafted == 0 ==> (!active <==> cfg.disableAfter == 0 && cfg.disableBelow > 0.0)
    {
      if !active { return; }
      if drafted < cfg.disableAfter { return; }
      var rate := if drafted == 0 then 0.0 else accepted as real / drafted as real;
      if drafted > 0 { RateAgainst(accepted, drafted, cfg.disableBelow); }
      if rate < cfg.disableBelow { active := false; }
    }

    // ---- Prefill ----------------------------------------------------------

    method PrefillTarget(history: seq<Token>, kvReady: nat) returns (ok: bool)
      requires history != [] && kvReady < |history|
      requires kvReady > 0 ==> target.Holds(history[..kvReady])
      modifies target
      ensures ok ==> target.Holds(Front(history)) && target.decoded == old(target.decoded) + |history| - 1 - kvReady
      ensures target.peak <= Max(old(target.peak), |history| - 1)
      ensures target.faults == old(target.faults) + if ok then 0 else 1
    {
      var base := |history| - 1;
      ok := true;
      var logits;
      if kvReady == 0 {
        target.Reset();
        if base > 0 { ok, logits := target.DecodeAppend(history[..base]); }
      } else if kvReady < base {
        assert history[..kvReady] + history[kvReady..base] == history[..base];
        ok, logits := target.DecodeAppend(history[kvReady..base]);
      }
    }

    /** A draft model that cannot even prefill is given up. */
    method PrefillDraft(history: seq<Token>)
      requires history != [] && (active && cfg.modelMode ==> draft != null)
      modifies `active, draft
      ensures active ==> old(active)
      ensures !cfg.modelMode ==> active == old(active)
      ensures active && cfg.modelMode ==> draft.Holds(Front(history))
      ensures draft != null ==> draft.peak <= Max(old(draft.peak), |history| - 1)
      ensures draft != null ==> draft.faults == old(draft.faults) + if active == old(active) then 0 else 1
    {
      if active && cfg.modelMode {
        var base := |history| - 1;
        var ok, logits := true, [];
        draft.Reset();
        if base > 0 { ok, logits := draft.DecodeAppend(history[..base]); }
        if !ok { active := false; }
      }
    }

    // ---- Drafting ---------------------------------------------------------

    /** Prompt lookup, then the archive, then the structural prompter. */
    method ProposeLookup(history: seq<Token>, nDraft: nat) returns (tokens: seq<Token>, probs: seq<seq<real>>)
      requires target.model.Valid() && cfg.Valid() && target.model.InVocab(history)
      ensures |tokens| <= nDraft
      ensures tokens == Retrieved(cfg, history, nDraft) && probs == OneHots(target.model.vocab, tokens)
      ensures target.model.InVocab(tokens) ==> Checkable(target.model, tokens, probs)
      ensures cfg.RetrievesFrom(target.model) ==> target.model.InVocab(tokens)
      ensures var looked := Drafts.LookupDraft(history, cfg.maxNgram, cfg.minNgram, nDraft);
        && (looked != [] ==> tokens == looked)
        && (looked == [] && cfg.corpus(history, nDraft) != [] ==> tokens == cfg.corpus(history, nDraft))
        && (looked == [] && cfg.corpus(history, nDraft) == [] ==>
              tokens <= cfg.form(history) && (tokens == cfg.form(history) || |tokens| == nDraft))
    {
      ghost var n, s;
      tokens, n, s := Drafts.FindDraft(history, cfg.maxNgram, cfg.minNgram, nDraft);
      assert target.model.InVocab(tokens) by {
        forall i | 0 <= i < |tokens| ensures 0 <= tokens[i] < target.model.vocab { assert tokens[i] in history; }
      }
      if tokens == [] { tokens := cfg.corpus(history, nDraft); }
      if tokens == [] {
        tokens := cfg.form(history);
        if |tokens| > nDraft { tokens := tokens[..nDraft]; }
      }
      probs := OneHots(target.model.vocab, tokens);
    }

    /** A rollout within the target's vocabulary is a draft the target can
        verify. */
    lemma RolloutCheckable(gen: GenConfig, context: seq<Token>, recent: seq<Token>, tape: Tape, used: nat,
                           tokens: seq<Token>, probs: seq<seq<real>>)
      requires Valid() && draft != null && gen.Valid()
      requires Drafts.Rollout(draft.model, gen, context, recent, tape, used, tokens, probs)
      ensures target.model.InVocab(tokens) <==> Checkable(target.model, tokens, probs)
      ensures draft.model.vocab <= target.model.vocab ==> target.model.InVocab(tokens)
    {
      forall i: nat | i < |tokens|
        ensures |probs[i]| == draft.model.vocab && 0 <= tokens[i] < draft.model.vocab
      {
        Drafts.RolloutShape(draft.model, gen, context, recent, tape, used, tokens, probs, i);
      }
    }

    // ---- One speculative round --------------------------------------------

    /** KV sync: the batch took both models over the whole draft but its last
        token; after a rejection they are cut back to the accepted prefix. */
    method Sync(history: seq<Token>, tokens: seq<Token>, v: Verification) returns (ok: bool)
      requires Valid() && active && history != [] && tokens != []
      requires v.accepted <= tokens && (v.corrected.Some? <==> |v.accepted| < |tokens|)
      requires target.Holds(Front(history + tokens))
      requires cfg.modelMode ==> draft.Holds(Front(history + tokens))
      modifies target, draft
      ensures ok ==> v.Fresh() != [] && target.Holds(history + Front(v.Fresh()))
      ensures ok && cfg.modelMode ==> draft.Holds(history + Front(v.Fresh()))
      ensures target.peak <= Max(old(target.peak), |history| + |tokens| - 1)
      ensures cfg.modelMode ==> draft.peak <= Max(old(draft.peak), |history| + |tokens| - 1)
      ensures Faults() == old(Faults()) + if ok then 0 else 1
    {
      ok := true;
      if v.corrected.Some? {
        var keep := |history| + |v.accepted|;
        assert Front(history + tokens)[..keep] == history + Front(v.Fresh());
        ok := target.TruncateTo(keep);
        if ok && cfg.modelMode && draft != null { ok := draft.TruncateTo(keep); }
      } else {
        assert v.Fresh() == tokens;
        assert Front(history + tokens) == history + Front(tokens);
      }
    }

    /** Verification and sync: both models end up holding the history and all
        new tokens but the newest. */
    method VerifyAndSync(gen: GenConfig, rng: Rng, history: seq<Token>, tokens: seq<Token>, probs: seq<seq<real>>)
      returns (ok: bool, news: seq<Token>, nAccepted: nat)
      requires Valid() && gen.Valid() && active && history != []
      requires tokens != [] && Checkable(target.model, tokens, probs)
      requires target.Holds(Front(history))
      requires cfg.modelMode ==> draft.Holds(Front(history + tokens))
      modifies `drafted, `accepted, `rejected, target, draft, rng
      ensures Valid()
      ensures ok ==> news != [] && target.model.InVocab(news) && nAccepted <= |tokens|
      ensures ok ==> var v := Verify(target.model, gen, history, tokens, probs, rng.tape, old(rng.used), 0);
        news == v.Fresh() && nAccepted == |v.accepted| && rng.used == v.used
      ensures ok ==> target.Holds(history + Front(news))
      ensures ok && cfg.modelMode ==> draft.Holds(history + Front(news))
      ensures ok ==> drafted == old(drafted) + |tokens| && accepted == old(accepted) + nAccepted
      ensures target.peak <= Max(old(target.peak), |history| + |tokens| - 1)
      ensures cfg.modelMode ==> draft.peak <= Max(old(draft.peak), |history| + |tokens| - 1)
      ensures Faults() == old(Faults()) + if ok then 0 else 1
    {
      hide Verify;
      news, nAccepted := [], 0;
      var v;
      assert Front(history) + [history[|history| - 1]] == history;
      ok, v := VerifyBatch(target, gen, rng, history[|history| - 1], tokens, probs, history);
      if !ok { return; }
      nAccepted := |v.accepted|;
      drafted, accepted, rejected := drafted + |tokens|, accepted + nAccepted, rejected + (|tokens| - nAccepted);
      news := v.Fresh();
      ok := Sync(history, tokens, v);
    }

    /** Hands new tokens to the caller until a limit, an end-of-generation
        token or the caller's refusal. */
    method Emit(job: Job, history0: seq<Token>, delivered0: seq<Token>, news: seq<Token>, max: nat)
      returns (end: End, history: seq<Token>, delivered: seq<Token>)
      requires news != [] && |delivered0| < max && |history0| < target.model.nCtx
      modifies `generated
      ensures Emitted(target.model, job, history0, delivered0, news, max, end, history, delivered)
      ensures end in {Going, Ended, Threw}
      ensures history0 <= history <= history0 + news
      ensures generated == old(generated) + |history| - |history0|
    {
      ghost var m := target.model;
      assert news[..0] == [] && !Closed(m, job, history0, delivered0, [], max);
      hide Cut, Closed;
      history, delivered, end := history0, delivered0, Going;
      for i := 0 to |news|
        invariant history == history0 + news[..i] && delivered == delivered0 + news[..i]
        invariant |delivered| < max && |history| < m.nCtx
        invariant !Closed(m, job, history0, delivered0, news[..i], max)
        invariant generated == old(generated) + i
      {
        var t := news[i];
        SplitAt(m, job, history0, delivered0, news, i, max);
        if target.model.eog(t) { return Ended, history, delivered; }
        var verdict := job.callback(delivered + [t]);
        delivered := delivered + [t];
        if verdict.Stop? { return Ended, history, delivered; }
        if verdict.Throw? { return Threw, history, delivered; }
        history, generated := history + [t], generated + 1;
        if |delivered| >= max || |history| >= target.model.nCtx { return; }
      }
      assert news[..|news|] == news;
      CutOpen(m, job, history0, delivered0, news, max);
    }

    /** What becomes of the i-th new token, those before it having been taken. */
    static lemma SplitAt(m: Model, job: Job, h: seq<Token>, d: seq<Token>, news: seq<Token>, i: nat, max: nat)
      requires i < |news| && !Closed(m, job, h, d, news[..i], max)
      ensures news[..i + 1] == news[..i] + [news[i]]
      ensures var t, d' := news[i], d + news[..i];
        var verdict, over := job.callback(d' + [t]), |d' + [t]| >= max || |h + news[..i] + [t]| >= m.nCtx;
        && d' + [t] == d + news[..i + 1] && (d' + [t])[|d|..] == news[..i + 1] && d'[|d|..] == news[..i]
        && |d'| < max && |h + news[..i]| < m.nCtx
        && (m.eog(t) ==> Closed(m, job, h, d, news, max) && Cut(m, job, h, d, news, max) == Run(news[..i], false))
        && (!m.eog(t) && (!verdict.Continue? || over) ==>
              Closed(m, job, h, d, news, max) && Cut(m, job, h, d, news, max) == Run(news[..i + 1], verdict.Throw?))
        && (!m.eog(t) && verdict.Continue? && !over ==> !Closed(m, job, h, d, news[..i + 1], max))
    {
      hide Cut, Closed;
      var front, rest, t := news[..i], news[i..], news[i];
      var h', d' := h + front, d + front;
      assert news == front + rest && rest[0] == t && news[..i + 1] == front + [t];
      CutConcat(m, job, h, d, front, rest, max);
      CutConcat(m, job, h, d, front, [t], max);
      CutConcat(m, job, h, d, front, [], max);
      assert front + [] == front;
      Below(m, job, h', d', max);
      CutHead(m, job, h', d', rest, max);
      CutOne(m, job, h', d', t, max);
      if |d' + [t]| >= max || |h' + [t]| >= m.nCtx { AtLimit(m, job, h' + [t], d' + [t], rest[1..], max); }
    }

    static lemma Below(m: Model, job: Job, h: seq<Token>, d: seq<Token>, max: nat)
      requires !Closed(m, job, h, d, [], max)
      ensures |d| < max && |h| < m.nCtx
    {
    }

    /** Verify, sync, emit, then adapt the draft length and reconsider. */
    method Round(job: Job, rng: Rng, history0: seq<Token>, delivered0: seq<Token>, max: nat,
                 tokens: seq<Token>, probs: seq<seq<real>>)
      returns (end: End, history: seq<Token>, delivered: seq<Token>)
      requires Valid() && job.cfg.Valid() && active && history0 != [] && target.model.InVocab(history0)
      requires |delivered0| < max && |history0| < target.model.nCtx
      requires tokens != [] && Checkable(target.model, tokens, probs)
      requires target.Holds(Front(history0))
      requires cfg.modelMode ==> draft.Holds(Front(history0 + tokens))
      modifies this, target, draft, rng
      ensures Valid() && target.model.InVocab(history)
      ensures end == Broken ==> delivered == delivered0
      ensures end != Broken ==>
        var v := Verify(target.model, job.cfg, history0, tokens, probs, rng.tape, old(rng.used), 0);
        && Emitted(target.model, job, history0, delivered0, v.Fresh(), max, end, history, delivered)
        && rng.used == v.used && v.Fresh() != [] && target.Holds(history0 + Front(v.Fresh()))
        && (end == Going ==> PlanNow() == Review(cfg, old(PlanNow()), |tokens|, |v.accepted|))
        && (v.accepted == tokens ==> draftTokens >= old(draftTokens))
        && (v.accepted == [] ==> draftTokens <= old(draftTokens))
      ensures end == Going && |delivered| < max && |history| < target.model.nCtx ==> Lockstep(history)
      ensures target.peak <= Max(old(target.peak), |history0| + |tokens| - 1)
      ensures cfg.modelMode ==> draft.peak <= Max(old(draft.peak), |history0| + |tokens| - 1)
      ensures Faults() == old(Faults()) + if end == Broken then 1 else 0
    {
      hide Verify, Emitted, Review, Front, Model.Valid, GenConfig.Valid, Config.Valid, Checkable;
      history, delivered, end := history0, delivered0, Broken;
      var ok, news, nAccepted := VerifyAndSync(job.cfg, rng, history0, tokens, probs);
      if !ok { return; }
      end, history, delivered := Emit(job, history0, delivered0, news, max);
      if end == Going {
        AllTaken(target.model, job, history0, delivered0, news, max, history, delivered);
        Reconsider(old(PlanNow()), nAccepted, |tokens|);
      }
    }

    static lemma AllTaken(m: Model, job: Job, h0: seq<Token>, d0: seq<Token>, news: seq<Token>, max: nat,
                          h: seq<Token>, d: seq<Token>)
      requires news != [] && Emitted(m, job, h0, d0, news, max, Going, h, d)
      ensures |d| < max && |h| < m.nCtx ==> h != [] && Front(h) == h0 + Front(news)
    {
      hide Cut, Closed;
    }

    /** After a round: a fully accepted block never makes the next draft shorter, a
        fully rejected one never makes it longer. */
    method Reconsider(ghost plan: Plan, nAccepted: nat, nDrafted: nat)
      requires Valid() && 0 < nDrafted && nAccepted <= nDrafted && active
      requires PlanNow() == plan.(drafted := plan.drafted + nDrafted, accepted := plan.accepted + nAccepted)
      modifies `draftTokens, `active
      ensures Valid() && PlanNow() == Review(cfg, plan, nDrafted, nAccepted)
      ensures nAccepted == nDrafted ==> draftTokens >= old(draftTokens)
      ensures nAccepted == 0 ==> draftTokens <= old(draftTokens)
    {
      AdaptDraftLength(nAccepted, nDrafted);
      MaybeAutoDisable();
    }

    /** Plain sequential decoding of one token. */
    method PlainStep(job: Job, rng: Rng, history0: seq<Token>, delivered0: seq<Token>, max: nat)
      returns (end: End, history: seq<Token>, delivered: seq<Token>)
      requires Valid() && job.cfg.Valid() && history0 != [] && target.model.InVocab(history0)
      requires |delivered0| < max && |history0| < target.model.nCtx
      requires target.Holds(Front(history0))
      modifies `generated, target, rng
      ensures Valid() && target.model.InVocab(history)
      ensures end == Broken ==> delivered == delivered0
      ensures end != Broken ==>
        && Emitted(target.model, job, history0, delivered0,
                   [Pick(job.cfg, target.model.logits(history0), history0, rng.tape(old(rng.used)))], max,
                   end, history, delivered)
        && target.Holds(history0) && rng.used == old(rng.used) + if job.cfg.Greedy() then 0 else 1
      ensures end == Going ==> target.Holds(Front(history))
      ensures target.peak <= Max(old(target.peak), |history0|)
      ensures target.faults == old(target.faults) + if end == Broken then 1 else 0
    {
      hide Pick, Cut, Closed;
      history, delivered, end := history0, delivered0, Broken;
      var cur := history0[|history0| - 1];
      assert Front(history0) + [cur] == history0;
      var ok, logits := target.DecodeAppend([cur]);
      if !ok { return; }
      var t := Sample(job.cfg, rng, logits, history0);
      CutOne(target.model, job, history0, delivered0, t, max);
      assert (delivered + [t])[|delivered|..] == [t] && delivered[|delivered|..] == [];
      if target.model.eog(t) { return Ended, history, delivered; }
      var verdict := job.callback(delivered + [t]);
      delivered := delivered + [t];
      if verdict.Stop? { return Ended, history, delivered; }
      if verdict.Throw? { return Threw, history, delivered; }
      history, generated, end := history + [t], generated + 1, Going;
      assert Front(history) == history0;
    }

    /** A rollout of the draft model; one that fails or is empty is given up on. */
    method ProposeModel(gen: GenConfig, rng: Rng, history: seq<Token>, n: int)
      returns (tokens: seq<Token>, probs: seq<seq<real>>)
      requires Valid() && gen.Valid() && active && cfg.modelMode && history != []
      requires draft.Holds(Front(history))
      modifies `active, draft, rng
      ensures Valid() && (tokens != [] <==> active) && (n <= 0 ==> tokens == [] && rng.used == old(rng.used))
      ensures rng.used >= old(rng.used)
      ensures tokens != [] ==> FullRollout(draft.model, gen, history, rng.tape, old(rng.used), n, tokens, probs)
      ensures tokens != [] ==> rng.used == old(rng.used) + |tokens|
      ensures target.model.InVocab(tokens) ==> Checkable(target.model, tokens, probs)
      ensures draft.model.vocab <= target.model.vocab ==> target.model.InVocab(tokens)
      ensures tokens != [] ==> draft.Holds(Front(history + tokens))
      ensures |tokens| <= Max(n, 0)
      ensures draft.peak <= Max(old(draft.peak), |history| - 1 + Max(n, 0))
      ensures draft.faults == old(draft.faults) + if active || n <= 0 then 0 else 1
    {
      hide Drafts.Rollout;
      var cur := history[|history| - 1];
      assert Front(history) + [cur] == history;
      ghost var used := rng.used;
      var ok;
      ok, tokens, probs := Drafts.GenerateDraft(draft, gen, rng, cur, history, n);
      if !ok || tokens == [] {
        active := false;
        tokens, probs := [], [];
      } else {
        RolloutCheckable(gen, history, history, rng.tape, used, tokens, probs);
        assert Front(history) + ([cur] + tokens)[..|tokens|] == Front(history + tokens);
      }
    }

    /** A draft for the next round: the one the plan calls for here. An empty one
        means: try something else. */
    method Propose(job: Job, ghost accepts: Tape, rng: Rng, history: seq<Token>, ghost s: Spot)
      returns (tokens: seq<Token>, probs: seq<seq<real>>)
      requires Valid() && job.cfg.Valid() && active && history != [] && target.model.InVocab(history)
      requires |history| < target.model.nCtx && Lockstep(history)
      requires s.h == history && s.plan == PlanNow() && rng.used == s.drawn && rng.tape == job.tape
      requires cfg.modelMode ==> history[|history| - 1] < draft.model.vocab
      modifies `active, draft, rng
      ensures Valid() && target.Holds(Front(history))
      ensures target.model.InVocab(tokens) ==> Checkable(target.model, tokens, probs)
      ensures Indexable() ==> target.model.InVocab(tokens)
      ensures tokens != [] ==> IsDraft(EnvFor(job, accepts), s, tokens, probs)
      ensures tokens != [] ==> rng.used == s.drawn + if cfg.modelMode then |tokens| else 0
      ensures tokens == [] ==> rng.used >= s.drawn
      ensures tokens == [] && rng.used != s.drawn ==> cfg.modelMode && WouldDraft(EnvFor(job, accepts), s)
      ensures tokens == [] && !cfg.modelMode ==> !WouldDraft(EnvFor(job, accepts), s)
      ensures tokens != [] ==> active && (cfg.modelMode ==> draft.Holds(Front(history + tokens)))
      ensures cfg.modelMode || active
      ensures tokens == [] && cfg.modelMode ==> !active
      ensures cfg.Bounded() ==> |history| + |tokens| <= target.model.nCtx
      ensures cfg.modelMode && cfg.Bounded() ==> draft.peak <= Max(old(draft.peak), target.model.nCtx - 1)
      ensures draft != null ==>
        draft.faults == old(draft.faults) + if !active && WouldDraft(EnvFor(job, accepts), s) then 1 else 0
    {
      hide Retrieved;
      var n := cfg.Requested(draftTokens, target.model.nCtx - |history|);
      if cfg.modelMode {
        tokens, probs := ProposeModel(job.cfg, rng, history, n);
      } else {
        tokens, probs := ProposeLookup(history, n);
      }
    }

    // ---- The emission loop ------------------------------------------------

    /** The decoder stands where the spot says. */
    ghost predicate StandsAt(env: Env, s: Spot, rng: Rng, accepts: Rng, skip: bool)
      requires s.h != []
      reads this, rng, accepts
    {
      && s.plan.drafted == drafted && s.plan.accepted == accepted && s.plan.length == draftTokens
      && (if cfg.modelMode then active ==> s.plan.armed else active == s.plan.armed)
      && rng.tape == env.job.tape && accepts.tape == env.accepts && accepts.used == s.checked && rng.used >= s.drawn
      && (rng.used != s.drawn ==> cfg.modelMode && !active && WouldDraft(env, s))
      && (skip ==> !cfg.modelMode && !WouldDraft(env, s))
    }

    /** What holds at every loop head. */
    ghost predicate LoopHead(env: Env, prompt: seq<Token>, s: Spot, rng: Rng, accepts: Rng, history: seq<Token>,
                             delivered: seq<Token>, max: nat, skip: bool)
      reads this, target, draft, rng, accepts
    {
      && Valid() && env == EnvFor(env.job, env.accepts) && env.job.cfg.Valid() && prompt != [] && prompt <= s.h
      && history == prompt + delivered && target.model.InVocab(history)
      && |delivered| <= max && |history| <= target.model.nCtx
      && target.nPast == |target.kv| && target.kv <= s.h
      && Told(target.model, env.job, prompt, s.h, delivered, max, false)
      && (Over(target.model, env.job, prompt, s.h, max) <==> |delivered| >= max || |history| >= target.model.nCtx)
      && (|delivered| < max && |history| < target.model.nCtx ==>
            s.h == history && Lockstep(history) && StandsAt(env, s, rng, accepts, skip))
    }

    /** If the plan still calls for the draft model but it was given up, a model has
        failed since `base`. */
    ghost predicate Excused(env: Env, s: Spot, base: nat)
      requires s.h != []
      reads this, target, draft
    {
      base <= Faults() && (cfg.modelMode && !active && WouldDraft(env, s) ==> base < Faults())
    }

    /** Neither model was asked for more positions than the context has. */
    twostate predicate WithinContext()
      reads this, target, draft
    {
      && (cfg.Bounded() ==> target.peak <= Max(old(target.peak), target.model.nCtx - 1))
      && (cfg.Bounded() && cfg.modelMode && draft != null ==>
            draft.peak <= Max(old(draft.peak), target.model.nCtx - 1))
    }

    /** A speculative round, or none for want of a draft. */
    method Speculate(ghost env: Env, job: Job, rng: Rng, accepts: Rng, ghost prompt: seq<Token>, ghost s: Spot,
                     history0: seq<Token>, delivered0: seq<Token>, max: nat)
      returns (idle: bool, end: End, history: seq<Token>, delivered: seq<Token>, ghost mv: Move)
      requires LoopHead(env, prompt, s, rng, accepts, history0, delivered0, max, false) && env.job == job
      requires |delivered0| < max && |history0| < target.model.nCtx && active && rng != accepts
      requires cfg.modelMode ==> history0[|history0| - 1] < draft.model.vocab
      modifies this, target, draft, rng, accepts
      ensures Valid() && WithinContext() && (end == Undefined ==> !Indexable())
      ensures idle ==> end == Going && history == history0 && delivered == delivered0
      ensures idle ==> LoopHead(env, prompt, s, rng, accepts, history, delivered, max, !cfg.modelMode)
      ensures idle && cfg.modelMode ==> !active
      ensures idle && !cfg.modelMode ==> active
      ensures end in {Broken, Undefined} ==> delivered == delivered0
      ensures !idle && end !in {Broken, Undefined} ==>
        Made(env, s, mv, end, history0, delivered0, history, delivered, max)
      ensures !idle && end == Going ==> Arrived(env, Next(env, s, mv), rng, accepts, history, delivered, max)
      ensures end != Refused && (!idle && end !in {Broken, Undefined} ==> mv.Block?)
      ensures end == Undefined ==> env.Valid() && Strays(env, s)
      ensures !idle && end == Going ==> active == Next(env, s, mv).plan.armed
      ensures Faults() >= old(Faults()) && (end == Broken ==> Faults() > old(Faults()))
      ensures idle && cfg.modelMode && WouldDraft(env, s) ==> Faults() > old(Faults())
    {
      hide Cut, Closed, Verify, WouldDraft, IsDraft, Told, Over, Model.InVocab, Checkable;
      hide Model.Valid, GenConfig.Valid, Config.Valid, Config.Bounded;
      history, delivered, end, idle, mv := history0, delivered0, Going, false, Picked(0, false);
      var tokens, probs := Propose(job, accepts.tape, rng, history, s);
      if tokens == [] {
        idle := true;
      } else if !target.model.InVocab(tokens) {
        end := Undefined;
      } else {
        mv := Block(tokens, probs);
        end, history, delivered := Round(job, accepts, history, delivered, max, tokens, probs);
      }
    }

    /** A legal move was made, and what it says delivered up to its cut. */
    ghost predicate Made(env: Env, s: Spot, mv: Move, end: End, history0: seq<Token>, delivered0: seq<Token>,
                         history: seq<Token>, delivered: seq<Token>, max: nat)
      reads target
    {
      && env.Valid() && s.h != [] && s.h == history0 && Legal(env, s, mv)
      && Emitted(env.m, env.job, history0, delivered0, Said(env, s, mv), max, end, history, delivered)
      && target.nPast == |target.kv| && target.kv <= Next(env, s, mv).h
    }

    /** The decoder stands at the next spot, unless a limit has been reached. */
    ghost predicate Arrived(env: Env, s: Spot, rng: Rng, accepts: Rng, history: seq<Token>, delivered: seq<Token>,
                            max: nat)
      requires s.h != []
      reads this, target, draft, rng, accepts
    {
      && target.model.InVocab(history)
      && (|delivered| < max && |history| < target.model.nCtx ==>
            history != [] && Lockstep(history) && StandsAt(env, s, rng, accepts, false))
    }

    /** One turn of the loop: a speculative round, a plain step, or no progress
        but one source of drafts fewer. */
    method Turn(ghost env: Env, job: Job, rng: Rng, accepts: Rng, ghost prompt: seq<Token>, ghost s: Spot,
                history0: seq<Token>, delivered0: seq<Token>, max: nat, skip0: bool, ghost base: nat)
      returns (end: End, history: seq<Token>, delivered: seq<Token>, skip: bool, ghost moved: bool, ghost mv: Move)
      requires LoopHead(env, prompt, s, rng, accepts, history0, delivered0, max, skip0) && env.job == job
      requires |delivered0| < max && |history0| < target.model.nCtx && rng != accepts && Excused(env, s, base)
      modifies this, target, draft, rng, accepts
      ensures Valid() && (active ==> old(active)) && WithinContext() && (end == Undefined ==> !Indexable())
      ensures end in {Broken, Undefined} ==> !moved && delivered == delivered0
      ensures end == Undefined ==> env.Valid() && Strays(env, s)
      ensures moved ==> end in {Going, Ended, Threw}
      ensures moved ==> Made(env, s, mv, end, history0, delivered0, history, delivered, max)
      ensures moved && end == Going ==> Arrived(env, Next(env, s, mv), rng, accepts, history, delivered, max) && !skip
      ensures !moved && end !in {Broken, Undefined} ==>
        && end == Going && delivered == delivered0
        && LoopHead(env, prompt, s, rng, accepts, history, delivered, max, skip)
        && ((old(active) && !active) || (old(active) == active && skip && !skip0))
      ensures !moved && end == Going ==> Excused(env, s, base)
      ensures moved && end == Going ==> Excused(env, Next(env, s, mv), base)
      ensures Faults() >= old(Faults()) && (end == Broken || (moved && mv.GaveUp()) ==> Faults() > base)
    {
      hide Told, Over, WouldDraft, Made, Arrived, Next, Legal, Indexable, Strays;
      hide Env.Valid, Model.Valid, GenConfig.Valid, Config.Valid, Model.InVocab, Config.Bounded;
      history, delivered, skip, end, moved, mv := history0, delivered0, skip0, Going, false, Picked(0, false);
      if active && cfg.modelMode && history[|history| - 1] >= draft.model.vocab {
        active := false;
        Undraftable(env, s);
      }
      if active && !skip {
        var idle;
        idle, end, history, delivered, mv := Speculate(env, job, rng, accepts, prompt, s, history, delivered, max);
        moved := !idle && end !in {Broken, Undefined};
        if idle { skip := !cfg.modelMode; }
        if moved && end == Going { AsPlanned(env, s, mv, end, history0, delivered0, history, delivered, max, base); }
      } else {
        end, history, delivered, mv := Plain(env, job, rng, accepts, prompt, s, history, delivered, max, skip, base);
        skip, moved := false, end != Broken;
      }
    }

    lemma AsPlanned(env: Env, s: Spot, mv: Move, end: End, h0: seq<Token>, d0: seq<Token>, history: seq<Token>,
                    delivered: seq<Token>, max: nat, base: nat)
      requires Made(env, s, mv, end, h0, d0, history, delivered, max)
      requires active == Next(env, s, mv).plan.armed && base <= Faults()
      ensures Excused(env, Next(env, s, mv), base)
    {
      hide Emitted, Said, Legal;
    }

    /** A plain step, because speculation is off or has nothing to offer here. */
    method Plain(ghost env: Env, job: Job, rng: Rng, accepts: Rng, ghost prompt: seq<Token>, ghost s: Spot,
                 history0: seq<Token>, delivered0: seq<Token>, max: nat, skip: bool, ghost base: nat)
      returns (end: End, history: seq<Token>, delivered: seq<Token>, ghost mv: Move)
      requires LoopHead(env, prompt, s, rng, accepts, history0, delivered0, max, skip) && env.job == job
      requires |delivered0| < max && |history0| < target.model.nCtx && (active ==> skip) && rng != accepts
      requires Excused(env, s, base)
      modifies `generated, target, rng
      ensures Valid() && WithinContext() && end in {Going, Ended, Threw, Broken}
      ensures end == Broken ==> delivered == delivered0
      ensures end != Broken ==> Made(env, s, mv, end, history0, delivered0, history, delivered, max)
      ensures end == Going ==> Arrived(env, Next(env, s, mv), rng, accepts, history, delivered, max)
      ensures end == Going ==> Excused(env, Next(env, s, mv), base)
      ensures Faults() >= old(Faults()) && (end == Broken || mv.GaveUp() ==> Faults() > base)
    {
      hide Cut, Closed, Told, Over, WouldDraft, Sampling.Pick;
      if !s.plan.armed { Unarmed(env, s); }
      mv := Picked(rng.used, cfg.modelMode && WouldDraft(env, s));
      end, history, delivered := PlainStep(job, rng, history0, delivered0, max);
      if end == Going && cfg.modelMode { Unarmed(env, Next(env, s, mv)); }
    }

    /** After a move the caller has been told the cut of the longer text, and if the
        generation goes on the loop head is reached again. */
    lemma Landed(env: Env, prompt: seq<Token>, s: Spot, mv: Move, rng: Rng, accepts: Rng, h0: seq<Token>,
                 d0: seq<Token>, end: End, history: seq<Token>, delivered: seq<Token>, max: nat)
      requires Valid() && env == EnvFor(env.job, env.accepts) && env.job.cfg.Valid() && prompt != []
      requires h0 == prompt + d0 && !Over(env.m, env.job, prompt, h0, max)
      requires Made(env, s, mv, end, h0, d0, history, delivered, max)
      requires end == Going ==> Arrived(env, Next(env, s, mv), rng, accepts, history, delivered, max)
      ensures env.Valid() && Legal(env, s, mv) && end in {Going, Ended, Threw}
      ensures Told(env.m, env.job, prompt, Next(env, s, mv).h, delivered, max, end == Threw)
      ensures end in {Ended, Threw} ==> Over(env.m, env.job, prompt, Next(env, s, mv).h, max)
      ensures end in {Ended, Threw} ==> target.nPast == |target.kv| && target.kv <= Next(env, s, mv).h
      ensures |delivered| <= max && |prompt| + |delivered| <= target.model.nCtx
      ensures end == Going ==> |delivered| > |d0|
      ensures end == Going ==> LoopHead(env, prompt, Next(env, s, mv), rng, accepts, history, delivered, max, false)
    {
      hide Cut, Closed, Told, Over, Legal, Said, StandsAt, Lockstep;
      ToldMore(env.m, env.job, prompt, h0, d0, Said(env, s, mv), max, end, history, delivered);
    }

    /** The emission loop, from a prefilled prompt to the end. */
    method Loop(ghost env: Env, job: Job, acceptTape: Tape, prompt: seq<Token>, max: nat, ghost plan: Plan,
                ghost base: nat)
      returns (end: End, delivered: seq<Token>, ghost moves: seq<Move>, ghost s: Spot)
      requires Valid() && job.cfg.Valid() && prompt != [] && target.model.InVocab(prompt) && Lockstep(prompt)
      requires env == EnvFor(job, acceptTape) && max == Max(job.cfg.maxTokens, 0) && |prompt| <= target.model.nCtx
      requires plan == PlanNow().(armed := plan.armed)
      requires if cfg.modelMode then active ==> plan.armed else active == plan.armed
      requires Excused(env, Spot(prompt, plan, 0, 0), base)
      modifies this, target, draft
      ensures Valid() && (active ==> old(active)) && WithinContext()
      ensures end in {Ended, Threw, Broken, Undefined} && (end == Undefined ==> !Indexable())
      ensures env.Valid() && Speaks(env, prompt, plan, moves, end, delivered)
      ensures Follow(env, Spot(prompt, plan, 0, 0), moves) == Some(s)
      ensures end in {Ended, Threw} ==> target.nPast == |target.kv| && target.kv <= s.h
      ensures |delivered| <= max && (end in {Ended, Threw} ==> |prompt| + |delivered| <= target.model.nCtx)
      ensures Faults() >= base && (end == Broken || !Unbroken(moves) ==> Faults() > base)
    {
      hide Told, Over, Follow, LoopHead, Speaks, Valid, Excused, Unbroken, EnvFor, Lockstep, PlanNow, Indexable, Faults;
      hide Env.Valid, GenConfig.Valid, Model.Valid, Model.InVocab, Config.Bounded, Config.Valid;
      ghost var start := Spot(prompt, plan, 0, 0);
      delivered, moves, s := [], [], start;
      var rng := new Rng(job.tape);
      var accepts := new Rng(acceptTape);
      var history, skip := prompt, false;
      Starting(env, job, acceptTape, prompt, plan, rng, accepts, max, base);
      while |delivered| < max && |history| < target.model.nCtx
        invariant LoopHead(env, prompt, s, rng, accepts, history, delivered, max, skip)
        invariant Follow(env, start, moves) == Some(s)
        invariant (active ==> old(active)) && WithinContext()
        invariant Excused(env, s, base) && Faults() >= base && (!Unbroken(moves) ==> Faults() > base)
        decreases max - |delivered|, active, !skip
      {
        AtHead(env, prompt, s, rng, accepts, history, delivered, max, skip);
        end, history, delivered, skip, moves, s :=
          Advance(env, job, rng, accepts, prompt, plan, moves, s, history, delivered, max, skip, base);
        if end != Going { return; }
      }
      AtHead(env, prompt, s, rng, accepts, history, delivered, max, skip);
      end := Ended;
      SpeaksSo(env, prompt, plan, moves, s, end, delivered);
    }

    /** One turn, with the move it makes put on record. */
    method Advance(ghost env: Env, job: Job, rng: Rng, accepts: Rng, ghost prompt: seq<Token>, ghost plan: Plan,
                   ghost moves0: seq<Move>, ghost s0: Spot, history0: seq<Token>, delivered0: seq<Token>, max: nat,
                   skip0: bool, ghost base: nat)
      returns (end: End, history: seq<Token>, delivered: seq<Token>, skip: bool, ghost moves: seq<Move>, ghost s: Spot)
      requires LoopHead(env, prompt, s0, rng, accepts, history0, delivered0, max, skip0) && env.job == job
      requires |delivered0| < max == Max(job.cfg.maxTokens, 0) && |history0| < target.model.nCtx && rng != accepts
      requires prompt != [] && env.Valid() && Follow(env, Spot(prompt, plan, 0, 0), moves0) == Some(s0)
      requires Excused(env, s0, base) && (!Unbroken(moves0) ==> Faults() > base)
      modifies this, target, draft, rng, accepts
      ensures Valid() && (active ==> old(active)) && WithinContext() && (end == Undefined ==> !Indexable())
      ensures Follow(env, Spot(prompt, plan, 0, 0), moves) == Some(s)
      ensures end == Going ==> LoopHead(env, prompt, s, rng, accepts, history, delivered, max, skip)
      ensures end == Going ==>
        || |delivered| > |delivered0|
        || (delivered == delivered0 && old(active) && !active)
        || (delivered == delivered0 && old(active) == active && skip && !skip0)
      ensures end != Going ==> end in {Ended, Threw, Broken, Undefined}
      ensures end != Going ==> Speaks(env, prompt, plan, moves, end, delivered)
      ensures end in {Ended, Threw} ==> target.nPast == |target.kv| && target.kv <= s.h
      ensures |delivered| <= max && (end in {Ended, Threw} ==> |prompt| + |delivered| <= target.model.nCtx)
      ensures end == Going ==> Excused(env, s, base)
      ensures Faults() >= base && (end == Broken || !Unbroken(moves) ==> Faults() > base)
    {
      hide Told, Over, Follow, LoopHead, Made, Arrived, Next, Legal, Speaks, Valid, Unbroken, Strays;
      AtHead(env, prompt, s0, rng, accepts, history0, delivered0, max, skip0);
      moves, s := moves0, s0;
      ghost var moved, mv;
      end, history, delivered, skip, moved, mv :=
        Turn(env, job, rng, accepts, prompt, s, history0, delivered0, max, skip0, base);
      if moved {
        Landed(env, prompt, s, mv, rng, accepts, history0, delivered0, end, history, delivered, max);
        OneMoreMove(env, Spot(prompt, plan, 0, 0), moves, mv);
        UnbrokenStill(moves, mv);
        moves, s := moves + [mv], Next(env, s, mv);
      }
      if end != Going { SpeaksSo(env, prompt, plan, moves, s, end, delivered); }
    }

    lemma Starting(env: Env, job: Job, acceptTape: Tape, prompt: seq<Token>, plan: Plan, rng: Rng, accepts: Rng,
                   max: nat, base: nat)
      requires Valid() && job.cfg.Valid() && prompt != [] && target.model.InVocab(prompt) && Lockstep(prompt)
      requires env == EnvFor(job, acceptTape) && |prompt| <= target.model.nCtx
      requires plan == PlanNow().(armed := plan.armed)
      requires if cfg.modelMode then active ==> plan.armed else active == plan.armed
      requires rng.tape == job.tape && accepts.tape == acceptTape && rng.used == accepts.used == 0
      requires Excused(env, Spot(prompt, plan, 0, 0), base)
      ensures Faults() >= base && Unbroken([])
      ensures env.Valid() && env.job == job
      ensures Follow(env, Spot(prompt, plan, 0, 0), []) == Some(Spot(prompt, plan, 0, 0))
      ensures LoopHead(env, prompt, Spot(prompt, plan, 0, 0), rng, accepts, prompt, [], max, false)
    {
      assert prompt + [] == prompt && prompt[|prompt|..] == [];
    }

    /** What the loop head says of the generation so far. */
    lemma AtHead(env: Env, prompt: seq<Token>, s: Spot, rng: Rng, accepts: Rng, history: seq<Token>,
                 delivered: seq<Token>, max: nat, skip: bool)
      requires LoopHead(env, prompt, s, rng, accepts, history, delivered, max, skip)
      ensures Valid() && env.Valid() && history == prompt + delivered && |delivered| <= max
      ensures env == EnvFor(env.job, env.accepts)
      ensures |history| <= target.model.nCtx && target.nPast == |target.kv| && target.kv <= s.h
      ensures Told(env.m, env.job, prompt, s.h, delivered, max, false)
      ensures Over(env.m, env.job, prompt, s.h, max) <==> |delivered| >= max || |history| >= target.model.nCtx
      ensures |delivered| < max && |history| < target.model.nCtx ==> s.h == history
    {
      hide Told, Over, StandsAt, Lockstep;
    }

    /** The whole generation. For every sampler the caller is given the text of
        legal moves cut at its end, whatever part of the KV was inherited; under
        greedy sampling that is the sequential run, or a prefix of it when the run
        is broken off. */
    method GenerateStream(prompt: seq<Token>, job: Job, acceptTape: Tape, kvReady: nat)
      returns (end: End, delivered: seq<Token>, ghost moves: seq<Move>)
      requires Valid() && job.cfg.Valid() && target.model.InVocab(prompt) && Uniform(acceptTape)
      requires 0 < kvReady < |prompt| ==> target.Holds(prompt[..kvReady])
      modifies this, target, draft
      ensures Valid() && (active ==> old(active)) && WithinContext()
      ensures end == Refused <==> prompt == [] || |prompt| > target.model.nCtx || kvReady >= |prompt|
      ensures end == Refused ==> delivered == []
      ensures end != Going && (end == Undefined ==> !Indexable())
      ensures EnvFor(job, acceptTape).Valid()
      ensures end != Refused ==> Speaks(EnvFor(job, acceptTape), prompt, old(PlanNow()), moves, end, delivered)
      ensures end in {Ended, Threw} ==> target.nPast == |target.kv|
      ensures end in {Ended, Threw} ==> target.kv <= SaidBy(EnvFor(job, acceptTape), prompt, old(PlanNow()), moves)
      ensures job.cfg.Greedy() && end != Refused ==>
        Settled(Sequential(target.model, job, prompt, [], Max(job.cfg.maxTokens, 0)), delivered, end)
      ensures |delivered| <= Max(job.cfg.maxTokens, 0)
      ensures Faults() >= old(Faults()) && (end == Broken || !Unbroken(moves) ==> Faults() > old(Faults()))
      ensures end in {Ended, Threw} ==> |prompt| + |delivered| <= target.model.nCtx
    {
      hide Sequential, Speaks, Settled, Follow, WouldDraft, Model.Valid, GenConfig.Valid, Config.Valid;
      delivered, moves := [], [];
      if prompt == [] || |prompt| > target.model.nCtx || kvReady >= |prompt| { return Refused, delivered, moves; }
      ghost var env, plan := EnvFor(job, acceptTape), PlanNow();
      ghost var s, base := Spot(prompt, plan, 0, 0), Faults();
      var ok := PrefillTarget(prompt, kvReady);
      if ok {
        PrefillDraft(prompt);
        if !plan.armed { Unarmed(env, s); }
        end, delivered, moves, s := Loop(env, job, acceptTape, prompt, Max(job.cfg.maxTokens, 0), plan, base);
      } else {
        end := Broken;
        NothingSaid(env, prompt, plan);
      }
      if job.cfg.Greedy() { GreedySpeech(env, prompt, plan, moves, end, delivered); }
    }

    static lemma NothingSaid(env: Env, prompt: seq<Token>, plan: Plan)
      requires env.Valid() && prompt != []
      ensures Speaks(env, prompt, plan, [], Broken, [])
    {
      assert prompt[|prompt|..] == [];
    }
  }

  /** Without a lower bound on the draft length the context is overrun. A decoder
      whose draft length has come down to zero asks its draft model for the
      configured two tokens with room for one, and unless a model fails the
      verification takes the target to n_ctx positions. */
  method Overdraft(target: LlamaBackend, draft: LlamaBackend, job: Job, acceptTape: Tape, history: seq<Token>)
    returns (failed: bool)
    requires target != draft && target.model.Valid() && draft.model.Valid() && draft.model.vocab == target.model.vocab
    requires !(0 <= draft.model.eos < draft.model.vocab) && job.cfg.Valid()
    requires history != [] && |history| == target.model.nCtx - 1 && target.model.InVocab(history)
    modifies target, draft
    ensures !failed ==> target.peak > target.model.nCtx - 1
    ensures failed ==> target.faults > old(target.faults) || draft.faults > old(draft.faults)
  {
    failed := true;
    assert history[|history| - 1] < target.model.vocab;
    hide IsDraft, WouldDraft, Verify, Checkable, Model.InVocab, SpeculativeDecoder.Valid;
    var ok, decoder := Cornered(target, draft, history);
    if !ok { return; }
    var rng := new Rng(job.tape);
    ghost var s := Spot(history, decoder.PlanNow(), 0, 0);
    var tokens, probs := decoder.Propose(job, acceptTape, rng, history, s);
    if tokens == [] { return; }
    TwoTokens(decoder.EnvFor(job, acceptTape), s, tokens, probs);
    var accepts := new Rng(acceptTape);
    assert Front(history) + [history[|history| - 1]] == history;
    var v;
    ok, v := VerifyBatch(target, job.cfg, accepts, history[|history| - 1], tokens, probs, history);
    failed := false;
  }

  /** A decoder with such a configuration, prefilled. */
  method Cornered(target: LlamaBackend, draft: LlamaBackend, history: seq<Token>)
    returns (ok: bool, decoder: SpeculativeDecoder)
    requires target != draft && target.model.Valid() && draft.model.Valid() && draft.model.vocab == target.model.vocab
    requires history != []
    modifies target, draft
    ensures fresh(decoder) && decoder.target == target && decoder.draft == draft && decoder.Valid()
    ensures decoder.cfg.modelMode && decoder.cfg.draftTokens == 2 && decoder.draftTokens == 0
    ensures ok ==> decoder.active && decoder.Lockstep(history)
    ensures target.faults >= old(target.faults) && draft.faults >= old(draft.faults)
    ensures !ok ==> target.faults > old(target.faults) || draft.faults > old(draft.faults)
  {
    var cfg := Config(true, 2, 0, 0, 1, 1, true, 0, 0.0, (_: seq<Token>, _: int) => [], (_: seq<Token>) => []);
    decoder := new SpeculativeDecoder(target, draft, cfg);
    ok := decoder.PrefillTarget(history, 0);
    if !ok { return; }
    decoder.PrefillDraft(history);
    ok := decoder.active;
  }

  lemma TwoTokens(env: Env, s: Spot, tokens: seq<Token>, probs: seq<seq<real>>)
    requires env.Valid() && s.h != [] && IsDraft(env, s, tokens, probs) && env.cfg.modelMode && Asked(env, s) == 2
    requires !(0 <= env.d.value.eos < env.d.value.vocab)
    ensures |tokens| == 2
  {
    hide Drafts.Rollout;
    Drafts.RolloutShape(env.d.value, env.job.cfg, s.h, s.h, env.job.tape, s.drawn, tokens, probs, |tokens| - 1);
  }
}
