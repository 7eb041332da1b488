/** Where drafts come from: the rollout of a smaller model, and n-gram matches
    in the tokens already seen. */
module Drafts {
  import opened Backend
  import opened Sampling

  // ---- Rollout of a draft model -------------------------------------------

  /** Each token drawn from the draft model's distribution after everything
      before it; `context` is what the model holds, `recent` the history. */
  ghost predicate Rollout(m: Model, cfg: GenConfig, context: seq<Token>, recent: seq<Token>, tape: Tape, used: nat,
                          tokens: seq<Token>, probs: seq<seq<real>>)
    requires m.Valid() && cfg.Valid()
  {
    && |tokens| == |probs|
    && forall i :: 0 <= i < |tokens| ==> Rolled(m, cfg, context, recent, tape, used, tokens[..i], tokens[i], probs[i])
  }

  /** One token of a rollout, `before` being those drafted before it. */
  ghost predicate Rolled(m: Model, cfg: GenConfig, context: seq<Token>, recent: seq<Token>, tape: Tape, used: nat,
                         before: seq<Token>, t: Token, p: seq<real>)
    requires m.Valid() && cfg.Valid()
  {
    p == Dist(cfg, m.logits(context + before), recent + before) && t == DrawIndex(p, tape(used + |before|))
  }

  lemma RolloutStep(m: Model, cfg: GenConfig, context: seq<Token>, recent: seq<Token>, tape: Tape, used: nat,
                    tokens: seq<Token>, probs: seq<seq<real>>, t: Token, p: seq<real>)
    requires m.Valid() && cfg.Valid() && Rollout(m, cfg, context, recent, tape, used, tokens, probs)
    requires Rolled(m, cfg, context, recent, tape, used, tokens, t, p)
    ensures Rollout(m, cfg, context, recent, tape, used, tokens + [t], probs + [p])
  {
    hide Rolled;
    var tokens', probs' := tokens + [t], probs + [p];
    forall i | 0 <= i < |tokens'|
      ensures Rolled(m, cfg, context, recent, tape, used, tokens'[..i], tokens'[i], probs'[i])
    {
      assert tokens'[..i] == tokens[..i];
      if i == |tokens| { assert tokens[..i] == tokens; }
    }
  }

  /** Draws one token at a time from the draft model until `n` tokens or its
      end-of-sequence token. The last drafted token is never fed back. */
  method GenerateDraft(backend: LlamaBackend, cfg: GenConfig, rng: Rng, last: Token, recent: seq<Token>,
                       n: int) returns (ok: bool, tokens: seq<Token>, probs: seq<seq<real>>)
    requires backend.model.Valid() && cfg.Valid()
    modifies backend, rng
    ensures Rollout(backend.model, cfg, old(backend.kv) + [last], recent, rng.tape, old(rng.used), tokens, probs)
    ensures |tokens| <= Max(n, 0)
    ensures ok ==> (tokens == [] <==> n <= 0)
    ensures n <= 0 ==> ok
    ensures ok ==> backend.kv == old(backend.kv) + ([last] + tokens)[..|tokens|]
    ensures ok ==> backend.nPast == old(backend.nPast) + |tokens|
    ensures NoneBefore(tokens, |tokens| - 1, backend.model.eos)
    ensures ok ==> |tokens| == Max(n, 0) || tokens[|tokens| - 1] == backend.model.eos
    ensures rng.used >= old(rng.used) && (ok ==> rng.used == old(rng.used) + |tokens|)
    ensures backend.peak <= Max(old(backend.peak), |old(backend.kv)| + Max(n, 0))
    ensures backend.faults == old(backend.faults) + if ok then 0 else 1
  {
    hide Rollout, Fed, NoneBefore;
    ghost var before := backend.kv;
    var cur;
    ok, cur, tokens, probs := RollOut(backend, cfg, rng, last, recent, n);
    if ok { AllButNewest(before, last, tokens, backend.kv, cur); }
    NoneBeforeLast(tokens, backend.model.eos);
  }

  /** The loop of the rollout; `cur` is its newest token. */
  method RollOut(backend: LlamaBackend, cfg: GenConfig, rng: Rng, last: Token, recent: seq<Token>, n: int)
    returns (ok: bool, cur: Token, tokens: seq<Token>, probs: seq<seq<real>>)
    requires backend.model.Valid() && cfg.Valid()
    modifies backend, rng
    ensures Rollout(backend.model, cfg, old(backend.kv) + [last], recent, rng.tape, old(rng.used), tokens, probs)
    ensures |tokens| <= Max(n, 0) && (n <= 0 ==> ok)
    ensures ok ==> (tokens == [] <==> n <= 0) && (tokens != [] ==> tokens[|tokens| - 1] == cur)
    ensures ok ==> Fed(backend.kv, cur, old(backend.kv) + [last], tokens)
    ensures ok ==> backend.nPast == old(backend.nPast) + |tokens| && rng.used == old(rng.used) + |tokens|
    ensures ok ==> |tokens| == Max(n, 0) || cur == backend.model.eos
    ensures NoneBefore(tokens, |tokens|, backend.model.eos) || NoneBefore(tokens, |tokens| - 1, backend.model.eos)
    ensures rng.used >= old(rng.used)
    ensures backend.peak <= Max(old(backend.peak), |old(backend.kv)| + Max(n, 0))
    ensures backend.faults == old(backend.faults) + if ok then 0 else 1
  {
    hide Rollout, Fed, NoneBefore, Model.Valid, GenConfig.Valid;
    tokens, probs, ok, cur := [], [], true, last;
    ghost var before, context, used := backend.kv, backend.kv + [last], rng.used;
    NothingDrafted(backend.model, cfg, context, recent, rng.tape, used);
    FedFirst(before, last);
    while |tokens| < n
      invariant ok && |tokens| <= Max(n, 0) && (tokens != [] ==> tokens[|tokens| - 1] == cur)
      invariant Fed(backend.kv, cur, context, tokens) && |backend.kv| == |before| + |tokens|
      invariant backend.nPast == old(backend.nPast) + |tokens| && rng.used == used + |tokens|
      invariant Rollout(backend.model, cfg, context, recent, rng.tape, used, tokens, probs)
      invariant NoneBefore(tokens, |tokens|, backend.model.eos)
      invariant backend.peak <= Max(old(backend.peak), |before| + |tokens|) && backend.faults == old(backend.faults)
      decreases n - |tokens|
    {
      ok, cur, tokens, probs := DraftOne(backend, cfg, rng, cur, context, recent, used, tokens, probs);
      if !ok || cur == backend.model.eos { return; }
    }
  }

  lemma NothingDrafted(m: Model, cfg: GenConfig, context: seq<Token>, recent: seq<Token>, tape: Tape, used: nat)
    requires m.Valid() && cfg.Valid()
    ensures Rollout(m, cfg, context, recent, tape, used, [], []) && NoneBefore([], 0, m.eos)
  {
  }

  lemma NoneBeforeLast(tokens: seq<Token>, t: Token)
    ensures NoneBefore(tokens, |tokens|, t) ==> NoneBefore(tokens, |tokens| - 1, t)
  {
  }

  /** The token does not occur before position n. */
  predicate NoneBefore(tokens: seq<Token>, n: int, t: Token) {
    forall i :: 0 <= i < |tokens| && i < n ==> tokens[i] != t
  }

  lemma NoneBeforeNext(tokens: seq<Token>, next: Token, t: Token)
    requires NoneBefore(tokens, |tokens|, t)
    ensures NoneBefore(tokens + [next], |tokens|, t)
    ensures next != t ==> NoneBefore(tokens + [next], |tokens| + 1, t)
  {
  }

  /** The model has been fed everything drafted but `cur`. */
  ghost predicate Fed(kv: seq<Token>, cur: Token, context: seq<Token>, tokens: seq<Token>) {
    kv + [cur] == context + tokens
  }

  lemma FedFirst(before: seq<Token>, last: Token)
    ensures Fed(before, last, before + [last], [])
  {
  }

  lemma FedStep(kv: seq<Token>, context: seq<Token>, tokens: seq<Token>, next: Token)
    requires kv == context + tokens
    ensures Fed(kv, next, context, tokens + [next])
  {
  }

  lemma AllButNewest(before: seq<Token>, last: Token, tokens: seq<Token>, kv: seq<Token>, cur: Token)
    requires Fed(kv, cur, before + [last], tokens)
    ensures kv == before + ([last] + tokens)[..|tokens|]
  {
    assert kv == (kv + [cur])[..|kv|];
  }

  /** One step of the rollout. */
  method DraftOne(backend: LlamaBackend, cfg: GenConfig, rng: Rng, cur: Token, ghost context: seq<Token>,
                  recent: seq<Token>, ghost used: nat, tokens0: seq<Token>, probs0: seq<seq<real>>)
    returns (ok: bool, next: Token, tokens: seq<Token>, probs: seq<seq<real>>)
    requires backend.model.Valid() && cfg.Valid() && Fed(backend.kv, cur, context, tokens0)
    requires rng.used == used + |tokens0| && NoneBefore(tokens0, |tokens0|, backend.model.eos)
    requires Rollout(backend.model, cfg, context, recent, rng.tape, used, tokens0, probs0)
    modifies backend, rng
    ensures Rollout(backend.model, cfg, context, recent, rng.tape, used, tokens, probs)
    ensures ok ==> |tokens| == |tokens0| + 1 && tokens[|tokens0|] == next
    ensures !ok ==> tokens == tokens0
    ensures ok ==> Fed(backend.kv, next, context, tokens) && |backend.kv| == |old(backend.kv)| + 1
    ensures ok ==> backend.nPast == old(backend.nPast) + 1
    ensures NoneBefore(tokens, if ok then |tokens0| else |tokens|, backend.model.eos)
    ensures ok && next != backend.model.eos ==> NoneBefore(tokens, |tokens|, backend.model.eos)
    ensures rng.used >= old(rng.used) && (ok ==> rng.used == old(rng.used) + 1)
    ensures backend.peak == Max(old(backend.peak), |old(backend.kv)| + 1)
    ensures backend.faults == old(backend.faults) + if ok then 0 else 1
  {
    hide Dist, DrawIndex, Rollout, Fed, NoneBefore;
    next, tokens, probs := 0, tokens0, probs0;
    FedSays(backend.kv, cur, context, tokens);
    var logits;
    ok, logits := backend.DecodeAppend([cur]);
    if !ok { return; }
    var p := Distribution(cfg, logits, recent + tokens);
    var r := rng.Next();
    next := Draw(p, r);
    RolloutStep(backend.model, cfg, context, recent, rng.tape, used, tokens, probs, next, p);
    FedStep(backend.kv, context, tokens, next);
    NoneBeforeNext(tokens, next, backend.model.eos);
    tokens, probs := tokens + [next], probs + [p];
  }

  lemma FedSays(kv: seq<Token>, cur: Token, context: seq<Token>, tokens: seq<Token>)
    requires Fed(kv, cur, context, tokens)
    ensures kv + [cur] == context + tokens
  {
  }

  /** A rollout stays inside the draft's vocabulary, with one full vector per
      token; under greedy sampling every entry is 0 or 1. */
  lemma RolloutShape(m: Model, cfg: GenConfig, context: seq<Token>, recent: seq<Token>, tape: Tape, used: nat,
                     tokens: seq<Token>, probs: seq<seq<real>>, i: nat)
    requires m.Valid() && cfg.Valid()
    requires Rollout(m, cfg, context, recent, tape, used, tokens, probs) && i < |tokens|
    ensures |probs[i]| == m.vocab && 0 <= tokens[i] < m.vocab
    ensures cfg.Greedy() ==> forall j :: 0 <= j < m.vocab ==> 0.0 <= probs[i][j] <= 1.0
  {
    hide DrawIndex, Penalised, ArgMax;
    assert Rolled(m, cfg, context, recent, tape, used, tokens[..i], tokens[i], probs[i]);
  }

  // ---- Prompt lookup ------------------------------------------------------

  /** The last n tokens of h also occur, earlier, at `start`. */
  predicate Occurs(h: seq<Token>, n: nat, start: int) {
    0 <= start && start + n < |h| && h[start..start + n] == h[|h| - n..]
  }

  ghost predicate NoneFrom(h: seq<Token>, n: nat, start: int) {
    forall s {:trigger Occurs(h, n, s)} :: start <= s ==> !Occurs(h, n, s)
  }

  /** No n-gram longer than n (and at most hi) recurs anywhere. */
  ghost predicate NoneLonger(h: seq<Token>, n: int, hi: int) {
    forall m: nat {:trigger NoneFrom(h, m, 0)} :: n < m <= hi ==> NoneFrom(h, m, 0)
  }

  /** The longest recurring n-gram, and its most recent occurrence. */
  ghost predicate BestMatch(h: seq<Token>, lo: int, hi: int, n: int, start: int) {
    && 0 <= n && lo <= n <= hi
    && Occurs(h, n, start)
    && NoneFrom(h, n, start + 1)
    && NoneLonger(h, n, hi)
  }

  lemma NoneLongerYet(h: seq<Token>, hi: int)
    ensures NoneLonger(h, hi, hi)
  {
  }

  lemma NoneFromEnd(h: seq<Token>, n: nat)
    ensures NoneFrom(h, n, |h| - n)
  {
  }

  lemma NoneFromDown(h: seq<Token>, n: nat, s: nat)
    requires NoneFrom(h, n, s + 1) && !Occurs(h, n, s)
    ensures NoneFrom(h, n, s)
  {
  }

  lemma NoneOfLength(h: seq<Token>, n: nat, s: int, hi: int)
    requires NoneFrom(h, n, s) && s <= 0 && NoneLonger(h, n, hi)
    ensures NoneLonger(h, n - 1, hi)
  {
  }

  /** The search from n-gram length k and starts below s: what followed the first
      hit, at most n tokens of it. */
  function Lookup(h: seq<Token>, lo: nat, k: int, s: int, n: nat): seq<Token>
    requires lo >= 1 && k >= lo - 1 && s <= |h| - k
    decreases k, Max(s, 0)
  {
    if k < lo then []
    else if s <= 0 then Lookup(h, lo, k - 1, |h| - (k - 1), n)
    else if h[s - 1..s - 1 + k] == h[|h| - k..] then h[s - 1 + k..s - 1 + k + Min(|h| - (s - 1 + k), n)]
    else Lookup(h, lo, k, s - 1, n)
  }

  lemma LookupStep(h: seq<Token>, lo: nat, k: int, s: int, n: nat)
    requires lo >= 1 && k >= lo - 1 && s <= |h| - k
    ensures k < lo ==> Lookup(h, lo, k, s, n) == []
    ensures k >= lo && s <= 0 ==> Lookup(h, lo, k, s, n) == Lookup(h, lo, k - 1, |h| - (k - 1), n)
    ensures k >= lo && s > 0 && h[s - 1..s - 1 + k] == h[|h| - k..] ==>
      Lookup(h, lo, k, s, n) == h[s - 1 + k..s - 1 + k + Min(|h| - (s - 1 + k), n)]
    ensures k >= lo && s > 0 && h[s - 1..s - 1 + k] != h[|h| - k..] ==>
      Lookup(h, lo, k, s, n) == Lookup(h, lo, k, s - 1, n)
  {
  }

  function LookupDraft(h: seq<Token>, maxNgram: int, minNgram: int, nDraft: int): seq<Token> {
    var hi := Max(maxNgram, 1);
    if nDraft <= 0 then [] else Lookup(h, Min(Max(minNgram, 1), hi), hi, |h| - hi, nDraft)
  }

  /** Copies what followed the most recent earlier occurrence of the longest
      tail n-gram that recurs, and nothing if none recurs. */
  method FindDraft(h: seq<Token>, maxNgram: int, minNgram: int, nDraft: int)
    returns (draft: seq<Token>, ghost n: int, ghost start: int)
    ensures nDraft <= 0 ==> draft == []
    ensures draft == LookupDraft(h, maxNgram, minNgram, nDraft)
    ensures |draft| <= Max(nDraft, 0) && forall t :: t in draft ==> t in h
    ensures var hi := Max(maxNgram, 1); var lo := Min(Max(minNgram, 1), hi);
      nDraft > 0 ==>
        if draft == [] then NoneLonger(h, lo - 1, hi)
        else BestMatch(h, lo, hi, n, start)
             && draft == h[start + n..start + n + Min(|h| - (start + n), nDraft)]
  {
    hide Lookup, NoneFrom, NoneLonger;
    draft, n, start := [], 0, 0;
    if nDraft <= 0 { return; }
    var hi := Max(maxNgram, 1);
    var lo := Min(Max(minNgram, 1), hi);
    var k := hi;
    NoneLongerYet(h, hi);
    while k >= lo
      invariant lo - 1 <= k <= hi
      invariant NoneLonger(h, k, hi)
      invariant LookupDraft(h, maxNgram, minNgram, nDraft) == Lookup(h, lo, k, |h| - k, nDraft)
    {
      var s := |h| - k;
      NoneFromEnd(h, k);
      while s > 0
        invariant s <= |h| - k
        invariant NoneFrom(h, k, s)
        invariant LookupDraft(h, maxNgram, minNgram, nDraft) == Lookup(h, lo, k, s, nDraft)
        decreases s
      {
        LookupStep(h, lo, k, s, nDraft);
        s := s - 1;
        if h[s..s + k] == h[|h| - k..] {
          var cont := s + k;
          var take := Min(|h| - cont, nDraft);
          n, start := k, s;
          return h[cont..cont + take], n, start;
        }
        NoneFromDown(h, k, s);
      }
      NoneOfLength(h, k, s, hi);
      LookupStep(h, lo, k, s, nDraft);
      k := k - 1;
    }
    LookupStep(h, lo, k, |h| - k, nDraft);
  }
}
