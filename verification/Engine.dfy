/** One generation after another on one backend: the classic loop, the prefix
    cache, the speculative decoder, and the shortcut for a conversation that
    continues where the last turn stopped. */
module Engine {
  import opened Backend
  import opened Sampling
  import opened Reference
  import opened Speculation
  import opened Decoder
  import opened Verifier
  import opened Determined
  import PrefixCache

  /** What the classic path gives: nothing without a budget, the solo run
      otherwise. */
  ghost function Classic(m: Model, job: Job, tokens: seq<Token>): Run
    requires m.Valid() && job.cfg.Valid()
  {
    if job.cfg.maxTokens <= 0 then Run([], false) else Solo(m, job, tokens, [], job.cfg.maxTokens)
  }

  /** The classic path and the decoder give the same answer exactly when there
      is no budget, or the prompt leaves room, or nothing follows it anyway. */
  lemma PathsAgree(m: Model, job: Job, tokens: seq<Token>)
    requires m.Valid() && job.cfg.Valid()
    ensures Classic(m, job, tokens) == Sequential(m, job, tokens, [], Max(job.cfg.maxTokens, 0))
            <==> job.cfg.maxTokens <= 0 || |tokens| < m.nCtx || m.eog(job.Next(m, tokens, []))
  {
    hide Solo, Pick, Job.Next;
    SoloAgreesExactlyWhen(m, job, tokens, [], job.cfg.maxTokens);
  }

  // ---- The classic loop ---------------------------------------------------

  ghost predicate OnSolo(m: Model, job: Job, full: Run, h: seq<Token>, delivered: seq<Token>)
    requires m.Valid() && job.cfg.Valid()
  {
    full == Append(delivered, Solo(m, job, h, delivered, job.cfg.maxTokens - |delivered|))
  }

  lemma SoloAdvance(m: Model, job: Job, full: Run, h: seq<Token>, delivered: seq<Token>, t: Token)
    requires m.Valid() && job.cfg.Valid() && OnSolo(m, job, full, h, delivered) && t == job.Next(m, h, delivered)
    ensures m.eog(t) ==> Settled(full, delivered, Ended)
    ensures !m.eog(t) ==>
      match job.callback(delivered + [t])
      case Throw => Settled(full, delivered + [t], Threw)
      case Stop => Settled(full, delivered + [t], Ended)
      case Continue =>
        if |delivered| + 1 >= job.cfg.maxTokens || |h| + 1 >= m.nCtx then Settled(full, delivered + [t], Ended)
        else OnSolo(m, job, full, h + [t], delivered + [t])
  {
    hide Pick, Job.Next;
    assert delivered + [] == delivered;
    if !m.eog(t) && job.callback(delivered + [t]).Continue? {
      var rest := Solo(m, job, h + [t], delivered + [t], job.cfg.maxTokens - |delivered| - 1);
      assert delivered + ([t] + rest.delivered) == delivered + [t] + rest.delivered;
    }
  }

  /** What holds before every sample: `tokens` mirrors the KV. */
  ghost predicate ReadyToSample(backend: LlamaBackend, rng: Rng, job: Job, full: Run, prompt: seq<Token>,
                                tokens: seq<Token>, delivered: seq<Token>, logits: seq<real>)
    requires backend.model.Valid() && job.cfg.Valid()
    reads backend, rng
  {
    && |delivered| < job.cfg.maxTokens && tokens == prompt + delivered && rng.tape == job.tape
    && backend.Holds(tokens) && logits == backend.model.logits(tokens)
    && (!job.cfg.Greedy() ==> rng.used == |delivered|)
    && OnSolo(backend.model, job, full, tokens, delivered)
  }

  /** Samples, delivers, and decodes the token unless a limit is reached. */
  method ClassicTurn(backend: LlamaBackend, rng: Rng, job: Job, ghost full: Run, ghost prompt: seq<Token>,
                     tokens0: seq<Token>, delivered0: seq<Token>, logits0: seq<real>)
    returns (end: End, tokens: seq<Token>, delivered: seq<Token>, logits: seq<real>)
    requires backend.model.Valid() && job.cfg.Valid()
    requires ReadyToSample(backend, rng, job, full, prompt, tokens0, delivered0, logits0)
    modifies backend, rng
    ensures end in {Going, Ended, Threw, Broken} && Settled(full, delivered, end)
    ensures end == Going ==> ReadyToSample(backend, rng, job, full, prompt, tokens, delivered, logits)
    ensures end == Going ==> |delivered| == |delivered0| + 1 < job.cfg.maxTokens
    ensures end == Ended ==> prompt <= tokens <= prompt + delivered && |tokens| >= |prompt| + |delivered| - 1
    ensures end == Ended ==> backend.nPast == |backend.kv| && backend.kv <= tokens
    ensures end == Threw ==> delivered != [] && backend.Holds(prompt + Front(delivered))
    ensures backend.faults == old(backend.faults) + if end == Broken then 1 else 0
  {
    hide Solo, Pick, OnSolo;
    ghost var m := backend.model;
    tokens, delivered, logits, end := tokens0, delivered0, logits0, Ended;
    ghost var used := rng.used;
    var next := Sample(job.cfg, rng, logits, tokens);
    SamePick(job.cfg, logits, tokens, job.tape(used), job.tape(|delivered|));
    SoloAdvance(m, job, full, tokens, delivered, next);
    if backend.model.eog(next) { return; }
    var verdict := job.callback(delivered + [next]);
    delivered := delivered + [next];
    assert prompt + delivered == tokens + [next];
    assert Front(delivered) == delivered0;
    if verdict.Stop? { return; }
    if verdict.Throw? { return Threw, tokens, delivered, logits; }
    tokens := tokens + [next];
    if |tokens| >= backend.model.nCtx { return; }
    if |delivered| >= job.cfg.maxTokens { return; }
    var ok;
    ok, logits := backend.DecodeAppend([next]);
    if !ok {
      OnSoloPrefix(m, job, full, tokens, delivered);
      return Broken, tokens, delivered, logits;
    }
    end := Going;
  }

  lemma OnSoloPrefix(m: Model, job: Job, full: Run, h: seq<Token>, delivered: seq<Token>)
    requires m.Valid() && job.cfg.Valid() && OnSolo(m, job, full, h, delivered)
    ensures Settled(full, delivered, Broken)
  {
    hide Solo;
  }

  /** The whole classic generation from a prefilled prompt. */
  method ClassicLoop(backend: LlamaBackend, job: Job, prompt: seq<Token>, logits0: seq<real>)
    returns (end: End, tokens: seq<Token>, delivered: seq<Token>)
    requires backend.model.Valid() && job.cfg.Valid()
    requires backend.Holds(prompt) && logits0 == backend.model.logits(prompt)
    modifies backend
    ensures end in {Ended, Threw, Broken}
    ensures Settled(Classic(backend.model, job, prompt), delivered, end)
    ensures end == Ended ==> prompt <= tokens <= prompt + delivered && |tokens| >= |prompt| + |delivered| - 1
    ensures end == Ended ==> backend.nPast == |backend.kv| && backend.kv <= tokens
    ensures end == Threw ==> delivered != [] && backend.Holds(prompt + Front(delivered))
    ensures backend.faults == old(backend.faults) + if end == Broken then 1 else 0
  {
    ghost var full := Classic(backend.model, job, prompt);
    hide Solo, Pick, Settled;
    tokens, delivered, end := prompt, [], Ended;
    if job.cfg.maxTokens <= 0 {
      assert Settled(full, delivered, end) by { NothingToDo(full); }
      return;
    }
    assert [] + full.delivered == full.delivered;
    var rng := new Rng(job.tape);
    var logits := logits0;
    assert prompt + [] == prompt;
    assert ReadyToSample(backend, rng, job, full, prompt, tokens, delivered, logits);
    assert |delivered| < job.cfg.maxTokens;
    hide ReadyToSample, Classic;
    while true
      invariant |delivered| < job.cfg.maxTokens
      invariant ReadyToSample(backend, rng, job, full, prompt, tokens, delivered, logits)
      invariant backend.faults == old(backend.faults)
      decreases job.cfg.maxTokens - |delivered|
    {
      end, tokens, delivered, logits := ClassicTurn(backend, rng, job, full, prompt, tokens, delivered, logits);
      if end != Going { return; }
    }
  }

  lemma NothingYet(full: Run)
    ensures Settled(full, [], Broken)
  {
  }

  lemma NothingToDo(full: Run)
    requires full == Run([], false)
    ensures Settled(full, [], Ended)
  {
  }

  // ---- The engine ---------------------------------------------------------

  datatype Call = Call(prompt: seq<Token>, job: Job, acceptTape: Tape)

  /** How an engine meets a call: what its decoder makes of its drafts so far, and
      whether no operation of a model fails. */
  datatype Setting = Setting(plan: Plan, quiet: bool)

  class ReameEngine {
    const backend: LlamaBackend
    const decoder: SpeculativeDecoder?
    const cache: PrefixCache.PrefixCache?
    var context: seq<Token>     // tokens of the last completed generation

    /** A freshly started engine. */
    constructor (backend: LlamaBackend, decoder: SpeculativeDecoder?, cache: PrefixCache.PrefixCache?)
      requires backend.model.Valid()
      requires decoder != null ==> decoder.target == backend && decoder.Valid()
      requires cache != null ==> cache.model == backend.model && cache.Valid()
      ensures Valid() && HotOk()
      ensures this.backend == backend && this.decoder == decoder && this.cache == cache && context == []
    {
      this.backend, this.decoder, this.cache := backend, decoder, cache;
      context := [];
    }

    ghost function Repr(): set<object?> {
      {this, backend}
      + (if decoder != null then {decoder, decoder.draft} else {})
      + (if cache != null then {cache.manager, cache.manager.store} else {})
    }

    ghost predicate Valid()
      reads Repr(), cache
    {
      && backend.model.Valid()
      && (decoder != null ==> decoder.target == backend && decoder.Valid())
      && (cache != null ==> cache.model == backend.model && cache.Valid())
    }

    /** Failed operations of either model so far. */
    ghost function Faults(): nat
      reads Repr()
    {
      backend.faults + if decoder == null || decoder.draft == null then 0 else decoder.draft.faults
    }

    /** The invariant behind the shortcut: if the backend's counter matches the
        remembered context, so does its content. */
    ghost predicate HotOk()
      reads this, backend
    {
      context != [] && backend.nPast == |context| ==> backend.kv == context
    }

    /** What a call that did not complete leaves behind is harmless if the caller
        can see that the backend stands elsewhere, or on the very same text. */
    predicate Resumable(tokens: seq<Token>, delivered: seq<Token>, end: End)
      reads this, backend
    {
      end in {Threw, Broken} &&
        (backend.nPast != |context| || (end == Threw && context <= tokens + delivered))
    }

    /** The request extends the last one and the backend seems to be where it was
        left: only lengths are compared with the backend. */
    predicate Extends(tokens: seq<Token>)
      reads this, backend
    {
      context != [] && |tokens| > |context| && backend.nPast == |context| && context <= tokens
    }

    /** The backend stands elsewhere, or within what was just said. */
    ghost predicate Unspoiled(said: seq<Token>)
      reads this, backend
    {
      backend.nPast != |context| || context <= said
    }

    /** The invariant is what the guard needs, no more and no less: it holds if
        and only if every request that passes the guard continues from its own
        text. */
    lemma HotIsExact()
      ensures HotOk() <==> forall tokens :: Extends(tokens) ==> backend.kv + tokens[|context|..] == tokens
    {
      if HotOk() {
        forall tokens | Extends(tokens)
          ensures backend.kv + tokens[|context|..] == tokens
        {
          assert tokens == context + tokens[|context|..];
        }
      } else {
        var tokens := context + [0];
        assert Extends(tokens);
        PrefixOf(backend.kv, context, 0);
      }
    }

    static lemma PrefixOf(kv: seq<Token>, context: seq<Token>, t: Token)
      requires kv != context
      ensures kv + (context + [t])[|context|..] != context + [t]
    {
      assert (context + [t])[|context|..] == [t];
      assert (kv + [t])[..|kv|] == kv && (context + [t])[..|context|] == context;
    }

    /** The prompt's prefixes are among those the cache's keys tell apart. */
    ghost predicate Admissible(tokens: seq<Token>) {
      cache != null && tokens != [] ==> cache.InPlay(Front(tokens))
    }

    lemma Apart()
      requires Valid()
      ensures decoder != null ==> decoder.draft != backend
    {
      hide PrefixCache.PrefixCache.Valid;
    }

    /** Three ways to the same state: continue, restore and finish, or decode. */
    method PrefillClassic(tokens: seq<Token>) returns (ok: bool, logits: seq<real>)
      requires Valid() && HotOk() && tokens != [] && Admissible(tokens)
      modifies Repr() - {this}
      ensures Valid() && (ok ==> backend.Holds(tokens) && logits == backend.model.logits(tokens))
      ensures Faults() == old(Faults()) + if ok then 0 else 1
      ensures ok ==> var hot := old(context != [] && context < tokens && backend.nPast == |context|);
        && (hot ==> backend.decoded == old(backend.decoded) + |tokens| - |context|)
        && (!hot && cache == null ==> backend.decoded == old(backend.decoded) + |tokens|)
        && (!hot && cache != null && old(cache.Available(Front(tokens))) ==>
              backend.decoded == old(backend.decoded) + 1)
    {
      hide SpeculativeDecoder.Valid, PrefixCache.PrefixCache.Valid;
      Apart();
      if Extends(tokens) {
        assert context + tokens[|context|..] == tokens;
        ok, logits := backend.DecodeAppend(tokens[|context|..]);
      } else if cache != null {
        assert Front(tokens) + [tokens[|tokens| - 1]] == tokens;
        ok, logits := PrefillCached(tokens[..|tokens| - 1], tokens[|tokens| - 1]);
      } else {
        ok, logits := backend.Decode(tokens);
      }
    }

    /** The cache prefills the prompt without its last token, and that token is
        decoded for its logits. */
    method PrefillCached(front: seq<Token>, last: Token) returns (ok: bool, logits: seq<real>)
      requires cache != null && cache.model == backend.model && cache.Valid() && cache.InPlay(front)
      modifies backend, cache.manager, cache.manager.store
      ensures cache.Valid() && (ok ==> backend.Holds(front + [last]) && logits == backend.model.logits(front + [last]))
      ensures backend.faults == old(backend.faults) + if ok then 0 else 1
      ensures ok && old(cache.Available(front)) ==> backend.decoded == old(backend.decoded) + 1
    {
      hide PrefixCache.PrefixCache.Valid, PrefixCache.PrefixCache.Longest, PrefixCache.PrefixCache.Available;
      hide PrefixCache.PrefixCache.Storable, PrefixCache.PrefixCache.InPlay, PrefixCache.IsMark;
      logits := [];
      var restored;
      ghost var clean, stored, mid;
      ok, restored, clean, stored, mid := cache.Prefill(front, backend);
      if !ok { return; }
      ok, logits := backend.DecodeAppend([last]);
    }

    method GenerateClassic(tokens: seq<Token>, job: Job) returns (end: End, delivered: seq<Token>)
      requires Valid() && HotOk() && tokens != [] && Admissible(tokens) && job.cfg.Valid()
      modifies Repr()
      ensures Valid() && end in {Ended, Threw, Broken} && (end == Ended ==> HotOk())
      ensures end != Ended ==> context == old(context)
      ensures end == Ended ==> tokens <= context <= tokens + delivered && |context| >= |tokens| + |delivered| - 1
      ensures end == Threw ==> delivered != [] && backend.Holds(tokens + Front(delivered))
      ensures end == Threw ==>
        (HotOk() <==> (|context| == |tokens| + |delivered| - 1 ==> context == tokens + Front(delivered)))
      ensures end == Threw ==> (HotOk() <==> Resumable(tokens, delivered, end))
      ensures Settled(Classic(backend.model, job, tokens), delivered, end)
      ensures Faults() == old(Faults()) + if end == Broken then 1 else 0
    {
      hide Classic, Settled, SpeculativeDecoder.Valid, PrefixCache.PrefixCache.Valid;
      Apart();
      delivered := [];
      var ok, logits := PrefillClassic(tokens);
      if !ok {
        NothingYet(Classic(backend.model, job, tokens));
        return Broken, delivered;
      }
      var all;
      end, all, delivered := ClassicLoop(backend, job, tokens, logits);
      if end == Ended { context := all; }
      if end == Threw { AllButLast(tokens, delivered, context); }
    }

    static lemma AllButLast(tokens: seq<Token>, delivered: seq<Token>, context: seq<Token>)
      requires delivered != []
      ensures |context| == |tokens| + |delivered| - 1 ==>
        (context == tokens + Front(delivered) <==> context <= tokens + delivered)
    {
      assert tokens + Front(delivered) == (tokens + delivered)[..|tokens| + |delivered| - 1];
    }

    /** How much of the prompt the decoder inherits. */
    method PrefillDecoder(tokens: seq<Token>) returns (ok: bool, kvReady: nat)
      requires Valid() && HotOk() && tokens != [] && Admissible(tokens)
      modifies Repr() - {this, decoder}
      ensures Valid() && kvReady < |tokens| && (ok && kvReady > 0 ==> backend.Holds(tokens[..kvReady]))
      ensures old(context != [] && context < tokens && backend.nPast == |context|) ==>
        ok && kvReady == |context| && backend.decoded == old(backend.decoded)
      ensures old(context == [] || !(context < tokens) || backend.nPast != |context|) ==>
        kvReady == if cache != null then |tokens| - 1 else 0
      ensures Faults() == old(Faults()) + if ok then 0 else 1
    {
      ok, kvReady := true, 0;
      if Extends(tokens) {
        kvReady := |context|;
      } else if cache != null && |tokens| > 1 {
        var restored;
        ghost var clean, stored, mid;
        ok, restored, clean, stored, mid := cache.Prefill(tokens[..|tokens| - 1], backend);
        kvReady := |tokens| - 1;
      }
    }

    /** After a throwing callback the target's KV may reach past what was
        delivered, into accepted tokens that nobody saw; it never leaves what was
        said. */
    method GenerateSpeculative(tokens: seq<Token>, job: Job, acceptTape: Tape)
      returns (end: End, delivered: seq<Token>, ghost moves: seq<Move>)
      requires Valid() && HotOk() && decoder != null && tokens != [] && |tokens| <= backend.model.nCtx
      requires Admissible(tokens) && job.cfg.Valid() && backend.model.InVocab(tokens) && Uniform(acceptTape)
      modifies Repr()
      ensures Valid() && end in {Ended, Threw, Broken, Undefined} && (end == Ended ==> HotOk())
      ensures context == if end == Ended then tokens + delivered else old(context)
      ensures end == Undefined ==> !decoder.Indexable()
      ensures decoder.EnvFor(job, acceptTape).Valid()
      ensures Speaks(decoder.EnvFor(job, acceptTape), tokens, old(decoder.PlanNow()), moves, end, delivered)
      ensures end == Threw ==>
        (HotOk() <==> Unspoiled(SaidBy(decoder.EnvFor(job, acceptTape), tokens, old(decoder.PlanNow()), moves)))
      ensures end == Threw && |context| <= |tokens| + |delivered| ==> (HotOk() <==> Resumable(tokens, delivered, end))
      ensures end == Threw && job.cfg.Greedy() ==>
        (HotOk() <==> backend.nPast != |context| || OnGreedyText(job.cfg, tokens, delivered))
      ensures job.cfg.Greedy() ==>
        Settled(Sequential(backend.model, job, tokens, [], Max(job.cfg.maxTokens, 0)), delivered, end)
      ensures Faults() >= old(Faults()) && (end == Broken || !Unbroken(moves) ==> Faults() > old(Faults()))
    {
      hide Sequential, Settled, Speaks, SaidBy, SpeculativeDecoder.Valid, PrefixCache.PrefixCache.Valid;
      delivered, moves := [], [];
      ghost var env, plan := decoder.EnvFor(job, acceptTape), decoder.PlanNow();
      EnvIsValid(job, acceptTape);
      var ok, kvReady := PrefillDecoder(tokens);
      if !ok {
        SpeculativeDecoder.NothingSaid(env, tokens, plan);
        if job.cfg.Greedy() { GreedySpeech(env, tokens, plan, moves, Broken, delivered); }
        return Broken, delivered, moves;
      }
      end, delivered, moves := decoder.GenerateStream(tokens, job, acceptTape, kvReady);
      if end in {Ended, Threw} { KvWithinSaid(env, tokens, plan, moves, end, delivered, backend.kv, context); }
      if end == Ended { context := tokens + delivered; }
    }

    lemma EnvIsValid(job: Job, acceptTape: Tape)
      requires Valid() && decoder != null && job.cfg.Valid()
      ensures decoder.EnvFor(job, acceptTape).Valid()
    {
      hide PrefixCache.PrefixCache.Valid;
    }

    /** What a KV within what was said means for a remembered context of its
        length. */
    static lemma KvWithinSaid(env: Env, tokens: seq<Token>, plan: Plan, moves: seq<Move>, end: End,
                              delivered: seq<Token>, kv: seq<Token>, context: seq<Token>)
      requires env.Valid() && tokens != [] && Speaks(env, tokens, plan, moves, end, delivered) && Uniform(env.accepts)
      requires kv <= SaidBy(env, tokens, plan, moves)
      ensures |kv| == |tokens| + |delivered| ==> kv == tokens + delivered
      ensures |kv| == |context| ==> (kv == context <==> context <= SaidBy(env, tokens, plan, moves))
      ensures |kv| == |context| <= |tokens| + |delivered| ==> (kv == context <==> context <= tokens + delivered)
      ensures env.job.cfg.Greedy() && |kv| == |context| ==>
        (kv == context
         <==> Comparable(context, tokens + delivered) && GreedyFrom(env.m, env.job.cfg, |tokens|, context))
    {
      hide Cut, Closed, GreedyNext;
      var said := SaidBy(env, tokens, plan, moves);
      ToldPrefix(env.m, env.job, tokens, said, delivered, Max(env.job.cfg.maxTokens, 0), end == Threw);
      if env.job.cfg.Greedy() {
        GreedyRun(env, Spot(tokens, plan, 0, 0), moves);
        GreedyPrefix(env.m, env.job.cfg, |tokens|, said, kv);
        SameText(env.m, env.job.cfg, tokens, delivered, kv, context);
      }
    }

    /** The remembered context is the prompt and its greedy continuation, at odds
        with nothing that was delivered. */
    ghost predicate OnGreedyText(cfg: GenConfig, tokens: seq<Token>, delivered: seq<Token>)
      requires backend.model.Valid() && cfg.Valid()
      reads this
    {
      Comparable(context, tokens + delivered) && GreedyFrom(backend.model, cfg, |tokens|, context)
    }

    static lemma SameText(m: Model, cfg: GenConfig, tokens: seq<Token>, delivered: seq<Token>, kv: seq<Token>,
                          context: seq<Token>)
      requires m.Valid() && cfg.Valid() && GreedyFrom(m, cfg, |tokens|, kv) && Comparable(kv, tokens + delivered)
      ensures |kv| == |context| ==>
        (kv == context <==> Comparable(context, tokens + delivered) && GreedyFrom(m, cfg, |tokens|, context))
    {
      hide GreedyNext;
      if |kv| == |context| && Comparable(context, tokens + delivered) && GreedyFrom(m, cfg, |tokens|, context) {
        var k := Min(|tokens|, |kv|);
        assert kv[..k] == (tokens + delivered)[..k] == context[..k];
        GreedyUnique(m, cfg, |tokens|, kv, context);
      }
    }

    /** One call. Whichever way the KV came about, the answer is that of a cold
        run: the solo run on the classic path, and with the decoder the text of
        legal moves from the prompt, which under greedy sampling is the sequential
        run. A completed call is remembered and leaves the shortcut sound for the
        next; one whose callback threw does so exactly when it is resumable. */
    method Generate(tokens: seq<Token>, job: Job, acceptTape: Tape)
      returns (end: End, delivered: seq<Token>, ghost moves: seq<Move>)
      requires Valid() && HotOk() && Admissible(tokens) && job.cfg.Valid()
      requires backend.model.InVocab(tokens) && Uniform(acceptTape)
      modifies Repr()
      ensures Valid() && (end in {Ended, Refused} ==> HotOk())
      ensures end == Refused <==> tokens == [] || |tokens| > backend.model.nCtx
      ensures end == Refused ==> delivered == []
      ensures end != Ended ==> context == old(context)
      ensures end == Ended ==> tokens <= context <= tokens + delivered && |context| >= |tokens| + |delivered| - 1
      ensures end == Ended && decoder != null ==> context == tokens + delivered
      ensures end == Threw && (decoder == null || |context| <= |tokens| + |delivered|) ==>
        (HotOk() <==> Resumable(tokens, delivered, end))
      ensures decoder != null ==> Env0(job, acceptTape).Valid()
      ensures end == Threw && decoder != null ==>
        (HotOk() <==> Unspoiled(SaidBy(Env0(job, acceptTape), tokens, old(decoder.PlanNow()), moves)))
      ensures end == Threw && decoder != null && job.cfg.Greedy() ==>
        (HotOk() <==> backend.nPast != |context| || OnGreedyText(job.cfg, tokens, delivered))
      ensures Resumable(tokens, delivered, end) ==> HotOk()
      ensures end != Refused && decoder == null ==> Settled(Classic(backend.model, job, tokens), delivered, end)
      ensures end != Refused && decoder != null ==>
        Speaks(Env0(job, acceptTape), tokens, old(decoder.PlanNow()), moves, end, delivered)
      ensures end != Refused && decoder != null && job.cfg.Greedy() ==>
        Settled(Sequential(backend.model, job, tokens, [], Max(job.cfg.maxTokens, 0)), delivered, end)
      ensures end in {Ended, Threw, Broken, Refused, Undefined}
      ensures end == Undefined ==> decoder != null && !decoder.Indexable()
      ensures Faults() >= old(Faults()) && (end == Broken || !Unbroken(moves) ==> Faults() > old(Faults()))
    {
      hide Sequential, Classic, GreedyFrom, Settled, Speaks, SaidBy;
      moves := [];
      if decoder != null { EnvIsValid(job, acceptTape); }
      if tokens == [] || |tokens| > backend.model.nCtx { return Refused, [], moves; }
      if decoder != null {
        end, delivered, moves := GenerateSpeculative(tokens, job, acceptTape);
      } else {
        end, delivered := GenerateClassic(tokens, job);
      }
    }

    /** What a generation with the decoder is given. */
    ghost function Env0(job: Job, acceptTape: Tape): Env
      requires decoder != null
    {
      decoder.EnvFor(job, acceptTape)
    }

    /** A call as the model admits it: nothing is asked of its outcome. */
    ghost predicate Answerable(c: Call) {
      && Admissible(c.prompt) && backend.model.InVocab(c.prompt)
      && c.job.cfg.Valid() && Uniform(c.acceptTape)
    }

    /** The answer of an engine that has just been started: all of it if no model
        fails, else as far as the call went. With a decoder it depends on the tapes
        and on what the decoder makes of its drafts so far, and on nothing else. */
    ghost predicate AnsweredCold(c: Call, at: Setting, end: End, answer: seq<Token>) {
      && backend.model.Valid() && c.job.cfg.Valid()
      && end != Going && (end == Undefined ==> decoder != null && !decoder.Indexable())
      && (end == Refused <==> c.prompt == [] || |c.prompt| > backend.model.nCtx)
      && (end == Refused ==> answer == [])
      && (at.quiet ==> end != Broken)
      && (end != Refused && decoder == null ==> Settled(Classic(backend.model, c.job, c.prompt), answer, end))
      && (end != Refused && decoder != null ==> SpokenCold(c, at, end, answer))
      && (end != Refused && decoder != null && c.job.cfg.Greedy() ==>
            Settled(Sequential(backend.model, c.job, c.prompt, [], Max(c.job.cfg.maxTokens, 0)), answer, end))
    }

    /** The text of legal moves from the prompt, cut at its end. */
    ghost predicate SpokenCold(c: Call, at: Setting, end: End, answer: seq<Token>)
      requires decoder != null
    {
      var env := Env0(c.job, c.acceptTape);
      && env.Valid() && c.prompt != []
      && exists moves :: Speaks(env, c.prompt, at.plan, moves, end, answer) && (at.quiet ==> Unbroken(moves))
    }

    /** Another engine with the same models and the same configuration. */
    ghost predicate Twin(e: ReameEngine) {
      && e.backend.model == backend.model && (e.decoder == null <==> decoder == null)
      && (decoder != null ==> forall job, tape :: e.Env0(job, tape) == Env0(job, tape))
    }

    /** A cold answer is a single one: as long as no model fails, no other engine
        of the same making, whatever its KV, caches and past, answers the call
        differently. */
    lemma ColdIsDetermined(e: ReameEngine, c: Call, at: Setting, end: End, answer: seq<Token>, end': End,
                           answer': seq<Token>)
      requires Twin(e) && at.quiet && AnsweredCold(c, at, end, answer) && e.AnsweredCold(c, at, end', answer')
      ensures end == end' && answer == answer'
    {
      hide Classic, Sequential, Speaks, Unbroken;
      if end == Refused || decoder == null { return; }
      var env := Env0(c.job, c.acceptTape);
      assert e.Env0(c.job, c.acceptTape) == env;
      var a :| Speaks(env, c.prompt, at.plan, a, end, answer) && Unbroken(a);
      var b :| Speaks(env, c.prompt, at.plan, b, end', answer') && Unbroken(b);
      SpeechIsDetermined(env, c.prompt, at.plan, a, end, answer, b, end', answer');
    }

    /** What the decoder makes of its drafts so far. */
    ghost function PlanNow(): Plan
      reads this, decoder
    {
      if decoder == null then Plan(0, 0, 0, false) else decoder.PlanNow()
    }

    /** One call of a conversation, and whether the next may follow. */
    method Answer(c: Call) returns (end: End, answer: seq<Token>, goOn: bool)
      requires Valid() && HotOk() && Answerable(c)
      modifies Repr()
      ensures Valid() && Faults() >= old(Faults()) && (goOn ==> HotOk())
      ensures AnsweredCold(c, Setting(old(PlanNow()), Faults() == old(Faults())), end, answer)
      ensures !goOn <==> Stuck(c, end, answer)
      ensures end == Ended ==> c.prompt <= context && |context| >= |c.prompt| + |answer| - 1
    {
      hide Sequential, Classic, Settled, GreedyFrom, Speaks, SaidBy, Unbroken;
      ghost var moves;
      end, answer, moves := Generate(c.prompt, c.job, c.acceptTape);
      goOn := end in {Ended, Refused} || Resumable(c.prompt, answer, end);
    }

    ghost predicate Stuck(c: Call, end: End, answer: seq<Token>)
      reads this, backend
    {
      end !in {Ended, Refused} && !Resumable(c.prompt, answer, end)
    }

    /** Any number of calls, completed, refused or thrown out of, up to the first
        that leaves the backend where the guard cannot be trusted: each is
        answered as if the engine had just been started, and in full if no model
        failed meanwhile. */
    method Serve(calls: seq<Call>)
      returns (ends: seq<End>, answers: seq<seq<Token>>, goOn: bool, ghost at: seq<Setting>)
      requires Valid() && HotOk() && AllAnswerable(calls)
      modifies Repr()
      ensures Valid() && AllCold(calls, at, ends, answers)
      ensures Faults() == old(Faults()) ==> AllQuiet(at)
      ensures goOn ==> |answers| == |calls| && HotOk()
      ensures !goOn ==> StuckAtLast(calls, ends, answers)
    {
      assert AllCold(calls, [], [], []);
      hide AllCold, AnsweredCold, AllAnswerable, Answerable, HotOk, Resumable, Valid, Stuck, StuckAtLast, Repr, Faults;
      ends, answers, goOn, at := [], [], true, [];
      for i := 0 to |calls|
        invariant Valid() && HotOk() && AllCold(calls, at, ends, answers) && |answers| == |ends| == i && goOn
        invariant Faults() >= old(Faults()) && (Faults() == old(Faults()) ==> AllQuiet(at))
      {
        EachAnswerable(calls, i);
        ghost var plan, faults := PlanNow(), Faults();
        var end, answer;
        end, answer, goOn := Answer(calls[i]);
        OneMoreCold(calls, at, ends, answers, Setting(plan, Faults() == faults), end, answer);
        at := at + [Setting(plan, Faults() == faults)];
        if !goOn { NowStuck(calls, ends, answers, end, answer); }
        ends, answers := ends + [end], answers + [answer];
        if !goOn { return; }
      }
    }

    ghost predicate AllAnswerable(calls: seq<Call>) { forall i :: 0 <= i < |calls| ==> Answerable(calls[i]) }

    lemma EachAnswerable(calls: seq<Call>, i: nat)
      requires AllAnswerable(calls) && i < |calls|
      ensures Answerable(calls[i])
    {
      hide Answerable;
    }

    ghost predicate StuckAtLast(calls: seq<Call>, ends: seq<End>, answers: seq<seq<Token>>)
      reads this, backend
    {
      && 0 < |answers| == |ends| <= |calls|
      && Stuck(calls[|answers| - 1], ends[|answers| - 1], answers[|answers| - 1])
    }

    lemma NowStuck(calls: seq<Call>, ends: seq<End>, answers: seq<seq<Token>>, end: End, answer: seq<Token>)
      requires |ends| == |answers| < |calls| && Stuck(calls[|answers|], end, answer)
      ensures StuckAtLast(calls, ends + [end], answers + [answer])
    {
      hide Stuck;
    }

    /** Each call so far was answered as a freshly started engine would. */
    ghost predicate AllCold(calls: seq<Call>, at: seq<Setting>, ends: seq<End>, answers: seq<seq<Token>>) {
      && |at| == |ends| == |answers| <= |calls|
      && forall i :: 0 <= i < |answers| ==> AnsweredCold(calls[i], at[i], ends[i], answers[i])
    }

    ghost predicate AllQuiet(at: seq<Setting>) { forall i :: 0 <= i < |at| ==> at[i].quiet }

    lemma OneMoreCold(calls: seq<Call>, at: seq<Setting>, ends: seq<End>, answers: seq<seq<Token>>, now: Setting,
                      end: End, answer: seq<Token>)
      requires AllCold(calls, at, ends, answers) && |answers| < |calls|
      requires AnsweredCold(calls[|answers|], now, end, answer)
      ensures AllCold(calls, at + [now], ends + [end], answers + [answer])
    {
      hide AnsweredCold;
    }
  }

  /** A throwing callback can spoil the shortcut. From a freshly started engine: a
      call with prompt [1, 2] that asks for nothing leaves that context; a call
      with prompt [3, 4] whose callback throws at its first token leaves the
      backend at [3, 4] with the same count; and then the guard lets [1, 2, 5]
      through, to be answered from [3, 4, 5]. Unless a decode fails, that is. */
  method SpoiledByThrow(backend: LlamaBackend, cfg: GenConfig, tape: Tape)
    returns (engine: ReameEngine, first: End, second: End)
    requires backend.model.Valid() && backend.model.nCtx >= 2 && backend.model.vocab > 5
    requires cfg.Valid() && cfg.maxTokens >= 1 && forall t :: !backend.model.eog(t)
    modifies backend
    ensures fresh(engine) && engine.backend == backend
    ensures first in {Ended, Broken} && (first == Ended ==> second in {Threw, Broken})
    ensures first == Broken || second == Broken <==> backend.faults > old(backend.faults)
    ensures first == Ended && second == Threw ==>
      && engine.context == [1, 2] && !engine.HotOk() && engine.Extends([1, 2, 5])
      && backend.kv + [1, 2, 5][|engine.context|..] == [3, 4, 5]
  {
    hide Pick;
    second := Broken;
    engine := new ReameEngine(backend, null, null);
    var one: seq<Token>, two: seq<Token> := [1, 2], [3, 4];
    var delivered;
    first, delivered := engine.GenerateClassic(one, Job(cfg.(maxTokens := 0), tape, (_: seq<Token>) => Throw));
    if first != Ended { return; }
    assert one + [] == one;
    var job := Job(cfg, tape, (_: seq<Token>) => Throw);
    second, delivered := engine.GenerateClassic(two, job);
    assert |Classic(backend.model, job, two).delivered| == 1;
    assert second == Threw ==> two + Front(delivered) == two;
  }
}
