/** Speculative generation as such, without any KV: which moves a run makes, what
    each of them says, and where the caller's text is cut. Every clause is about
    tokens and tapes; the decoder is proved to make just these moves. */
module Speculation {
  import opened Backend
  import opened Sampling
  import opened Reference
  import opened Verifier
  import opened Acceptance
  import Drafts

  /** `corpus` and `form` are the two retrieval sources consulted, in that
      order, after the prompt lookup comes back empty. */
  datatype Config = Config(
    modelMode: bool,
    draftTokens: int,
    minDraft: nat,
    maxDraft: nat,
    maxNgram: int,
    minNgram: int,
    useSpeculative: bool,
    disableAfter: nat,
    disableBelow: real,
    corpus: (seq<Token>, int) -> seq<Token>,
    form: seq<Token> -> seq<Token>)
  {
    /** The archive keeps to the length it is asked for. */
    ghost predicate Valid() {
      && minDraft <= maxDraft
      && (forall h, k {:trigger corpus(h, k)} :: |corpus(h, k)| <= Max(k, 0))
    }

    /** Retrieved tokens index the target's vocabulary. */
    ghost predicate RetrievesFrom(m: Model) {
      && (forall h, k {:trigger corpus(h, k)} :: m.InVocab(corpus(h, k)))
      && (forall h {:trigger form(h)} :: m.InVocab(form(h)))
    }

    /** The draft length asked for when `room` positions are left: a draft model
        asked for nothing falls back to the configured length, room or not. */
    function Requested(current: int, room: int): (r: int)
      ensures current > 0 && room > 0 ==> r <= current && r <= room && (r == current || r == room)
      ensures current <= 0 || room <= 0 ==> if modelMode then r == draftTokens else r <= 0
    {
      var n := Min(current, room);
      if modelMode && n <= 0 then draftTokens else n
    }

    predicate Bounded() { minDraft > 0 || !modelMode || draftTokens <= 1 }

    /** Drafts always fit exactly under this condition on the configuration. */
    lemma RequestFits()
      requires minDraft <= maxDraft
      ensures Bounded() <==>
        forall current: int, room: int ::
          minDraft <= current <= maxDraft && room >= 1 ==> Requested(current, room) <= room
    {
      if !Bounded() { assert Requested(0, 1) > 1; }
    }
  }

  /** How an emission or a whole generation ended. `Undefined`: a draft held a
      token outside the target's vocabulary, and the code reads past the end of
      the target's probabilities. */
  datatype End = Going | Ended | Threw | Broken | Refused | Undefined

  // ---- Adapting to what was accepted --------------------------------------

  /** What the decoder remembers of its drafts: how many tokens it drafted and
      how many were accepted, the draft length, and whether it still drafts. */
  datatype Plan = Plan(drafted: nat, accepted: nat, length: int, armed: bool)

  predicate LowRate(cfg: Config, drafted: nat, accepted: nat) {
    if drafted == 0 then 0.0 < cfg.disableBelow else accepted as real < cfg.disableBelow * drafted as real
  }

  function Adapted(cfg: Config, length: int, nAccepted: nat, nDrafted: nat): int {
    if nDrafted > 0 && 10 * nAccepted >= 9 * nDrafted then Min(length + 2, cfg.maxDraft)
    else if nDrafted > 0 && 10 * nAccepted <= 4 * nDrafted then Max(length - 2, cfg.minDraft)
    else length
  }

  /** More accepted never makes the next draft shorter. */
  lemma MoreAccepted(cfg: Config, length: int, a: nat, b: nat, n: nat)
    requires cfg.minDraft <= length <= cfg.maxDraft && a <= b
    ensures Adapted(cfg, length, a, n) <= Adapted(cfg, length, b, n)
  {
  }

  /** More accepted never switches speculation off where fewer would not. */
  lemma MoreAcceptedArms(cfg: Config, drafted: nat, a: nat, b: nat)
    requires a <= b && LowRate(cfg, drafted, b)
    ensures LowRate(cfg, drafted, a)
  {
  }

  /** The plan after a round that drafted n tokens, a of them accepted. */
  function Review(cfg: Config, plan: Plan, n: nat, a: nat): Plan {
    var drafted, accepted := plan.drafted + n, plan.accepted + a;
    Plan(drafted, accepted, Adapted(cfg, plan.length, a, n),
         plan.armed && !(drafted >= cfg.disableAfter && LowRate(cfg, drafted, accepted)))
  }

  // ---- Moves --------------------------------------------------------------

  /** What a generation is given: the two models, the decoder's configuration,
      the request, and the tape of the acceptance tests. */
  datatype Env = Env(m: Model, d: Option<Model>, cfg: Config, job: Job, accepts: Tape) {
    ghost predicate Valid() {
      m.Valid() && (d.Some? ==> d.value.Valid()) && cfg.Valid() && job.cfg.Valid()
    }
  }

  /** Where a generation stands: its text, its plan, and how far the sampler's
      and the acceptance tape have been read. */
  datatype Spot = Spot(h: seq<Token>, plan: Plan, drawn: nat, checked: nat)

  /** One token sampled from the target (`gaveUp`: because the draft model just
      failed), or a drafted block verified. */
  datatype Move =
    | Picked(drawn: nat, gaveUp: bool)
    | Block(tokens: seq<Token>, probs: seq<seq<real>>)
  {
    predicate GaveUp() { Picked? && gaveUp }
  }

  function Retrieved(cfg: Config, h: seq<Token>, n: int): seq<Token> {
    var looked := Drafts.LookupDraft(h, cfg.maxNgram, cfg.minNgram, n);
    if looked != [] then looked
    else
      var archived := cfg.corpus(h, n);
      if archived != [] then archived
      else
        var formed := cfg.form(h);
        if |formed| > Max(n, 0) then formed[..Max(n, 0)] else formed
  }

  function OneHots(vocab: nat, tokens: seq<Token>): seq<seq<real>> {
    seq(|tokens|, i requires 0 <= i < |tokens| => OneHot(vocab, tokens[i]))
  }

  /** The draft length asked for here. */
  function Asked(env: Env, s: Spot): int { env.cfg.Requested(s.plan.length, env.m.nCtx - |s.h|) }

  /** The plan calls for a draft, and there is something to draft from. */
  predicate WouldDraft(env: Env, s: Spot)
    requires s.h != []
  {
    && s.plan.armed
    && (if env.cfg.modelMode then env.d.Some? && s.h[|s.h| - 1] < env.d.value.vocab && Asked(env, s) > 0
        else Retrieved(env.cfg, s.h, Asked(env, s)) != [])
  }

  lemma Unarmed(env: Env, s: Spot)
    requires s.h != [] && !s.plan.armed
    ensures !WouldDraft(env, s)
  {
  }

  lemma Undraftable(env: Env, s: Spot)
    requires s.h != [] && env.cfg.modelMode && env.d.Some? && s.h[|s.h| - 1] >= env.d.value.vocab
    ensures !WouldDraft(env, s)
  {
  }

  /** A rollout of n tokens, or one that ends with the end-of-sequence token. */
  ghost predicate FullRollout(d: Model, gen: GenConfig, h: seq<Token>, tape: Tape, drawn: nat, n: int,
                              tokens: seq<Token>, probs: seq<seq<real>>)
    requires d.Valid() && gen.Valid()
  {
    && Drafts.Rollout(d, gen, h, h, tape, drawn, tokens, probs) && 1 <= |tokens| <= n
    && Drafts.NoneBefore(tokens, |tokens| - 1, d.eos)
    && (|tokens| == n || tokens[|tokens| - 1] == d.eos)
  }

  /** The draft that the plan calls for here. */
  ghost predicate IsDraft(env: Env, s: Spot, tokens: seq<Token>, probs: seq<seq<real>>)
    requires env.Valid() && s.h != []
  {
    && WouldDraft(env, s)
    && if env.cfg.modelMode
       then FullRollout(env.d.value, env.job.cfg, s.h, env.job.tape, s.drawn, Asked(env, s), tokens, probs)
       else tokens == Retrieved(env.cfg, s.h, Asked(env, s)) && probs == OneHots(env.m.vocab, tokens)
  }

  /** The draft that the plan calls for here holds a token that the target does
      not have. */
  ghost predicate Strays(env: Env, s: Spot)
    requires env.Valid() && s.h != []
  {
    exists tokens, probs :: IsDraft(env, s, tokens, probs) && !env.m.InVocab(tokens)
  }

  /** The moves a run may make. Only a failing draft model leaves a choice: tape
      positions are those that follow the last ones read, except that a rollout
      that failed half-way may have read more. */
  ghost predicate Legal(env: Env, s: Spot, mv: Move)
    requires env.Valid() && s.h != []
  {
    match mv
    case Picked(drawn, gaveUp) =>
      && drawn >= s.drawn && (gaveUp || drawn == s.drawn)
      && (if gaveUp then env.cfg.modelMode && WouldDraft(env, s) else !WouldDraft(env, s))
    case Block(tokens, probs) => IsDraft(env, s, tokens, probs) && Checkable(env.m, tokens, probs)
  }

  /** The verdict on a block: the token-by-token test against the target. */
  ghost function Verdict(env: Env, s: Spot, mv: Move): Verification
    requires env.Valid() && s.h != [] && mv.Block? && Checkable(env.m, mv.tokens, mv.probs)
  {
    Verify(env.m, env.job.cfg, s.h, mv.tokens, mv.probs, env.accepts, s.checked, 0)
  }

  /** What a move says. */
  ghost function Said(env: Env, s: Spot, mv: Move): seq<Token>
    requires env.Valid() && s.h != [] && Legal(env, s, mv)
  {
    match mv
    case Picked(drawn, _) => [Pick(env.job.cfg, env.m.logits(s.h), s.h, env.job.tape(drawn))]
    case Block(_, _) => Verdict(env, s, mv).Fresh()
  }

  ghost function Next(env: Env, s: Spot, mv: Move): Spot
    requires env.Valid() && s.h != [] && Legal(env, s, mv)
  {
    var h := s.h + Said(env, s, mv);
    match mv
    case Picked(drawn, _) =>
      Spot(h, s.plan.(armed := s.plan.armed && !env.cfg.modelMode),
           if env.job.cfg.Greedy() then drawn else drawn + 1, s.checked)
    case Block(tokens, _) =>
      var v := Verdict(env, s, mv);
      Spot(h, Review(env.cfg, s.plan, |tokens|, |v.accepted|),
           if env.cfg.modelMode then s.drawn + |tokens| else s.drawn, v.used)
  }

  /** Where a sequence of moves leads, if all of them are legal. */
  ghost function Follow(env: Env, s: Spot, moves: seq<Move>): (r: Option<Spot>)
    requires env.Valid() && s.h != []
    ensures r.Some? ==> s.h <= r.value.h
    decreases |moves|
  {
    if moves == [] then Some(s)
    else
      var f := Follow(env, s, moves[..|moves| - 1]);
      var mv := moves[|moves| - 1];
      if f.None? || !Legal(env, f.value, mv) then None else Some(Next(env, f.value, mv))
  }

  lemma OneMoreMove(env: Env, s: Spot, moves: seq<Move>, mv: Move)
    requires env.Valid() && s.h != [] && Follow(env, s, moves).Some? && Legal(env, Follow(env, s, moves).value, mv)
    ensures Follow(env, s, moves + [mv]) == Some(Next(env, Follow(env, s, moves).value, mv))
  {
    hide Legal, Next;
    assert (moves + [mv])[..|moves|] == moves;
  }

  /** No move was made because the draft model had failed. */
  ghost predicate Unbroken(moves: seq<Move>) {
    forall i :: 0 <= i < |moves| ==> !moves[i].GaveUp()
  }

  lemma UnbrokenStill(moves: seq<Move>, mv: Move)
    ensures Unbroken(moves + [mv]) <==> Unbroken(moves) && !mv.GaveUp()
  {
    assert (moves + [mv])[|moves|] == mv && moves == (moves + [mv])[..|moves|];
  }

  // ---- Where the text is cut ----------------------------------------------

  /** What a caller receives of a text that continues h, `done` having been
      delivered: up to the first limit, end-of-generation token or refusal. */
  function Cut(m: Model, job: Job, h: seq<Token>, done: seq<Token>, text: seq<Token>, max: nat): Run
    decreases |text|
  {
    if text == [] || |done| >= max || |h| >= m.nCtx || m.eog(text[0]) then Run([], false)
    else
      match job.callback(done + [text[0]])
      case Throw => Run([text[0]], true)
      case Stop => Run([text[0]], false)
      case Continue => Prepend(text[0], Cut(m, job, h + [text[0]], done + [text[0]], text[1..], max))
  }

  /** The generation ends within the text. */
  predicate Closed(m: Model, job: Job, h: seq<Token>, done: seq<Token>, text: seq<Token>, max: nat)
    decreases |text|
  {
    || |done| >= max || |h| >= m.nCtx
    || (text != [] &&
        (|| m.eog(text[0]) || !job.callback(done + [text[0]]).Continue?
         || Closed(m, job, h + [text[0]], done + [text[0]], text[1..], max)))
  }

  /** What becomes of the first token of a text. */
  lemma CutHead(m: Model, job: Job, h: seq<Token>, done: seq<Token>, text: seq<Token>, max: nat)
    requires text != [] && |done| < max && |h| < m.nCtx
    ensures var t := text[0];
      if m.eog(t) then Closed(m, job, h, done, text, max) && Cut(m, job, h, done, text, max) == Run([], false)
      else if !job.callback(done + [t]).Continue? then
        && Closed(m, job, h, done, text, max)
        && Cut(m, job, h, done, text, max) == Run([t], job.callback(done + [t]).Throw?)
      else
        && Closed(m, job, h, done, text, max) == Closed(m, job, h + [t], done + [t], text[1..], max)
        && Cut(m, job, h, done, text, max) == Prepend(t, Cut(m, job, h + [t], done + [t], text[1..], max))
  {
  }

  lemma NothingCut(m: Model, job: Job, h: seq<Token>, done: seq<Token>, max: nat)
    requires |done| < max && |h| < m.nCtx
    ensures !Closed(m, job, h, done, [], max) && Cut(m, job, h, done, [], max) == Run([], false)
  {
  }

  lemma AtLimit(m: Model, job: Job, h: seq<Token>, done: seq<Token>, text: seq<Token>, max: nat)
    requires |done| >= max || |h| >= m.nCtx
    ensures Closed(m, job, h, done, text, max) && Cut(m, job, h, done, text, max) == Run([], false)
  {
  }

  /** A text that does not end the generation is delivered as it stands, and the
      cut of a longer one is decided by what follows. */
  lemma {:induction false} CutConcat(m: Model, job: Job, h: seq<Token>, done: seq<Token>, a: seq<Token>, b: seq<Token>,
                                     max: nat)
    requires !Closed(m, job, h, done, a, max)
    ensures Cut(m, job, h, done, a + b, max) == Append(a, Cut(m, job, h + a, done + a, b, max))
    ensures Closed(m, job, h, done, a + b, max) == Closed(m, job, h + a, done + a, b, max)
    decreases |a|
  {
    if a == [] {
      NothingBefore(m, job, h, done, b, max);
    } else {
      var t := a[0];
      HeadOpen(m, job, h, done, a, max);
      hide Cut, Closed;
      CutConcat(m, job, h + [t], done + [t], a[1..], b, max);
      HeadFirst(m, job, h, done, a, b, max);
    }
  }

  lemma NothingBefore(m: Model, job: Job, h: seq<Token>, done: seq<Token>, b: seq<Token>, max: nat)
    ensures Cut(m, job, h, done, [] + b, max) == Append([], Cut(m, job, h + [], done + [], b, max))
    ensures Closed(m, job, h, done, [] + b, max) == Closed(m, job, h + [], done + [], b, max)
  {
    hide Cut, Closed;
    var rest := Cut(m, job, h, done, b, max);
    assert [] + b == b && h + [] == h && done + [] == done && [] + rest.delivered == rest.delivered;
  }

  lemma HeadOpen(m: Model, job: Job, h: seq<Token>, done: seq<Token>, a: seq<Token>, max: nat)
    requires a != [] && !Closed(m, job, h, done, a, max)
    ensures |done| < max && |h| < m.nCtx && !m.eog(a[0]) && job.callback(done + [a[0]]).Continue?
    ensures !Closed(m, job, h + [a[0]], done + [a[0]], a[1..], max)
  {
  }

  lemma HeadFirst(m: Model, job: Job, h: seq<Token>, done: seq<Token>, a: seq<Token>, b: seq<Token>, max: nat)
    requires a != [] && |done| < max && |h| < m.nCtx && !m.eog(a[0]) && job.callback(done + [a[0]]).Continue?
    requires Cut(m, job, h + [a[0]], done + [a[0]], a[1..] + b, max)
             == Append(a[1..], Cut(m, job, h + [a[0]] + a[1..], done + [a[0]] + a[1..], b, max))
    ensures Cut(m, job, h, done, a + b, max) == Append(a, Cut(m, job, h + a, done + a, b, max))
    ensures Closed(m, job, h, done, a + b, max) == Closed(m, job, h + [a[0]], done + [a[0]], a[1..] + b, max)
    ensures h + [a[0]] + a[1..] == h + a && done + [a[0]] + a[1..] == done + a
  {
    hide Cut, Closed;
    var t := a[0];
    assert (a + b)[0] == t && (a + b)[1..] == a[1..] + b;
    CutHead(m, job, h, done, a + b, max);
    assert h + [t] + a[1..] == h + a && done + [t] + a[1..] == done + a;
    var rest := Cut(m, job, h + a, done + a, b, max);
    assert [t] + (a[1..] + rest.delivered) == a + rest.delivered;
  }

  /** A text that ends the generation ends it however it goes on. */
  lemma {:induction false} ClosedStays(m: Model, job: Job, h: seq<Token>, done: seq<Token>, a: seq<Token>,
                                       b: seq<Token>, max: nat)
    requires Closed(m, job, h, done, a, max)
    ensures Closed(m, job, h, done, a + b, max) && Cut(m, job, h, done, a + b, max) == Cut(m, job, h, done, a, max)
    decreases |a|
  {
    if a == [] {
      assert |done| >= max || |h| >= m.nCtx;
    } else {
      var t := a[0];
      assert (a + b)[0] == t && (a + b)[1..] == a[1..] + b;
      if Closed(m, job, h + [t], done + [t], a[1..], max) {
        ClosedStays(m, job, h + [t], done + [t], a[1..], b, max);
      }
    }
  }

  lemma {:induction false} CutIsPrefix(m: Model, job: Job, h: seq<Token>, done: seq<Token>, text: seq<Token>, max: nat)
    ensures Cut(m, job, h, done, text, max).delivered <= text
    decreases |text|
  {
    if text == [] {
    } else {
      CutIsPrefix(m, job, h + [text[0]], done + [text[0]], text[1..], max);
    }
  }

  lemma CutOpen(m: Model, job: Job, h: seq<Token>, done: seq<Token>, text: seq<Token>, max: nat)
    requires !Closed(m, job, h, done, text, max)
    ensures Cut(m, job, h, done, text, max) == Run(text, false)
  {
    CutConcat(m, job, h, done, text, [], max);
    assert text + [] == text;
  }

  lemma CutOne(m: Model, job: Job, h: seq<Token>, done: seq<Token>, t: Token, max: nat)
    requires |done| < max && |h| < m.nCtx
    ensures Cut(m, job, h, done, [t], max) ==
      if m.eog(t) then Run([], false) else Run([t], job.callback(done + [t]).Throw?)
    ensures Closed(m, job, h, done, [t], max) <==>
      m.eog(t) || !job.callback(done + [t]).Continue? || |done| + 1 >= max || |h| + 1 >= m.nCtx
  {
    assert [t][1..] == [] && [t] + [] == [t];
  }

  // ---- A run --------------------------------------------------------------

  /** The caller of a generation from `prompt` that stands at `h` has been given
      `delivered`: the cut of the text. */
  ghost predicate Told(m: Model, job: Job, prompt: seq<Token>, h: seq<Token>, delivered: seq<Token>, max: nat,
                       thrown: bool)
  {
    prompt <= h && Cut(m, job, prompt, [], h[|prompt|..], max) == Run(delivered, thrown)
  }

  /** The generation is over within what has been said. */
  ghost predicate Over(m: Model, job: Job, prompt: seq<Token>, h: seq<Token>, max: nat) {
    prompt <= h && Closed(m, job, prompt, [], h[|prompt|..], max)
  }

  /** What a run gives its caller, for every sampler: the text of legal moves, cut
      at its end. Nothing here depends on how the models' state came about. */
  ghost predicate Speaks(env: Env, prompt: seq<Token>, plan: Plan, moves: seq<Move>, end: End, delivered: seq<Token>)
    requires env.Valid() && prompt != []
  {
    var f := Follow(env, Spot(prompt, plan, 0, 0), moves);
    var max := Max(env.job.cfg.maxTokens, 0);
    && f.Some? && Told(env.m, env.job, prompt, f.value.h, delivered, max, end == Threw)
    && (end in {Ended, Threw} ==> Over(env.m, env.job, prompt, f.value.h, max))
    && (end == Undefined ==> Strays(env, f.value) && !Over(env.m, env.job, prompt, f.value.h, max))
  }

  /** All that was said, from the prompt on, delivered or not. */
  ghost function SaidBy(env: Env, prompt: seq<Token>, plan: Plan, moves: seq<Move>): seq<Token>
    requires env.Valid() && prompt != []
  {
    var f := Follow(env, Spot(prompt, plan, 0, 0), moves);
    if f.Some? then f.value.h else prompt
  }

  lemma SpeaksSo(env: Env, prompt: seq<Token>, plan: Plan, moves: seq<Move>, s: Spot, end: End, delivered: seq<Token>)
    requires env.Valid() && prompt != [] && Follow(env, Spot(prompt, plan, 0, 0), moves) == Some(s)
    requires Told(env.m, env.job, prompt, s.h, delivered, Max(env.job.cfg.maxTokens, 0), end == Threw)
    requires end in {Ended, Threw} ==> Over(env.m, env.job, prompt, s.h, Max(env.job.cfg.maxTokens, 0))
    requires end == Undefined ==> Strays(env, s) && !Over(env.m, env.job, prompt, s.h, Max(env.job.cfg.maxTokens, 0))
    ensures Speaks(env, prompt, plan, moves, end, delivered)
  {
  }

  /** One emission: the text said at h0 is delivered up to its cut. */
  ghost predicate Emitted(m: Model, job: Job, h0: seq<Token>, d0: seq<Token>, text: seq<Token>, max: nat, end: End,
                          h: seq<Token>, d: seq<Token>)
  {
    && d0 <= d && |d| <= max && |h0| + |d| - |d0| <= m.nCtx
    && Cut(m, job, h0, d0, text, max) == Run(d[|d0|..], end == Threw)
    && (Closed(m, job, h0, d0, text, max) <==> end in {Ended, Threw} || |d| >= max || |h| >= m.nCtx)
    && end in {Going, Ended, Threw}
    && (end == Going ==> h == h0 + d[|d0|..] && |d| > |d0| && |h| <= m.nCtx)
    && (end == Going && |d| < max && |h| < m.nCtx ==> h == h0 + text)
  }

  /** Emission after emission, the caller is told the cut of the whole text. */
  lemma ToldMore(m: Model, job: Job, prompt: seq<Token>, h0: seq<Token>, d0: seq<Token>, text: seq<Token>, max: nat,
                 end: End, h: seq<Token>, d: seq<Token>)
    requires h0 == prompt + d0 && !Over(m, job, prompt, h0, max) && Emitted(m, job, h0, d0, text, max, end, h, d)
    ensures Told(m, job, prompt, h0 + text, d, max, end == Threw)
    ensures Over(m, job, prompt, h0 + text, max) <==> end in {Ended, Threw} || |d| >= max || |h| >= m.nCtx
    ensures end == Going ==> h == prompt + d
  {
    hide Cut, Closed;
    assert h0[|prompt|..] == d0 && (h0 + text)[|prompt|..] == d0 + text;
    CutConcat(m, job, prompt, [], d0, text, max);
    assert [] + d0 == d0 && d0 + d[|d0|..] == d;
    assert prompt + d0 + d[|d0|..] == prompt + d;
  }

  /** What was delivered is the start of what was said. */
  lemma ToldPrefix(m: Model, job: Job, prompt: seq<Token>, h: seq<Token>, delivered: seq<Token>, max: nat, thrown: bool)
    requires Told(m, job, prompt, h, delivered, max, thrown)
    ensures prompt + delivered <= h
  {
    CutIsPrefix(m, job, prompt, [], h[|prompt|..], max);
    assert prompt + h[|prompt|..] == h;
  }

  // ---- Greedy runs --------------------------------------------------------

  lemma GreedyDraft(env: Env, s: Spot, tokens: seq<Token>, probs: seq<seq<real>>)
    requires env.Valid() && s.h != [] && env.job.cfg.Greedy() && IsDraft(env, s, tokens, probs)
    ensures ProperDraft(probs)
  {
    hide Retrieved;
    if env.cfg.modelMode {
      hide Drafts.Rollout;
      forall i: nat | i < |tokens|
        ensures i < |probs| && forall j :: 0 <= j < |probs[i]| ==> 0.0 <= probs[i][j] <= 1.0
      {
        SameLength(env, s, tokens, probs);
        Drafts.RolloutShape(env.d.value, env.job.cfg, s.h, s.h, env.job.tape, s.drawn, tokens, probs, i);
      }
      SameLength(env, s, tokens, probs);
    }
  }

  lemma SameLength(env: Env, s: Spot, tokens: seq<Token>, probs: seq<seq<real>>)
    requires env.Valid() && s.h != [] && IsDraft(env, s, tokens, probs)
    ensures |tokens| == |probs|
  {
    hide Retrieved, Drafts.Rolled;
  }

  /** Under greedy sampling every move says what sequential decoding would. */
  lemma GreedyMove(env: Env, s: Spot, mv: Move)
    requires env.Valid() && s.h != [] && env.job.cfg.Greedy() && Uniform(env.accepts) && Legal(env, s, mv)
    ensures GreedyPath(env.m, env.job.cfg, s.h, Said(env, s, mv))
  {
    hide Verify, IsDraft;
    match mv
    case Picked(_, _) =>
      assert s.h + [] == s.h && forall t: Token :: [t][..0] == [];
    case Block(tokens, probs) =>
      GreedyDraft(env, s, tokens, probs);
      assert tokens[..0] == [];
      GreedyVerify(env.m, env.job.cfg, s.h, tokens, probs, env.accepts, s.checked, 0);
  }

  lemma {:induction false} GreedyRun(env: Env, s: Spot, moves: seq<Move>)
    requires env.Valid() && s.h != [] && env.job.cfg.Greedy() && Uniform(env.accepts) && Follow(env, s, moves).Some?
    ensures GreedyFrom(env.m, env.job.cfg, |s.h|, Follow(env, s, moves).value.h)
    decreases |moves|
  {
    hide Legal, Said, GreedyNext;
    if moves == [] {
    } else {
      var front, mv := moves[..|moves| - 1], moves[|moves| - 1];
      GreedyRun(env, s, front);
      var at := Follow(env, s, front).value;
      GreedyMove(env, at, mv);
      GreedyChain(env.m, env.job.cfg, |s.h|, at.h, Said(env, at, mv));
    }
  }

  /** The cut of the greedy continuation is the sequential run. */
  lemma {:induction false} CutIsSequential(m: Model, job: Job, h: seq<Token>, done: seq<Token>, text: seq<Token>,
                                           max: nat)
    requires m.Valid() && job.cfg.Valid() && job.cfg.Greedy() && GreedyPath(m, job.cfg, h, text)
    ensures var run := Sequential(m, job, h, done, Max(max - |done|, 0));
      && Cut(m, job, h, done, text, max).delivered <= run.delivered
      && (Closed(m, job, h, done, text, max) ==> Cut(m, job, h, done, text, max) == run)
    decreases |text|
  {
    hide Cut, Closed, Sequential, GreedyNext, Job.Next, GreedyPath;
    if |done| >= max || |h| >= m.nCtx {
      AtLimit(m, job, h, done, text, max);
      SequentialLimit(m, job, h, done, Max(max - |done|, 0));
    } else if text == [] {
      NothingCut(m, job, h, done, max);
    } else {
      var t := text[0];
      FirstIsNext(m, job, h, done, text);
      CutHead(m, job, h, done, text, max);
      SequentialHead(m, job, h, done, max - |done|);
      if !m.eog(t) && job.callback(done + [t]).Continue? {
        PathTail(m, job.cfg, h, text);
        CutIsSequential(m, job, h + [t], done + [t], text[1..], max);
      }
    }
  }

  lemma FirstIsNext(m: Model, job: Job, h: seq<Token>, done: seq<Token>, text: seq<Token>)
    requires m.Valid() && job.cfg.Valid() && job.cfg.Greedy() && GreedyPath(m, job.cfg, h, text) && text != []
    ensures text[0] == job.Next(m, h, done)
  {
    hide Penalised, ArgMax;
    assert text[..0] == [] && h + [] == h;
  }

  lemma PathTail(m: Model, cfg: GenConfig, h: seq<Token>, text: seq<Token>)
    requires m.Valid() && cfg.Valid() && GreedyPath(m, cfg, h, text) && text != []
    ensures GreedyPath(m, cfg, h + [text[0]], text[1..])
  {
    hide GreedyNext;
    var tail := text[1..];
    forall i | 0 <= i < |tail|
      ensures tail[i] == GreedyNext(m, cfg, h + [text[0]] + tail[..i])
    {
      assert h + [text[0]] + tail[..i] == h + text[..i + 1];
    }
  }

  ghost predicate Settled(full: Run, delivered: seq<Token>, end: End) {
    && (end == Ended ==> full == Run(delivered, false))
    && (end == Threw ==> full == Run(delivered, true))
    && (end in {Broken, Undefined} ==> delivered <= full.delivered)
  }

  /** Speculation does not change what a greedy caller is given: it is the
      sequential run, or a prefix of it if the run is broken off. */
  lemma GreedySpeech(env: Env, prompt: seq<Token>, plan: Plan, moves: seq<Move>, end: End, delivered: seq<Token>)
    requires env.Valid() && prompt != [] && env.job.cfg.Greedy() && Uniform(env.accepts)
    requires Speaks(env, prompt, plan, moves, end, delivered)
    ensures Settled(Sequential(env.m, env.job, prompt, [], Max(env.job.cfg.maxTokens, 0)), delivered, end)
  {
    hide Cut, Closed, Sequential, GreedyNext, GreedyFrom, GreedyPath, Strays, Follow, Uniform;
    hide Model.Valid, GenConfig.Valid;
    var s := Spot(prompt, plan, 0, 0);
    GreedyRun(env, s, moves);
    var h := Follow(env, s, moves).value.h;
    FromIsPath(env.m, env.job.cfg, prompt, h);
    CutIsSequential(env.m, env.job, prompt, [], h[|prompt|..], Max(env.job.cfg.maxTokens, 0));
  }

  lemma FromIsPath(m: Model, cfg: GenConfig, prompt: seq<Token>, h: seq<Token>)
    requires m.Valid() && cfg.Valid() && prompt <= h && GreedyFrom(m, cfg, |prompt|, h)
    ensures GreedyPath(m, cfg, prompt, h[|prompt|..])
  {
    hide GreedyNext;
    var text := h[|prompt|..];
    forall i | 0 <= i < |text|
      ensures text[i] == GreedyNext(m, cfg, prompt + text[..i])
    {
      assert prompt + text[..i] == h[..|prompt| + i];
    }
  }
}
