/** The naive server: decode from scratch, one token at a time. Everything
    clever elsewhere is measured against these two definitions. */
module Reference {
  import opened Backend
  import opened Sampling

  datatype Verdict = Continue | Stop | Throw

  /** The caller's decision, given every token delivered to it so far. */
  type Callback = seq<Token> -> Verdict

  /** What the caller saw, and whether the callback threw. */
  datatype Run = Run(delivered: seq<Token>, thrown: bool)

  ghost function Append(prefix: seq<Token>, r: Run): Run { Run(prefix + r.delivered, r.thrown) }

  function Prepend(t: Token, r: Run): Run { Run([t] + r.delivered, r.thrown) }

  /** A request's fixed ingredients. */
  datatype Job = Job(cfg: GenConfig, tape: Tape, callback: Callback) {
    /** The token sampled after context `h`, when `done` were delivered. */
    function Next(m: Model, h: seq<Token>, done: seq<Token>): (t: Token)
      requires m.Valid() && cfg.Valid()
      ensures 0 <= t < m.vocab
    {
      Pick(cfg, m.logits(h), h, tape(|done|))
    }
  }

  /** Sequential decoding that tests its limits before every token. */
  function Sequential(m: Model, job: Job, h: seq<Token>, done: seq<Token>, budget: nat): Run
    requires m.Valid() && job.cfg.Valid()
    decreases budget
  {
    if budget == 0 || |h| >= m.nCtx then Run([], false)
    else
      var t := job.Next(m, h, done);
      if m.eog(t) then Run([], false)
      else
        match job.callback(done + [t])
        case Throw => Run([t], true)
        case Stop => Run([t], false)
        case Continue => Prepend(t, Sequential(m, job, h + [t], done + [t], budget - 1))
  }

  lemma SequentialLimit(m: Model, job: Job, h: seq<Token>, done: seq<Token>, budget: nat)
    requires m.Valid() && job.cfg.Valid() && (budget == 0 || |h| >= m.nCtx)
    ensures Sequential(m, job, h, done, budget) == Run([], false)
  {
  }

  lemma SequentialHead(m: Model, job: Job, h: seq<Token>, done: seq<Token>, budget: nat)
    requires m.Valid() && job.cfg.Valid() && budget > 0 && |h| < m.nCtx
    ensures var t := job.Next(m, h, done);
      Sequential(m, job, h, done, budget) ==
        if m.eog(t) then Run([], false)
        else if !job.callback(done + [t]).Continue? then Run([t], job.callback(done + [t]).Throw?)
        else Prepend(t, Sequential(m, job, h + [t], done + [t], budget - 1))
  {
    hide Job.Next;
  }

  /** Sequential decoding that tests its limits after every token: a request
      that starts at a limit still gets its first token. */
  function Solo(m: Model, job: Job, h: seq<Token>, done: seq<Token>, budget: int): Run
    requires m.Valid() && job.cfg.Valid()
    decreases m.nCtx - |h|
  {
    var t := job.Next(m, h, done);
    if m.eog(t) then Run([], false)
    else
      match job.callback(done + [t])
      case Throw => Run([t], true)
      case Stop => Run([t], false)
      case Continue =>
        if budget <= 1 || |h| + 1 >= m.nCtx then Run([t], false)
        else Prepend(t, Solo(m, job, h + [t], done + [t], budget - 1))
  }

  lemma SoloHead(m: Model, job: Job, h: seq<Token>, done: seq<Token>, budget: int)
    requires m.Valid() && job.cfg.Valid()
    ensures var t := job.Next(m, h, done);
      Solo(m, job, h, done, budget) ==
        if m.eog(t) then Run([], false)
        else if !job.callback(done + [t]).Continue? then Run([t], job.callback(done + [t]).Throw?)
        else if budget <= 1 || |h| + 1 >= m.nCtx then Run([t], false)
        else Prepend(t, Solo(m, job, h + [t], done + [t], budget - 1))
  {
    hide Job.Next;
  }

  lemma {:induction false} SoloWithinLimits(m: Model, job: Job, h: seq<Token>, done: seq<Token>, budget: nat)
    requires m.Valid() && job.cfg.Valid()
    requires budget >= 1 && |h| < m.nCtx
    ensures Solo(m, job, h, done, budget) == Sequential(m, job, h, done, budget)
    decreases budget
  {
    var t := job.Next(m, h, done);
    if budget > 1 && |h| + 1 < m.nCtx {
      SoloWithinLimits(m, job, h + [t], done + [t], budget - 1);
    }
  }

  /** The two disciplines agree exactly when neither limit is hit at the start,
      or the very first token ends the generation anyway. */
  lemma SoloAgreesExactlyWhen(m: Model, job: Job, h: seq<Token>, done: seq<Token>, budget: int)
    requires m.Valid() && job.cfg.Valid()
    ensures Solo(m, job, h, done, budget) == Sequential(m, job, h, done, Max(budget, 0))
            <==> (budget >= 1 && |h| < m.nCtx) || m.eog(job.Next(m, h, done))
  {
    if budget >= 1 && |h| < m.nCtx {
      SoloWithinLimits(m, job, h, done, budget);
    } else {
      var t := job.Next(m, h, done);
      if !m.eog(t) {
        assert |Solo(m, job, h, done, budget).delivered| >= 1;
      }
    }
  }

  /** A run delivers no more tokens than the budget and the context allow. */
  lemma {:induction false} SequentialLength(m: Model, job: Job, h: seq<Token>, done: seq<Token>, budget: nat)
    requires m.Valid() && job.cfg.Valid()
    ensures |Sequential(m, job, h, done, budget).delivered| <= Max(0, Min(budget, m.nCtx - |h|))
    decreases budget
  {
    hide Pick;
    if budget > 0 && |h| < m.nCtx {
      var t := job.Next(m, h, done);
      if !m.eog(t) && job.callback(done + [t]).Continue? {
        SequentialLength(m, job, h + [t], done + [t], budget - 1);
      }
    }
  }
}
