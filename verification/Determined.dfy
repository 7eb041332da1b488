/** Without a failing model the speculative decoder is a function of its inputs:
    the prompt, the request, the two tapes and the plan leave no choice. */
module Determined {
  import opened Backend
  import opened Sampling
  import opened Verifier
  import opened Reference
  import opened Speculation
  import Drafts

  // ---- Drafts -------------------------------------------------------------

  /** Two rollouts from the same place agree as far as both go. */
  lemma {:induction false} SameRolled(d: Model, gen: GenConfig, h: seq<Token>, tape: Tape, at: nat, t: seq<Token>,
                                      p: seq<seq<real>>, u: seq<Token>, q: seq<seq<real>>, k: nat)
    requires d.Valid() && gen.Valid() && k <= |t| && k <= |u|
    requires Drafts.Rollout(d, gen, h, h, tape, at, t, p) && Drafts.Rollout(d, gen, h, h, tape, at, u, q)
    ensures t[..k] == u[..k] && p[..k] == q[..k]
    decreases k
  {
    hide Drafts.Rolled;
    if k == 0 {
    } else {
      SameRolled(d, gen, h, tape, at, t, p, u, q, k - 1);
      assert Drafts.Rolled(d, gen, h, h, tape, at, u[..k - 1], u[k - 1], q[k - 1]);
      RolledOnce(d, gen, h, tape, at, t[..k - 1], t[k - 1], p[k - 1], u[k - 1], q[k - 1]);
      assert t[..k] == t[..k - 1] + [t[k - 1]] && u[..k] == u[..k - 1] + [u[k - 1]];
      assert p[..k] == p[..k - 1] + [p[k - 1]] && q[..k] == q[..k - 1] + [q[k - 1]];
    }
  }

  lemma RolledOnce(d: Model, gen: GenConfig, h: seq<Token>, tape: Tape, at: nat, before: seq<Token>, t: Token,
                   p: seq<real>, u: Token, q: seq<real>)
    requires d.Valid() && gen.Valid() && Drafts.Rolled(d, gen, h, h, tape, at, before, t, p)
    requires Drafts.Rolled(d, gen, h, h, tape, at, before, u, q)
    ensures t == u && p == q
  {
    hide Dist, DrawIndex;
  }

  lemma NoLonger(d: Model, gen: GenConfig, h: seq<Token>, tape: Tape, at: nat, n: int, t: seq<Token>,
                 p: seq<seq<real>>, u: seq<Token>, q: seq<seq<real>>)
    requires d.Valid() && gen.Valid()
    requires FullRollout(d, gen, h, tape, at, n, t, p) && FullRollout(d, gen, h, tape, at, n, u, q)
    ensures |t| >= |u|
  {
    hide Drafts.Rollout;
    if |t| < |u| {
      SameRolled(d, gen, h, tape, at, t, p, u, q, |t|);
    }
  }

  /** The draft that the plan calls for is a single one. */
  lemma SameDraft(env: Env, s: Spot, t: seq<Token>, p: seq<seq<real>>, u: seq<Token>, q: seq<seq<real>>)
    requires env.Valid() && s.h != [] && IsDraft(env, s, t, p) && IsDraft(env, s, u, q)
    ensures t == u && p == q
  {
    if env.cfg.modelMode {
      var d, gen, n := env.d.value, env.job.cfg, Asked(env, s);
      NoLonger(d, gen, s.h, env.job.tape, s.drawn, n, t, p, u, q);
      NoLonger(d, gen, s.h, env.job.tape, s.drawn, n, u, q, t, p);
      SameRolled(d, gen, s.h, env.job.tape, s.drawn, t, p, u, q, |t|);
      assert t[..|t|] == t && u[..|t|] == u && p[..|t|] == p && q[..|t|] == q;
    }
  }

  // ---- Moves --------------------------------------------------------------

  lemma SameMove(env: Env, s: Spot, a: Move, b: Move)
    requires env.Valid() && s.h != [] && Legal(env, s, a) && Legal(env, s, b) && !a.GaveUp() && !b.GaveUp()
    ensures a == b
  {
    hide WouldDraft;
    if a.Block? && b.Block? { SameDraft(env, s, a.tokens, a.probs, b.tokens, b.probs); }
  }

  /** Where the plan calls for a draft that cannot be verified, nothing follows. */
  lemma NoMoveAstray(env: Env, s: Spot, mv: Move)
    requires env.Valid() && s.h != [] && Strays(env, s) && Legal(env, s, mv)
    ensures mv.GaveUp()
  {
    hide WouldDraft;
    var tokens, probs :| IsDraft(env, s, tokens, probs) && !env.m.InVocab(tokens);
    if mv.Block? { SameDraft(env, s, tokens, probs, mv.tokens, mv.probs); }
  }

  lemma {:induction false} FollowPrefix(env: Env, s: Spot, moves: seq<Move>, k: nat)
    requires env.Valid() && s.h != [] && k <= |moves| && Follow(env, s, moves).Some?
    ensures Follow(env, s, moves[..k]).Some?
    ensures Follow(env, s, moves[..k]).value.h <= Follow(env, s, moves).value.h
    decreases |moves|
  {
    hide Legal, Said;
    if k == |moves| {
      assert moves[..k] == moves;
    } else {
      var front := moves[..|moves| - 1];
      FollowPrefix(env, s, front, k);
      assert front[..k] == moves[..k];
    }
  }

  /** The k-th move is legal where those before it lead. */
  lemma MoveAt(env: Env, s: Spot, moves: seq<Move>, k: nat)
    requires env.Valid() && s.h != [] && k < |moves| && Follow(env, s, moves).Some?
    ensures Follow(env, s, moves[..k]).Some? && Legal(env, Follow(env, s, moves[..k]).value, moves[k])
  {
    hide Legal, Next;
    FollowPrefix(env, s, moves, k + 1);
    assert moves[..k + 1][..k] == moves[..k];
  }

  /** Two unbroken runs from the same spot agree as far as both go. */
  lemma {:induction false} SameMoves(env: Env, s: Spot, a: seq<Move>, b: seq<Move>, k: nat)
    requires env.Valid() && s.h != [] && Follow(env, s, a).Some? && Follow(env, s, b).Some?
    requires Unbroken(a) && Unbroken(b) && k <= |a| && k <= |b|
    ensures a[..k] == b[..k]
    decreases k
  {
    hide Follow, Legal;
    if k == 0 {
    } else {
      SameMoves(env, s, a, b, k - 1);
      MoveAt(env, s, a, k - 1);
      MoveAt(env, s, b, k - 1);
      SameMove(env, Follow(env, s, a[..k - 1]).value, a[k - 1], b[k - 1]);
      assert a[..k] == a[..k - 1] + [a[k - 1]] && b[..k] == b[..k - 1] + [b[k - 1]];
    }
  }

  // ---- What is delivered --------------------------------------------------

  /** All of what a caller can be given. */
  predicate Complete(end: End) { end in {Ended, Threw, Undefined} }

  /** If one of two unbroken runs goes no further than the other, they end alike
      and deliver the same. */
  lemma SameSpeechShorter(env: Env, prompt: seq<Token>, plan: Plan, a: seq<Move>, end: End, d: seq<Token>,
                          b: seq<Move>, end': End, d': seq<Token>)
    requires env.Valid() && prompt != [] && Complete(end) && Complete(end')
    requires Speaks(env, prompt, plan, a, end, d) && Speaks(env, prompt, plan, b, end', d')
    requires Unbroken(a) && Unbroken(b) && |a| <= |b|
    ensures end == end' && d == d'
  {
    hide Cut, Closed, Follow, Legal;
    var s, k := Spot(prompt, plan, 0, 0), |a|;
    SameMoves(env, s, a, b, k);
    assert a[..k] == a;
    FollowPrefix(env, s, b, k);
    var h, h', max := Follow(env, s, a).value.h, Follow(env, s, b).value.h, Max(env.job.cfg.maxTokens, 0);
    if end == Undefined {
      if k < |b| {
        MoveAt(env, s, b, k);
        NoMoveAstray(env, Follow(env, s, a).value, b[k]);
        assert false;
      }
      assert b[..k] == b;
    } else {
      assert h'[|prompt|..] == h[|prompt|..] + h'[|h|..];
      ClosedStays(env.m, env.job, prompt, [], h[|prompt|..], h'[|h|..], max);
    }
  }

  /** Two generations from the same inputs, neither disturbed by a failing model,
      end alike and deliver the same, whatever the models held before. */
  lemma SpeechIsDetermined(env: Env, prompt: seq<Token>, plan: Plan, a: seq<Move>, end: End, d: seq<Token>,
                           b: seq<Move>, end': End, d': seq<Token>)
    requires env.Valid() && prompt != [] && Complete(end) && Complete(end')
    requires Speaks(env, prompt, plan, a, end, d) && Speaks(env, prompt, plan, b, end', d')
    requires Unbroken(a) && Unbroken(b)
    ensures end == end' && d == d'
  {
    hide Speaks, Unbroken;
    if |a| <= |b| {
      SameSpeechShorter(env, prompt, plan, a, end, d, b, end', d');
    } else {
      SameSpeechShorter(env, prompt, plan, b, end', d', a, end, d);
    }
  }
}
