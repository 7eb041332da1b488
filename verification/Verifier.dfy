/** Verifying a draft with one batched forward pass of the target model. */
module Verifier {
  import opened Backend
  import opened Sampling
  import opened Acceptance

  /** The accepted prefix, the corrected token after a rejection, and how far
      the acceptance tape was read. */
  datatype Verification = Verification(accepted: seq<Token>, corrected: Option<Token>, used: nat) {
    function Fresh(): seq<Token> {
      accepted + if corrected.Some? then [corrected.value] else []
    }
  }

  /** A draft the verifier can index: one probability vector per token. */
  ghost predicate Checkable(m: Model, tokens: seq<Token>, probs: seq<seq<real>>) {
    && |tokens| == |probs|
    && m.InVocab(tokens)
    && forall i :: 0 <= i < |tokens| ==> tokens[i] < |probs[i]|
  }

  /** The test of position i and those after it, token by token against the
      target's own distribution, as if the target were decoded afresh each time. */
  function Verify(m: Model, cfg: GenConfig, h: seq<Token>, tokens: seq<Token>, probs: seq<seq<real>>,
                  tape: Tape, used: nat, i: nat): (v: Verification)
    requires m.Valid() && cfg.Valid() && Checkable(m, tokens, probs) && i <= |tokens|
    ensures i <= |v.accepted| && v.accepted <= tokens
    ensures v.corrected.Some? <==> |v.accepted| < |tokens|
    ensures v.corrected.Some? ==> 0 <= v.corrected.value < m.vocab
    ensures v.used == used + |v.accepted| - i + if v.corrected.Some? then 2 else 0
    decreases |tokens| - i
  {
    if i == |tokens| then Verification(tokens, None, used)
    else
      var context := h + tokens[..i];
      var p := Dist(cfg, m.logits(context), context);
      if Accept(p[tokens[i]], probs[i][tokens[i]], tape(used))
      then Verify(m, cfg, h, tokens, probs, tape, used + 1, i + 1)
      else Verification(tokens[..i], Some(DrawIndex(Residual(p, probs[i]), tape(used + 1))), used + 2)
  }

  lemma VerifyStep(m: Model, cfg: GenConfig, h: seq<Token>, tokens: seq<Token>, probs: seq<seq<real>>,
                   tape: Tape, used: nat, i: nat)
    requires m.Valid() && cfg.Valid() && Checkable(m, tokens, probs) && i <= |tokens|
    ensures Verify(m, cfg, h, tokens, probs, tape, used, i) ==
      if i == |tokens| then Verification(tokens, None, used)
      else
        var p := Dist(cfg, m.logits(h + tokens[..i]), h + tokens[..i]);
        if Accept(p[tokens[i]], probs[i][tokens[i]], tape(used))
        then Verify(m, cfg, h, tokens, probs, tape, used + 1, i + 1)
        else Verification(tokens[..i], Some(DrawIndex(Residual(p, probs[i]), tape(used + 1))), used + 2)
  {
    hide Accept, Residual, DrawIndex, Dist;
  }

  /** The acceptance loop, given the logits of every drafted position. */
  method Scan(ghost m: Model, cfg: GenConfig, rng: Rng, all: seq<seq<real>>, tokens: seq<Token>,
              probs: seq<seq<real>>, recent: seq<Token>) returns (v: Verification)
    requires m.Valid() && cfg.Valid() && Checkable(m, tokens, probs)
    requires |all| == |tokens| && forall j :: 0 <= j < |tokens| ==> all[j] == m.logits(recent + tokens[..j])
    modifies rng
    ensures v == Verify(m, cfg, recent, tokens, probs, rng.tape, old(rng.used), 0) && rng.used == v.used
  {
    hide Accept, Residual, DrawIndex, Dist, Verify;
    var accepted: seq<Token> := [];
    var history := recent;
    var i := 0;
    while i < |tokens|
      invariant 0 <= i <= |tokens|
      invariant accepted == tokens[..i] && history == recent + tokens[..i]
      invariant Verify(m, cfg, recent, tokens, probs, rng.tape, old(rng.used), 0)
             == Verify(m, cfg, recent, tokens, probs, rng.tape, rng.used, i)
    {
      VerifyStep(m, cfg, recent, tokens, probs, rng.tape, rng.used, i);
      var d := tokens[i];
      var p := Distribution(cfg, all[i], history);
      var r := rng.Next();
      if !Accept(p[d], probs[i][d], r) {
        var residual := ResidualDistribution(p, probs[i]);
        var r' := rng.Next();
        var x := Draw(residual, r');
        v := Verification(accepted, Some(x), rng.used);
        return;
      }
      accepted, history, i := accepted + [d], history + [d], i + 1;
    }
    VerifyStep(m, cfg, recent, tokens, probs, rng.tape, rng.used, i);
    v := Verification(accepted, None, rng.used);
  }

  /** One batched pass over the newest token and all but the last drafted one. */
  method VerifyBatch(target: LlamaBackend, cfg: GenConfig, rng: Rng, last: Token, tokens: seq<Token>,
                     probs: seq<seq<real>>, recent: seq<Token>) returns (ok: bool, v: Verification)
    requires target.model.Valid() && cfg.Valid() && Checkable(target.model, tokens, probs)
    requires tokens != []
    requires target.kv + [last] == recent
    modifies target, rng
    ensures ok ==> target.kv == (recent + tokens)[..|recent| + |tokens| - 1]
    ensures ok ==> target.nPast == old(target.nPast) + |tokens|
    ensures ok ==> v == Verify(target.model, cfg, recent, tokens, probs, rng.tape, old(rng.used), 0)
    ensures ok ==> rng.used == v.used
    ensures target.peak == Max(old(target.peak), |recent| + |tokens| - 1)
    ensures target.faults == old(target.faults) + if ok then 0 else 1
  {
    v := Verification([], None, 0);
    ghost var before := target.kv;
    var batch := [last] + tokens[..|tokens| - 1];
    assert before + batch == (recent + tokens)[..|recent| + |tokens| - 1];
    var all;
    ok, all := target.DecodeBatch(batch);
    if ok {
      forall j | 0 <= j < |tokens|
        ensures all[j] == target.model.logits(recent + tokens[..j])
      {
        assert before + batch[..j + 1] == recent + tokens[..j];
      }
      v := Scan(target.model, cfg, rng, all, tokens, probs, recent);
    }
  }

  // ---- Greedy verification ------------------------------------------------

  function GreedyNext(m: Model, cfg: GenConfig, h: seq<Token>): (t: Token)
    requires m.Valid() && cfg.Valid()
    ensures 0 <= t < m.vocab
  {
    ArgMax(Penalised(cfg, m.logits(h), h))
  }

  /** Each token is the greedy choice after everything before it. */
  ghost predicate GreedyPath(m: Model, cfg: GenConfig, h: seq<Token>, tokens: seq<Token>)
    requires m.Valid() && cfg.Valid()
  {
    forall i :: 0 <= i < |tokens| ==> tokens[i] == GreedyNext(m, cfg, h + tokens[..i])
  }

  /** From position n on, each token is the greedy choice after those before it. */
  ghost predicate GreedyFrom(m: Model, cfg: GenConfig, n: nat, h: seq<Token>)
    requires m.Valid() && cfg.Valid()
  {
    forall i :: n <= i < |h| ==> h[i] == GreedyNext(m, cfg, h[..i])
  }

  lemma GreedyPrefix(m: Model, cfg: GenConfig, n: nat, h: seq<Token>, g: seq<Token>)
    requires m.Valid() && cfg.Valid() && GreedyFrom(m, cfg, n, h) && g <= h
    ensures GreedyFrom(m, cfg, n, g)
  {
    hide GreedyNext;
    forall i | n <= i < |g| ensures g[i] == GreedyNext(m, cfg, g[..i]) { assert g[..i] == h[..i]; }
  }

  /** A greedy path goes on where a greedy history stops. */
  lemma GreedyChain(m: Model, cfg: GenConfig, n: nat, h: seq<Token>, tokens: seq<Token>)
    requires m.Valid() && cfg.Valid() && GreedyFrom(m, cfg, n, h) && GreedyPath(m, cfg, h, tokens)
    ensures GreedyFrom(m, cfg, n, h + tokens)
  {
    hide GreedyNext;
    var all := h + tokens;
    forall i | n <= i < |all|
      ensures all[i] == GreedyNext(m, cfg, all[..i])
    {
      if i < |h| {
        assert all[..i] == h[..i];
      } else {
        assert all[..i] == h + tokens[..i - |h|];
      }
    }
  }

  /** The greedy continuation of a text is unique. */
  lemma {:induction false} GreedyUnique(m: Model, cfg: GenConfig, n: nat, a: seq<Token>, b: seq<Token>)
    requires m.Valid() && cfg.Valid() && GreedyFrom(m, cfg, n, a) && GreedyFrom(m, cfg, n, b)
    requires |a| == |b| && a[..Min(n, |a|)] == b[..Min(n, |a|)]
    ensures a == b
    decreases |a|
  {
    hide GreedyNext;
    if |a| > n {
      var k := |a| - 1;
      GreedyPrefix(m, cfg, n, a, a[..k]);
      GreedyPrefix(m, cfg, n, b, b[..k]);
      assert a[..k][..n] == a[..n] && b[..k][..n] == b[..n];
      GreedyUnique(m, cfg, n, a[..k], b[..k]);
      assert a == a[..k] + [a[k]] && b == b[..k] + [b[k]];
    } else {
      assert a[..|a|] == a && b[..|a|] == b;
    }
  }

  lemma {:induction false} DrawOnlyPositive(p: seq<real>, r: real, k: nat, i: nat, last: nat)
    requires i <= |p| && k < |p| && p[k] > 0.0
    requires forall j :: 0 <= j < |p| && j != k ==> p[j] <= 0.0
    requires i <= k || last == k
    ensures DrawFrom(p, r, i, last) == k
    decreases |p| - i
  {
    if i < |p| && (p[i] <= 0.0 || r - p[i] > 0.0) {
      DrawOnlyPositive(p, if p[i] <= 0.0 then r else r - p[i], k, i + 1, if p[i] <= 0.0 then last else i);
    }
  }

  lemma {:induction false} SumOnlyAt(s: seq<real>, k: nat)
    requires k < |s| && forall j :: 0 <= j < |s| && j != k ==> s[j] == 0.0
    ensures Sum(s) == s[k]
    decreases |s|
  {
    if k < |s| - 1 {
      SumOnlyAt(s[..|s| - 1], k);
    } else {
      SumZeros(s[..|s| - 1]);
    }
  }

  /** Whatever the draft's probabilities, correcting a greedy target gives the
      greedy token. */
  lemma GreedyCorrection(n: nat, best: nat, q: seq<real>, r: real)
    requires best < n && forall j :: 0 <= j < |q| ==> q[j] >= 0.0
    ensures DrawIndex(Residual(OneHot(n, best), q), r) == best
  {
    var p := OneHot(n, best);
    var raw := RawResidual(p, q);
    SumOnlyAt(raw, best);
    DrawOnlyPositive(Residual(p, q), r, best, 0, 0);
  }

  ghost predicate ProperDraft(probs: seq<seq<real>>) {
    forall i, j {:trigger probs[i][j]} :: 0 <= i < |probs| && 0 <= j < |probs[i]| ==> 0.0 <= probs[i][j] <= 1.0
  }

  lemma GreedyAccept(best: nat, d: Token, n: nat, q: real, r: real)
    requires best < n && 0 <= d < n && 0.0 <= q <= 1.0 && 0.0 <= r < 1.0
    ensures Accept(OneHot(n, best)[d], q, r) <==> d == best
  {
    assert r * q <= r;
    assert 0.0 <= r * q;
  }

  /** One greedy test: a token passes exactly when it is the greedy choice, and
      a token that fails is replaced by it. */
  lemma GreedyTest(m: Model, cfg: GenConfig, h: seq<Token>, d: Token, q: seq<real>, r: real, r': real)
    requires m.Valid() && cfg.Valid() && cfg.Greedy()
    requires 0 <= d < m.vocab && d < |q| && (forall j :: 0 <= j < |q| ==> 0.0 <= q[j] <= 1.0) && 0.0 <= r < 1.0
    ensures |Dist(cfg, m.logits(h), h)| == m.vocab
    ensures Accept(Dist(cfg, m.logits(h), h)[d], q[d], r) <==> d == GreedyNext(m, cfg, h)
    ensures DrawIndex(Residual(Dist(cfg, m.logits(h), h), q), r') == GreedyNext(m, cfg, h)
  {
    var best := GreedyNext(m, cfg, h);
    assert Dist(cfg, m.logits(h), h) == OneHot(m.vocab, best);
    GreedyAccept(best, d, m.vocab, q[d], r);
    GreedyCorrection(m.vocab, best, q, r');
  }

  /** Greedy verification keeps to the greedy path: every token it lets through
      or puts in place is the one sequential decoding would have chosen. */
  lemma {:induction false} GreedyVerify(m: Model, cfg: GenConfig, h: seq<Token>, tokens: seq<Token>,
                                        probs: seq<seq<real>>, tape: Tape, used: nat, i: nat)
    requires m.Valid() && cfg.Valid() && cfg.Greedy() && Checkable(m, tokens, probs) && i <= |tokens|
    requires ProperDraft(probs) && Uniform(tape)
    requires GreedyPath(m, cfg, h, tokens[..i])
    ensures GreedyPath(m, cfg, h, Verify(m, cfg, h, tokens, probs, tape, used, i).Fresh())
    decreases |tokens| - i
  {
    hide Dist, Residual, DrawIndex, GreedyNext;
    if i == |tokens| {
      assert tokens[..i] == tokens == tokens + [];
    } else {
      var d, context := tokens[i], h + tokens[..i];
      GreedyTest(m, cfg, context, d, probs[i], tape(used), tape(used + 1));
      var best := GreedyNext(m, cfg, context);
      ExtendPath(m, cfg, h, tokens[..i], best);
      if d == best {
        assert tokens[..i + 1] == tokens[..i] + [best];
        GreedyVerify(m, cfg, h, tokens, probs, tape, used + 1, i + 1);
      }
    }
  }

  lemma ExtendPath(m: Model, cfg: GenConfig, h: seq<Token>, tokens: seq<Token>, t: Token)
    requires m.Valid() && cfg.Valid()
    requires GreedyPath(m, cfg, h, tokens) && t == GreedyNext(m, cfg, h + tokens)
    ensures GreedyPath(m, cfg, h, tokens + [t])
  {
    hide GreedyNext;
    var longer := tokens + [t];
    forall i | 0 <= i < |longer|
      ensures longer[i] == GreedyNext(m, cfg, h + longer[..i])
    {
      assert longer[..i] == tokens[..i];
    }
    assert tokens[..|tokens|] == tokens;
  }
}
