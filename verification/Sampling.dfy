/** Turning logits into a token: repeat penalty, greedy one-hot, and the
    inverse-CDF draw driven by a tape of uniform numbers. */
module Sampling {
  import opened Backend

  /** `shape` is the softmax-and-nucleus step of a sampled generation, which
      the Nucleus module treats; a greedy generation never applies it. */
  datatype GenConfig = GenConfig(
    maxTokens: int,
    temperature: real,
    repeatPenalty: real,
    repeatLastN: int,
    shape: seq<real> -> seq<real>)
  {
    predicate Greedy() { temperature <= 0.0 }

    ghost predicate Valid() {
      && repeatPenalty != 0.0
      && (forall l {:trigger shape(l)} :: |shape(l)| == |l|)
    }
  }

  /** A seeded generator: the k-th uniform number it will ever give. */
  type Tape = nat -> real

  ghost predicate Uniform(tape: Tape) {
    forall k {:trigger tape(k)} :: 0.0 <= tape(k) < 1.0
  }

  // ---- Repeat penalty -----------------------------------------------------

  function PenalisedLogit(cfg: GenConfig, logit: real): real
    requires cfg.repeatPenalty != 0.0
  {
    if logit > 0.0 then logit / cfg.repeatPenalty else logit * cfg.repeatPenalty
  }

  /** The penalty applied once for every occurrence of a token in `window`. */
  function PenaliseAll(cfg: GenConfig, logits: seq<real>, window: seq<Token>): (r: seq<real>)
    requires cfg.repeatPenalty != 0.0
    ensures |r| == |logits|
    decreases |window|
  {
    if window == [] then logits
    else
      var before := PenaliseAll(cfg, logits, window[..|window| - 1]);
      var t := window[|window| - 1];
      if 0 <= t < |before| then before[t := PenalisedLogit(cfg, before[t])] else before
  }

  function Window(cfg: GenConfig, recent: seq<Token>): seq<Token> {
    if cfg.repeatPenalty == 1.0 || cfg.repeatLastN <= 0 then []
    else recent[|recent| - Min(|recent|, cfg.repeatLastN)..]
  }

  function Penalised(cfg: GenConfig, logits: seq<real>, recent: seq<Token>): (r: seq<real>)
    requires cfg.repeatPenalty != 0.0
    ensures |r| == |logits|
  {
    PenaliseAll(cfg, logits, Window(cfg, recent))
  }

  function Power(x: real, c: nat): real {
    if c == 0 then 1.0 else x * Power(x, c - 1)
  }

  /** The tokens that the penalty looks at: the last repeatLastN of the history,
      or all of it if there are fewer. */
  function Lately(recent: seq<Token>, n: int): multiset<Token> {
    multiset(recent[|recent| - Min(|recent|, Max(n, 0))..])
  }

  /** What c occurrences make of a logit under a positive penalty. */
  predicate PenalisedTimes(penalty: real, c: nat, before: real, after: real)
    requires penalty > 0.0
  {
    if before > 0.0 then after > 0.0 && after * Power(penalty, c) == before
    else after <= 0.0 && after == before * Power(penalty, c)
  }

  lemma PowerPositive(x: real, c: nat)
    requires x > 0.0
    ensures Power(x, c) > 0.0 && (x == 1.0 ==> Power(x, c) == 1.0)
    ensures x > 1.0 ==> Power(x, c) >= 1.0 && (c > 0 ==> Power(x, c) >= x)
  {
  }

  lemma OnceMore(cfg: GenConfig, c: nat, before: real, after: real)
    requires cfg.repeatPenalty > 0.0 && PenalisedTimes(cfg.repeatPenalty, c, before, after)
    ensures PenalisedTimes(cfg.repeatPenalty, c + 1, before, PenalisedLogit(cfg, after))
  {
    var x, p, next := cfg.repeatPenalty, Power(cfg.repeatPenalty, c), PenalisedLogit(cfg, after);
    if before > 0.0 {
      assert next * x == after;
      assert next * (x * p) == (next * x) * p;
    } else {
      assert next == (before * p) * x == before * (x * p);
    }
  }

  lemma {:induction false} PenaliseAllIs(cfg: GenConfig, logits: seq<real>, window: seq<Token>, t: nat)
    requires cfg.repeatPenalty > 0.0 && t < |logits|
    ensures PenalisedTimes(cfg.repeatPenalty, multiset(window)[t], logits[t], PenaliseAll(cfg, logits, window)[t])
    decreases |window|
  {
    if window == [] {
    } else {
      var front, last := window[..|window| - 1], window[|window| - 1];
      PenaliseAllIs(cfg, logits, front, t);
      assert window == front + [last];
      if last == t { OnceMore(cfg, multiset(front)[t], logits[t], PenaliseAll(cfg, logits, front)[t]); }
    }
  }

  /** A token that occurs c times among the last repeatLastN has its logit divided
      by the c-th power of the penalty if positive, and multiplied by it if not;
      any other keeps it. */
  lemma PenaltyPower(cfg: GenConfig, logits: seq<real>, recent: seq<Token>, t: nat)
    requires cfg.repeatPenalty > 0.0 && t < |logits|
    ensures var c := Lately(recent, cfg.repeatLastN)[t];
      && Power(cfg.repeatPenalty, c) > 0.0
      && Penalised(cfg, logits, recent)[t] ==
         if logits[t] > 0.0 then logits[t] / Power(cfg.repeatPenalty, c) else logits[t] * Power(cfg.repeatPenalty, c)
    ensures Lately(recent, cfg.repeatLastN)[t] == 0 ==> Penalised(cfg, logits, recent)[t] == logits[t]
  {
    var c, window := Lately(recent, cfg.repeatLastN)[t], Window(cfg, recent);
    PowerPositive(cfg.repeatPenalty, c);
    PenaliseAllIs(cfg, logits, window, t);
  }

  /** Without a penalty or a window nothing changes, for all tokens. */
  lemma NoPenalty(cfg: GenConfig, logits: seq<real>, recent: seq<Token>)
    requires cfg.repeatPenalty == 1.0 || (cfg.repeatPenalty != 0.0 && cfg.repeatLastN <= 0)
    ensures Penalised(cfg, logits, recent) == logits
  {
  }

  /** A penalty above 1 raises no logit, and lowers exactly the non-zero ones of
      the tokens that occurred lately. */
  lemma PenaltyLowers(cfg: GenConfig, logits: seq<real>, recent: seq<Token>, t: nat)
    requires cfg.repeatPenalty > 1.0 && t < |logits|
    ensures Penalised(cfg, logits, recent)[t] <= logits[t]
    ensures Penalised(cfg, logits, recent)[t] < logits[t] <==>
      Lately(recent, cfg.repeatLastN)[t] > 0 && logits[t] != 0.0
  {
    var c := Lately(recent, cfg.repeatLastN)[t];
    var x, p, after := logits[t], Power(cfg.repeatPenalty, c), Penalised(cfg, logits, recent)[t];
    PenaltyPower(cfg, logits, recent, t);
    PowerPositive(cfg.repeatPenalty, c);
    if c > 0 {
      if x > 0.0 {
        assert after * p == x && after > 0.0;
        assert after * (p - 1.0) > 0.0;
      } else if x < 0.0 {
        assert x * (p - 1.0) < 0.0;
      }
    }
  }

  /** A negative penalty, which the code lets through, changes the sign of a logit
      with every occurrence, and two occurrences cancel out. */
  lemma NegativePenalty(cfg: GenConfig, logits: seq<real>, recent: seq<Token>, t: nat)
    requires cfg.repeatPenalty < 0.0 && t < |logits|
    ensures Penalised(cfg, logits, recent)[t] ==
      if Lately(recent, cfg.repeatLastN)[t] % 2 == 0 then logits[t]
      else if logits[t] > 0.0 then logits[t] / cfg.repeatPenalty else logits[t] * cfg.repeatPenalty
  {
    Alternating(cfg, logits, Window(cfg, recent), t);
  }

  lemma {:induction false} Alternating(cfg: GenConfig, logits: seq<real>, window: seq<Token>, t: nat)
    requires cfg.repeatPenalty < 0.0 && t < |logits|
    ensures PenaliseAll(cfg, logits, window)[t] ==
      if multiset(window)[t] % 2 == 0 then logits[t] else PenalisedLogit(cfg, logits[t])
    decreases |window|
  {
    if window == [] {
    } else {
      var front, last := window[..|window| - 1], window[|window| - 1];
      Alternating(cfg, logits, front, t);
      assert window == front + [last];
      Cancels(cfg, logits[t]);
    }
  }

  lemma Cancels(cfg: GenConfig, x: real)
    requires cfg.repeatPenalty < 0.0
    ensures PenalisedLogit(cfg, PenalisedLogit(cfg, x)) == x
  {
    var p, once := cfg.repeatPenalty, PenalisedLogit(cfg, x);
    if x > 0.0 { assert once * p == x; } else { assert once == x * p; }
  }

  // ---- Greedy choice ------------------------------------------------------

  predicate IsFirstMax(s: seq<real>, k: int) {
    && 0 <= k < |s|
    && (forall i :: 0 <= i < |s| ==> s[i] <= s[k])
    && (forall i :: 0 <= i < k ==> s[i] < s[k])
  }

  function ArgMax(s: seq<real>): (k: nat)
    requires s != []
    ensures IsFirstMax(s, k)
  {
    if |s| == 1 then 0
    else
      var k := ArgMax(s[..|s| - 1]);
      if s[k] < s[|s| - 1] then |s| - 1 else k
  }

  function OneHot(n: nat, k: int): (r: seq<real>)
    ensures |r| == n
  {
    seq(n, i => if i == k then 1.0 else 0.0)
  }

  lemma ArgMaxOfOneHot(n: nat, k: nat)
    requires k < n
    ensures ArgMax(OneHot(n, k)) == k
  {
    var hot := OneHot(n, k);
    assert hot[k] == 1.0;
    assert IsFirstMax(hot, ArgMax(hot));
  }

  // ---- The distribution ---------------------------------------------------

  function Dist(cfg: GenConfig, logits: seq<real>, recent: seq<Token>): (r: seq<real>)
    requires cfg.Valid() && logits != []
    ensures |r| == |logits|
  {
    var l := Penalised(cfg, logits, recent);
    if cfg.Greedy() then OneHot(|l|, ArgMax(l)) else cfg.shape(l)
  }

  // ---- Drawing ------------------------------------------------------------

  /** The draw loop from index `i`, with `r` still to be covered and `last`
      the newest index of positive probability seen. */
  function DrawFrom(probs: seq<real>, r: real, i: nat, last: nat): (k: nat)
    requires i <= |probs|
    ensures k == last || i <= k < |probs|
    decreases |probs| - i
  {
    if i == |probs| then last
    else if probs[i] <= 0.0 then DrawFrom(probs, r, i + 1, last)
    else if r - probs[i] <= 0.0 then i
    else DrawFrom(probs, r - probs[i], i + 1, i)
  }

  function DrawIndex(probs: seq<real>, r: real): (k: nat)
    ensures probs != [] ==> k < |probs|
  {
    DrawFrom(probs, r, 0, 0)
  }

  method Draw(probs: seq<real>, r: real) returns (k: nat)
    ensures k == DrawIndex(probs, r)
  {
    var rest, last, i := r, 0, 0;
    while i < |probs|
      invariant i <= |probs|
      invariant DrawIndex(probs, r) == DrawFrom(probs, rest, i, last)
    {
      if probs[i] > 0.0 {
        last := i;
        rest := rest - probs[i];
        if rest <= 0.0 { return i; }
      }
      i := i + 1;
    }
    return last;
  }

  // ---- The sampler object -------------------------------------------------

  /** A source of uniform numbers. */
  class Rng {
    const tape: Tape
    var used: nat

    constructor (tape: Tape)
      ensures this.tape == tape && used == 0
    {
      this.tape := tape;
      used := 0;
    }

    method Next() returns (r: real)
      modifies this
      ensures r == tape(old(used)) && used == old(used) + 1
    {
      r := tape(used);
      used := used + 1;
    }
  }

  /** The in-place penalty loop followed by the greedy or the shaped branch. */
  method Distribution(cfg: GenConfig, logits: seq<real>, recent: seq<Token>) returns (probs: seq<real>)
    requires cfg.Valid() && logits != []
    ensures probs == Dist(cfg, logits, recent)
  {
    var l := logits;
    var window := Window(cfg, recent);
    for i := 0 to |window|
      invariant l == PenaliseAll(cfg, logits, window[..i])
    {
      assert window[..i + 1][..i] == window[..i];
      var t := window[i];
      if 0 <= t < |l| {
        l := l[t := PenalisedLogit(cfg, l[t])];
      }
    }
    assert window[..|window|] == window;
    if cfg.Greedy() {
      var best := ArgMax(l);
      probs := OneHot(|l|, best);
    } else {
      probs := cfg.shape(l);
    }
  }

  /** The token `sample` returns when `r` is the next uniform number. */
  function Pick(cfg: GenConfig, logits: seq<real>, recent: seq<Token>, r: real): (t: Token)
    requires cfg.Valid() && logits != []
    ensures 0 <= t < |logits|
  {
    if cfg.Greedy() then ArgMax(Penalised(cfg, logits, recent))
    else DrawIndex(Dist(cfg, logits, recent), r)
  }

  /** A greedy pick needs no random number. */
  lemma SamePick(cfg: GenConfig, logits: seq<real>, h: seq<Token>, a: real, b: real)
    requires cfg.Valid() && logits != [] && (cfg.Greedy() || a == b)
    ensures Pick(cfg, logits, h, a) == Pick(cfg, logits, h, b)
  {
  }

  method Sample(cfg: GenConfig, rng: Rng, logits: seq<real>, recent: seq<Token>) returns (t: Token)
    requires cfg.Valid() && logits != []
    modifies rng
    ensures t == Pick(cfg, logits, recent, rng.tape(old(rng.used)))
    ensures rng.used == old(rng.used) + if cfg.temperature <= 0.0 then 0 else 1
    ensures cfg.temperature <= 0.0 ==> IsFirstMax(Penalised(cfg, logits, recent), t)
  {
    var probs := Distribution(cfg, logits, recent);
    if cfg.Greedy() {
      ArgMaxOfOneHot(|logits|, ArgMax(Penalised(cfg, logits, recent)));
      t := ArgMax(probs);
    } else {
      var r := rng.Next();
      t := Draw(probs, r);
    }
  }
}
