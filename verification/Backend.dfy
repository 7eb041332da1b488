/** The seam between the server and the language model: a machine whose whole
    state is the token sequence held in its KV cache. */
module Backend {

  type Token = int

  newtype Byte = x: int | 0 <= x < 256

  datatype Option<+T> = None | Some(value: T)

  function Max(a: int, b: int): int { if a < b then b else a }

  function Min(a: int, b: int): int { if a < b then a else b }

  predicate IsDigit(c: char) { '0' <= c <= '9' }

  lemma SubsetCount(a: set<nat>, b: set<nat>)
    requires a <= b
    ensures |a| <= |b|
  {
    assert b == a + (b - a);
  }

  /** What the server knows of a model. `logits` is the model itself: the
      logits that follow a context depend on that context alone. `save` and
      `restore` stand for the opaque state blob. */
  datatype Model = Model(
    vocab: nat,
    nCtx: nat,
    eos: Token,
    eog: Token -> bool,
    logits: seq<Token> -> seq<real>,
    save: seq<Token> -> seq<Byte>,
    restore: seq<Byte> -> Option<seq<Token>>)
  {
    ghost predicate Valid() {
      && vocab > 0
      && (forall context :: |logits(context)| == vocab)
      && (forall context {:trigger save(context)} :: restore(save(context)) == Some(context))
    }

    predicate InVocab(tokens: seq<Token>) {
      forall i :: 0 <= i < |tokens| ==> 0 <= tokens[i] < vocab
    }
  }

  /** A single-sequence backend. Every operation that runs the model may fail;
      a failed operation leaves the sequence in an arbitrary state. */
  class LlamaBackend {
    const model: Model
    var kv: seq<Token>
    var nPast: nat          // the wrapper's position counter
    ghost var peak: nat     // most positions any operation so far asked for
    ghost var decoded: nat  // positions run through the model so far
    ghost var faults: nat   // operations that failed so far

    constructor (model: Model)
      ensures this.model == model && kv == [] && nPast == 0 && peak == 0 && decoded == 0 && faults == 0
    {
      this.model := model;
      kv, nPast, peak, decoded, faults := [], 0, 0, 0, 0;
    }

    ghost predicate Holds(tokens: seq<Token>)
      reads this
    {
      kv == tokens && nPast == |tokens|
    }

    method Reset()
      modifies this
      ensures Holds([]) && peak == old(peak) && decoded == old(decoded) && faults == old(faults)
    {
      kv, nPast := [], 0;
    }

    /** Something unmodelled went wrong while decoding. */
    method Break(attempted: nat)
      modifies this
      ensures peak == Max(old(peak), attempted) && decoded == old(decoded) && faults == old(faults) + 1
    {
      peak, faults := Max(peak, attempted), faults + 1;
      kv, nPast := *, *;
    }

    method DecodeAppend(tokens: seq<Token>) returns (ok: bool, logits: seq<real>)
      modifies this
      ensures ok ==> kv == old(kv) + tokens && nPast == old(nPast) + |tokens|
      ensures ok ==> logits == model.logits(kv) && decoded == old(decoded) + |tokens|
      ensures peak == Max(old(peak), |old(kv)| + |tokens|)
      ensures faults == old(faults) + if ok then 0 else 1
    {
      ok := *;
      logits := [];
      if ok {
        kv, nPast := kv + tokens, nPast + |tokens|;
        peak, decoded := Max(peak, |kv|), decoded + |tokens|;
        logits := model.logits(kv);
      } else {
        Break(|kv| + |tokens|);
      }
    }

    method Decode(tokens: seq<Token>) returns (ok: bool, logits: seq<real>)
      modifies this
      ensures ok ==> Holds(tokens) && logits == model.logits(tokens) && decoded == old(decoded) + |tokens|
      ensures faults == old(faults) + if ok then 0 else 1
    {
      Reset();
      ok, logits := DecodeAppend(tokens);
      assert [] + tokens == tokens;
    }

    /** One forward pass; the logits of every position come back. */
    method DecodeBatch(tokens: seq<Token>) returns (ok: bool, logits: seq<seq<real>>)
      modifies this
      ensures ok ==> kv == old(kv) + tokens && nPast == old(nPast) + |tokens|
      ensures ok ==> |logits| == |tokens|
      ensures ok ==> forall i :: 0 <= i < |tokens| ==> logits[i] == model.logits(old(kv) + tokens[..i + 1])
      ensures peak == Max(old(peak), |old(kv)| + |tokens|)
      ensures faults == old(faults) + if ok then 0 else 1
    {
      ok := *;
      logits := [];
      if ok {
        var before := kv;
        logits := seq(|tokens|, i requires 0 <= i < |tokens| => model.logits(before + tokens[..i + 1]));
        kv, nPast := kv + tokens, nPast + |tokens|;
        peak, decoded := Max(peak, |kv|), decoded + |tokens|;
      } else {
        Break(|kv| + |tokens|);
      }
    }

    method TruncateTo(n: nat) returns (ok: bool)
      modifies this
      ensures ok && n <= |old(kv)| && old(nPast) == |old(kv)| ==> Holds(old(kv)[..n])
      ensures peak == Max(old(peak), |old(kv)|)
      ensures faults == old(faults) + if ok then 0 else 1
    {
      ok := *;
      if ok {
        peak := Max(peak, |kv|);
        if n <= |kv| { kv := kv[..n]; }
        if n <= nPast { nPast := n; }
      } else {
        Break(|kv|);
      }
    }

    method SetState(data: seq<Byte>, n: nat) returns (ok: bool)
      modifies this
      ensures ok <==> model.restore(data).Some?
      ensures ok ==> kv == model.restore(data).value && nPast == n
      ensures decoded == old(decoded) && faults == old(faults)
    {
      var state := model.restore(data);
      ok := state.Some?;
      kv, nPast := *, *;
      if ok { kv, nPast := state.value, n; }
    }
  }
}
