/** The interleaved scheduler: many requests, one batched forward pass per step,
    and each request as good as alone. */
module Scheduler {
  import opened Backend
  import opened Sampling
  import opened Reference

  // ---- The multi-sequence backend -----------------------------------------

  datatype Slice = Slice(seqId: int, tokens: seq<Token>, posStart: nat)

  ghost predicate DistinctSeqs(slices: seq<Slice>, n: nat) {
    && (forall i :: 0 <= i < |slices| ==> 0 <= slices[i].seqId < n)
    && (forall i, j :: 0 <= i < j < |slices| ==> slices[i].seqId != slices[j].seqId)
  }

  /** A backend holding one token sequence per slot. */
  class SeqBackend {
    const model: Model
    var kvs: seq<seq<Token>>
    ghost var faults: nat   // passes that failed so far

    constructor (model: Model, n: nat)
      ensures this.model == model && kvs == seq(n, _ => []) && faults == 0
    {
      this.model := model;
      kvs, faults := seq(n, _ => []), 0;
    }

    /** Continues every slice's sequence in one pass. A failure leaves those
        sequences, and only those, in an arbitrary state. */
    method DecodeSeqs(slices: seq<Slice>) returns (ok: bool, logits: seq<seq<real>>)
      requires DistinctSeqs(slices, |kvs|)
      requires forall i :: 0 <= i < |slices| ==> slices[i].posStart == |kvs[slices[i].seqId]|
      modifies this
      ensures |kvs| == |old(kvs)|
      ensures forall s :: 0 <= s < |kvs| && (forall i :: 0 <= i < |slices| ==> slices[i].seqId != s) ==>
                kvs[s] == old(kvs)[s]
      ensures ok ==> |logits| == |slices|
      ensures ok ==> forall i :: 0 <= i < |slices| ==>
                && kvs[slices[i].seqId] == old(kvs)[slices[i].seqId] + slices[i].tokens
                && logits[i] == model.logits(kvs[slices[i].seqId])
      ensures faults == old(faults) + if ok then 0 else 1
    {
      ok, logits := *, [];
      faults := faults + if ok then 0 else 1;
      for i := 0 to |slices|
        invariant |kvs| == |old(kvs)| && |logits| == i && faults == old(faults) + if ok then 0 else 1
        invariant forall s :: 0 <= s < |kvs| && (forall j :: 0 <= j < i ==> slices[j].seqId != s) ==>
                    kvs[s] == old(kvs)[s]
        invariant ok ==> forall j :: 0 <= j < i ==>
                    && kvs[slices[j].seqId] == old(kvs)[slices[j].seqId] + slices[j].tokens
                    && logits[j] == model.logits(kvs[slices[j].seqId])
      {
        var s := slices[i].seqId;
        if ok {
          kvs := kvs[s := kvs[s] + slices[i].tokens];
        } else {
          var junk: seq<Token> := *;
          kvs := kvs[s := junk];
        }
        logits := logits + [model.logits(kvs[s])];
      }
    }

    method ClearSeq(s: nat)
      requires s < |kvs|
      modifies `kvs
      ensures kvs == old(kvs)[s := []]
    {
      kvs := kvs[s := []];
    }

    method CopySeq(src: nat, dst: nat, n: nat)
      requires src < |kvs| && dst < |kvs| && kvs[dst] == [] && n <= |kvs[src]|
      modifies `kvs
      ensures kvs == old(kvs)[dst := old(kvs)[src][..n]]
    {
      kvs := kvs[dst := kvs[src][..n]];
    }
  }

  // ---- Requests -----------------------------------------------------------

  /** What a caller submitted. */
  datatype Submission = Submission(prompt: seq<Token>, job: Job) {
    ghost predicate Valid(m: Model) { job.cfg.Valid() && 1 <= |prompt| <= m.nCtx }

    /** The request as it would run alone. */
    ghost function Alone(m: Model): Run
      requires m.Valid() && job.cfg.Valid()
    {
      Solo(m, job, prompt, [], job.cfg.maxTokens)
    }
  }

  datatype Request = Request(
    id: nat,
    job: Job,
    history: seq<Token>,
    promptLen: nat,
    emitted: nat,
    drawn: nat,          // uniform numbers its own sampler has used
    seqId: int,
    nPast: nat,
    needsPrefill: bool)

  datatype Outcome = Finished | CallbackThrew | BackendFailed

  /** What one sequence's retirement means for its caller. */
  ghost predicate Fulfils(outcome: Outcome, delivered: seq<Token>, alone: Run) {
    match outcome
    case Finished => alone == Run(delivered, false)
    case CallbackThrew => alone == Run(delivered, true)
    case BackendFailed => delivered <= alone.delivered
  }

  ghost predicate Waiting(m: Model, r: Request, sub: Submission) {
    && sub.Valid(m)
    && r == Request(r.id, sub.job, sub.prompt, |sub.prompt|, 0, 0, -1, 0, true)
  }

  /** A request between two steps: it has delivered a prefix of its solo run,
      and its solo run continues from its history. */
  ghost predicate Underway(m: Model, r: Request, sub: Submission)
    requires m.Valid()
  {
    && sub.Valid(m)
    && r.job == sub.job && sub.prompt <= r.history && r.promptLen == |sub.prompt|
    && |r.history| == r.promptLen + r.emitted
    && (sub.job.cfg.Greedy() || r.drawn == r.emitted)
    && (r.emitted > 0 ==> |r.history| < m.nCtx && r.emitted < sub.job.cfg.maxTokens)
    && sub.Alone(m) == Append(r.history[r.promptLen..],
                              Solo(m, sub.job, r.history, r.history[r.promptLen..], sub.job.cfg.maxTokens - r.emitted))
  }

  /** Its KV: nothing before the prefill, everything but the newest token after. */
  ghost predicate HoldsFront(r: Request, kv: seq<Token>) {
    if r.needsPrefill then r.nPast == 0 && kv == [] && r.emitted == 0
    else r.nPast == |r.history| - 1 && kv == r.history[..r.nPast]
  }

  /** The request r is the queued one, given a slot. */
  ghost predicate Seated(r: Request, head: Request) {
    r == head.(seqId := r.seqId, nPast := r.nPast, needsPrefill := r.needsPrefill) && r.nPast <= |r.history|
  }

  /** Somebody has this very prompt. */
  ghost predicate Shared(rs: seq<Request>, prompt: seq<Token>) {
    exists i :: 0 <= i < |rs| && rs[i].promptLen <= |rs[i].history| && rs[i].history[..rs[i].promptLen] == prompt
  }

  /** The first of the queue have been seated behind the requests active before,
      in order; the rest of it is pending. */
  ghost predicate Moved(before: seq<Request>, queue: seq<Request>, active: seq<Request>, pending: seq<Request>) {
    && before <= active && |active| - |before| == |queue| - |pending|
    && |pending| <= |queue| && pending == queue[|queue| - |pending|..]
    && forall j :: |before| <= j < |active| ==> Seated(active[j], queue[j - |before|])
  }

  lemma MovedMore(before: seq<Request>, queue: seq<Request>, active: seq<Request>, pending: seq<Request>,
                  active': seq<Request>, pending': seq<Request>)
    requires Moved(before, queue, active, pending) && pending != [] && pending' == pending[1..]
    requires active < active' && |active'| == |active| + 1 && Seated(active'[|active|], pending[0])
    ensures Moved(before, queue, active', pending')
  {
    hide Seated;
  }

  lemma NoneMoved(active: seq<Request>, pending: seq<Request>)
    ensures Moved(active, pending, active, pending)
  {
  }

  // ---- One request's share of a step --------------------------------------

  datatype Settled = Keep(r: Request) | Retire(outcome: Outcome, delivered: seq<Token>)

  /** Sample, deliver, and decide whether the request goes on. */
  function Settle(m: Model, r: Request, logits: seq<real>, sliceLen: nat): Settled
    requires r.job.cfg.Valid() && logits != [] && r.promptLen <= |r.history|
  {
    var t := Pick(r.job.cfg, logits, r.history, r.job.tape(r.drawn));
    var done := r.history[r.promptLen..];
    if m.eog(t) then Retire(Finished, done)
    else
      var verdict := r.job.callback(done + [t]);
      if verdict.Throw? then Retire(CallbackThrew, done + [t])
      else
        var r' := r.(history := r.history + [t], emitted := r.emitted + 1,
                     drawn := if r.job.cfg.Greedy() then r.drawn else r.drawn + 1,
                     nPast := r.nPast + sliceLen, needsPrefill := false);
        if verdict.Stop? || r'.emitted >= r.job.cfg.maxTokens || |r'.history| >= m.nCtx
        then Retire(Finished, done + [t])
        else Keep(r')
  }

  /** A step keeps every request on its solo run, or settles it there. */
  lemma SettleFollowsSolo(m: Model, r: Request, sub: Submission, sliceLen: nat)
    requires m.Valid() && Underway(m, r, sub)
    requires r.nPast + sliceLen == |r.history|
    ensures match Settle(m, r, m.logits(r.history), sliceLen)
            case Keep(r') =>
              && Underway(m, r', sub) && HoldsFront(r', r.history)
              && r'.id == r.id && r'.seqId == r.seqId && r'.emitted == r.emitted + 1
            case Retire(outcome, delivered) => outcome != BackendFailed && Fulfils(outcome, delivered, sub.Alone(m))
  {
    hide Pick;
    var cfg, done, h := r.job.cfg, r.history[r.promptLen..], r.history;
    var t := Pick(cfg, m.logits(h), h, r.job.tape(r.drawn));
    NextOf(m, r, sub);
    SoloHead(m, r.job, h, done, cfg.maxTokens - r.emitted);
    hide Job.Next, Solo, Append, Prepend, Model.Valid, GenConfig.Valid;
    assert (h + [t])[r.promptLen..] == done + [t] && sub.prompt <= h + [t];
    NothingMore(done);
    OneToken(done, t, false);
    OneToken(done, t, true);
    if !m.eog(t) && r.job.callback(done + [t]).Continue? {
      Joined(done, t, Solo(m, r.job, h + [t], done + [t], cfg.maxTokens - r.emitted - 1));
    }
  }

  lemma NothingMore(done: seq<Token>)
    ensures Append(done, Run([], false)) == Run(done, false)
  {
    assert done + [] == done;
  }

  lemma OneToken(done: seq<Token>, t: Token, thrown: bool)
    ensures Append(done, Run([t], thrown)) == Run(done + [t], thrown)
  {
  }

  lemma Joined(done: seq<Token>, t: Token, rest: Run)
    ensures Append(done, Prepend(t, rest)) == Append(done + [t], rest)
  {
    assert done + ([t] + rest.delivered) == done + [t] + rest.delivered;
  }

  /** The request's own sampler is where a solo run's would be. */
  lemma NextOf(m: Model, r: Request, sub: Submission)
    requires m.Valid() && Underway(m, r, sub)
    ensures var done := r.history[r.promptLen..];
      |done| == r.emitted &&
      Pick(r.job.cfg, m.logits(r.history), r.history, r.job.tape(r.drawn)) == r.job.Next(m, r.history, done)
  {
    hide Pick, Solo;
    SamePick(r.job.cfg, m.logits(r.history), r.history, r.job.tape(r.drawn), r.job.tape(r.emitted));
  }

  /** The request's share of a step whose pass succeeds. */
  ghost function SettledBy(m: Model, r: Request): Settled
    requires m.Valid()
  {
    if r.job.cfg.Valid() && r.promptLen <= |r.history| && r.nPast <= |r.history|
    then Settle(m, r, m.logits(r.history), |r.history| - r.nPast)
    else Retire(BackendFailed, [])
  }

  /** The requests that go on after such a step, each one token longer. */
  ghost function Kept(m: Model, rs: seq<Request>): seq<Request>
    requires m.Valid()
  {
    if rs == [] then []
    else
      var settled := SettledBy(m, rs[|rs| - 1]);
      Kept(m, rs[..|rs| - 1]) + if settled.Keep? then [settled.r] else []
  }

  lemma KeptStep(m: Model, rs: seq<Request>, i: nat)
    requires m.Valid() && i < |rs|
    ensures Kept(m, rs[..i + 1]) ==
      Kept(m, rs[..i]) + if SettledBy(m, rs[i]).Keep? then [SettledBy(m, rs[i]).r] else []
  {
    hide SettledBy;
    assert rs[..i + 1][..i] == rs[..i];
  }

  /** What a request may still cost: its remaining steps. */
  function Cost(r: Request): nat {
    Max(1, Max(1, r.job.cfg.maxTokens) - r.emitted)
  }

  function TotalCost(rs: seq<Request>): nat {
    if rs == [] then 0 else TotalCost(rs[..|rs| - 1]) + Cost(rs[|rs| - 1])
  }

  lemma {:induction false} TotalCostConcat(a: seq<Request>, b: seq<Request>)
    ensures TotalCost(a + b) == TotalCost(a) + TotalCost(b)
    decreases |b|
  {
    if b == [] {
      assert a + b == a;
    } else {
      assert (a + b)[..|a + b| - 1] == a + b[..|b| - 1];
      TotalCostConcat(a, b[..|b| - 1]);
    }
  }

  // ---- Bookkeeping --------------------------------------------------------

  function Ids(rs: seq<Request>): seq<nat> { seq(|rs|, i requires 0 <= i < |rs| => rs[i].id) }

  function Slots(rs: seq<Request>): seq<int> { seq(|rs|, i requires 0 <= i < |rs| => rs[i].seqId) }

  /** Ids below `first` are each either active or done, never both, and the
      active ones stand in submission order. */
  ghost predicate IdsOk(ids: seq<nat>, done: set<nat>, first: nat) {
    && (forall i, j :: 0 <= i < j < |ids| ==> ids[i] < ids[j])
    && (forall i :: 0 <= i < |ids| ==> 1 <= ids[i] < first && ids[i] !in done)
    && (forall id :: id in done ==> 1 <= id < first)
    && (forall id :: 1 <= id < first ==> id in done || id in ids)
  }

  /** Distinct slots, and the used ones are exactly these. */
  ghost predicate SlotsOk(slots: seq<int>, used: seq<bool>) {
    && (forall i :: 0 <= i < |slots| ==> 0 <= slots[i] < |used| && used[slots[i]])
    && (forall i, j :: 0 <= i < j < |slots| ==> slots[i] != slots[j])
    && (forall s :: 0 <= s < |used| && used[s] ==> s in slots)
  }

  ghost predicate Book(ids: seq<nat>, slots: seq<int>, used: seq<bool>, done: set<nat>, first: nat) {
    |ids| == |slots| && IdsOk(ids, done, first) && SlotsOk(slots, used)
  }

  lemma BookAdmit(ids: seq<nat>, slots: seq<int>, used: seq<bool>, done: set<nat>, first: nat, s: nat)
    requires Book(ids, slots, used, done, first) && s < |used| && !used[s] && first >= 1
    ensures Book(ids + [first], slots + [s], used[s := true], done, first + 1)
  {
    var used' := used[s := true];
    forall q | 0 <= q < |used'| && used'[q]
      ensures q in slots + [s]
    {
      if q == s { assert (slots + [s])[|slots|] == s; }
    }
    forall id | 1 <= id < first + 1
      ensures id in done || id in ids + [first]
    {
      if id == first { assert (ids + [first])[|ids|] == first; }
    }
  }

  function Without<T>(xs: seq<T>, k: nat): (r: seq<T>)
    requires k < |xs|
    ensures |r| == |xs| - 1
    ensures forall i :: 0 <= i < |r| ==> r[i] == xs[if i < k then i else i + 1]
    ensures forall i :: 0 <= i < |xs| && i != k ==> xs[i] in r
  {
    var r := xs[..k] + xs[k + 1..];
    assert forall i :: 0 <= i < |xs| && i != k ==> xs[i] == r[if i < k then i else i - 1];
    r
  }

  lemma IdsRetire(ids: seq<nat>, done: set<nat>, first: nat, k: nat)
    requires IdsOk(ids, done, first) && k < |ids|
    ensures IdsOk(Without(ids, k), done + {ids[k]}, first)
  {
  }

  lemma SlotsRetire(slots: seq<int>, used: seq<bool>, k: nat)
    requires SlotsOk(slots, used) && k < |slots|
    ensures SlotsOk(Without(slots, k), used[slots[k] := false])
  {
  }

  lemma BookRetire(ids: seq<nat>, slots: seq<int>, used: seq<bool>, done: set<nat>, first: nat, k: nat)
    requires Book(ids, slots, used, done, first) && k < |ids|
    ensures 0 <= slots[k] < |used|
    ensures Book(Without(ids, k), Without(slots, k), used[slots[k] := false], done + {ids[k]}, first)
  {
    IdsRetire(ids, done, first, k);
    SlotsRetire(slots, used, k);
  }

  lemma {:induction false} Pigeonhole(slots: seq<int>, n: nat)
    requires forall s :: 0 <= s < n ==> s in slots
    ensures n <= |slots|
  {
    if n == 0 {
    } else {
      assert n - 1 in slots;
      var k :| 0 <= k < |slots| && slots[k] == n - 1;
      var others := slots[..k] + slots[k + 1..];
      forall s | 0 <= s < n - 1
        ensures s in others
      {
        assert s in slots;
        var i :| 0 <= i < |slots| && slots[i] == s;
        assert s == others[if i < k then i else i - 1];
      }
      Pigeonhole(others, n - 1);
    }
  }

  type Log = map<nat, Submission>

  ghost predicate PendingOk(m: Model, log: Log, pending: seq<Request>, first: nat) {
    forall j :: 0 <= j < |pending| ==>
      pending[j].id == first + j && pending[j].id in log && Waiting(m, pending[j], log[pending[j].id])
  }

  ghost predicate ActiveOk(m: Model, log: Log, rs: seq<Request>, kvs: seq<seq<Token>>)
    requires m.Valid()
  {
    forall i :: 0 <= i < |rs| ==>
      && rs[i].id in log && Underway(m, rs[i], log[rs[i].id])
      && 0 <= rs[i].seqId < |kvs| && HoldsFront(rs[i], kvs[rs[i].seqId])
  }

  ghost predicate DoneOk(m: Model, log: Log, done: map<nat, Outcome>, delivered: map<nat, seq<Token>>)
    requires m.Valid()
  {
    forall id :: id in done ==>
      && id in log && id in delivered && log[id].Valid(m)
      && Fulfils(done[id], delivered[id], log[id].Alone(m))
  }

  /** If no pass has failed since `born`, no request has. */
  ghost predicate Spared(done: map<nat, Outcome>, faults: nat, born: nat) {
    born <= faults && (faults == born ==> forall id :: id in done ==> done[id] != BackendFailed)
  }

  /** What is recorded stays, and without a failing pass no failure is added. */
  ghost predicate Onward(done: map<nat, Outcome>, delivered: map<nat, seq<Token>>, done': map<nat, Outcome>,
                         delivered': map<nat, seq<Token>>, failing: bool)
  {
    && (forall id :: id in done ==>
          && id in done' && done'[id] == done[id]
          && (id in delivered ==> id in delivered' && delivered'[id] == delivered[id]))
    && (!failing ==> forall id :: id in done' && id !in done ==> done'[id] != BackendFailed)
  }

  lemma OnwardTwice(done: map<nat, Outcome>, delivered: map<nat, seq<Token>>, done': map<nat, Outcome>,
                    delivered': map<nat, seq<Token>>, done'': map<nat, Outcome>, delivered'': map<nat, seq<Token>>,
                    first: bool, second: bool)
    requires Onward(done, delivered, done', delivered', first) && Onward(done', delivered', done'', delivered'', second)
    ensures Onward(done, delivered, done'', delivered'', first || second)
  {
  }

  /** Exactly these were added, all of them as failed. */
  ghost predicate TakenDown(rs: seq<Request>, done: map<nat, Outcome>, done': map<nat, Outcome>) {
    && done'.Keys == done.Keys + (set r | r in rs :: r.id)
    && forall r :: r in rs ==> done'[r.id] == BackendFailed
  }

  lemma NoneDown(done: map<nat, Outcome>)
    ensures TakenDown([], done, done)
  {
  }

  lemma OneMoreDown(rs: seq<Request>, r: Request, done: map<nat, Outcome>, done': map<nat, Outcome>)
    requires TakenDown(rs, done, done')
    ensures TakenDown(rs + [r], done, done'[r.id := BackendFailed])
  {
  }

  lemma NothingNew(done: map<nat, Outcome>, delivered: map<nat, seq<Token>>)
    ensures Onward(done, delivered, done, delivered, false)
  {
  }

  lemma OneMoreDone(done: map<nat, Outcome>, delivered: map<nat, seq<Token>>, id: nat, outcome: Outcome,
                    what: seq<Token>, faults: nat, born: nat)
    requires id !in done && Spared(done, faults, born) && (outcome == BackendFailed ==> born < faults)
    ensures Onward(done, delivered, done[id := outcome], delivered[id := what], outcome == BackendFailed)
    ensures Spared(done[id := outcome], faults, born)
  {
  }

  ghost predicate FreeOk(used: seq<bool>, kvs: seq<seq<Token>>) {
    |used| == |kvs| && forall s :: 0 <= s < |used| && !used[s] ==> kvs[s] == []
  }

  /** KV cells an active set accounts for. */
  function CellsUsed(rs: seq<Request>): nat {
    if rs == [] then 0 else CellsUsed(rs[..|rs| - 1]) + |rs[|rs| - 1].history|
  }

  /** The queue head does not fit, or its prompt is still being prefilled. */
  ghost predicate HeadWaits(nCtx: nat, active: seq<Request>, pending: seq<Request>) {
    pending != [] &&
      (CellsUsed(active) + |pending[0].history| > nCtx ||
       exists r :: r in active && r.nPast < r.promptLen <= |r.history| &&
         r.history[..r.promptLen] == pending[0].history)
  }

  // ---- The middle of a step -----------------------------------------------

  function SliceFor(r: Request): (s: Slice)
    requires r.history != []
    ensures s.seqId == r.seqId
  {
    if r.needsPrefill then Slice(r.seqId, r.history, 0)
    else Slice(r.seqId, [r.history[|r.history| - 1]], r.nPast)
  }

  /** Decoding the slice completes the request's KV. */
  ghost predicate Feeds(s: Slice, r: Request, kv: seq<Token>) {
    && s.posStart == |kv| == r.nPast
    && kv + s.tokens == r.history
  }

  lemma SliceFeeds(r: Request, kv: seq<Token>)
    requires r.history != [] && HoldsFront(r, kv)
    ensures Feeds(SliceFor(r), r, kv)
  {
  }

  /** In the batch: after a successful pass the KV holds the whole history, after
      a failed one it may hold anything. */
  ghost predicate BatchOk(m: Model, log: Log, rs: seq<Request>, kvs: seq<seq<Token>>, decoded: bool)
    requires m.Valid()
  {
    forall i :: 0 <= i < |rs| ==>
      && rs[i].id in log && Underway(m, rs[i], log[rs[i].id])
      && 0 <= rs[i].seqId < |kvs| && (decoded ==> kvs[rs[i].seqId] == rs[i].history)
  }

  /** Part of the batch has been settled (`still` goes on), `rest` has not. */
  ghost predicate Mid(m: Model, log: Log, still: seq<Request>, rest: seq<Request>, used: seq<bool>,
                      kvs: seq<seq<Token>>, done: map<nat, Outcome>, delivered: map<nat, seq<Token>>, first: nat,
                      decoded: bool)
    requires m.Valid()
  {
    && Book(Ids(still + rest), Slots(still + rest), used, done.Keys, first)
    && FreeOk(used, kvs)
    && ActiveOk(m, log, still, kvs)
    && BatchOk(m, log, rest, kvs, decoded)
    && DoneOk(m, log, done, delivered)
  }

  lemma MidKeep(m: Model, log: Log, still: seq<Request>, rest: seq<Request>, used: seq<bool>, kvs: seq<seq<Token>>,
                done: map<nat, Outcome>, delivered: map<nat, seq<Token>>, first: nat, decoded: bool, r': Request)
    requires m.Valid() && rest != [] && Mid(m, log, still, rest, used, kvs, done, delivered, first, decoded)
    requires r'.id == rest[0].id && r'.seqId == rest[0].seqId
    requires Underway(m, r', log[r'.id]) && HoldsFront(r', kvs[r'.seqId])
    ensures Mid(m, log, still + [r'], rest[1..], used, kvs, done, delivered, first, decoded)
  {
    hide Solo, Book, Underway, HoldsFront, Fulfils;
    var before, after := still + rest, still + [r'] + rest[1..];
    assert Ids(after) == Ids(before) && Slots(after) == Slots(before);
  }

  lemma MidRetire(m: Model, log: Log, still: seq<Request>, rest: seq<Request>, used: seq<bool>, kvs: seq<seq<Token>>,
                  done: map<nat, Outcome>, delivered: map<nat, seq<Token>>, first: nat, decoded: bool,
                  outcome: Outcome, what: seq<Token>)
    requires m.Valid() && rest != [] && Mid(m, log, still, rest, used, kvs, done, delivered, first, decoded)
    requires Fulfils(outcome, what, log[rest[0].id].Alone(m))
    ensures var s := rest[0].seqId;
      && 0 <= s < |used|
      && Mid(m, log, still, rest[1..], used[s := false], kvs[s := []], done[rest[0].id := outcome],
             delivered[rest[0].id := what], first, decoded)
  {
    hide Solo, Fulfils, HoldsFront, Book, Underway;
    var all, k, s, id := still + rest, |still|, rest[0].seqId, rest[0].id;
    UnderwayBasics(m, rest[0], log[id]);
    BookRetire(Ids(all), Slots(all), used, done.Keys, first, k);
    assert Ids(all)[k] == id && Slots(all)[k] == s;
    var left := still + rest[1..];
    assert Ids(left) == Without(Ids(all), k);
    assert Slots(left) == Without(Slots(all), k);
    assert done[id := outcome].Keys == done.Keys + {id};
    OthersApart(all, used, done.Keys, first, k);
    forall i | 0 <= i < |still| ensures still[i].seqId != s { assert all[i] == still[i]; }
    forall i | 0 <= i < |rest[1..]| ensures rest[1..][i].seqId != s { assert all[k + 1 + i] == rest[1..][i]; }
  }

  lemma UnderwayBasics(m: Model, r: Request, sub: Submission)
    requires m.Valid() && Underway(m, r, sub)
    ensures sub.Valid(m) && r.job == sub.job && r.history != [] && r.promptLen <= |r.history| <= m.nCtx
  {
    hide Solo;
  }

  /** Whatever a request has delivered so far is the start of its solo run. */
  lemma DeliveredSoFar(m: Model, r: Request, sub: Submission)
    requires m.Valid() && Underway(m, r, sub)
    ensures Fulfils(BackendFailed, r.history[r.promptLen..], sub.Alone(m))
  {
    hide Solo;
  }

  lemma OthersApart(rs: seq<Request>, used: seq<bool>, done: set<nat>, first: nat, k: nat)
    requires Book(Ids(rs), Slots(rs), used, done, first) && k < |rs|
    ensures forall i :: 0 <= i < |rs| && i != k ==> rs[i].seqId != rs[k].seqId
  {
    forall i | 0 <= i < |rs| && i != k
      ensures rs[i].seqId != rs[k].seqId
    {
      assert Slots(rs)[i] == rs[i].seqId && Slots(rs)[k] == rs[k].seqId;
    }
  }

  // ---- The scheduler ------------------------------------------------------

  class Scheduler {
    const backend: SeqBackend
    const nParallel: nat
    var pending: seq<Request>
    var active: seq<Request>
    var slotUsed: seq<bool>
    var done: map<nat, Outcome>
    var nextId: nat
    ghost const born: nat                       // failed passes before this scheduler
    ghost var log: Log                          // what was submitted under each id
    ghost var delivered: map<nat, seq<Token>>   // what each retired request's callback received

    ghost function First(): int
      reads this
    {
      nextId - |pending|
    }

    ghost predicate Valid()
      reads this, backend
    {
      && backend.model.Valid() && nParallel >= 1
      && |slotUsed| == nParallel && |active| <= nParallel
      && First() >= 1
      && (forall id :: 1 <= id < nextId <==> id in log)
      && PendingOk(backend.model, log, pending, First())
      && Book(Ids(active), Slots(active), slotUsed, done.Keys, First())
      && FreeOk(slotUsed, backend.kvs)
      && ActiveOk(backend.model, log, active, backend.kvs)
      && DoneOk(backend.model, log, done, delivered)
      && Spared(done, backend.faults, born)
    }

    constructor (backend: SeqBackend, nParallel: nat)
      requires nParallel >= 1 && backend.model.Valid() && backend.kvs == seq(nParallel, _ => [])
      ensures Valid() && this.backend == backend && this.nParallel == nParallel
      ensures pending == [] && active == [] && done == map[] && log == map[] && nextId == 1
      ensures born == backend.faults
    {
      this.backend, this.nParallel, this.born := backend, nParallel, backend.faults;
      pending, active, slotUsed := [], [], seq(nParallel, _ => false);
      done, nextId, log, delivered := map[], 1, map[], map[];
    }

    ghost function Remaining(): nat
      reads this
    {
      TotalCost(pending) + TotalCost(active)
    }

    method Submit(prompt: seq<Token>, job: Job) returns (id: Option<nat>)
      requires Valid() && job.cfg.Valid()
      modifies `pending, `nextId, `log
      ensures Valid()
      ensures id.Some? <==> 1 <= |prompt| <= backend.model.nCtx
      ensures id.None? ==> pending == old(pending) && nextId == old(nextId) && log == old(log)
      ensures id.Some? ==> id.value == old(nextId) && nextId == old(nextId) + 1
      ensures id.Some? ==> log == old(log)[id.value := Submission(prompt, job)] && id.value !in old(log)
      ensures id.Some? ==> pending == old(pending) + [Request(id.value, job, prompt, |prompt|, 0, 0, -1, 0, true)]
      ensures id.Some? ==> Remaining() == old(Remaining()) + Max(1, job.cfg.maxTokens)
    {
      hide Solo, Underway, HoldsFront, Fulfils, Book, TotalCost;
      if prompt == [] || |prompt| > backend.model.nCtx { return None; }
      var r := Request(nextId, job, prompt, |prompt|, 0, 0, -1, 0, true);
      TotalCostConcat(pending, [r]);
      SingleCost(r, r);
      id := Some(nextId);
      log := log[nextId := Submission(prompt, job)];
      nextId := nextId + 1;
      pending := pending + [r];
    }

    /** The first active request with this very prompt. */
    method FindDonor(prompt: seq<Token>) returns (donor: Option<nat>)
      requires Valid()
      ensures forall i :: 0 <= i < |active| ==> active[i].promptLen <= |active[i].history|
      ensures donor.Some? ==>
        donor.value < |active| && active[donor.value].history[..active[donor.value].promptLen] == prompt
      ensures donor.None? ==> forall i :: 0 <= i < |active| ==> active[i].history[..active[i].promptLen] != prompt
    {
      hide Solo, Underway, HoldsFront, Waiting, Fulfils, Book;
      forall i | 0 <= i < |active| ensures active[i].promptLen <= |active[i].history| {
        UnderwayBasics(backend.model, active[i], log[active[i].id]);
      }
      for i := 0 to |active|
        invariant forall j :: 0 <= j < i ==> active[j].history[..active[j].promptLen] != prompt
      {
        if active[i].promptLen == |prompt| && active[i].history[..|prompt|] == prompt { return Some(i); }
      }
      return None;
    }

    method FreeSlot() returns (s: nat)
      requires Valid() && |active| < nParallel
      ensures s < |slotUsed| && !slotUsed[s]
    {
      hide Solo, Underway, HoldsFront, Waiting, Fulfils;
      s := 0;
      while s < |slotUsed|
        invariant s <= |slotUsed| && forall q :: 0 <= q < s ==> slotUsed[q]
      {
        if !slotUsed[s] { return; }
        s := s + 1;
      }
      Pigeonhole(Slots(active), |slotUsed|);
    }

    /** Fills slot s for the queue head: empty, or the donor's KV of the prompt
        without its last token. */
    method Seat(head: Request, s: nat, donor: Option<nat>) returns (r: Request)
      requires Valid() && s < |slotUsed| && !slotUsed[s]
      requires Waiting(backend.model, head, Submission(head.history, head.job))
      requires donor.Some? ==> donor.value < |active| && |head.history| > 1
      requires donor.Some? ==> active[donor.value].history[..active[donor.value].promptLen] == head.history
      requires donor.Some? ==> active[donor.value].nPast >= active[donor.value].promptLen
      modifies backend`kvs
      ensures |backend.kvs| == |old(backend.kvs)|
      ensures forall q :: 0 <= q < |backend.kvs| && q != s ==> backend.kvs[q] == old(backend.kvs)[q]
      ensures r == head.(seqId := s, nPast := r.nPast, needsPrefill := r.needsPrefill) && r.nPast <= |r.history|
      ensures HoldsFront(r, backend.kvs[s])
      ensures if donor.Some? then r.nPast == |head.history| - 1 && !r.needsPrefill else r.nPast == 0 && r.needsPrefill
    {
      hide Solo, Book;
      r := head.(seqId := s);
      if donor.Some? {
        var shared := r.promptLen - 1;
        var d := active[donor.value];
        ghost var kv := backend.kvs[d.seqId];
        assert HoldsFront(d, kv);
        assert kv[..shared] == d.history[..d.promptLen][..shared] == r.history[..shared];
        backend.CopySeq(d.seqId, s, shared);
        r := r.(nPast := shared, needsPrefill := false);
      }
    }

    /** Moves the queue head into a free slot. */
    method Admit(donor: Option<nat>)
      requires Valid() && pending != [] && |active| < nParallel
      requires donor.Some? ==> donor.value < |active| && |pending[0].history| > 1
      requires donor.Some? ==> active[donor.value].history[..active[donor.value].promptLen] == pending[0].history
      requires donor.Some? ==> active[donor.value].nPast >= active[donor.value].promptLen
      modifies `pending, `active, `slotUsed, backend`kvs
      ensures Valid()
      ensures pending == old(pending)[1..] && |active| == |old(active)| + 1 && active[..|old(active)|] == old(active)
      ensures Seated(active[|old(active)|], old(pending)[0])
      ensures var r := active[|old(active)|];
        if donor.Some? then r.nPast == |r.history| - 1 && !r.needsPrefill else r.nPast == 0 && r.needsPrefill
      ensures Remaining() == old(Remaining())
    {
      hide Solo, Book, Underway, HoldsFront, Fulfils, Cost, TotalCost;
      var s := FreeSlot();
      ghost var m, rs, kvs, first := backend.model, active, backend.kvs, First();
      var head := pending[0];
      var r := Seat(head, s, donor);
      ApartFrom(rs, slotUsed, done.Keys, first, s);
      StillOk(m, log, rs, kvs, backend.kvs, s);
      BookAdmit(Ids(rs), Slots(rs), slotUsed, done.Keys, first, s);
      AdmittedOk(m, log[r.id], head, r, backend.kvs[s]);
      TotalCostConcat([head], pending[1..]);
      TotalCostConcat(rs, [r]);
      SingleCost(head, r);
      assert [head] + pending[1..] == pending;
      pending, active, slotUsed := pending[1..], active + [r], slotUsed[s := true];
      assert Ids(active) == Ids(rs) + [first] && Slots(active) == Slots(rs) + [s];
    }

    static lemma ApartFrom(rs: seq<Request>, used: seq<bool>, done: set<nat>, first: nat, s: nat)
      requires Book(Ids(rs), Slots(rs), used, done, first) && s < |used| && !used[s]
      ensures forall i :: 0 <= i < |rs| ==> rs[i].seqId != s
    {
      forall i | 0 <= i < |rs| ensures rs[i].seqId != s { assert Slots(rs)[i] == rs[i].seqId; }
    }

    static lemma SingleCost(a: Request, b: Request)
      requires a.job == b.job && a.emitted == b.emitted
      ensures TotalCost([a]) == TotalCost([b]) == Cost(a)
    {
      assert [a][..0] == [] && [b][..0] == [];
    }

    static lemma AdmittedOk(m: Model, sub: Submission, head: Request, r: Request, kv: seq<Token>)
      requires m.Valid() && Waiting(m, head, sub)
      requires r == head.(seqId := r.seqId, nPast := r.nPast, needsPrefill := r.needsPrefill)
      requires HoldsFront(r, kv)
      ensures Underway(m, r, sub)
    {
      hide Solo;
      var alone := sub.Alone(m);
      assert r.history[r.promptLen..] == [];
      assert [] + alone.delivered == alone.delivered;
    }

    /** Writing a slot nobody else uses disturbs nobody else. */
    static lemma StillOk(m: Model, log: Log, rs: seq<Request>, kvs: seq<seq<Token>>, kvs': seq<seq<Token>>, s: nat)
      requires m.Valid() && ActiveOk(m, log, rs, kvs) && s < |kvs|
      requires |kvs'| == |kvs| && forall q :: 0 <= q < |kvs| && q != s ==> kvs'[q] == kvs[q]
      requires forall i :: 0 <= i < |rs| ==> rs[i].seqId != s
      ensures ActiveOk(m, log, rs, kvs')
    {
    }

    /** Admits the queue head unless it must wait: for space, or for a donor
        still prefilling the same prompt. An empty active set never makes it wait. */
    method TryAdmit() returns (admitted: bool)
      requires Valid() && pending != [] && |active| < nParallel
      modifies `pending, `active, `slotUsed, backend`kvs
      ensures Valid() && Remaining() == old(Remaining())
      ensures !admitted ==> pending == old(pending) && active == old(active)
      ensures !admitted ==> HeadWaits(backend.model.nCtx, active, pending)
      ensures admitted ==> pending == old(pending)[1..] && old(active) < active && |active| == |old(active)| + 1
      ensures admitted ==> CellsUsed(active) <= backend.model.nCtx && Seated(active[|old(active)|], old(pending)[0])
      ensures old(active) == [] ==> admitted
      ensures admitted ==>
        var r, shared := active[|old(active)|], old(|pending[0].history| > 1 && Shared(active, pending[0].history));
        if shared then r.nPast == |r.history| - 1 && !r.needsPrefill else r.nPast == 0 && r.needsPrefill
    {
      hide Solo, Book, Fulfils, TotalCost, Cost, Underway, HoldsFront;
      var need := |pending[0].history|;
      assert need <= backend.model.nCtx;
      if CellsUsed(active) + need > backend.model.nCtx { return false; }
      var donor := None;
      if need > 1 {
        donor := FindDonor(pending[0].history);
      }
      if donor.Some? && active[donor.value].nPast < active[donor.value].promptLen { return false; }
      ghost var before := active;
      Admit(donor);
      assert active[..|active| - 1] == before;
      return true;
    }

    method AdmitAll()
      requires Valid()
      modifies `pending, `active, `slotUsed, backend`kvs
      ensures Valid() && Remaining() == old(Remaining())
      ensures Moved(old(active), old(pending), active, pending)
      ensures old(active) == [] && old(pending) != [] ==> active != []
      ensures active != old(active) ==> CellsUsed(active) <= backend.model.nCtx
      ensures pending == [] || |active| >= nParallel || HeadWaits(backend.model.nCtx, active, pending)
    {
      hide *;
      NoneMoved(active, pending);
      while pending != [] && |active| < nParallel
        invariant Valid() && Remaining() == old(Remaining())
        invariant Moved(old(active), old(pending), active, pending)
        invariant active != old(active) ==> CellsUsed(active) <= backend.model.nCtx
        invariant active == old(active) ==> pending == old(pending)
        decreases |pending|
      {
        ghost var seated, queued := active, pending;
        var admitted := TryAdmit();
        if !admitted { return; }
        MovedMore(old(active), old(pending), seated, queued, active, pending);
        StillLonger(old(active), old(pending), active, pending);
      }
      assert nParallel >= 1 by { Sane(); }
    }

    static lemma StillLonger(before: seq<Request>, queue: seq<Request>, active: seq<Request>, pending: seq<Request>)
      requires Moved(before, queue, active, pending)
      ensures active == before ==> pending == queue
      ensures queue == [] ==> active == before && pending == []
      ensures before != [] ==> active != []
    {
      hide Seated;
    }

    lemma Sane()
      requires Valid()
      ensures nParallel >= 1 && backend.model.Valid()
    {
    }

    method Finish(r: Request, outcome: Outcome, ghost what: seq<Token>)
      requires 0 <= r.seqId < |backend.kvs| == |slotUsed|
      modifies `slotUsed, `done, `delivered, backend`kvs
      ensures backend.kvs == old(backend.kvs)[r.seqId := []]
      ensures slotUsed == old(slotUsed)[r.seqId := false]
      ensures done == old(done)[r.id := outcome] && delivered == old(delivered)[r.id := what]
    {
      backend.ClearSeq(r.seqId);
      slotUsed := slotUsed[r.seqId := false];
      done, delivered := done[r.id := outcome], delivered[r.id := what];
    }

    /** One slice per active request: the whole prompt, or the newest token. */
    method Slices() returns (slices: seq<Slice>)
      requires Valid()
      ensures |slices| == |active| && DistinctSeqs(slices, |backend.kvs|)
      ensures forall i :: 0 <= i < |slices| ==>
        slices[i].seqId == active[i].seqId && Feeds(slices[i], active[i], backend.kvs[active[i].seqId])
    {
      hide Solo, Fulfils, Book, Underway, HoldsFront, Feeds, SliceFor, Waiting;
      slices := [];
      for i := 0 to |active|
        invariant |slices| == i
        invariant forall j :: 0 <= j < i ==> slices[j].seqId == active[j].seqId
        invariant forall j :: 0 <= j < i ==> Feeds(slices[j], active[j], backend.kvs[active[j].seqId])
      {
        var r := active[i];
        UnderwayBasics(backend.model, r, log[r.id]);
        SliceFeeds(r, backend.kvs[r.seqId]);
        slices := slices + [SliceFor(r)];
      }
      forall i, j | 0 <= i < j < |slices|
        ensures slices[i].seqId != slices[j].seqId
      {
        OthersApart(active, slotUsed, done.Keys, First(), j);
      }
    }

    /** Everything Valid() says that does not concern the active set. */
    ghost predicate Frame()
      reads this, backend
    {
      && backend.model.Valid() && nParallel >= 1
      && |slotUsed| == nParallel && First() >= 1
      && (forall id :: 1 <= id < nextId <==> id in log)
      && PendingOk(backend.model, log, pending, First())
      && Spared(done, backend.faults, born)
    }

    ghost predicate InBatch(still: seq<Request>, rest: seq<Request>, decoded: bool)
      requires backend.model.Valid() && First() >= 0
      reads this, backend
    {
      Mid(backend.model, log, still, rest, slotUsed, backend.kvs, done, delivered, First(), decoded)
    }

    /** Samples one token per request and retires the finished ones. A callback
        that throws ends its own request only. */
    method Collect(slices: seq<Slice>, logits: seq<seq<real>>)
      requires Frame() && InBatch([], active, true) && |active| <= nParallel
      requires |slices| == |logits| == |active|
      requires AllServed(backend.model, active, slices, logits)
      modifies `active, `slotUsed, `done, `delivered, backend`kvs
      ensures Valid() && TotalCost(active) + |old(active)| <= TotalCost(old(active))
      ensures active == Kept(backend.model, old(active))
      ensures Onward(old(done), old(delivered), done, delivered, false)
    {
      NothingNew(done, delivered);
      NoneSettled(backend.model, active, slices, logits);
      var still: seq<Request> := [];
      ghost var rs, rest, was, told := active, active, done, delivered;
      var i := 0;
      hide *;
      while i < |active|
        invariant 0 <= i <= |active| && active == rs && Frame() && InBatch(still, rest, true)
        invariant Collecting(backend.model, rs, slices, logits, i, still, rest)
        invariant Onward(was, told, done, delivered, false)
      {
        still, rest := CollectNext(i, still, rest, slices, logits, was, told);
        i := i + 1;
      }
      AllSettled(backend.model, rs, slices, logits, still, rest);
      GoOnWith(still);
    }

    /** The i-th request's token. */
    method CollectNext(i: nat, still0: seq<Request>, ghost rest0: seq<Request>, slices: seq<Slice>,
                       logits: seq<seq<real>>, ghost was: map<nat, Outcome>, ghost told: map<nat, seq<Token>>)
      returns (still: seq<Request>, ghost rest: seq<Request>)
      requires Frame() && InBatch(still0, rest0, true) && i < |active| == |slices| == |logits|
      requires Collecting(backend.model, active, slices, logits, i, still0, rest0)
      requires Onward(was, told, done, delivered, false)
      modifies `slotUsed, `done, `delivered, backend`kvs
      ensures Frame() && InBatch(still, rest, true)
      ensures Collecting(backend.model, active, slices, logits, i + 1, still, rest)
      ensures Onward(was, told, done, delivered, false)
    {
      hide *;
      NextUnsettled(backend.model, active, slices, logits, i, still0, rest0);
      ghost var noted, heard := done, delivered;
      still := CollectOne(active[i], still0, rest0, slices[i], logits[i]);
      OnwardTwice(was, told, noted, heard, done, delivered, false, false);
      OneMoreSettled(backend.model, active, slices, logits, i, still0, rest0, still);
      rest := rest0[1..];
    }

    method GoOnWith(still: seq<Request>)
      requires Frame() && InBatch(still, [], true) && |still| <= nParallel
      modifies `active
      ensures Valid() && active == still
    {
      hide Mid;
      active := still;
      BatchDone(still);
    }

    /** The pass gave every request the logits of its history. */
    static ghost predicate AllServed(m: Model, rs: seq<Request>, slices: seq<Slice>, logits: seq<seq<real>>) {
      && |rs| == |slices| == |logits|
      && forall i :: 0 <= i < |rs| ==>
          logits[i] == m.logits(rs[i].history) && rs[i].nPast + |slices[i].tokens| == |rs[i].history|
    }

    /** The first i have been settled, `still` are those of them that go on and `rest`
        the others. */
    static ghost predicate Collecting(m: Model, rs: seq<Request>, slices: seq<Slice>, logits: seq<seq<real>>, i: nat,
                                      still: seq<Request>, rest: seq<Request>)
    {
      && m.Valid() && i <= |rs| && rest == rs[i..] && |still| <= i && AllServed(m, rs, slices, logits)
      && still == Kept(m, rs[..i]) && TotalCost(still) + i <= TotalCost(rs[..i])
    }

    static lemma NoneSettled(m: Model, rs: seq<Request>, slices: seq<Slice>, logits: seq<seq<real>>)
      requires m.Valid() && AllServed(m, rs, slices, logits)
      ensures Collecting(m, rs, slices, logits, 0, [], rs)
    {
    }

    static lemma NextUnsettled(m: Model, rs: seq<Request>, slices: seq<Slice>, logits: seq<seq<real>>, i: nat,
                               still: seq<Request>, rest: seq<Request>)
      requires Collecting(m, rs, slices, logits, i, still, rest) && i < |rs| == |slices| == |logits|
      ensures rest != [] && rest[0] == rs[i]
      ensures logits[i] == m.logits(rs[i].history) && rs[i].nPast + |slices[i].tokens| == |rs[i].history|
    {
      hide Kept, TotalCost;
    }

    static lemma OneMoreSettled(m: Model, rs: seq<Request>, slices: seq<Slice>, logits: seq<seq<real>>, i: nat,
                                before: seq<Request>, rest: seq<Request>, still: seq<Request>)
      requires Collecting(m, rs, slices, logits, i, before, rest) && i < |rs| && rest != []
      requires TotalCost(still) + 1 <= TotalCost(before) + Cost(rs[i])
      requires still == before + if SettledBy(m, rs[i]).Keep? then [SettledBy(m, rs[i]).r] else []
      ensures Collecting(m, rs, slices, logits, i + 1, still, rest[1..])
    {
      hide SettledBy, Cost, AllServed, TotalCost, Kept;
      CostFront(rs, i);
      KeptStep(m, rs, i);
    }

    static lemma AllSettled(m: Model, rs: seq<Request>, slices: seq<Slice>, logits: seq<seq<real>>, still: seq<Request>,
                            rest: seq<Request>)
      requires Collecting(m, rs, slices, logits, |rs|, still, rest)
      ensures still == Kept(m, rs) && TotalCost(still) + |rs| <= TotalCost(rs) && rest == [] && |still| <= |rs|
    {
      hide Kept, TotalCost, AllServed;
      assert rs[..|rs|] == rs;
    }

    /** One request's token. */
    method CollectOne(r: Request, still0: seq<Request>, ghost rest: seq<Request>, slice: Slice, logits: seq<real>)
      returns (still: seq<Request>)
      requires Frame() && rest != [] && rest[0] == r && InBatch(still0, rest, true)
      requires logits == backend.model.logits(r.history) && r.nPast + |slice.tokens| == |r.history|
      modifies `slotUsed, `done, `delivered, backend`kvs
      ensures Frame() && InBatch(still, rest[1..], true)
      ensures TotalCost(still) + 1 <= TotalCost(still0) + Cost(r) && |still| <= |still0| + 1
      ensures var settled := SettledBy(backend.model, r); still == still0 + if settled.Keep? then [settled.r] else []
      ensures Onward(old(done), old(delivered), done, delivered, false)
    {
      hide Mid, Solo, Underway, HoldsFront, Fulfils, Settle, TotalCost, Cost, PendingOk, Onward, Spared, Model.Valid;
      NothingNew(done, delivered);
      still := still0;
      BatchHead(still, rest);
      SettleFollowsSolo(backend.model, r, log[r.id], |slice.tokens|);
      var settled := Settle(backend.model, r, logits, |slice.tokens|);
      match settled {
        case Keep(r') =>
          MidKeep(backend.model, log, still, rest, slotUsed, backend.kvs, done, delivered, First(), true, r');
          KeptCost(backend.model, still, r, r', log[r.id]);
          still := still + [r'];
        case Retire(outcome, what) =>
          MidRetire(backend.model, log, still, rest, slotUsed, backend.kvs, done, delivered, First(), true, outcome,
                    what);
          OneMoreDone(done, delivered, r.id, outcome, what, backend.faults, born);
          CostsOne(r);
          Finish(r, outcome, what);
      }
    }

    static lemma CostsOne(r: Request)
      ensures Cost(r) >= 1
    {
    }

    static lemma NoCells()
      ensures CellsUsed([]) == 0
    {
    }

    static lemma NoneKept(m: Model)
      requires m.Valid()
      ensures Kept(m, []) == []
    {
    }

    lemma BatchHead(still: seq<Request>, rest: seq<Request>)
      requires Frame() && rest != [] && InBatch(still, rest, true)
      ensures var r := rest[0];
        && r.id in log && Underway(backend.model, r, log[r.id]) && r.job.cfg.Valid() && r.promptLen <= |r.history|
        && 0 <= r.seqId < |backend.kvs| == |slotUsed| && backend.kvs[r.seqId] == r.history && r.id !in done
        && backend.model.logits(r.history) != []
    {
      hide Solo, Fulfils, HoldsFront, Underway;
      UnderwayBasics(backend.model, rest[0], log[rest[0].id]);
      NotDoneYet(still, rest);
    }

    lemma NotDoneYet(still: seq<Request>, rest: seq<Request>)
      requires First() >= 0 && rest != []
      requires Book(Ids(still + rest), Slots(still + rest), slotUsed, done.Keys, First())
      ensures rest[0].id !in done
    {
      assert Ids(still + rest)[|still|] == rest[0].id;
    }

    lemma BatchDone(still: seq<Request>)
      requires Frame() && InBatch(still, [], true) && active == still && |still| <= nParallel
      ensures Valid()
    {
      hide Solo, Book, Fulfils, HoldsFront, Underway;
      assert still + [] == still;
    }

    static lemma CostFront(rs: seq<Request>, i: nat)
      requires i < |rs|
      ensures TotalCost(rs[..i + 1]) == TotalCost(rs[..i]) + Cost(rs[i]) && Cost(rs[i]) >= 1
    {
      assert rs[..i + 1][..i] == rs[..i];
    }

    static lemma KeptCost(m: Model, still: seq<Request>, r: Request, r': Request, sub: Submission)
      requires m.Valid() && Underway(m, r, sub) && Underway(m, r', sub) && r'.emitted == r.emitted + 1
      ensures TotalCost(still + [r']) + 1 == TotalCost(still) + Cost(r)
    {
      hide Solo;
      assert (still + [r'])[..|still|] == still;
    }

    /** A failed pass takes down what was in flight, and nothing else. */
    method FailAll()
      requires Frame() && InBatch([], active, false) && backend.faults > born
      modifies `active, `slotUsed, `done, `delivered, backend`kvs
      ensures Valid() && active == []
      ensures TakenDown(old(active), old(done), done)
      ensures Onward(old(done), old(delivered), done, delivered, true)
    {
      hide Mid, Solo, Underway, HoldsFront, Fulfils, Waiting, Onward, Spared, TakenDown;
      NoneDown(done);
      NothingNew(done, delivered);
      var i := 0;
      assert active[0..] == active;
      while i < |active|
        invariant 0 <= i <= |active| && active == old(active)
        invariant Frame() && InBatch([], active[i..], false)
        invariant TakenDown(active[..i], old(done), done)
        invariant Onward(old(done), old(delivered), done, delivered, i > 0)
      {
        var r := active[i];
        ghost var rest := active[i..];
        assert rest[0] == r && rest[1..] == active[i + 1..] && active[..i + 1] == active[..i] + [r];
        FailHead(rest);
        ghost var what := r.history[r.promptLen..];
        DeliveredSoFar(backend.model, r, log[r.id]);
        MidRetire(backend.model, log, [], rest, slotUsed, backend.kvs, done, delivered, First(), false, BackendFailed,
                  what);
        OneMoreDown(active[..i], r, old(done), done);
        OneMoreDone(done, delivered, r.id, BackendFailed, what, backend.faults, born);
        OnwardTwice(old(done), old(delivered), done, delivered, done[r.id := BackendFailed], delivered[r.id := what],
                    i > 0, true);
        Finish(r, BackendFailed, what);
        i := i + 1;
      }
      assert active[..i] == active && active[i..] == [];
      OnwardTwice(old(done), old(delivered), done, delivered, done, delivered, i > 0, true);
      active := [];
      FailDone();
    }

    lemma FailHead(rest: seq<Request>)
      requires Frame() && rest != [] && InBatch([], rest, false)
      ensures var r := rest[0];
        && r.id in log && Underway(backend.model, r, log[r.id]) && r.promptLen <= |r.history|
        && 0 <= r.seqId < |backend.kvs| == |slotUsed| && r.id !in done
    {
      hide Solo, Fulfils, HoldsFront, Underway;
      UnderwayBasics(backend.model, rest[0], log[rest[0].id]);
      NotDoneYet([], rest);
    }

    lemma FailDone()
      requires Frame() && active == [] && InBatch([], [], false)
      ensures Valid()
    {
      hide Solo, Book, Fulfils, HoldsFront, Underway;
      assert [] + active == active;
    }

    /** The batched forward pass: every active KV is completed to its history,
        or nothing is known of the active KVs any more. */
    method DecodeAll() returns (ok: bool, slices: seq<Slice>, logits: seq<seq<real>>)
      requires Valid()
      modifies backend
      ensures Frame() && InBatch([], active, ok) && |active| <= nParallel
      ensures ok ==> |slices| == |logits| == |active|
      ensures ok ==> forall i :: 0 <= i < |active| ==>
        && logits[i] == backend.model.logits(active[i].history)
        && active[i].nPast + |slices[i].tokens| == |active[i].history|
      ensures backend.faults == old(backend.faults) + (if ok then 0 else 1) && (!ok ==> backend.faults > born)
    {
      hide Solo, Book, Underway, HoldsFront, Fulfils, Waiting;
      slices := Slices();
      ghost var kvs := backend.kvs;
      assert [] + active == active;
      forall s | 0 <= s < |slotUsed| && !slotUsed[s]
        ensures forall i :: 0 <= i < |slices| ==> slices[i].seqId != s
      {
        ApartFrom(active, slotUsed, done.Keys, First(), s);
      }
      assert forall i :: 0 <= i < |slices| ==> slices[i].posStart == |kvs[slices[i].seqId]|;
      ok, logits := backend.DecodeSeqs(slices);
    }

    /** Decode everything in one pass, sample one token each. */
    method Pass() returns (ok: bool)
      requires Valid() && active != []
      modifies `active, `slotUsed, `done, `delivered, backend
      ensures Valid() && Remaining() < old(Remaining())
      ensures active == if ok then Kept(backend.model, old(active)) else []
      ensures Onward(old(done), old(delivered), done, delivered, !ok)
      ensures !ok ==> TakenDown(old(active), old(done), done)
      ensures backend.faults == old(backend.faults) + if ok then 0 else 1
    {
      hide Onward, TakenDown, Valid, Frame, InBatch, Kept;
      var slices, logits;
      ok, slices, logits := DecodeAll();
      if ok {
        Collect(slices, logits);
      } else {
        FailAll();
        CostsSomething(old(active));
      }
    }

    static lemma CostsSomething(rs: seq<Request>)
      requires rs != []
      ensures TotalCost([]) < TotalCost(rs)
    {
    }

    /** Admit, then one pass. Each step that finds work uses some of it up,
        whatever fails; the requests that go on are those of the batch that do. */
    method Step() returns (more: bool, ghost admitted: seq<Request>, ghost ok: bool)
      requires Valid()
      modifies this, backend
      ensures Valid() && log == old(log) && nextId == old(nextId)
      ensures more <==> active != [] || pending != []
      ensures if old(active == [] && pending == []) then !more else Remaining() < old(Remaining())
      ensures Moved(old(active), old(pending), admitted, pending)
      ensures admitted != old(active) ==> CellsUsed(admitted) <= backend.model.nCtx
      ensures backend.model.Valid() && active == if ok then Kept(backend.model, admitted) else []
      ensures CellsUsed(active) <= Foreseen(backend.model.nCtx, admitted)
      ensures Onward(old(done), old(delivered), done, delivered, !ok)
      ensures !ok ==> TakenDown(admitted, old(done), done)
      ensures backend.faults == old(backend.faults) + if ok then 0 else 1
    {
      hide *;
      NothingNew(done, delivered);
      Sane();
      NoneKept(backend.model);
      NoCells();
      AdmitAll();
      admitted, ok := active, true;
      StillLonger(old(active), old(pending), active, pending);
      if active == [] {
        more := pending != [];
        return;
      }
      ok := Pass();
      KeptCells(backend.model, admitted);
      more := active != [] || pending != [];
    }

    /** Drains everything, within as many steps as there are tokens to give. */
    method RunUntilIdle() returns (ghost steps: nat)
      requires Valid()
      modifies this, backend
      ensures Valid() && pending == [] && active == [] && log == old(log)
      ensures done.Keys == log.Keys
      ensures steps <= Max(1, old(Remaining()))
      ensures Onward(old(done), old(delivered), done, delivered, backend.faults > old(backend.faults))
      ensures backend.faults >= old(backend.faults)
    {
      hide Valid, Remaining, Onward;
      NothingNew(done, delivered);
      var more := true;
      steps := 0;
      ghost var left := Remaining();
      while more
        invariant Valid() && log == old(log)
        invariant !more ==> pending == [] && active == []
        invariant Remaining() == left && (more && steps > 0 ==> active != [] || pending != [])
        invariant more ==> steps + left <= old(Remaining())
        invariant steps <= Max(1, old(Remaining()))
        invariant Onward(old(done), old(delivered), done, delivered, backend.faults > old(backend.faults))
        invariant backend.faults >= old(backend.faults)
        decreases more, left
      {
        ghost var admitted, ok;
        ghost var before, told, failed := done, delivered, backend.faults > old(backend.faults);
        more, admitted, ok := Step();
        OnwardTwice(old(done), old(delivered), before, told, done, delivered, failed, !ok);
        steps, left := steps + 1, Remaining();
      }
      AllDone();
    }

    lemma AllDone()
      requires Valid() && pending == [] && active == []
      ensures done.Keys == log.Keys
    {
      hide Solo, Fulfils;
    }

    /** Every id ever issued is pending, active or done, and only one of these. */
    lemma ExactlyOnePlace(id: nat)
      requires Valid()
      ensures id in log <==> id in Ids(pending) || id in Ids(active) || id in done
      ensures !(id in Ids(pending) && id in Ids(active))
      ensures !(id in Ids(pending) && id in done)
      ensures !(id in Ids(active) && id in done)
    {
      hide Solo, Fulfils, Underway, HoldsFront, Waiting;
      if First() <= id < nextId {
        assert Ids(pending)[id - First()] == id;
      }
    }

    /** Non-interference: in every reachable state each request that is done was
        served its solo run (a prefix of it if the backend failed under it, which
        takes a failing pass), and each request under way has been served the start of its solo run. */
    lemma EachAsIfAlone(id: nat)
      requires Valid()
      ensures id in done ==>
        id in log && id in delivered && log[id].Valid(backend.model) &&
        Fulfils(done[id], delivered[id], log[id].Alone(backend.model))
      ensures id in done && backend.faults == born ==>
        log[id].Alone(backend.model) == Run(delivered[id], done[id] == CallbackThrew)
      ensures forall i :: 0 <= i < |active| && active[i].id == id ==>
        id in log && log[id].Valid(backend.model) && active[i].promptLen <= |active[i].history| &&
        active[i].history[active[i].promptLen..] <= log[id].Alone(backend.model).delivered
    {
      hide Solo, Book, HoldsFront;
    }

    /** No sequence outgrows the context. */
    lemma KvWithinContext(s: nat)
      requires Valid() && s < |backend.kvs|
      ensures |backend.kvs[s]| <= backend.model.nCtx
    {
      hide Solo, Fulfils;
      if slotUsed[s] {
        assert s in Slots(active);
        var i :| 0 <= i < |active| && active[i].seqId == s;
        assert HoldsFront(active[i], backend.kvs[s]);
        UnderwayBasics(backend.model, active[i], log[active[i].id]);
      }
    }
  }

  // ---- The shared budget --------------------------------------------------

  /** Neither limit ends the request with its next token. */
  predicate CanGoOn(nCtx: nat, r: Request) {
    r.emitted + 1 < r.job.cfg.maxTokens && |r.history| + 1 < nCtx
  }

  /** The requests that can still go on. */
  function Able(nCtx: nat, rs: seq<Request>): seq<Request> {
    if rs == [] then []
    else Able(nCtx, rs[..|rs| - 1]) + if CanGoOn(nCtx, rs[|rs| - 1]) then [rs[|rs| - 1]] else []
  }

  /** What they will hold if they all do. */
  function Foreseen(nCtx: nat, rs: seq<Request>): nat { CellsUsed(Able(nCtx, rs)) + |Able(nCtx, rs)| }

  lemma CellsConcat(a: seq<Request>, r: Request)
    ensures CellsUsed(a + [r]) == CellsUsed(a) + |r.history|
  {
    assert (a + [r])[..|a|] == a;
  }

  /** Only a request that can go on does, and it takes one more cell. */
  lemma KeptIsAble(m: Model, r: Request)
    requires m.Valid() && SettledBy(m, r).Keep?
    ensures CanGoOn(m.nCtx, r) && |SettledBy(m, r).r.history| == |r.history| + 1
  {
    hide Pick;
  }

  /** After any step the active set holds at most what could be foreseen. */
  lemma {:induction false} KeptCells(m: Model, rs: seq<Request>)
    requires m.Valid()
    ensures CellsUsed(Kept(m, rs)) <= Foreseen(m.nCtx, rs)
    decreases |rs|
  {
    hide SettledBy, CanGoOn;
    if rs == [] {
    } else {
      var front, r := rs[..|rs| - 1], rs[|rs| - 1];
      KeptCells(m, front);
      CellsConcat(Able(m.nCtx, front), r);
      if SettledBy(m, r).Keep? {
        KeptIsAble(m, r);
        CellsConcat(Kept(m, front), SettledBy(m, r).r);
      } else {
        assert Kept(m, front) + [] == Kept(m, front);
      }
      assert Able(m.nCtx, front) + [] == Able(m.nCtx, front);
    }
  }

  /** The same requests, except for what they hold and who listens. */
  ghost predicate SameShape(a: seq<Request>, b: seq<Request>) {
    && |a| == |b|
    && forall i :: 0 <= i < |a| ==>
        && |a[i].history| == |b[i].history| && a[i].emitted == b[i].emitted
        && a[i].job.cfg.maxTokens == b[i].job.cfg.maxTokens
  }

  lemma {:induction false} SameForeseen(nCtx: nat, a: seq<Request>, b: seq<Request>)
    requires SameShape(a, b)
    ensures Foreseen(nCtx, a) == Foreseen(nCtx, b)
    decreases |a|
  {
    if a == [] {
    } else {
      var k := |a| - 1;
      SameForeseen(nCtx, a[..k], b[..k]);
      CellsConcat(Able(nCtx, a[..k]), a[k]);
      CellsConcat(Able(nCtx, b[..k]), b[k]);
      assert Able(nCtx, a[..k]) + [] == Able(nCtx, a[..k]) && Able(nCtx, b[..k]) + [] == Able(nCtx, b[..k]);
    }
  }

  ghost predicate Underwritten(rs: seq<Request>) {
    forall i :: 0 <= i < |rs| ==>
      rs[i].job.cfg.Valid() && rs[i].promptLen <= |rs[i].history| && rs[i].nPast <= |rs[i].history|
  }

  /** The caller always wants more. */
  ghost predicate Insatiable(r: Request) { forall h :: r.job.callback(h).Continue? }

  /** The requests with callers who always want more. */
  function Eager(rs: seq<Request>): (r: seq<Request>)
    ensures |r| == |rs|
  {
    seq(|rs|, i requires 0 <= i < |rs| => rs[i].(job := rs[i].job.(callback := _ => Continue)))
  }

  /** With a model that never stops and callers who always want more, all that
      can go on do. */
  lemma {:induction false} EagerCells(m: Model, rs: seq<Request>)
    requires m.Valid() && (forall t :: !m.eog(t)) && Underwritten(rs)
    requires forall i :: 0 <= i < |rs| ==> Insatiable(rs[i])
    ensures CellsUsed(Kept(m, rs)) == Foreseen(m.nCtx, rs)
    decreases |rs|
  {
    hide SettledBy, CanGoOn, Insatiable;
    if rs == [] {
    } else {
      var k := |rs| - 1;
      var front, r := rs[..k], rs[k];
      EagerCells(m, front);
      EagerGoesOn(m, r);
      CellsConcat(Able(m.nCtx, front), r);
      var settled := SettledBy(m, r);
      if settled.Keep? { CellsConcat(Kept(m, front), settled.r); }
      assert Kept(m, front) + [] == Kept(m, front) && Able(m.nCtx, front) + [] == Able(m.nCtx, front);
    }
  }

  lemma EagerGoesOn(m: Model, r: Request)
    requires m.Valid() && (forall t :: !m.eog(t)) && Insatiable(r)
    requires r.job.cfg.Valid() && r.promptLen <= |r.history| && r.nPast <= |r.history|
    ensures SettledBy(m, r).Keep? <==> CanGoOn(m.nCtx, r)
    ensures SettledBy(m, r).Keep? ==> |SettledBy(m, r).r.history| == |r.history| + 1
  {
    hide Pick;
  }

  /** The budget survives the next step, whatever the model says and the callers
      want. */
  ghost predicate BudgetIsSafe(nCtx: nat, rs: seq<Request>) {
    forall m: Model, rs': seq<Request> ::
      m.Valid() && m.nCtx == nCtx && SameShape(rs', rs) ==> CellsUsed(Kept(m, rs')) <= nCtx
  }

  /** It does exactly when the requests that can still go on have room for one
      more token each: a condition on lengths alone. */
  lemma BudgetAfterStep(m: Model, rs: seq<Request>)
    requires m.Valid() && Underwritten(rs)
    ensures BudgetIsSafe(m.nCtx, rs) <==> Foreseen(m.nCtx, rs) <= m.nCtx
  {
    hide Kept, Foreseen, CellsUsed;
    if Foreseen(m.nCtx, rs) <= m.nCtx {
      forall m': Model, rs': seq<Request> | m'.Valid() && m'.nCtx == m.nCtx && SameShape(rs', rs)
        ensures CellsUsed(Kept(m', rs')) <= m.nCtx
      {
        KeptCells(m', rs');
        SameForeseen(m.nCtx, rs', rs);
      }
    } else {
      var m' := m.(eog := _ => false);
      assert m'.Valid();
      assert SameShape(Eager(rs), rs);
      assert forall i :: 0 <= i < |rs| ==> Insatiable(Eager(rs)[i]);
      EagerCells(m', Eager(rs));
      SameForeseen(m.nCtx, Eager(rs), rs);
    }
  }

  /** Admission alone does not keep the budget: two prompts of two tokens fill a
      context of four, and with a model that does not stop and callers that want
      more they hold six cells one step later, unless the pass fails. */
  method BudgetOverrun(m: Model, job: Job, p: seq<Token>, q: seq<Token>)
    returns (s: Scheduler, ghost before: seq<Request>)
    requires m.Valid() && m.nCtx == 4 && (forall t :: !m.eog(t)) && |p| == |q| == 2 && p != q
    requires job.cfg.Valid() && job.cfg.maxTokens >= 2 && forall h :: job.callback(h).Continue?
    ensures fresh(s) && s.Valid() && s.backend.model == m && s.nextId == 3
    ensures 1 in s.log && s.log[1].prompt == p && 2 in s.log && s.log[2].prompt == q
    ensures |before| == 2 && before[0].history == p && before[1].history == q && CellsUsed(before) == m.nCtx
    ensures s.backend.faults == 0 ==> s.active == Kept(m, before) && CellsUsed(s.active) == 6
    ensures s.backend.faults > 0 ==> s.active == [] && s.done.Keys == s.log.Keys
  {
    hide *;
    s := TwoAdmitted(m, job, p, q);
    before := s.active;
    EagerCells(m, before);
    ghost var more, admitted, ok;
    more, admitted, ok := s.Step();
    NoneLeft(before, admitted, s.pending);
    if s.active == [] { s.AllDone(); }
  }

  lemma NoneLeft(before: seq<Request>, active: seq<Request>, pending: seq<Request>)
    requires Moved(before, [], active, pending)
    ensures active == before && pending == []
  {
  }

  method TwoQueued(m: Model, job: Job, p: seq<Token>, q: seq<Token>)
    returns (s: Scheduler, ghost a: Request, ghost b: Request)
    requires m.Valid() && m.nCtx == 4 && |p| == |q| == 2 && job.cfg.Valid()
    ensures fresh(s) && fresh(s.backend) && s.Valid() && s.backend.model == m && s.nParallel == 2
    ensures s.active == [] && s.pending == [a, b] && a.history == p && b.history == q
    ensures a.promptLen == b.promptLen == 2 && a.emitted == b.emitted == 0 && a.job == b.job == job
    ensures s.backend.faults == 0 && s.nextId == 3
    ensures 1 in s.log && s.log[1].prompt == p && 2 in s.log && s.log[2].prompt == q
  {
    var backend := new SeqBackend(m, 2);
    s := new Scheduler(backend, 2);
    hide *;
    var one := s.Submit(p, job);
    a := s.pending[0];
    var two := s.Submit(q, job);
    b := s.pending[1];
  }

  method TwoAdmitted(m: Model, job: Job, p: seq<Token>, q: seq<Token>) returns (s: Scheduler)
    requires m.Valid() && m.nCtx == 4 && |p| == |q| == 2 && p != q
    requires job.cfg.Valid() && job.cfg.maxTokens >= 2 && forall h :: job.callback(h).Continue?
    ensures fresh(s) && fresh(s.backend) && s.Valid() && s.backend.model == m && s.pending == []
    ensures Underwritten(s.active) && CellsUsed(s.active) == 4 && Foreseen(4, s.active) == 6
    ensures forall i :: 0 <= i < |s.active| ==> Insatiable(s.active[i])
    ensures s.backend.faults == 0 && s.nextId == 3
    ensures 1 in s.log && s.log[1].prompt == p && 2 in s.log && s.log[2].prompt == q
    ensures |s.active| == 2 && s.active[0].history == p && s.active[1].history == q
  {
    ghost var a, b;
    s, a, b := TwoQueued(m, job, p, q);
    assert Insatiable(a);
    hide *;
    s.AdmitAll();
    BothAdmitted(s.active, s.pending, a, b);
    TwoGoOn(s.active, a, b);
  }

  lemma BothAdmitted(active: seq<Request>, pending: seq<Request>, a: Request, b: Request)
    requires |a.history| == a.promptLen == |b.history| == b.promptLen == 2 && a.history != b.history
    requires active != [] && Moved([], [a, b], active, pending)
    requires pending == [] || |active| >= 2 || HeadWaits(4, active, pending)
    ensures pending == [] && |active| == 2
  {
    var r := active[0];
    CellsOfOne(r);
    assert Seated(r, a) && r.history[..2] == a.history;
    assert |active| == 1 ==> active == [r];
  }

  lemma TwoGoOn(rs: seq<Request>, a: Request, b: Request)
    requires |rs| == 2 && Moved([], [a, b], rs, [])
    requires |a.history| == |b.history| == a.promptLen == b.promptLen == 2 && a.emitted == b.emitted == 0
    requires a.job == b.job && a.job.cfg.Valid() && a.job.cfg.maxTokens >= 2 && Insatiable(a)
    ensures CellsUsed(rs) == 4 && Foreseen(4, rs) == 6 && Underwritten(rs)
    ensures rs[0].history == a.history && rs[1].history == b.history
    ensures forall i :: 0 <= i < |rs| ==> Insatiable(rs[i])
  {
    var x, y := rs[0], rs[1];
    assert Seated(x, a) && Seated(y, b);
    assert rs == [x, y];
    CellsOfTwo(x, y);
    assert rs[..1] == [x] && [x][..0] == [];
    assert CanGoOn(4, x) && CanGoOn(4, y);
    assert Able(4, []) + [x] == [x];
    assert Able(4, [x]) == [x];
    assert Able(4, rs) == [x] + [y];
  }

  lemma CellsOfOne(a: Request)
    ensures CellsUsed([a]) == |a.history|
  {
    assert [a][..0] == [];
  }

  lemma CellsOfTwo(a: Request, b: Request)
    ensures CellsUsed([a, b]) == |a.history| + |b.history|
  {
    assert [a, b][..1] == [a];
    assert [a][..0] == [];
    assert CellsUsed([a]) == CellsUsed([]) + |a.history|;
  }
}
