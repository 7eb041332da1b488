# Reame in Dafny

Reame is a server for language models. Its hard logic sits between an opaque
model backend and the caller: it speculates, interleaves requests, restores
cached state, retrieves past text and votes on answers, and in all of this it
promises that the caller sees what a naive server would have given. This project
models that logic and proves the promise.

The backend is an idealised machine. Its state is a token sequence (the KV), or
one per slot; its logits are an arbitrary function of the context; it appends,
batches, truncates, copies, snapshots and restores; and every operation that runs
the model may fail and leave the sequence in an arbitrary state. A ghost counter
(`faults`) counts these failures, and every outcome that means "broken off" is
proved to come with one: a run in which nothing fails is a complete one. The naive server
is `Reference.Sequential` and `Reference.Solo`: decode from scratch, one token at
a time, testing the limits before or after each token.

## What is proved

- **Speculation makes only legal moves.** `Speculation` says, without any KV, which
  moves a run may make (a token sampled, a drafted block verified), what each says,
  and where the caller's text is cut. `GenerateStream` gives, for every prompt,
  callback, sampler and draft source, the cut of a run of legal moves, whatever part
  of the KV it inherited. Behind it: the KV protocol of two models (lockstep at every
  loop head, restored after every rejection point), the termination measure, the
  accounting, and the context bound with the exact condition under which it holds.
- **Speculation does not change greedy output** (`GreedySpeech`): it is the sequential
  run, or a prefix of it if the run is broken off, which takes a failing model.
- **Without failures the decoder is a function of its inputs.** `SpeechIsDetermined`:
  for every sampler, two runs from the same prompt, request, tapes and plan in which
  no model fails end alike and deliver the same text, whatever the KVs held before.
- **Speculation does not change the distribution.** `RunIsExact`: over any number
  of rounds, any drafting model, draft length, stopping rule and adaptive policy,
  every test function of the delivered text has the mean it has under plain target
  sampling. `DecoderPolicyIsExact` applies it to the decoder's own policy, and
  `SpeechIsDrawn` proves that every run of the decoder is that process with each mean
  replaced by a draw from the tapes, each draw deciding for a token on an interval as
  long as the token is likely (`DrawIsExact`, `MeanOfDraw`).
- **Every request runs as if alone.** The scheduler's invariant ties each request,
  in every reachable state, to its solo run (`EachAsIfAlone`), through queueing,
  slot reuse, donor cloning, throwing callbacks and failing passes. As long as no
  pass has failed, every request that is done received exactly its solo run. It
  drains within the sum of max(1, max_tokens) steps.
- **Caches agree with recomputation.** Prefill ends with exactly the prefix, for
  every cache content that is faithful, and keeps it faithful; it stores every block
  boundary it crosses, so that a prompt with the same beginning restores as much of it
  (`PrefillBoth`), and under a disk limit the latest stay (`MarksStay`); the disk store
  returns the last successful put or nothing for any filename hash; a sequence of
  engine calls, whatever the sampler, answers each as from a cold start (`Serve`), in
  full if no model fails, and such an answer is a single one (`ColdIsDetermined`).
- **The archive agrees with a naive search of its log**, through eviction, flush,
  reload and torn files.
- **RESP parsing does not depend on how TCP cuts the bytes**, and undoes encoding, of
  multibulk commands and of inline ones with any spacing.
- **Early consensus is final**, and **the widening nucleus is the sorted nucleus**.

## Where the code and its promises part

- `src/core/scheduler.cpp:87`: the shared KV budget is consulted at admission only.
  `BudgetOverrun` drives the scheduler over it in one step; `BudgetAfterStep` says
  exactly when a step is sure to stay within it, from the lengths of the requests
  that can still go on. The bound per sequence does hold (`KvWithinContext`).
- `src/core/scheduler.cpp:174` and `src/core/engine.cpp:497-498` test the limits
  after a token, `src/speculative/speculative_decoder.cpp:163` before:
  `SoloAgreesExactlyWhen` and `PathsAgree` give the exact agreement.
- `src/speculative/draft_generator.cpp:17`: a draft length adapted down to zero
  falls back to the configured length, whatever room is left. `RequestFits` gives
  the exact configurations under which drafts always fit, `Overdraft` a run in which
  one does not.
- `src/cache/cache_manager.cpp:80-82`: the checksum does not cover the position
  count. `SingleByteCorruption` shows that a changed byte is caught if and only if
  it lies outside those four bytes.
- `src/palimpsest/corpus_index.cpp:162-174`: appending after a torn frame loses what
  is appended (`AppendAfterTear`); a file can be appended to exactly when loading it
  leaves nothing unread (`CleanBase`), and the constructor's contract says when that
  is so.
- The archive's header promises to drop the oldest half; the code drops the oldest
  streams until the rest fits (`KeepNewest`, `KeepsLongest`). `DropsHalfWhen` says
  exactly when that is the oldest half, `DropsLessThanHalf` gives an input for which
  it is not.
- `src/cache/disk_cache_store.cpp:102-104`: a get that finds another key in its file
  deletes that file, so looking for a long prefix can delete the snapshot of a
  shorter one (`ClashDeletes`). `Restore`, `Prefill` and `Prefetch` say exactly which
  boundary is found then: the longest one available and not so shadowed.
- `include/reame/cache/disk_cache_store.hpp:14-15` promises that the recency order
  survives restarts, but a read (`src/cache/disk_cache_store.cpp:115`) updates it in
  memory only. `Restart` gives the exact condition under which the order of two
  entries survives, `RestartForgetsReads` a run in which it does not.
- `src/speculative/speculative_decoder.cpp:43-44` accepts draft models with up to 128
  more vocabulary entries than the target; the verifier then may read past the
  target's probabilities (`src/speculative/batch_verifier.cpp:50`). The model calls
  such a run `Undefined` from there on. `SafeDraftModels` gives the exact condition
  on the draft model.
- `src/core/engine.cpp:440` compares only lengths with the backend. `HotIsExact` says
  what the guard needs (`HotOk`). Completed and refused calls keep it; a call whose
  callback throws keeps it exactly under the conditions stated on `GenerateClassic`
  and `GenerateSpeculative`, and `SpoiledByThrow` is a run that breaks it.
- `src/core/sampler.cpp:27-28` takes any penalty but 1. A negative one is no penalty:
  `NegativePenalty` says exactly what it does.
- `src/arca/resp.cpp:33-42` keeps the buffer after an error, so a parser that is fed
  again hands out the same commands again (`RespParser.Feed`).

## Modelling choices

- Reals stand for floats. A tape of numbers in [0, 1) stands for each random
  generator. The callback is a function of all tokens delivered so far that
  continues, stops or throws.
- Softmax, and with it the whole shaping of a sampled distribution, is a parameter
  of the generation (`shape`); the top-p step is treated in `Nucleus` for arbitrary
  positive distributions, and `TopPShapes` puts the two together.
- The archive and the structural prompter are parameters of the decoder: any
  functions of the history. The repeat penalty is not zero.
- Prefix keys are assumed distinct on the prefixes in play, since the second hash of
  `src/cache/prefix_cache.cpp:31-33` is a function of the first. The filename hash
  and the n-gram hash are arbitrary.
- Writing and deleting files of the disk store may fail; the archive's log file is
  written as asked. Reading back gives what was written. Each write of a file is
  later than all before it.
- Method-level state is kept in classes with the source's fields; ghost fields
  (`log`, `delivered`, `last`, `uses`, `undeleted`, `unwritten`, `faults`, `born`, `voters`,
  `peak`, `decoded`) only record history.
- Files: `Backend`, `Sampling`, `Nucleus`, `Reference`; `Acceptance`,
  `ExactSampling`, `Measure`, `Unbiased`, `Drafts`, `Verifier`, `Speculation`,
  `Determined`, `Decoder`; `Scheduler`;
  `Bytes`, `Checksum`, `Uses`, `DiskStore`, `CacheManager`, `PrefixCache`, `Engine`;
  `CorpusLog`, `Corpus`; `Resp`; `Conclave`.

## Model

| member | source | states |
|---|---|---|
| `Backend.LlamaBackend.DecodeAppend` | include/reame/core/llama_backend.hpp:48-51 | a successful append leaves the KV longer by exactly the tokens and returns the logits of the new context; any call may fail and then nothing is known of the KV; `peak` records the positions asked for either way; `faults` counts the failures |
| `Backend.LlamaBackend.Decode` | include/reame/core/llama_backend.hpp:44-46 | whatever was held before, success leaves exactly the given tokens; `faults` counts the failures |
| `Backend.LlamaBackend.DecodeBatch` | include/reame/core/llama_backend.hpp:53-58 | one pass gives, for every position, the logits of the context up to and including it; `faults` counts the failures |
| `Backend.LlamaBackend.TruncateTo` | include/reame/core/llama_backend.hpp:60-63 | success on a backend in step with its counter leaves exactly the first n tokens; `faults` counts the failures |
| `Backend.LlamaBackend.Reset` | include/reame/core/llama_backend.hpp:96-97 | the KV is empty, and no position was decoded |
| `Backend.LlamaBackend.SetState` | include/reame/core/llama_backend.hpp:102-106 | succeeds exactly when the blob restores, and then holds the saved sequence with the caller's count; runs no position through the model |
| `Reference.SoloWithinLimits` | src/core/scheduler.cpp:152-185 | testing the limits after each token (classic loop, scheduler) and before each token (decoder) give the same run whenever there is a budget and room |
| `Reference.SoloAgreesExactlyWhen` | src/core/scheduler.cpp:174-178 | the two disciplines agree if and only if max_tokens >= 1 and the prompt is shorter than n_ctx, or the first token already ends the generation |
| `Reference.SequentialLength` | src/speculative/speculative_decoder.cpp:163-163 | no run delivers more than the budget, nor more than the context has room for |
| `Sampling.ArgMax` | src/core/sampler.cpp:32-39 | the first of the largest logits |
| `Sampling.ArgMaxOfOneHot` | src/core/sampler.cpp:109-120 | taking the argmax of the greedy one-hot gives back the token it was made of |
| `Sampling.Draw` | src/core/sampler.cpp:93-107 | the subtracting draw loop is the inverse-CDF draw that Acceptance.DrawIsExact measures |
| `Sampling.Distribution` | src/core/sampler.cpp:19-39 | the in-place loop computes the distribution of the penalised logits: one-hot at the argmax, or the shaping that is a parameter; what the penalty does is said by `PenaltyPower`, `PenaltyLowers` and `NegativePenalty` |
| `Sampling.PenaltyPower` | src/core/sampler.cpp:19-30 | a token that occurs c times among the last repeat_last_n has its logit divided by the c-th power of the penalty if positive and multiplied by it if not; any other keeps it |
| `Sampling.PenaltyLowers` | src/core/sampler.cpp:19-30 | a penalty above 1 raises no logit and lowers exactly the non-zero ones of the tokens that occurred lately |
| `Sampling.NoPenalty` | src/core/sampler.cpp:20-20 | with penalty 1 or no window nothing changes |
| `Sampling.NegativePenalty` | src/core/sampler.cpp:27-28 | a negative penalty flips the sign of a logit with every occurrence, and two occurrences cancel out |
| `Sampling.Sample` | src/core/sampler.cpp:109-120 | a greedy sample (temperature at most zero) is the first of the largest penalised logits and uses no random number; any other is one inverse-CDF draw and uses exactly one |
| `Nucleus.NthElement` | src/core/sampler.cpp:69-72 | a permutation with the k largest first |
| `Nucleus.SortPrefix` | src/core/sampler.cpp:73-75 | the first k descend, and stay the k largest |
| `Nucleus.RankIsUnique` | src/core/sampler.cpp:68-76 | the i-th largest probability is the same however the order was found |
| `Nucleus.NucleusIsUnique` | src/core/sampler.cpp:51-89 | for every positive distribution and top_p, any two ways of finding a nucleus keep equally many entries with the same probabilities in the same order: the widening selection equals the full descending sort |
| `Nucleus.MassOfAll` | src/core/sampler.cpp:77-83 | adding up in the selected order gives the plain sum |
| `Nucleus.Accumulate` | src/core/sampler.cpp:77-83 | the shortest prefix of the candidates reaching top_p, or all of them |
| `Nucleus.Widen` | src/core/sampler.cpp:59-86 | the 512-then-times-4 loop ends with the nucleus of the whole distribution: nothing kept is less probable than anything dropped, enough is kept, and one fewer would fall below top_p |
| `Nucleus.ZeroTail` | src/core/sampler.cpp:87-87 | everything outside the nucleus becomes zero, and the total is the nucleus's mass |
| `Nucleus.Scale` | src/core/sampler.cpp:88-88 | the kept entries keep their proportions and sum to one |
| `Nucleus.TopP` | src/core/sampler.cpp:57-90 | every top_p, also outside [0, 1], gives a probability distribution: the input itself from 1 upwards, the renormalised nucleus below |
| `Nucleus.TopPExists` | src/core/sampler.cpp:51-89 | for every positive vector and top_p there is a top-p result |
| `Nucleus.TopPIsDistribution` | src/core/sampler.cpp:51-89 | the top-p result of a positive distribution is a distribution, however the nucleus was found |
| `Acceptance.AcceptIsAnInterval` | include/reame/speculative/acceptance.hpp:16-18 | the draws that accept are exactly those below min(1, p/q) |
| `Acceptance.ResidualDistribution` | src/speculative/acceptance.cpp:7-19 | the two loops compute the normalised excess of target over draft, or the target where there is no excess |
| `Acceptance.DrawFromInterval` | src/speculative/batch_verifier.cpp:13-24 | from any index, the draw loop stops at the token whose cumulative interval holds the draw |
| `Acceptance.IntervalsAreDisjoint` | src/speculative/batch_verifier.cpp:13-24 | one draw belongs to one token only |
| `Acceptance.DrawIsExact` | src/speculative/batch_verifier.cpp:13-24 | token x is drawn if and only if the uniform number lies in x's interval, whose length is p(x) |
| `ExactSampling.AcceptedMass` | include/reame/speculative/acceptance.hpp:16-18 | drafting and accepting a token has mass min(p, q) |
| `ExactSampling.EmittedSplits` | src/speculative/batch_verifier.cpp:47-65 | what is emitted is the shared mass as it stands plus the rejected mass corrected |
| `ExactSampling.TargetSplits` | src/speculative/acceptance.cpp:7-19 | shared mass and excess make up the target distribution |
| `ExactSampling.ResidualMean` | src/speculative/acceptance.cpp:7-19 | excess mass times the mean over the residual is the mean over the excess, also when there is none |
| `ExactSampling.EmittedIsExact` | src/speculative/batch_verifier.cpp:47-65 | for all p and q with q inside p's vocabulary, accept-or-correct has the target's mean for every test function |
| `ExactSampling.EmittedMassIsExact` | src/speculative/batch_verifier.cpp:47-65 | token x is emitted with mass exactly p(x) |
| `ExactSampling.DraftedAffine` | src/speculative/draft_generator.cpp:23-36 | drafting with early stopping is a probability: affine functions pass through its mean |
| `ExactSampling.SpeculatedStep` | src/speculative/batch_verifier.cpp:43-68 | verifying a drafted block is verifying its head and speculating from the longer history |
| `ExactSampling.CompletedStep` | src/speculative/speculative_decoder.cpp:275-291 | one plain target sample does not change the distribution of the completed text, also beyond the budget |
| `ExactSampling.SpeculationIsExact` | src/speculative/batch_verifier.cpp:31-70 | one round, of any draft length, drafting model and stopping rule, followed by target sampling has the distribution of target sampling, even if the draft overshoots the budget |
| `ExactSampling.TrackedIsChecked` | src/speculative/speculative_decoder.cpp:229-238 | recording how many tokens were accepted does not change the distribution of the text |
| `ExactSampling.RunIsExact` | src/speculative/speculative_decoder.cpp:163-292 | over whole runs: however many rounds, whatever each drafts and however draft length, source and switching off react to what was accepted, the delivered text has the distribution of plain target sampling |
| `Measure.ResidualIsDistribution` | src/speculative/acceptance.cpp:7-19 | corrections are drawn from a genuine distribution for every target distribution and every draft vector |
| `Measure.VerifyIsMeasured` | src/speculative/batch_verifier.cpp:47-65 | the verifier's two uniform draws realise those probabilities: a draw below the acceptance rate goes on, any other ends the block, and corrected token x occupies x's residual interval |
| `Measure.RetrievedProper` | src/speculative/speculative_decoder.cpp:207-214 | the one-hot vectors of a retrieved draft are distributions over the target's vocabulary |
| `Measure.RetrievalIsDrafting` | src/speculative/speculative_decoder.cpp:183-215 | a retrieved draft is a drafting model that proposes just these tokens, so the exactness theorem covers it |
| `Measure.TopPShapes` | src/core/sampler.cpp:41-90 | a sampler that weighs the logits positively, as softmax does, and then applies top-p gives a distribution for all logits |
| `Measure.SampledProper` | src/core/sampler.cpp:12-91 | a model under a greedy sampler, or one whose shaping gives distributions, is a chain of distributions over its vocabulary |
| `Measure.SourceCompatible` | src/speculative/speculative_decoder.cpp:171-227 | a rollout of a draft model with no larger vocabulary, and an in-vocabulary retrieved draft, are sources the exactness theorem admits |
| `Measure.DecoderIsExact` | src/speculative/speculative_decoder.cpp:163-292 | for any two models, sampler and choice between plain steps, rollouts and retrieved drafts, the text of the rounds has the distribution of sampling the target token by token; `Unbiased.DecoderPolicyIsExact` and `Unbiased.SpeechIsDrawn` apply it to the decoder |
| `Unbiased.MeanOfDraw` | src/speculative/batch_verifier.cpp:13-24 | a function of the token drawn takes each value on an interval as long as the token is likely, so its mean over the uniform number is the mean the exactness theorem takes |
| `Unbiased.VerifyIsCheck` | src/speculative/batch_verifier.cpp:43-69 | the verdict on a drafted block is the checking of the exactness theorem with its tests and corrections drawn from the acceptance tape |
| `Unbiased.RolloutIsDrawn` | src/speculative/draft_generator.cpp:21-36 | a rollout is the drafting of the exactness theorem drawn from the sampler's tape, up to its length or the end-of-sequence token |
| `Unbiased.RetrievedIsDrawn` | src/speculative/speculative_decoder.cpp:183-215 | so is a retrieved draft, with nothing to decide |
| `Unbiased.StaysOnPolicy` | src/speculative/speculative_decoder.cpp:273-315 | what the decoder does next is a function of the text and of how many tokens each round drafted and had accepted: every move leaves it where that policy expects it |
| `Unbiased.MoveIsRound` | src/speculative/speculative_decoder.cpp:163-292 | every legal move is one round of the process of the exactness theorem, every mean in it replaced by a draw, and no tape position that decides anything read twice |
| `Unbiased.QuitExists` | src/speculative/speculative_decoder.cpp:175-181 | a failing draft model is given up at one point of the text at most |
| `Unbiased.RunIsDrawn` | src/speculative/speculative_decoder.cpp:163-292 | every run of legal moves is a drawn run of that process, place by place |
| `Unbiased.DecoderPolicyIsExact` | src/speculative/speculative_decoder.cpp:163-292 | the process with the decoder's own policy, whatever its configuration, plan and point of giving up, has exactly the distribution of target sampling |
| `Unbiased.SpeechIsDrawn` | src/speculative/speculative_decoder.cpp:67-295 | for every sampler what the decoder says is drawn from that process, and the caller is told its cut |
| `Drafts.GenerateDraft` | src/speculative/draft_generator.cpp:13-38 | each token comes from the draft model's distribution after everything before it; the KV ends one token short of the draft; end-of-sequence appears at most as the last token; it fails exactly when the model does |
| `Drafts.RolloutShape` | src/speculative/draft_generator.cpp:21-36 | a rollout stays in the draft vocabulary with one full vector per token, each entry in [0, 1] under greedy sampling |
| `Drafts.FindDraft` | src/speculative/prompt_lookup.cpp:9-38 | the continuation of the most recent earlier occurrence of the longest tail n-gram that recurs, and empty only when none recurs |
| `Verifier.Verify` | src/speculative/batch_verifier.cpp:43-69 | the accepted tokens are a prefix of the draft and there is a correction exactly when the prefix is proper, with the random numbers used accounted for |
| `Verifier.Scan` | src/speculative/batch_verifier.cpp:43-69 | the loop over batched logits equals the token-by-token test against the target decoded afresh |
| `Verifier.VerifyBatch` | src/speculative/batch_verifier.cpp:31-70 | one batched pass gives the token-by-token verdict, and leaves the KV one token short of the whole draft; it fails exactly when the pass does |
| `Verifier.GreedyCorrection` | src/speculative/batch_verifier.cpp:53-65 | whatever the draft's probabilities, correcting a greedy target gives the greedy token |
| `Verifier.GreedyTest` | src/speculative/batch_verifier.cpp:47-65 | a drafted token passes if and only if it is the greedy choice, and one that fails is replaced by it |
| `Verifier.GreedyVerify` | src/speculative/batch_verifier.cpp:31-70 | for every draft from any source, what verification lets through or puts in place is the path of sequential greedy decoding |
| `Verifier.GreedyChain` | src/speculative/speculative_decoder.cpp:253-271 | a greedy path goes on where a greedy history stops |
| `Verifier.GreedyUnique` | src/speculative/speculative_decoder.cpp:253-271 | the greedy continuation of a text is unique |
| `Speculation.Config.RequestFits` | src/speculative/speculative_decoder.cpp:173-174 | drafts fit the context for every adapted length and every room if and only if the minimum draft length is positive, or drafts are retrieved, or the configured length is at most one (src/speculative/draft_generator.cpp:17 falls back to it without looking at the room) |
| `Speculation.Config.Requested` | src/speculative/speculative_decoder.cpp:173-174 | the lesser of the current length and the room while both are positive; beyond that the configured length for a draft model, and nothing for a lookup |
| `Speculation.MoreAccepted` | src/speculative/speculative_decoder.cpp:297-308 | more accepted never makes the next draft shorter |
| `Speculation.MoreAcceptedArms` | src/speculative/speculative_decoder.cpp:310-315 | more accepted never switches speculation off where fewer would not |
| `Speculation.CutConcat` | src/speculative/speculative_decoder.cpp:253-271 | text that does not end the generation is delivered as it stands, and the cut of a longer one is decided by what follows |
| `Speculation.ClosedStays` | src/speculative/speculative_decoder.cpp:253-271 | text that ends the generation ends it however it goes on |
| `Speculation.ToldMore` | src/speculative/speculative_decoder.cpp:253-292 | emission after emission the caller has been told the cut of the whole text |
| `Speculation.GreedyMove` | src/speculative/batch_verifier.cpp:31-70 | under greedy sampling every legal move, plain or drafted from any source, says what sequential decoding would |
| `Speculation.GreedyRun` | src/speculative/speculative_decoder.cpp:163-292 | so does every run of legal moves |
| `Speculation.CutIsSequential` | src/speculative/speculative_decoder.cpp:163-292 | the cut of the greedy continuation is the sequential run, and before its end a prefix of it |
| `Speculation.GreedySpeech` | src/speculative/speculative_decoder.cpp:67-295 | a greedy caller is given exactly the sequential run, or a prefix of it if the run is broken off |
| `Determined.SameDraft` | src/speculative/speculative_decoder.cpp:171-227 | the draft that the plan calls for is a single one: rollouts from the same place and tape are equal, with their probabilities |
| `Determined.SameMove` | src/speculative/speculative_decoder.cpp:163-292 | at every spot at most one legal move does not come of a failing draft model |
| `Determined.NoMoveAstray` | src/speculative/batch_verifier.cpp:47-53 | where the draft called for leaves the target's vocabulary, no legal move goes on without a failing draft model |
| `Determined.SameMoves` | src/speculative/speculative_decoder.cpp:163-292 | two runs of such moves from the same spot agree as far as both go |
| `Determined.SpeechIsDetermined` | src/speculative/speculative_decoder.cpp:67-295 | for every sampler, two generations from the same prompt, request, tapes and plan, neither disturbed by a failing model, end alike and deliver the same |
| `Decoder.SafeDraftModels` | src/speculative/batch_verifier.cpp:47-53 | every rollout of a draft model can be verified if and only if its vocabulary is no larger than the target's; for any larger one a sampler is given under which the first drafted token has no entry in the target's probabilities |
| `Decoder.SpeculativeDecoder.constructor` | src/speculative/speculative_decoder.cpp:27-36 | the draft length starts as the configured one, or at the bound it lies beyond, and speculation is armed exactly with a source to draft from, for every draft model within the tolerated padding |
| `Decoder.SpeculativeDecoder.Create` | src/speculative/speculative_decoder.cpp:37-51 | no decoder exactly for two vocabularies that differ by more than 128 entries |
| `Decoder.SpeculativeDecoder.AdaptDraftLength` | src/speculative/speculative_decoder.cpp:297-308 | the length grows exactly if at least nine in ten were accepted and there was room below the maximum, and shrinks exactly if something was drafted, at most four in ten were accepted and there was room above the minimum; by two, or up to the bound |
| `Decoder.SpeculativeDecoder.MaybeAutoDisable` | src/speculative/speculative_decoder.cpp:310-315 | speculation is switched off exactly when enough was drafted and accepted / drafted lies below the threshold (zero, if nothing was drafted), and it is never switched on |
| `Decoder.SpeculativeDecoder.PrefillTarget` | src/speculative/speculative_decoder.cpp:115-131 | from nothing or from any inherited prefix, the target ends one token short of the prompt and decodes no inherited position; it fails exactly when the target does |
| `Decoder.SpeculativeDecoder.PrefillDraft` | src/speculative/speculative_decoder.cpp:132-145 | the draft model ends up where the target is, or speculation is given up, which happens exactly when the draft model fails |
| `Decoder.SpeculativeDecoder.ProposeLookup` | src/speculative/speculative_decoder.cpp:182-215 | the retrieved draft is the lookup's if there is one, else the archive's, else as much of the prompter's as was asked for; with one-hot vectors |
| `Decoder.SpeculativeDecoder.RolloutCheckable` | src/speculative/speculative_decoder.cpp:175-181 | a rollout can be indexed by the verifier if and only if it stays in the target's vocabulary, which a draft vocabulary no larger than the target's guarantees |
| `Decoder.SpeculativeDecoder.ProposeModel` | src/speculative/speculative_decoder.cpp:175-181 | a failed or empty rollout disarms speculation and nothing else; any other is a full rollout of the requested length, and leaves the draft KV one token short of it; none is given for a positive length exactly when the draft model fails |
| `Decoder.SpeculativeDecoder.Propose` | src/speculative/speculative_decoder.cpp:171-227 | any draft handed on is the one the plan calls for here, leaves the target KV alone, can be verified if in vocabulary and fits the context under a bounded configuration; none is handed on only if none is called for or the draft model failed, and its failures are exactly that |
| `Decoder.SpeculativeDecoder.Sync` | src/speculative/speculative_decoder.cpp:240-251 | after any rejection point both models hold the history and every new token but the newest; it fails exactly when a truncation does |
| `Decoder.SpeculativeDecoder.VerifyAndSync` | src/speculative/speculative_decoder.cpp:229-251 | the verdict is the token-by-token one, the counters keep drafted = accepted + rejected, and both KVs are back in step; it fails exactly when one operation of a model does |
| `Decoder.SpeculativeDecoder.Emit` | src/speculative/speculative_decoder.cpp:253-271 | what is delivered is exactly the cut of the new tokens, and the emission ends exactly where the cut closes |
| `Decoder.SpeculativeDecoder.SplitAt` | src/speculative/speculative_decoder.cpp:257-271 | what becomes of the i-th new token, those before it having been taken |
| `Decoder.SpeculativeDecoder.Round` | src/speculative/speculative_decoder.cpp:229-274 | for every sampler the verdict's tokens are delivered up to their cut, both KVs are back in step, and the plan is the reviewed one; broken off exactly when one operation of a model fails; a fully accepted block never shortens the next draft, a fully rejected one never lengthens it |
| `Decoder.SpeculativeDecoder.Reconsider` | src/speculative/speculative_decoder.cpp:272-274 | after a round the plan is the reviewed one; the next draft is no shorter if all was accepted and no longer if nothing was |
| `Decoder.SpeculativeDecoder.PlainStep` | src/speculative/speculative_decoder.cpp:275-291 | for every sampler the token sampled from the target is delivered up to its cut, with exactly the random numbers used that sampling uses; broken off exactly when the decode fails |
| `Decoder.SpeculativeDecoder.Speculate` | src/speculative/speculative_decoder.cpp:171-274 | the block the plan calls for is verified and delivered up to its cut, or there was none; broken off, or without a block that the plan calls for, only when a model fails; undefined only when the draft called for leaves the target's vocabulary |
| `Decoder.SpeculativeDecoder.Plain` | src/speculative/speculative_decoder.cpp:275-291 | a plain step is a legal move, delivered up to its cut; it is made in spite of a plan that calls for the draft model only after a failure, and broken off only by one |
| `Decoder.SpeculativeDecoder.Turn` | src/speculative/speculative_decoder.cpp:163-292 | every turn makes one legal move and delivers what it says up to its cut, or disarms speculation, or skips one lookup; the loop invariant holds again; broken off, or departing from the plan, only when a model failed |
| `Decoder.SpeculativeDecoder.Landed` | src/speculative/speculative_decoder.cpp:253-292 | after a move the caller has been told the cut of the longer text, and the KV lies within it |
| `Decoder.SpeculativeDecoder.Advance` | src/speculative/speculative_decoder.cpp:163-292 | a turn with its move put on record: the record stays a run of legal moves, and an ended generation has told the cut of it; broken off, or departing from the plan, only when a model failed |
| `Decoder.SpeculativeDecoder.Loop` | src/speculative/speculative_decoder.cpp:147-295 | the loop ends by (tokens left, speculation armed, lookup not skipped), never re-arms, and for every sampler tells the cut of a run of legal moves; broken off, or departing from the plan, only when a model failed |
| `Decoder.SpeculativeDecoder.GenerateStream` | src/speculative/speculative_decoder.cpp:67-295 | for every prompt, callback, sampler, draft model within the tolerated padding and draft source the caller is given the text of legal moves cut at its end, whatever part of the KV was inherited; under greedy sampling that is exactly the sequential run, and a prefix of it if the run is broken off; it is broken off, or departs from the plan, only when an operation of a model failed, and undefined only where the draft called for leaves the target's vocabulary, which sources inside it never do; refused inputs are exactly the empty, the over-long and those with nothing left to decode; neither model is asked for more than n_ctx - 1 positions when drafts fit; the KV left behind is a prefix of what was said |
| `Decoder.Overdraft` | src/speculative/speculative_decoder.cpp:173-174 | a draft length that came down to zero overruns the context: a drafted block takes the target to n_ctx positions, unless an operation of a model failed |
| `Scheduler.SeqBackend.DecodeSeqs` | include/reame/core/llama_backend.hpp:65-73 | each slice continues its own sequence; a failure spoils only the sequences in the batch, and `faults` counts it |
| `Scheduler.SeqBackend.CopySeq` | include/reame/core/llama_backend.hpp:90-94 | the destination holds the source's first n tokens, no other sequence changes |
| `Scheduler.SettleFollowsSolo` | src/core/scheduler.cpp:152-185 | one request's share of a step keeps it on its solo run or settles it there: finished, thrown, or going on with its KV one token behind; never failed |
| `Scheduler.DeliveredSoFar` | src/core/scheduler.cpp:141-150 | at any moment what was delivered is a prefix of the solo run, so a backend failure may end the request there |
| `Scheduler.BookAdmit` | src/core/scheduler.cpp:99-115 | admitting the queue head into a free slot keeps ids in one place and slots in step with the active set |
| `Scheduler.BookRetire` | src/core/scheduler.cpp:61-68 | retiring any active request does too |
| `Scheduler.MidKeep` | src/core/scheduler.cpp:152-185 | a request that goes on leaves the half-processed batch consistent |
| `Scheduler.MidRetire` | src/core/scheduler.cpp:61-68 | a request that ends leaves the half-processed batch consistent, and its slot empty |
| `Scheduler.Pigeonhole` | src/core/scheduler.cpp:101-107 | fewer active requests than slots means a free slot |
| `Scheduler.KeptCells` | src/core/scheduler.cpp:152-185 | after any step the active set holds at most one cell more for each request that could still go on |
| `Scheduler.EagerCells` | src/core/scheduler.cpp:152-185 | and exactly that much with a model that never stops and callers who always want more |
| `Scheduler.BudgetAfterStep` | src/core/scheduler.cpp:87-87 | whatever the model says and the callers want, the next step stays within the shared budget if and only if the requests that can still go on (by max_tokens and n_ctx) have room for one more token each |
| `Scheduler.BudgetOverrun` | src/core/scheduler.cpp:82-186 | the shared budget is not an invariant: submitted, admitted and stepped by the code, two different prompts of two tokens hold the four cells of the context, and the scheduler returned holds six one step later unless the pass failed |
| `Scheduler.Scheduler.constructor` | src/core/scheduler.cpp:189-193 | an empty scheduler satisfies the invariant |
| `Scheduler.Scheduler.Submit` | src/core/scheduler.cpp:197-220 | accepted exactly for 1 to n_ctx prompt tokens; ids are new and increasing; the work outstanding grows by max(1, max_tokens) |
| `Scheduler.Scheduler.FindDonor` | src/core/scheduler.cpp:72-79 | a donor has the very same prompt, and there is none only if nobody has |
| `Scheduler.Scheduler.FreeSlot` | src/core/scheduler.cpp:101-107 | a slot is always found when fewer than n_parallel are active |
| `Scheduler.Scheduler.Seat` | src/core/scheduler.cpp:99-114 | the slot holds nothing, or the donor's KV of the prompt without its last token, which is what a prefill would have put there; a donor is used if there is one |
| `Scheduler.Scheduler.Admit` | src/core/scheduler.cpp:99-115 | the queue head becomes the last active request and every other request keeps its KV |
| `Scheduler.Scheduler.TryAdmit` | src/core/scheduler.cpp:82-117 | admission leaves the total within n_ctx; the head waits only for space or for a donor still prefilling its prompt, and never with nothing active; it is seated on a copied KV exactly if its prompt has more than one token and an active request has the very same one |
| `Scheduler.Scheduler.AdmitAll` | src/core/scheduler.cpp:82-117 | admission is in submission order and goes on until the queue is empty, the slots are full or the head must wait; an empty active set with a queue never stays empty |
| `Scheduler.Scheduler.Finish` | src/core/scheduler.cpp:61-68 | exactly this request's slot and sequence are freed and its outcome recorded |
| `Scheduler.Scheduler.Slices` | src/core/scheduler.cpp:124-139 | distinct sequences, each slice exactly what its KV lacks of its history |
| `Scheduler.Scheduler.DecodeAll` | src/core/scheduler.cpp:124-150 | after a successful pass every active KV is its whole history, with that history's logits; it fails exactly when the pass does |
| `Scheduler.Scheduler.Collect` | src/core/scheduler.cpp:152-185 | the invariant is restored, each request uses up a step, and the active set is exactly the requests that go on, each one token longer; a throwing callback ends its own request only; no request is recorded as failed, and what was recorded stays |
| `Scheduler.Scheduler.FailAll` | src/core/scheduler.cpp:141-150 | a failed pass ends exactly the requests in flight, all as failed, and leaves a valid empty scheduler |
| `Scheduler.Scheduler.Pass` | src/core/scheduler.cpp:124-185 | a pass over a non-empty batch keeps the invariant and strictly reduces the work left; if it succeeds no request is recorded as failed, if it fails exactly those of the batch are; what was recorded stays |
| `Scheduler.Scheduler.Step` | src/core/scheduler.cpp:119-186 | the invariant survives any interleaving and any failure, the queue only loses its head, a step with work strictly reduces the work left, and the cells held afterwards are bounded by the requests that could go on; requests are recorded as failed only by a failing pass, and then exactly those of the batch; what was recorded stays |
| `Scheduler.Scheduler.RunUntilIdle` | src/core/scheduler.cpp:224-227 | ends within the sum of max(1, max_tokens) steps with every issued id done, none newly as failed unless a pass failed meanwhile, and what was recorded before unchanged |
| `Scheduler.Scheduler.ExactlyOnePlace` | src/core/scheduler.cpp:61-68 | in every reachable state an id is issued if and only if it is pending, active or done, and it is in only one of these |
| `Scheduler.Scheduler.EachAsIfAlone` | src/core/scheduler.cpp:82-186 | non-interference: in every reachable state each done request received its solo run (a prefix of it after a backend failure) and each active one the start of it, with queueing, slot reuse, donor cloning and every sampler; as long as no pass has failed every done request received exactly its solo run |
| `Scheduler.Scheduler.KvWithinContext` | src/core/scheduler.cpp:174-178 | no sequence outgrows n_ctx |
| `Engine.PathsAgree` | src/core/engine.cpp:444-503 | the classic path and the decoder give the same run if and only if there is no budget, or the prompt leaves room, or nothing follows it |
| `Engine.SoloAdvance` | src/core/engine.cpp:489-503 | one classic sample keeps the run on the solo reference or settles it there |
| `Engine.ClassicTurn` | src/core/engine.cpp:489-503 | tokens mirror the KV before every sample; a completed generation leaves the KV a prefix of the remembered tokens, which are the prompt and all delivered tokens but at most the last; broken off exactly when the decode fails |
| `Engine.ClassicLoop` | src/core/engine.cpp:489-503 | the loop delivers exactly the solo run for every sampler, or a prefix of it exactly when a decode fails |
| `Engine.ReameEngine.constructor` | src/core/engine.cpp:437-442 | a freshly started engine satisfies the invariant of the shortcut |
| `Engine.ReameEngine.HotIsExact` | src/core/engine.cpp:437-442 | the invariant holds if and only if every request that passes the length-only guard continues from its own text |
| `Engine.ReameEngine.PrefillClassic` | src/core/engine.cpp:468-487 | continuing hot, restoring from the cache and decoding cold all end in the same KV and logits; it fails exactly when one decode does; continuing hot decodes the new tokens only, and a prompt the cache has whole one token only |
| `Engine.ReameEngine.PrefillCached` | src/core/engine.cpp:477-484 | the cached prefix and its last token give the KV and logits of decoding the whole; it fails exactly when one decode does |
| `Engine.ReameEngine.GenerateClassic` | src/core/engine.cpp:468-503 | whichever way the KV came about the answer is that of a cold run, broken off exactly when one operation of the backend fails; a completed call is remembered, prompt and all delivered tokens but at most the last, and keeps the shortcut sound; a throwing callback keeps it sound if and only if the remembered context has another length than the text in the KV, or is that text |
| `Engine.ReameEngine.PrefillDecoder` | src/core/engine.cpp:444-458 | the decoder is told of a prefix only if the KV is that prefix: of the remembered context exactly if the request extends it, else of all but the last token if there is a cache; it fails exactly when one decode does |
| `Engine.ReameEngine.GenerateSpeculative` | src/core/engine.cpp:444-466 | for every sampler the answer is the text of legal moves from the prompt, cut at its end, as of a cold start, broken off or departing from the plan only when a model failed; a completed call is remembered in full and keeps the shortcut sound; a throwing callback keeps it sound exactly when the counter differs or the remembered context lies within what was said |
| `Engine.ReameEngine.KvWithinSaid` | src/core/engine.cpp:437-466 | what a KV within what was said means for a remembered context of its length: delivered text and, when greedy, the greedy continuation decide it |
| `Engine.ReameEngine.Generate` | src/core/engine.cpp:395-504 | refusal exactly for empty and over-long prompts; the cold answer for every sampler on both paths, broken off only when a model failed; what is remembered; the length-only guard never lets a wrong KV through after completed, refused or resumable calls, and the exact condition after a throwing callback |
| `Engine.ReameEngine.Answer` | src/core/engine.cpp:395-504 | one call of a sequence answers as a freshly started engine would whose decoder has the same plan, in full unless a model fails during the call, and the caller can tell whether the next may follow |
| `Engine.ReameEngine.ColdIsDetermined` | src/core/engine.cpp:395-504 | a cold answer is a single one: as long as no model fails, two engines with the same models and configuration, whatever their KV, caches and past, give the same call at the same plan the same end and the same tokens |
| `Engine.ReameEngine.Serve` | src/core/engine.cpp:437-503 | over any sequence of calls, completed, refused or thrown out of, mixing hot, cached and cold starts, each answer is a cold answer, for every sampler: the solo run on the classic path, with the decoder the cut of legal moves from the prompt, given its tapes and the decoder's plan at that call; up to the first call that leaves the backend where the guard cannot be trusted; if no model fails, no answer is broken off |
| `Engine.SpoiledByThrow` | src/core/engine.cpp:437-503 | the shortcut fails after a throw: a fresh engine that has answered [1, 2] and was thrown out of on [3, 4] lets [1, 2, 5] through to be answered from [3, 4, 5]; otherwise a decode failed |
| `PrefixCache.Boundaries` | src/cache/prefix_cache.cpp:14-20 | every block multiple below the length and the length itself, ascending, and nothing else |
| `PrefixCache.GridIsMultiples` | src/cache/prefix_cache.cpp:14-20 | the block marks are the positive multiples of the block size |
| `PrefixCache.Keys.EmptyIsFaithful` | src/cache/prefix_cache.cpp:38-66 | a store that was never written to is faithful |
| `PrefixCache.Keys.Restaged` | src/cache/cache_manager.cpp:89-145 | staging and unstaging keep every snapshot a snapshot of its own prefix |
| `PrefixCache.Keys.Stored` | src/cache/prefix_cache.cpp:61-63 | so does storing, when keys of prefixes in play are distinct |
| `PrefixCache.Keys.StillStanding` | src/cache/disk_cache_store.cpp:102-104 | what a miss means for a shorter boundary: it goes exactly when its file has the missed one's name, nothing is staged for it and the deletion succeeds |
| `PrefixCache.Keys.SearchOn` | src/cache/prefix_cache.cpp:49-54 | boundaries tried in vain were not available at the start of the search, or shadowed by a longer one with an entry under the same filename; the shorter ones not so shadowed still are available, and if no deletion failed no others |
| `PrefixCache.PrefixCache.constructor` | src/cache/prefix_cache.cpp:14-20 | over any faithful manager the cache invariant holds, with a block size of at least one |
| `PrefixCache.PrefixCache.ContentOf` | src/cache/cache_manager.cpp:147-199 | what a load of a prefix would apply is that prefix's state and length, or nothing |
| `PrefixCache.PrefixCache.Load` | src/cache/prefix_cache.cpp:49-54 | succeeds exactly when available, and then the backend holds exactly the prefix |
| `PrefixCache.PrefixCache.Restore` | src/cache/prefix_cache.cpp:47-54 | for any filename hash, every longer boundary that was available was shadowed; the one restored was available, and not shadowed if every deletion meanwhile succeeded; no position is decoded; exactly the entries and staged copies of the longer boundaries are gone |
| `PrefixCache.PrefixCache.Extend` | src/cache/prefix_cache.cpp:61-63 | one block further, stored under its own key as the newest entry and available then unless the write failed or its snapshot exceeds the disk budget, the cache still faithful; it fails exactly when the decode does |
| `PrefixCache.PrefixCache.Remainder` | src/cache/prefix_cache.cpp:57-64 | the backend ends with the whole prefix, having decoded exactly what was not restored; unless a write failed, exactly the boundaries crossed that fit the budget were stored: without a limit each can be read exactly if no longer one has its filename, with one the latest stay for which there is room (`MarksStay`); it fails exactly when a decode does |
| `PrefixCache.PrefixCache.StoreMark` | src/cache/prefix_cache.cpp:59-64 | one boundary further: what was known of those stored before stays known, and this one is the newest |
| `PrefixCache.PrefixCache.MarkServed` | src/cache/prefix_cache.cpp:59-64 | without a limit a boundary crossed can be read exactly if no longer one has its filename |
| `PrefixCache.PrefixCache.MarksStay` | src/cache/disk_cache_store.cpp:60-91 | with a limit a boundary that is gone has taken all shorter ones and all older entries with it, and one that stays can be read if no other entry has its filename |
| `PrefixCache.PrefixCache.Prefill` | src/cache/prefix_cache.cpp:38-66 | for every faithful cache the KV ends exactly equal to the prefix, unless one decode failed; no restored position is decoded, and the cache stays faithful through stores, evictions and staging; the boundary restored is the longest that was available, shadowed ones aside, and not shadowed itself if every deletion succeeded; a prefix that was available is restored whole; unless a write failed, the boundaries beyond are stored as by `Remainder`, and without a limit each of them is available exactly if no longer one has its filename |
| `PrefixCache.PrefixCache.WholeHit` | src/cache/prefix_cache.cpp:47-54 | a prefix that is itself available is restored whole: nothing longer can shadow it |
| `PrefixCache.PrefixCache.FoundAtLeast` | src/cache/prefix_cache.cpp:47-54 | at least the length of any boundary that is available and not shadowed is restored |
| `PrefixCache.PrefixCache.PrefillBoth` | src/cache/prefix_cache.cpp:38-66 | with no limit and no failing write, the second of two prompts restores every whole block of their common beginning that the first crossed, filenames permitting |
| `PrefixCache.PrefixCache.Prefetch` | src/cache/prefix_cache.cpp:72-78 | the same boundary is staged, with the same proviso about deletions, and none exactly when there is none or staging is off |
| `PrefixCache.PrefixCache.Stage` | src/cache/cache_manager.cpp:89-134 | staging succeeds exactly when a load would, and keeps the cache faithful |
| `CacheManager.Unstage` | src/cache/cache_manager.cpp:136-145 | removing a staged snapshot keeps the byte count and the age list in step with the map |
| `CacheManager.Stage` | src/cache/cache_manager.cpp:119-122 | so does adding one |
| `CacheManager.CacheManager.StoreState` | src/cache/cache_manager.cpp:66-87 | the stored payload is the enveloped state with the caller's count, entered as one successful put; a successful store is readable and ends within the disk budget; one fails exactly when the snapshot exceeds the budget or the write failed |
| `CacheManager.CacheManager.TakeStaging` | src/cache/cache_manager.cpp:136-145 | a staged snapshot is handed out once |
| `CacheManager.CacheManager.Fetch` | src/cache/cache_manager.cpp:164-195 | the last payload stored under the key if it checks out, nothing otherwise, and then the entry is gone; a miss drops the file of its name; entries under other filenames stay readable |
| `CacheManager.CacheManager.LoadState` | src/cache/cache_manager.cpp:147-199 | applies exactly the staged snapshot or else the stored one, succeeding exactly when there is one that restores; otherwise its entry is gone; what a miss deletes |
| `CacheManager.CacheManager.Prefetch` | src/cache/cache_manager.cpp:89-134 | what is staged is what a load would have applied; others are only dropped, never changed; staging ends within its budget or holds the newest alone |
| `CacheManager.CacheManager.Trim` | src/cache/cache_manager.cpp:123-132 | what is left is the newest end of the age list, unchanged, the last snapshot dropped had to go, and the one just staged never does |
| `DiskStore.SumWithout` | src/cache/disk_cache_store.cpp:123-131 | the total does not depend on the order of summation |
| `DiskStore.LeastRecent` | src/cache/disk_cache_store.cpp:141-150 | the victim is no younger than any entry |
| `DiskStore.DropOne` | src/cache/disk_cache_store.cpp:141-150 | dropping the oldest entry of an over-full store keeps the dropped set a minimal oldest one |
| `DiskStore.FileRoundTrip` | src/cache/disk_cache_store.cpp:13-27 | a file of key length, key and payload gives both back, and the size of an entry is the length of its file |
| `DiskStore.RoomTwice` | src/cache/disk_cache_store.cpp:141-150 | making room for one entry after the other leaves what making room once for all would |
| `DiskStore.FilledMore` | src/cache/disk_cache_store.cpp:60-91 | so after any number of puts just the fewest oldest entries are gone |
| `DiskStore.ServedMore` | src/cache/disk_cache_store.cpp:60-91 | and which of the items put can be read: without a limit those not overwritten, with one those still entered whose filename is their own |
| `DiskStore.LatestStay` | src/cache/disk_cache_store.cpp:60-91 | of items put the latest stay, and nothing older than one that is gone does |
| `DiskStore.ServedAlone` | src/cache/disk_cache_store.cpp:60-91 | an item that stays can be read if no other entry has its filename |
| `DiskStore.BooksWrite` | src/cache/disk_cache_store.cpp:84-90 | a write keeps entries, files, use history and both clocks in agreement |
| `DiskStore.BooksRead` | src/cache/disk_cache_store.cpp:115-115 | so does a read, which touches the recency and not the file |
| `DiskStore.ByAge` | src/cache/disk_cache_store.cpp:53-56 | the files in order of their last write |
| `DiskStore.DiskCacheStore.constructor` | src/cache/disk_cache_store.cpp:31-58 | an empty directory gives an empty valid store |
| `DiskStore.DiskCacheStore.Remove` | src/cache/disk_cache_store.cpp:123-131 | exactly this entry goes, and the file of its name unless the deletion fails |
| `DiskStore.DiskCacheStore.EvictUntilFits` | src/cache/disk_cache_store.cpp:141-150 | the evicted entries are the fewest oldest ones that make room, and only files under their names are lost |
| `DiskStore.DiskCacheStore.MakeRoom` | src/cache/disk_cache_store.cpp:64-65 | the old entry goes, then the fewest oldest others that make room |
| `DiskStore.DiskCacheStore.Write` | src/cache/disk_cache_store.cpp:67-90 | a written entry is readable, newest, counted, and bears the time of writing; a failed write enters nothing, and `unwritten` counts it |
| `DiskStore.DiskCacheStore.Put` | src/cache/disk_cache_store.cpp:60-91 | a put fails exactly when the entry is larger than the budget, and then changes nothing, or the write failed; a successful one is what a get will return, is the newest entry and ends within budget; either way the fewest oldest others are evicted, and only files under their names or its own are lost |
| `DiskStore.DiskCacheStore.Get` | src/cache/disk_cache_store.cpp:93-117 | for any filename hash, nothing or the payload of the last successful put under this very key, which then is the newest entry; a miss deletes the entry and the file of its name, whoever that belongs to |
| `DiskStore.DiskCacheStore.Index` | src/cache/disk_cache_store.cpp:36-57 | exactly the files with a sane key are entered, with their sizes counted, those written earlier as used earlier |
| `DiskStore.DiskCacheStore.Reopen` | src/cache/disk_cache_store.cpp:31-58 | a restart yields a valid store over the same files, with exactly those of a key of at most 4096 characters indexed in order of their last write |
| `DiskStore.DiskCacheStore.Restart` | src/cache/disk_cache_store.cpp:31-58 | of two readable entries the order of eviction survives a restart if and only if the one written earlier was not read after the last use of the other |
| `Uses.OrdersAgree` | src/cache/disk_cache_store.cpp:93-117 | over any history of writes and reads, the order of last use agrees with the order of last write under the same condition |
| `DiskStore.RestartForgetsReads` | src/cache/disk_cache_store.cpp:31-117 | unless a write fails: a store to which put a, put b, get a was done holds b as the older entry; opened again from its files it holds a as the older |
| `DiskStore.ClashDeletes` | src/cache/disk_cache_store.cpp:93-131 | unless a write fails: a store to which put u, put t under the same filename, get u was done has no entry for u, and the one of t is readable if and only if a deletion failed |
| `Checksum.Compute` | src/cache/cache_serializer.cpp:80-88 | the loop computes FNV-1a over 64 bits |
| `Checksum.XorBit` | src/cache/cache_serializer.cpp:83-86 | every bit of the exclusive-or tells whether the two bits differ (`BitIs`: the i-th binary digit) |
| `Checksum.KnownChecksums` | src/cache/cache_serializer.cpp:80-88 | the published FNV-1a values of the empty text and of "a" |
| `Checksum.StepInjective` | src/cache/cache_serializer.cpp:83-86 | for a fixed byte the step is injective in the hash, because the multiplier is odd |
| `Checksum.StepSensitive` | src/cache/cache_serializer.cpp:83-86 | for a fixed hash the step is injective in the byte |
| `Checksum.FnvInjective` | src/cache/cache_serializer.cpp:80-88 | different starting values stay different over any data |
| `Checksum.SingleByteDetected` | src/cache/cache_serializer.cpp:80-88 | one changed byte, anywhere in data of any length, changes the checksum |
| `Checksum.OpenEnvelope` | src/cache/cache_manager.cpp:66-199 | what was stored comes back: the same bytes, the same count |
| `Checksum.SingleByteCorruption` | src/cache/cache_manager.cpp:164-198 | a stored snapshot with one changed byte is rejected if and only if the byte is not one of the four of n_past, and there the same state comes back with a wrong count |
| `Bytes.RoundTrip` | src/cache/cache_manager.cpp:13-35 | little-endian packing loses nothing within its width |
| `Bytes.LittleEndian` | src/cache/cache_manager.cpp:13-35 | the i-th byte counts 256 to the i |
| `Bytes.EncodeDecode` | src/cache/cache_manager.cpp:13-35 | and unpacking then packing gives the bytes back |
| `Bytes.DecodeInjective` | src/cache/cache_manager.cpp:23-35 | different bytes are different numbers |
| `Corpus.IndexIsUnique` | src/palimpsest/corpus_index.cpp:62-82 | the log determines the index: the incremental one and a rebuild are the same map |
| `Corpus.PushSite` | src/palimpsest/corpus_index.cpp:62-73 | pushing one position keeps every bucket the newest max_sites sites of its hash |
| `Corpus.IndexStream` | src/palimpsest/corpus_index.cpp:62-73 | one stream further, the index is that of the longer log |
| `Corpus.RebuildIndex` | src/palimpsest/corpus_index.cpp:75-82 | the index of the whole log |
| `Corpus.FirstGenuine` | src/palimpsest/corpus_index.cpp:120-137 | hash collisions are passed over, and a genuine newest site is not |
| `Corpus.NewestOfBucket` | src/palimpsest/corpus_index.cpp:112-138 | without collisions the bucket's last site is the newest occurrence in the log |
| `Corpus.NoSites` | src/palimpsest/corpus_index.cpp:112-138 | an empty bucket means no occurrence in the log |
| `Corpus.Draft` | src/palimpsest/corpus_index.cpp:112-138 | for any hash a draft is the same-stream continuation of a real occurrence, at most k long and cut only by k or the stream's end; without collisions it continues the newest occurrence and is empty only when none exists |
| `Corpus.KeepNewest` | src/palimpsest/corpus_index.cpp:94-110 | what eviction keeps is a suffix of the streams that fits |
| `Corpus.KeepsLongest` | src/palimpsest/corpus_index.cpp:94-110 | and no longer suffix fits |
| `Corpus.DropsHalfWhen` | src/palimpsest/corpus_index.cpp:94-110 | eviction drops just the oldest half if and only if the newer half fits and would not with one stream more |
| `Corpus.DropsLessThanHalf` | src/palimpsest/corpus_index.cpp:94-110 | of four streams of one token a budget of three drops one |
| `Corpus.DropStreams` | src/palimpsest/corpus_index.cpp:96-110 | cutting the log and shifting the ends drops exactly the oldest streams |
| `Corpus.AddStream` | src/palimpsest/corpus_index.cpp:84-92 | appending to the log adds exactly one stream |
| `Corpus.CountDrops` | src/palimpsest/corpus_index.cpp:96-103 | the loop finds the streams that eviction keeps |
| `Corpus.SameStreams` | src/palimpsest/corpus_index.cpp:142-160 | the streams determine the log and its ends |
| `Corpus.CorpusIndex.constructor` | src/palimpsest/corpus_index.cpp:142-160 | loading any bytes keeps the newest readable streams that fit, and the file is a clean base for appending if and only if nothing was unread or eviction rewrote it |
| `Corpus.CorpusIndex.LoadLoop` | src/palimpsest/corpus_index.cpp:142-160 | the streams read are those of the file format |
| `Corpus.CorpusIndex.LoadFile` | src/palimpsest/corpus_index.cpp:142-160 | as for the constructor, in place |
| `Corpus.CorpusIndex.Append` | src/palimpsest/corpus_index.cpp:84-92 | one stream more, the index still that of the log |
| `Corpus.CorpusIndex.EvictOldest` | src/palimpsest/corpus_index.cpp:96-110 | the longest suffix of streams that fits, its index, and a file holding exactly it |
| `Corpus.CorpusIndex.Observe` | src/palimpsest/corpus_index.cpp:84-92 | the observed stream is remembered as the newest, the oldest make room, index and file stay right |
| `Corpus.CorpusIndex.Flush` | src/palimpsest/corpus_index.cpp:162-174 | the file grows by exactly the streams it did not have, clean or not, and a clean file then holds every stream |
| `Corpus.CorpusIndex.RewriteFile` | src/palimpsest/corpus_index.cpp:176-187 | the file holds exactly the streams |
| `Corpus.CorpusIndex.Reopened` | src/palimpsest/corpus_index.cpp:142-174 | flush then load reproduces streams, log, index and hence every draft |
| `CorpusLog.LoadAfterEncode` | src/palimpsest/corpus_index.cpp:142-174 | loading what was written gives it back and goes on with what follows |
| `CorpusLog.LoadRoundTrip` | src/palimpsest/corpus_index.cpp:142-187 | loading a written file gives exactly its streams, nothing unread |
| `CorpusLog.FrameLimit` | src/palimpsest/corpus_index.cpp:145-152 | a frame is read exactly if it announces 1 to 2^26 tokens and they are there |
| `CorpusLog.EncodeAfterLoad` | src/palimpsest/corpus_index.cpp:142-160 | any bytes at all are the loaded streams written out followed by the unread rest |
| `CorpusLog.TornFrame` | src/palimpsest/corpus_index.cpp:145-152 | a frame cut anywhere is not read |
| `CorpusLog.TornFile` | src/palimpsest/corpus_index.cpp:142-160 | any byte prefix of a file loads to a prefix of its streams |
| `CorpusLog.AppendAfterTear` | src/palimpsest/corpus_index.cpp:162-174 | appending to a torn file does not recover: a concrete tear turns the stream [8, 9] into a phantom [2] |
| `CorpusLog.CleanBase` | src/palimpsest/corpus_index.cpp:142-174 | whatever is appended to a file will be read back after what it holds, if and only if loading the file leaves nothing unread |
| `Resp.SplitLineExtends` | src/arca/resp.cpp:16-29 | more bytes do not move the first line end |
| `Resp.OneExtends` | src/arca/resp.cpp:50-101 | a command read, or an error found, stays the same whatever bytes follow |
| `Resp.DrainExtends` | src/arca/resp.cpp:33-42 | draining a longer buffer is draining the shorter one and going on from what it left; errors are stable |
| `Resp.ChunkingIndependence` | src/arca/resp.cpp:33-42 | for every byte string and every way of cutting it the same commands come out in the same order, the same bytes are left over, and an error is an error |
| `Resp.CommandOf` | src/arca/resp.cpp:71-110 | a multibulk encoding parses to its command, with whatever follows left |
| `Resp.RoundTrip` | src/arca/resp.cpp:71-110 | any list of non-empty commands within the limits, with arbitrary payload bytes, comes back exactly and leaves an empty buffer |
| `Resp.CountLimit` | src/arca/resp.cpp:71-76 | a count is refused exactly from 1025 on |
| `Resp.LengthLimit` | src/arca/resp.cpp:84-89 | a length is refused exactly above 64 MB |
| `Resp.NegativeCount` | src/arca/resp.cpp:22-26 | negative counts are refused, and minus zero is a count like zero |
| `Resp.WordsOfSpaced` | src/arca/resp.cpp:57-66 | however words are spaced out, they are the words of the line |
| `Resp.InlineOf` | src/arca/resp.cpp:53-69 | inline round trip: any words without spaces and line ends, with any gaps, come back, and what follows the line is left |
| `Resp.InlineRoundTrip` | src/arca/resp.cpp:33-69 | any list of inline commands comes back exactly, whatever the spacing, and leaves an empty buffer |
| `Resp.FindCrlf` | src/arca/resp.cpp:17-18 | the first line end, or none |
| `Resp.ParseDigits` | src/arca/resp.cpp:19-26 | a value exactly for digit strings |
| `Resp.ParseNumberLine` | src/arca/resp.cpp:16-29 | the offset-based number parser agrees with the one on suffixes: incomplete, malformed or value |
| `Resp.ParseBulkAt` | src/arca/resp.cpp:81-96 | so does the bulk string, with its size limit and terminator |
| `Resp.ParseBulksAt` | src/arca/resp.cpp:78-100 | and the loop over the elements |
| `Resp.ParseOneAt` | src/arca/resp.cpp:50-101 | and the whole command, which always consumes something |
| `Resp.WordsOfLine` | src/arca/resp.cpp:57-66 | every line is its words, none empty or with a space in it, written with some number of spaces before, after and at least one between them |
| `Resp.SplitWords` | src/arca/resp.cpp:57-66 | the loop gives exactly those words |
| `Resp.RespParser.constructor` | src/arca/resp.cpp:33-42 | a new parser holds nothing |
| `Resp.RespParser.Feed` | src/arca/resp.cpp:33-42 | exactly the whole commands of the buffer become ready, in order; malformed bytes are reported with the commands before them still ready, and every later feed hands those out again and fails again |
| `Resp.RespParser.Take` | src/arca/resp.cpp:44-48 | ready commands are handed out once, the partial command stays |
| `Conclave.DisjointVotes` | src/core/conclave.cpp:97-110 | two numbers cannot both hold a majority |
| `Conclave.CountVotes` | src/core/conclave.cpp:102-104 | the loop counts the candidates concluding with a number |
| `Conclave.MostVoted` | src/core/conclave.cpp:97-110 | the first carrier of the most voted number with at least two votes, or none exactly when no number has two |
| `Conclave.Elect` | src/core/conclave.cpp:123-138 | the first candidate of greatest total similarity to the others |
| `Conclave.ElectNumeric` | src/core/conclave.cpp:86-113 | the first carrier of the majority number when at least half conclude with a number and one has two votes, the medoid otherwise |
| `Conclave.MajorityWins` | src/core/conclave.cpp:86-113 | an absolute majority of all candidates decides the election |
| `Conclave.TextConcat` | src/core/engine.cpp:302-305 | the pieces of an answer make it up in their order |
| `Conclave.CastVote` | src/core/engine.cpp:307-317 | one more vote keeps the tally exact, and a winner appears exactly at the first absolute majority |
| `Conclave.EarlyIsFinal` | src/core/engine.cpp:292-357 | the early winner's number is the one the full election picks from all n complete answers, however the stragglers would have ended |
| `Conclave.Ballot.constructor` | src/core/engine.cpp:292-296 | no votes and no winner before the first attempt ends |
| `Conclave.Ballot.Deliver` | src/core/engine.cpp:302-305 | a piece is kept, and the attempt is cut exactly when the verdict is in |
| `Conclave.Ballot.Finish` | src/core/engine.cpp:307-317 | only untruncated answers vote, at most one winner is ever set, later finishers change nothing |
| `Conclave.ScanNumber` | src/core/conclave.cpp:63-81 | the loop scans one number: digits, separators dropped, one inner decimal point, as long as it goes on |
| `Conclave.FinalNumber` | src/core/conclave.cpp:41-84 | the last of the numbers scanned from the left; empty exactly for a text without digits; otherwise no digit follows it, it does not continue an earlier one, and it begins with a minus exactly where a hyphen precedes it that stands at the beginning or behind a character that is neither a letter nor a digit |
| `Conclave.HyphenAndDigits` | src/core/conclave.cpp:47-53 | whatever the text before, a hyphen and digits at the end conclude with the digits behind a letter or digit, and with the negative number otherwise |
| `Conclave.SeparatorAndPoints` | src/core/conclave.cpp:63-79 | a separator between digits is dropped, one decimal point is kept, and a second one begins another number |

## Left out

- Unbiased.SpeechIsDrawn: ties each draw to an interval of the uniform number as long as the token is likely; the integral over all tapes is not formed.
- Engine.ReameEngine.Serve: after a failed backend operation the KV is arbitrary, so it goes on only if the counters differ; `warm` and session calls in between are excluded; with a decoder the answer is that of a cold start with the plan the decoder has by then, which the code keeps across calls, and with the archive fixed: the code adds every generation to it (src/speculative/speculative_decoder.cpp:87-103), so that a later call may retrieve other drafts, which changes no greedy answer.
- Scheduler.SeqBackend.DecodeSeqs: exceptions from clearing or copying a sequence are not modelled.
- Sampling.Distribution: temperature and softmax are a parameter.
- Conclave.Elect: text similarity is a non-negative parameter.
- Conclave.Ballot.Finish: attempts that throw are left out; the vote count reported to the caller is not modelled.
- Corpus.CorpusIndex.constructor: assumes a budget of at most 2^26 tokens, as longer frames are not read back; the 32-bit truncation of stored offsets lies beyond that.
- Corpus.CorpusIndex.Flush: a write of the log file that fails half-way is modelled only as the torn file it leaves (`CorpusLog.TornFile`).
- Corpus.CorpusIndex.RewriteFile: likewise, the write succeeds.
- Resp.ParseNumberLine: a length too long for a machine integer counts as malformed by the size limits; that the code then throws another exception type is not distinguished.
- DiskStore.DiskCacheStore.Get: a file is a key and a payload (`FileRoundTrip` is its layout); read errors on an existing file are not modelled.
- DiskStore.DiskCacheStore.Reopen: two files written within one tick of the file clock, which the code orders by key, do not occur.
- Checksum.OpenEnvelope: the raw envelope only; zstd compression is left out.
- The worker thread and its condition variables, concurrent prefetches, and every other use of locks: the scheduler, the caches and the ballot are modelled as sequences of atomic steps.
- The response cache of the engine, sessions, `warm`, prompt echo and statistics counters.
- The structural prompter, answer similarity, configuration, logging and the observation of finished generations by the archive.
- HTTP and RESP servers, clients, tokenizer, chat templates and the concrete backends.
