/** Shared-prefix prefill: KV snapshots at block boundaries of a prompt. */
module PrefixCache {
  import opened Backend
  import opened DiskStore
  import opened CacheManager
  import C = Checksum
  import B = Bytes

  /** A positive multiple of the block size. */
  predicate OnGrid(b: int, block: nat)
    requires block >= 1
    decreases b
  {
    b == block || (b > block && OnGrid(b - block, block))
  }

  lemma {:induction false} GridIsMultiples(b: int, block: nat)
    requires block >= 1
    ensures OnGrid(b, block) <==> b > 0 && b % block == 0
    decreases b
  {
    if b > block {
      GridIsMultiples(b - block, block);
      var q, r := (b - block) / block, (b - block) % block;
      assert b == block * (q + 1) + r;
      B.QuotientIs(b, block, q + 1, r);
    }
  }

  predicate IsMark(b: int, size: nat, block: nat)
    requires block >= 1
  {
    (b < size && OnGrid(b, block)) || b == size > 0
  }

  /** Snapshot points of a prefix of `size` tokens: every mark, ascending. */
  ghost predicate AreBoundaries(marks: seq<nat>, size: nat, block: nat)
    requires block >= 1
  {
    && (forall i, j :: 0 <= i < j < |marks| ==> marks[i] < marks[j])
    && (forall i :: 0 <= i < |marks| ==> 1 <= marks[i] <= size && IsMark(marks[i], size, block))
    && (forall b :: IsMark(b, size, block) ==> b in marks)
    && (size > 0 ==> marks != [] && marks[|marks| - 1] == size)
  }

  lemma {:induction false} NextOnGrid(b: nat, c: nat, block: nat)
    requires block >= 1 && OnGrid(b, block) && OnGrid(c, block) && b < c
    ensures b + block <= c
    decreases b
  {
    if b > block { NextOnGrid(b - block, c - block, block); }
  }

  /** The marks below b, ascending. */
  ghost predicate GridBelow(marks: seq<nat>, size: nat, block: nat, b: nat)
    requires block >= 1
  {
    && (forall i, j :: 0 <= i < j < |marks| ==> marks[i] < marks[j])
    && (forall i :: 0 <= i < |marks| ==> 1 <= marks[i] < b && marks[i] < size && OnGrid(marks[i], block))
    && (forall c :: c < b && c < size && OnGrid(c, block) ==> c in marks)
  }

  lemma GridStep(marks: seq<nat>, size: nat, block: nat, b: nat)
    requires block >= 1 && GridBelow(marks, size, block, b) && OnGrid(b, block) && 1 <= b < size
    ensures GridBelow(marks + [b], size, block, b + block)
  {
    forall c | c < b + block && c < size && OnGrid(c, block)
      ensures c in marks + [b]
    {
      if c > b { NextOnGrid(b, c, block); }
      if c == b { assert (marks + [b])[|marks|] == b; }
    }
  }

  lemma GridEnd(marks: seq<nat>, size: nat, block: nat, b: nat)
    requires block >= 1 && GridBelow(marks, size, block, b) && OnGrid(b, block) && size <= b
    ensures AreBoundaries(if size > 0 then marks + [size] else marks, size, block)
  {
    if size > 0 { assert (marks + [size])[|marks|] == size; }
  }

  method Boundaries(size: nat, block: nat) returns (marks: seq<nat>)
    requires block >= 1
    ensures AreBoundaries(marks, size, block)
  {
    marks := [];
    var b := block;
    FirstOnGrid(block);
    while b < size
      invariant b >= 1 && OnGrid(b, block) && GridBelow(marks, size, block, b)
      decreases size - b
    {
      hide GridBelow;
      GridStep(marks, size, block, b);
      marks, b := marks + [b], b + block;
    }
    GridEnd(marks, size, block, b);
    if size > 0 { marks := marks + [size]; }
  }

  lemma FirstOnGrid(block: nat)
    requires block >= 1
    ensures forall c :: OnGrid(c, block) ==> c >= block
  {
  }

  // ---- What the cache holds -----------------------------------------------

  /** What can be loaded: the staged snapshots and the store. */
  datatype Held = Held(staging: map<Key, Ready>, entries: map<Key, Entry>, files: map<Path, File>)

  /** How prefixes are named, and which prefixes ever occur. */
  datatype Keys = Keys(keyFor: seq<Token> -> Key, inPlay: seq<Token> -> bool) {

    /** Keys of prefixes in play do not collide, and their lengths fit the
        snapshot header. */
    ghost predicate Apart() {
      && (forall a, b {:trigger keyFor(a), keyFor(b)} :: inPlay(a) && inPlay(b) && keyFor(a) == keyFor(b) ==> a == b)
      && (forall t {:trigger inPlay(t)} :: inPlay(t) ==> |t| < C.TWO32)
    }

    ghost predicate Snapshot(m: Model, last: map<Key, Payload>, staging: map<Key, Ready>, t: seq<Token>) {
      && (keyFor(t) in last ==> last[keyFor(t)] == C.Envelope(m.save(t), |t|))
      && (keyFor(t) in staging ==> staging[keyFor(t)] == Ready(m.save(t), |t|))
    }

    /** Every snapshot held for a prefix in play is a snapshot of that prefix. */
    ghost predicate Faithful(m: Model, last: map<Key, Payload>, staging: map<Key, Ready>) {
      forall t {:trigger keyFor(t)} :: inPlay(t) ==> Snapshot(m, last, staging, t)
    }

    /** A load of this prefix would hit. */
    ghost predicate Has(held: Held, t: seq<Token>) {
      keyFor(t) in held.staging || ReadableIn(held.entries, held.files, keyFor(t))
    }

    /** A store that was never written to is faithful to every model. */
    lemma EmptyIsFaithful(m: Model)
      ensures Faithful(m, map[], map[])
    {
      hide C.Envelope;
      forall t | inPlay(t) ensures Snapshot(m, map[], map[], t) {
        var none: map<Key, Payload>, unstaged: map<Key, Ready> := map[], map[];
        assert keyFor(t) !in none && keyFor(t) !in unstaged;
      }
    }

    lemma Restaged(m: Model, last: map<Key, Payload>, staging: map<Key, Ready>, staging': map<Key, Ready>,
                   t: seq<Token>)
      requires Apart() && Faithful(m, last, staging) && inPlay(t)
      requires forall k :: k in staging' && k != keyFor(t) ==> k in staging && staging'[k] == staging[k]
      requires keyFor(t) in staging' ==> staging'[keyFor(t)] == Ready(m.save(t), |t|)
      ensures Faithful(m, last, staging')
    {
      hide C.Envelope;
      forall u | inPlay(u)
        ensures Snapshot(m, last, staging', u)
      {
        assert Snapshot(m, last, staging, u);
      }
    }

    lemma Stored(m: Model, last: map<Key, Payload>, staging: map<Key, Ready>, t: seq<Token>)
      requires Apart() && Faithful(m, last, staging) && inPlay(t)
      ensures Faithful(m, last[keyFor(t) := C.Envelope(m.save(t), |t|)], staging)
    {
      hide C.Envelope;
      var last' := last[keyFor(t) := C.Envelope(m.save(t), |t|)];
      forall u | inPlay(u)
        ensures Snapshot(m, last', staging, u)
      {
        assert Snapshot(m, last, staging, u);
      }
    }

    /** The entries of the two prefixes have the same filename, and only the file
        could serve the first. */
    ghost predicate Clash(held: Held, t: seq<Token>, u: seq<Token>) {
      ClashIn(held.entries, keyFor(t), keyFor(u)) && keyFor(t) !in held.staging
    }

    /** A longer boundary has an entry under the same filename: looking for it
        deletes the file. */
    ghost predicate Shadowed(held: Held, prefix: seq<Token>, block: nat, b: nat)
      requires block >= 1 && b <= |prefix|
    {
      exists c :: b < c <= |prefix| && IsMark(c, |prefix|, block) && Clash(held, prefix[..b], prefix[..c])
    }

    ghost predicate ShadowedFrom(held: Held, prefix: seq<Token>, marks: seq<nat>, i: nat, t: seq<Token>)
      requires forall j :: 0 <= j < |marks| ==> marks[j] <= |prefix|
    {
      exists j :: i <= j < |marks| && Clash(held, t, prefix[..marks[j]])
    }

    /** As staged and entered as before. */
    ghost predicate Untried(held: Held, now: Held, t: seq<Token>) {
      var k := keyFor(t);
      && (k in now.staging <==> k in held.staging)
      && (k in now.entries <==> k in held.entries) && (k in held.entries ==> now.entries[k] == held.entries[k])
    }

    /** Boundaries tried longest first, those from the i-th on in vain. Of these
        only shadowed ones were available at the start; of the others those not
        shadowed by them still are, and, if no deletion failed, no others. */
    ghost predicate Searching(held: Held, now: Held, prefix: seq<Token>, marks: seq<nat>, i: nat, failed: bool)
      requires forall j :: 0 <= j < |marks| ==> marks[j] <= |prefix|
      requires i <= |marks|
    {
      && (forall j :: 0 <= j < i ==> Untried(held, now, prefix[..marks[j]]))
      && (forall j :: 0 <= j < i ==> Standing(held, now, prefix, marks, i, failed, prefix[..marks[j]]))
      && (forall j :: i <= j < |marks| && Has(held, prefix[..marks[j]]) ==>
            ShadowedFrom(held, prefix, marks, j + 1, prefix[..marks[j]]))
    }

    ghost predicate Standing(held: Held, now: Held, prefix: seq<Token>, marks: seq<nat>, i: nat, failed: bool,
                             t: seq<Token>)
      requires forall j :: 0 <= j < |marks| ==> marks[j] <= |prefix|
    {
      && (Has(now, t) ==> Has(held, t))
      && (Has(held, t) && !ShadowedFrom(held, prefix, marks, i, t) ==> Has(now, t))
      && (!failed && Has(now, t) ==> !ShadowedFrom(held, prefix, marks, i, t))
    }

    /** The search goes on: what a miss of t means for a shorter prefix u. */
    lemma StillStanding(held: Held, now: Held, next: Held, prefix: seq<Token>, marks: seq<nat>, i: nat, was: bool,
                        failed: bool, u: seq<Token>)
      requires Apart() && i < |marks| && (forall j :: 0 <= j < |marks| ==> marks[j] <= |prefix|)
      requires inPlay(u) && inPlay(prefix[..marks[i]]) && u != prefix[..marks[i]]
      requires Untried(held, now, u) && Untried(held, now, prefix[..marks[i]]) && !Has(now, prefix[..marks[i]])
      requires Standing(held, now, prefix, marks, i + 1, was, u)
      requires Missed(now.entries, now.files, next.entries, next.files, keyFor(prefix[..marks[i]]), failed)
      requires next.staging == now.staging || next.staging == now.staging - {keyFor(prefix[..marks[i]])}
      ensures Untried(held, next, u) && Standing(held, next, prefix, marks, i, was || failed, u)
    {
      var t := prefix[..marks[i]];
      assert keyFor(u) != keyFor(t);
      MoreShadows(held, prefix, marks, i, u);
    }

    lemma MoreShadows(held: Held, prefix: seq<Token>, marks: seq<nat>, i: nat, u: seq<Token>)
      requires i < |marks| && forall j :: 0 <= j < |marks| ==> marks[j] <= |prefix|
      ensures ShadowedFrom(held, prefix, marks, i, u) <==>
        Clash(held, u, prefix[..marks[i]]) || ShadowedFrom(held, prefix, marks, i + 1, u)
    {
      hide Clash;
    }

    lemma SearchOn(held: Held, now: Held, next: Held, prefix: seq<Token>, marks: seq<nat>, i: nat, was: bool,
                   failed: bool)
      requires Apart() && i < |marks| && (forall n :: 0 <= n <= |prefix| ==> inPlay(prefix[..n]))
      requires forall j :: 0 <= j < |marks| ==> marks[j] <= |prefix|
      requires forall j :: 0 <= j < i ==> marks[j] < marks[i]
      requires Searching(held, now, prefix, marks, i + 1, was) && !Has(now, prefix[..marks[i]])
      requires Missed(now.entries, now.files, next.entries, next.files, keyFor(prefix[..marks[i]]), failed)
      requires next.staging == now.staging || next.staging == now.staging - {keyFor(prefix[..marks[i]])}
      ensures Searching(held, next, prefix, marks, i, was || failed)
    {
      hide Apart, Has, Missed, Untried, Standing, ShadowedFrom;
      var t := prefix[..marks[i]];
      assert Untried(held, now, t) && Standing(held, now, prefix, marks, i + 1, was, t);
      forall j | 0 <= j < i
        ensures Untried(held, next, prefix[..marks[j]])
        ensures Standing(held, next, prefix, marks, i, was || failed, prefix[..marks[j]])
      {
        assert |prefix[..marks[j]]| < |t|;
        StillStanding(held, now, next, prefix, marks, i, was, failed, prefix[..marks[j]]);
      }
      InVain(held, now, prefix, marks, i, was);
    }

    lemma InVain(held: Held, now: Held, prefix: seq<Token>, marks: seq<nat>, i: nat, was: bool)
      requires i < |marks| && forall j :: 0 <= j < |marks| ==> marks[j] <= |prefix|
      requires Standing(held, now, prefix, marks, i + 1, was, prefix[..marks[i]]) && !Has(now, prefix[..marks[i]])
      ensures Has(held, prefix[..marks[i]]) ==> ShadowedFrom(held, prefix, marks, i + 1, prefix[..marks[i]])
    {
      hide Has, ShadowedFrom;
    }
  }

  // ---- The cache ----------------------------------------------------------

  class PrefixCache {
    const manager: CacheManager
    const block: nat
    const model: Model
    const keys: Keys

    /** Over any faithful manager, in particular one that holds nothing yet. */
    constructor (manager: CacheManager, block: int, model: Model, keys: Keys)
      requires model.Valid() && keys.Apart() && manager.Valid()
      requires keys.Faithful(model, manager.store.last, manager.staging)
      ensures Valid()
      ensures this.manager == manager && this.block == Max(block, 1) && this.model == model && this.keys == keys
    {
      this.manager, this.block, this.model, this.keys := manager, Max(block, 1), model, keys;
    }

    ghost predicate Valid()
      reads this, manager, manager.store
    {
      && block >= 1 && model.Valid() && keys.Apart()
      && manager.Valid() && keys.Faithful(model, manager.store.last, manager.staging)
    }

    ghost function Now(): Held
      reads this, manager, manager.store
    {
      Held(manager.staging, manager.store.entries, manager.store.files)
    }

    ghost predicate Available(t: seq<Token>)
      reads this, manager, manager.store
    {
      keys.Has(Now(), t)
    }

    /** Every prefix of this prompt is in play. */
    ghost predicate InPlay(prefix: seq<Token>) {
      forall n :: 0 <= n <= |prefix| ==> keys.inPlay(prefix[..n])
    }

    /** What a load of a prefix in play would apply: its own state, or nothing. */
    lemma ContentOf(t: seq<Token>)
      requires Valid() && keys.inPlay(t)
      ensures manager.Content(keys.keyFor(t)) == if Available(t) then Some(Ready(model.save(t), |t|)) else None
    {
      hide StagingOk, Sum, Strict, FilesOk, C.Open, C.Envelope;
      assert keys.Snapshot(model, manager.store.last, manager.staging, t);
      C.OpenEnvelope(model.save(t), |t|);
    }

    /** Loads one boundary. */
    method Load(t: seq<Token>, backend: LlamaBackend) returns (ok: bool)
      requires Valid() && keys.inPlay(t) && backend.model == model
      modifies manager, manager.store, backend
      ensures Valid() && (ok <==> old(Available(t))) && (ok ==> backend.Holds(t))
      ensures backend.decoded == old(backend.decoded) && backend.faults == old(backend.faults)
      ensures manager.staging == old(manager.staging) - {keys.keyFor(t)}
      ensures manager.store.undeleted >= old(manager.store.undeleted)
      ensures manager.store.unwritten == old(manager.store.unwritten)
      ensures !ok ==> Missed(old(manager.store.entries), old(manager.store.files), manager.store.entries,
                             manager.store.files, keys.keyFor(t),
                             manager.store.undeleted > old(manager.store.undeleted))
      ensures !ok ==> manager.store.entries == old(manager.store.entries) - {keys.keyFor(t)}
      ensures ok ==> UsedOnly(old(manager.store.entries), manager.store.entries, keys.keyFor(t))
    {
      hide StagingOk, C.Envelope, C.Open, ReadableIn, OthersKept, Missed;
      ContentOf(t);
      keys.Restaged(model, manager.store.last, manager.staging, manager.staging - {keys.keyFor(t)}, t);
      assert model.restore(model.save(t)) == Some(t);
      ghost var entries, files, undeleted := manager.store.entries, manager.store.files, manager.store.undeleted;
      ok := manager.LoadState(keys.keyFor(t), backend);
      if !ok {
        MissedGone(entries, files, manager.store.entries, manager.store.files, keys.keyFor(t),
                   manager.store.undeleted > undeleted);
      }
    }

    /** Restores the longest boundary that loads, longest first. `clean`: no file
        deletion failed meanwhile. */
    method Restore(prefix: seq<Token>, marks: seq<nat>, backend: LlamaBackend)
      returns (restored: nat, ghost clean: bool)
      requires Valid() && backend.model == model && AreBoundaries(marks, |prefix|, block) && InPlay(prefix)
      modifies manager, manager.store, backend
      ensures Valid() && restored <= |prefix|
      ensures (restored > 0 ==> restored in marks && backend.Holds(prefix[..restored]))
      ensures backend.decoded == old(backend.decoded) && backend.faults == old(backend.faults)
      ensures manager.store.undeleted >= old(manager.store.undeleted)
      ensures manager.store.undeleted == old(manager.store.undeleted) ==> clean
      ensures manager.store.unwritten == old(manager.store.unwritten)
      ensures Longest(old(Now()), prefix, restored, clean) && TriedOut(old(Now()), Now(), prefix, restored)
    {
      hide Valid, IsMark, Trying, TriedOut, Longest;
      ghost var held := Now();
      restored, clean := 0, true;
      var i := |marks|;
      TryingStarts(held, prefix, marks);
      while i > 0
        invariant 0 <= i <= |marks| && Valid()
        invariant backend.decoded == old(backend.decoded) && backend.faults == old(backend.faults)
        invariant manager.store.undeleted >= old(manager.store.undeleted)
        invariant manager.store.undeleted == old(manager.store.undeleted) ==> clean
        invariant manager.store.unwritten == old(manager.store.unwritten)
        invariant Trying(held, Now(), prefix, marks, i, clean)
      {
        i := i - 1;
        var ok;
        ok, clean := TryMark(held, prefix, marks, i, clean, backend);
        if ok {
          restored := marks[i];
          return;
        }
      }
      assert block >= 1 by { BlockSize(); }
      TriedNone(held, Now(), prefix, marks, clean);
    }

    lemma BlockSize()
      requires Valid()
      ensures block >= 1 && keys.Apart()
    {
    }

    /** The i-th mark, those beyond it having been tried in vain. */
    method TryMark(ghost held: Held, prefix: seq<Token>, marks: seq<nat>, i: nat, ghost clean0: bool,
                   backend: LlamaBackend) returns (ok: bool, ghost clean: bool)
      requires Valid() && backend.model == model && AreBoundaries(marks, |prefix|, block) && InPlay(prefix)
      requires i < |marks| && Trying(held, Now(), prefix, marks, i + 1, clean0)
      modifies manager, manager.store, backend
      ensures Valid() && marks[i] > 0
      ensures backend.decoded == old(backend.decoded) && backend.faults == old(backend.faults)
      ensures manager.store.undeleted >= old(manager.store.undeleted)
      ensures manager.store.undeleted == old(manager.store.undeleted) && clean0 ==> clean
      ensures manager.store.unwritten == old(manager.store.unwritten)
      ensures ok ==> backend.Holds(prefix[..marks[i]]) && Longest(held, prefix, marks[i], clean)
                     && TriedOut(held, Now(), prefix, marks[i])
      ensures !ok ==> Trying(held, Now(), prefix, marks, i, clean)
    {
      BlockSize();
      hide Valid, IsMark, Trying, TriedOut, Longest, Keys.Has, Missed, Keys.Apart, UsedOnly;
      assert marks[i] in marks;
      ghost var now, undeleted := Now(), manager.store.undeleted;
      ok := Load(prefix[..marks[i]], backend);
      clean := clean0;
      if ok {
        TriedWell(held, now, Now(), prefix, marks, i, clean);
      } else {
        ghost var failed := manager.store.undeleted > undeleted;
        TriedInVain(held, now, Now(), prefix, marks, i, clean, failed);
        clean := clean && !failed;
      }
    }

    /** The boundary found is the longest that was available, those shadowed by a
        longer one aside; it was not shadowed itself, unless a deletion failed. */
    ghost predicate Longest(held: Held, prefix: seq<Token>, found: nat, clean: bool)
      requires found <= |prefix|
    {
      && block >= 1
      && (found > 0 ==> keys.Has(held, prefix[..found]))
      && (found > 0 && clean ==> !keys.Shadowed(held, prefix, block, found))
      && forall b: nat :: found < b <= |prefix| && IsMark(b, |prefix|, block) && keys.Has(held, prefix[..b]) ==>
           keys.Shadowed(held, prefix, block, b)
    }

    /** The key of a boundary beyond `found`. */
    ghost predicate BeyondKey(prefix: seq<Token>, found: nat, k: Key)
      requires block >= 1 && found <= |prefix|
    {
      exists b :: found < b <= |prefix| && IsMark(b, |prefix|, block) && k == keys.keyFor(prefix[..b])
    }

    /** The boundaries beyond `found` were tried and are gone; of the other entries
        at most the age of the one found differs. */
    ghost predicate TriedOut(was: Held, now: Held, prefix: seq<Token>, found: nat)
      requires block >= 1 && found <= |prefix|
    {
      && (forall k :: k in now.entries <==> k in was.entries && !BeyondKey(prefix, found, k))
      && (forall k :: k in now.staging ==> !BeyondKey(prefix, found, k))
      && forall k :: k in now.entries ==>
           && now.entries[k] == was.entries[k].(recency := now.entries[k].recency)
           && (found == 0 || k != keys.keyFor(prefix[..found]) ==> now.entries[k] == was.entries[k])
    }

    ghost predicate TriedFrom(was: Held, now: Held, prefix: seq<Token>, marks: seq<nat>, i: nat)
      requires forall j :: 0 <= j < |marks| ==> marks[j] <= |prefix|
    {
      && (forall k :: k in now.entries <==> k in was.entries && !KeyFrom(prefix, marks, i, k))
      && (forall k :: k in now.staging ==> !KeyFrom(prefix, marks, i, k))
      && forall k :: k in now.entries ==> now.entries[k] == was.entries[k]
    }

    ghost predicate KeyFrom(prefix: seq<Token>, marks: seq<nat>, i: nat, k: Key)
      requires forall j :: 0 <= j < |marks| ==> marks[j] <= |prefix|
    {
      exists j :: i <= j < |marks| && k == keys.keyFor(prefix[..marks[j]])
    }

    lemma OneMoreTried(was: Held, now: Held, next: Held, prefix: seq<Token>, marks: seq<nat>, i: nat)
      requires i < |marks| && forall j :: 0 <= j < |marks| ==> marks[j] <= |prefix|
      requires TriedFrom(was, now, prefix, marks, i + 1)
      requires next.entries == now.entries - {keys.keyFor(prefix[..marks[i]])}
      requires next.staging == now.staging - {keys.keyFor(prefix[..marks[i]])}
      ensures TriedFrom(was, next, prefix, marks, i)
    {
    }

    /** The search ended at the i-th mark, or found none. */
    lemma TriedAll(was: Held, now: Held, next: Held, prefix: seq<Token>, marks: seq<nat>, i: nat, found: nat)
      requires block >= 1 && AreBoundaries(marks, |prefix|, block) && found <= |prefix|
      requires TriedFrom(was, now, prefix, marks, i) && forall k :: k in next.staging ==> k in now.staging
      requires if found == 0 then i == 0 && next == now
               else 0 < i <= |marks| && found == marks[i - 1]
                    && UsedOnly(now.entries, next.entries, keys.keyFor(prefix[..found]))
      ensures TriedOut(was, next, prefix, found)
    {
      forall k ensures KeyFrom(prefix, marks, i, k) <==> BeyondKey(prefix, found, k) {
        SameKeys(prefix, marks, i, found, k);
      }
      hide KeyFrom, BeyondKey, AreBoundaries;
    }

    /** Searching, with the entries of what was tried in vain gone. */
    ghost predicate Trying(was: Held, now: Held, prefix: seq<Token>, marks: seq<nat>, i: nat, clean: bool)
      requires (forall j :: 0 <= j < |marks| ==> marks[j] <= |prefix|) && i <= |marks|
    {
      keys.Searching(was, now, prefix, marks, i, !clean) && TriedFrom(was, now, prefix, marks, i)
    }

    lemma TryingStarts(held: Held, prefix: seq<Token>, marks: seq<nat>)
      requires forall j :: 0 <= j < |marks| ==> marks[j] <= |prefix|
      ensures Trying(held, held, prefix, marks, |marks|, true)
    {
      SearchStarts(keys, held, prefix, marks);
    }

    lemma TriedInVain(held: Held, now: Held, next: Held, prefix: seq<Token>, marks: seq<nat>, i: nat, clean: bool,
                      failed: bool)
      requires keys.Apart() && block >= 1 && AreBoundaries(marks, |prefix|, block) && InPlay(prefix) && i < |marks|
      requires Trying(held, now, prefix, marks, i + 1, clean) && !keys.Has(now, prefix[..marks[i]])
      requires Missed(now.entries, now.files, next.entries, next.files, keys.keyFor(prefix[..marks[i]]), failed)
      requires next.staging == now.staging - {keys.keyFor(prefix[..marks[i]])}
      ensures Trying(held, next, prefix, marks, i, clean && !failed)
    {
      hide IsMark, Keys.Apart, Keys.Has, Keys.Searching, TriedFrom, Missed;
      MissedGone(now.entries, now.files, next.entries, next.files, keys.keyFor(prefix[..marks[i]]), failed);
      keys.SearchOn(held, now, next, prefix, marks, i, !clean, failed);
      OneMoreTried(held, now, next, prefix, marks, i);
    }

    lemma TriedWell(held: Held, now: Held, next: Held, prefix: seq<Token>, marks: seq<nat>, i: nat, clean: bool)
      requires block >= 1 && AreBoundaries(marks, |prefix|, block) && i < |marks|
      requires Trying(held, now, prefix, marks, i + 1, clean) && keys.Has(now, prefix[..marks[i]])
      requires UsedOnly(now.entries, next.entries, keys.keyFor(prefix[..marks[i]]))
      requires next.staging == now.staging - {keys.keyFor(prefix[..marks[i]])}
      ensures marks[i] > 0 && Longest(held, prefix, marks[i], clean) && TriedOut(held, next, prefix, marks[i])
    {
      SearchEnded(held, now, prefix, marks, i, clean);
      assert marks[i] in marks;
      TriedAll(held, now, next, prefix, marks, i + 1, marks[i]);
    }

    lemma TriedNone(held: Held, now: Held, prefix: seq<Token>, marks: seq<nat>, clean: bool)
      requires block >= 1 && AreBoundaries(marks, |prefix|, block) && Trying(held, now, prefix, marks, 0, clean)
      ensures Longest(held, prefix, 0, clean) && TriedOut(held, now, prefix, 0)
    {
      SearchFailed(held, now, prefix, marks, clean);
      TriedAll(held, now, now, prefix, marks, 0, 0);
    }

    lemma SameKeys(prefix: seq<Token>, marks: seq<nat>, i: nat, found: nat, k: Key)
      requires block >= 1 && AreBoundaries(marks, |prefix|, block) && found <= |prefix|
      requires if found == 0 then i == 0 else 0 < i <= |marks| && found == marks[i - 1]
      ensures KeyFrom(prefix, marks, i, k) <==> BeyondKey(prefix, found, k)
    {
      hide IsMark;
      if KeyFrom(prefix, marks, i, k) {
        var j :| i <= j < |marks| && k == keys.keyFor(prefix[..marks[j]]);
        assert marks[j] > found && IsMark(marks[j], |prefix|, block);
      }
      if BeyondKey(prefix, found, k) {
        var b :| found < b <= |prefix| && IsMark(b, |prefix|, block) && k == keys.keyFor(prefix[..b]);
        assert b in marks;
        var j :| 0 <= j < |marks| && marks[j] == b;
        assert j >= i;
      }
    }

    static lemma SearchStarts(keys: Keys, held: Held, prefix: seq<Token>, marks: seq<nat>)
      requires forall j :: 0 <= j < |marks| ==> marks[j] <= |prefix|
      ensures keys.Searching(held, held, prefix, marks, |marks|, false)
    {
      hide Keys.Has;
    }

    lemma SearchEnded(held: Held, now: Held, prefix: seq<Token>, marks: seq<nat>, i: nat, clean: bool)
      requires block >= 1 && AreBoundaries(marks, |prefix|, block) && i < |marks|
      requires keys.Searching(held, now, prefix, marks, i + 1, !clean) && keys.Has(now, prefix[..marks[i]])
      ensures Longest(held, prefix, marks[i], clean)
    {
      hide Keys.Has, IsMark, Keys.ShadowedFrom, Keys.Shadowed;
      forall j | i <= j < |marks|
        ensures keys.ShadowedFrom(held, prefix, marks, j + 1, prefix[..marks[j]])
                <==> keys.Shadowed(held, prefix, block, marks[j])
      {
        SameShadows(held, prefix, marks, j);
      }
      forall b: nat | marks[i] < b <= |prefix| && IsMark(b, |prefix|, block) && keys.Has(held, prefix[..b])
        ensures keys.Shadowed(held, prefix, block, b)
      {
        assert b in marks;
        var j :| 0 <= j < |marks| && marks[j] == b;
        assert j > i;
      }
    }

    lemma SearchFailed(held: Held, now: Held, prefix: seq<Token>, marks: seq<nat>, clean: bool)
      requires block >= 1 && AreBoundaries(marks, |prefix|, block)
      requires keys.Searching(held, now, prefix, marks, 0, !clean)
      ensures Longest(held, prefix, 0, clean)
    {
      hide Keys.Has, IsMark, Keys.ShadowedFrom, Keys.Shadowed;
      forall b: nat | 0 < b <= |prefix| && IsMark(b, |prefix|, block) && keys.Has(held, prefix[..b])
        ensures keys.Shadowed(held, prefix, block, b)
      {
        assert b in marks;
        var j :| 0 <= j < |marks| && marks[j] == b;
        SameShadows(held, prefix, marks, j);
      }
    }

    /** Longer marks are the later ones. */
    lemma SameShadows(held: Held, prefix: seq<Token>, marks: seq<nat>, i: nat)
      requires block >= 1 && AreBoundaries(marks, |prefix|, block) && i < |marks|
      ensures keys.ShadowedFrom(held, prefix, marks, i + 1, prefix[..marks[i]])
              <==> keys.Shadowed(held, prefix, block, marks[i])
    {
      hide Keys.Clash, IsMark;
      var t := prefix[..marks[i]];
      if keys.ShadowedFrom(held, prefix, marks, i + 1, t) {
        var j :| i + 1 <= j < |marks| && keys.Clash(held, t, prefix[..marks[j]]);
        assert marks[i] < marks[j];
      }
      if keys.Shadowed(held, prefix, block, marks[i]) {
        var c :| marks[i] < c <= |prefix| && IsMark(c, |prefix|, block) && keys.Clash(held, t, prefix[..c]);
        assert c in marks;
        var j :| 0 <= j < |marks| && marks[j] == c;
        assert j > i;
      }
    }

    /** The snapshot of this prefix is not larger than the whole disk budget. */
    ghost predicate Storable(t: seq<Token>) {
      !manager.store.TooLarge(keys.keyFor(t), C.Envelope(model.save(t), |t|))
    }

    /** What a prefix is stored as. */
    ghost function ItemFor(t: seq<Token>): Item { Item(keys.keyFor(t), C.Envelope(model.save(t), |t|)) }

    ghost function Items(prefix: seq<Token>, stored: seq<nat>): (r: seq<Item>)
      ensures |r| == |stored|
    {
      seq(|stored|, j requires 0 <= j < |stored| => ItemFor(prefix[..Min(stored[j], |prefix|)]))
    }

    lemma ItemsMore(prefix: seq<Token>, stored: seq<nat>, b: nat)
      requires b <= |prefix|
      ensures Items(prefix, stored + [b]) == Items(prefix, stored) + [ItemFor(prefix[..b])]
    {
      hide C.Envelope;
    }

    lemma NewKey(prefix: seq<Token>, stored: seq<nat>, b: nat)
      requires keys.Apart() && InPlay(prefix) && b <= |prefix| && forall j :: 0 <= j < |stored| ==> stored[j] < b
      ensures !KeyIn(Items(prefix, stored), keys.keyFor(prefix[..b]))
    {
      hide C.Envelope;
      forall j | 0 <= j < |stored| ensures Items(prefix, stored)[j].key != keys.keyFor(prefix[..b]) {
        assert |prefix[..stored[j]]| < |prefix[..b]|;
      }
    }

    /** The boundaries beyond `restored` and up to `upTo` that fit the disk budget, in
        order. */
    ghost predicate AllStorable(prefix: seq<Token>, restored: nat, stored: seq<nat>, upTo: nat)
      requires block >= 1 && upTo <= |prefix|
    {
      && (forall i, j :: 0 <= i < j < |stored| ==> stored[i] < stored[j])
      && (forall j :: 0 <= j < |stored| ==> stored[j] <= upTo)
      && (forall b :: b in stored <==> restored < b <= upTo && IsMark(b, |prefix|, block) && Storable(prefix[..b]))
    }

    lemma NextStorable(prefix: seq<Token>, restored: nat, stored: seq<nat>, pos: nat, b: nat)
      requires block >= 1 && restored <= pos < b <= |prefix| && AllStorable(prefix, restored, stored, pos)
      requires IsMark(b, |prefix|, block) && forall c :: pos < c < b ==> !IsMark(c, |prefix|, block)
      ensures AllStorable(prefix, restored, if Storable(prefix[..b]) then stored + [b] else stored, b)
    {
      hide IsMark, Storable;
      var next := if Storable(prefix[..b]) then stored + [b] else stored;
      forall c ensures c in next <==> restored < c <= b && IsMark(c, |prefix|, block) && Storable(prefix[..c]) {
        assert c in next <==> c in stored || (c == b && Storable(prefix[..b]));
      }
    }

    /** No limit to keep, or none of the boundaries beyond `restored` has an entry. */
    ghost predicate Spacious(entries: map<Key, Entry>, prefix: seq<Token>, restored: nat)
      requires block >= 1 && restored <= |prefix|
    {
      manager.store.maxBytes == 0 || forall k :: k in entries ==> !BeyondKey(prefix, restored, k)
    }

    /** Decodes and stores one block. */
    method Extend(prefix: seq<Token>, pos: nat, b: nat, backend: LlamaBackend) returns (ok: bool)
      requires Valid() && backend.model == model && pos <= b <= |prefix| && keys.inPlay(prefix[..b])
      requires backend.Holds(prefix[..pos])
      modifies manager.store, backend
      ensures Valid() && (ok ==> backend.Holds(prefix[..b]) && backend.decoded == old(backend.decoded) + b - pos)
      ensures backend.faults == old(backend.faults) + if ok then 0 else 1
      ensures manager.store.undeleted >= old(manager.store.undeleted)
      ensures manager.store.unwritten >= old(manager.store.unwritten)
      ensures ok && manager.store.unwritten == old(manager.store.unwritten) && Storable(prefix[..b]) ==>
        Available(prefix[..b])
      ensures ok && manager.store.unwritten == old(manager.store.unwritten) ==>
        if Storable(prefix[..b]) then
          PutStep(old(manager.store.entries), old(manager.store.files), old(manager.store.nextRecency),
                  manager.store.entries, manager.store.files, manager.store.nextRecency, manager.store.name,
                  manager.store.maxBytes, ItemFor(prefix[..b]))
        else
          manager.store.entries == old(manager.store.entries) && manager.store.files == old(manager.store.files)
          && manager.store.nextRecency == old(manager.store.nextRecency)
    {
      hide StagingOk, C.Envelope, PutStep, Sum, Books;
      var logits;
      assert prefix[..pos] + prefix[pos..b] == prefix[..b];
      ok, logits := backend.DecodeAppend(prefix[pos..b]);
      if !ok { return; }
      keys.Stored(model, manager.store.last, manager.staging, prefix[..b]);
      var stored := manager.StoreState(keys.keyFor(prefix[..b]), backend, b);
    }

    /** What the store holds once these boundaries were stored over `base`. */
    ghost predicate Holding(base: map<Key, Entry>, prefix: seq<Token>, stored: seq<nat>)
      reads manager.store
    {
      var st := manager.store;
      PutJust(base, Items(prefix, stored), st.entries, st.files, st.nextRecency, st.name, st.maxBytes)
    }

    /** What is known of the store as long as no write failed. */
    ghost predicate SoFar(base: map<Key, Entry>, prefix: seq<Token>, restored: nat, pos: nat, stored: seq<nat>)
      requires block >= 1 && restored <= pos <= |prefix|
      reads this, manager, manager.store
    {
      && (Spacious(base, prefix, restored) ==> Holding(base, prefix, stored))
      && (pos > restored && Storable(prefix[..pos]) ==> Available(prefix[..pos]))
    }

    /** One boundary further. */
    method StoreMark(prefix: seq<Token>, ghost restored: nat, pos: nat, b: nat, ghost stored0: seq<nat>,
                     ghost base: map<Key, Entry>, backend: LlamaBackend) returns (ok: bool, ghost stored: seq<nat>)
      requires Valid() && backend.model == model && restored <= pos < b <= |prefix| && InPlay(prefix)
      requires backend.Holds(prefix[..pos]) && AllStorable(prefix, restored, stored0, pos)
      requires IsMark(b, |prefix|, block) && forall c :: pos < c < b ==> !IsMark(c, |prefix|, block)
      modifies manager.store, backend
      ensures Valid() && (ok ==> backend.Holds(prefix[..b]) && backend.decoded == old(backend.decoded) + b - pos)
      ensures backend.faults == old(backend.faults) + if ok then 0 else 1
      ensures manager.store.undeleted >= old(manager.store.undeleted)
      ensures manager.store.unwritten >= old(manager.store.unwritten)
      ensures AllStorable(prefix, restored, stored, b)
      ensures ok && manager.store.unwritten == old(manager.store.unwritten) ==>
        old(SoFar(base, prefix, restored, pos, stored0)) ==> SoFar(base, prefix, restored, b, stored)
    {
      BlockSize();
      ghost var entries, files, next := manager.store.entries, manager.store.files, manager.store.nextRecency;
      BooksSay(entries, files, manager.store.name, manager.store.last, manager.store.uses, next, manager.store.clock);
      hide Valid, IsMark, Storable, Keys.Has, AllStorable, PutStep, PutJust, Keys.Apart, ItemFor, Items;
      NextStorable(prefix, restored, stored0, pos, b);
      stored := if Storable(prefix[..b]) then stored0 + [b] else stored0;
      ok := Extend(prefix, pos, b, backend);
      var st := manager.store;
      if ok && st.unwritten == old(st.unwritten) && Storable(prefix[..b]) {
        if Spacious(base, prefix, restored) && old(Holding(base, prefix, stored0)) {
          StillHolding(base, prefix, restored, stored0, entries, files, next, b, st.entries, st.files, st.nextRecency);
        }
      }
    }

    lemma StillHolding(base: map<Key, Entry>, prefix: seq<Token>, restored: nat, stored: seq<nat>,
                       entries: map<Key, Entry>, files: map<Path, File>, next: nat, b: nat, entries': map<Key, Entry>,
                       files': map<Path, File>, next': nat)
      requires keys.Apart() && block >= 1 && InPlay(prefix) && restored < b <= |prefix| && IsMark(b, |prefix|, block)
      requires Spacious(base, prefix, restored) && forall j :: 0 <= j < |stored| ==> stored[j] < b
      requires forall k :: k in entries ==> entries[k].path == manager.store.name(k)
      requires PutJust(base, Items(prefix, stored), entries, files, next, manager.store.name, manager.store.maxBytes)
      requires PutStep(entries, files, next, entries', files', next', manager.store.name, manager.store.maxBytes,
                       ItemFor(prefix[..b]))
      ensures PutJust(base, Items(prefix, stored + [b]), entries', files', next', manager.store.name,
                      manager.store.maxBytes)
    {
      NewKey(prefix, stored, b);
      ItemsMore(prefix, stored, b);
      assert BeyondKey(prefix, restored, keys.keyFor(prefix[..b]));
      hide Keys.Apart, InPlay, PutJust, PutStep, Items, BeyondKey, IsMark, KeyIn;
      PutOneMore(base, Items(prefix, stored), entries, files, next, manager.store.name, manager.store.maxBytes,
                 ItemFor(prefix[..b]), entries', files', next');
    }

    /** Decodes the remainder block by block, storing each boundary crossed. With a
        disk limit just the latest of them stay that fit. */
    method Remainder(prefix: seq<Token>, marks: seq<nat>, restored: nat, backend: LlamaBackend)
      returns (ok: bool, ghost stored: seq<nat>)
      requires Valid() && backend.model == model && prefix != []
      requires AreBoundaries(marks, |prefix|, block) && InPlay(prefix)
      requires restored <= |prefix| && backend.Holds(prefix[..restored])
      modifies manager.store, backend
      ensures Valid() && (ok ==> backend.Holds(prefix[..|prefix|]))
      ensures ok ==> backend.decoded == old(backend.decoded) + |prefix| - restored
      ensures backend.faults == old(backend.faults) + if ok then 0 else 1
      ensures manager.store.undeleted >= old(manager.store.undeleted)
      ensures manager.store.unwritten >= old(manager.store.unwritten)
      ensures ok && restored < |prefix| && manager.store.unwritten == old(manager.store.unwritten) ==>
        Storable(prefix) ==> Available(prefix)
      ensures ok ==> AllStorable(prefix, restored, stored, |prefix|)
      ensures ok && manager.store.unwritten == old(manager.store.unwritten) ==>
        Spacious(old(manager.store.entries), prefix, restored) ==>
        Holding(old(manager.store.entries), prefix, stored)
      ensures ok && manager.store.unwritten == old(manager.store.unwritten) && manager.store.maxBytes == 0 ==>
        CrossedReadable(prefix, restored)
    {
      BlockSize();
      ghost var base := manager.store.entries;
      NoneStored(base, prefix, restored);
      LastMark(prefix, marks);
      hide Valid, IsMark, AllStorable, SoFar, CrossedReadable, AreBoundaries, InPlay;
      ok, stored := true, [];
      var pos := restored;
      for i := 0 to |marks|
        invariant Valid() && restored <= pos <= |prefix| && backend.Holds(prefix[..pos])
        invariant backend.decoded == old(backend.decoded) + pos - restored && backend.faults == old(backend.faults)
        invariant manager.store.undeleted >= old(manager.store.undeleted)
        invariant manager.store.unwritten >= old(manager.store.unwritten)
        invariant pos == if i > 0 && marks[i - 1] > restored then marks[i - 1] else restored
        invariant AllStorable(prefix, restored, stored, pos)
        invariant manager.store.unwritten == old(manager.store.unwritten) ==>
          SoFar(base, prefix, restored, pos, stored)
      {
        var b := marks[i];
        if b > restored {
          NoneBetween(prefix, marks, i, pos);
          ok, stored := StoreMark(prefix, restored, pos, b, stored, base, backend);
          if !ok { return; }
          pos := b;
        }
      }
      if manager.store.unwritten == old(manager.store.unwritten) {
        AfterAll(base, prefix, restored, stored);
      }
    }

    lemma AfterAll(base: map<Key, Entry>, prefix: seq<Token>, restored: nat, stored: seq<nat>)
      requires block >= 1 && restored <= |prefix| && AllStorable(prefix, restored, stored, |prefix|)
      requires SoFar(base, prefix, restored, |prefix|, stored)
      ensures restored < |prefix| && Storable(prefix) ==> Available(prefix)
      ensures Spacious(base, prefix, restored) ==> Holding(base, prefix, stored)
      ensures manager.store.maxBytes == 0 ==> CrossedReadable(prefix, restored)
    {
      hide Holding, AllStorable, CrossedReadable;
      assert prefix[..|prefix|] == prefix;
      if manager.store.maxBytes == 0 { MarksServed(base, prefix, restored, stored); }
    }

    /** Every boundary crossed can be read unless a longer one has its filename. */
    ghost predicate CrossedReadable(prefix: seq<Token>, restored: nat)
      requires block >= 1
      reads manager.store
    {
      forall b :: restored < b <= |prefix| && IsMark(b, |prefix|, block) ==>
        (manager.store.Readable(keys.keyFor(prefix[..b])) <==> !LaterNamesake(prefix, b))
    }

    lemma MarksServed(base: map<Key, Entry>, prefix: seq<Token>, restored: nat, stored: seq<nat>)
      requires block >= 1 && manager.store.maxBytes == 0
      requires AllStorable(prefix, restored, stored, |prefix|) && Holding(base, prefix, stored)
      ensures CrossedReadable(prefix, restored)
    {
      hide AllStorable, Holding, IsMark, LaterNamesake;
      forall b | restored < b <= |prefix| && IsMark(b, |prefix|, block)
        ensures manager.store.Readable(keys.keyFor(prefix[..b])) <==> !LaterNamesake(prefix, b)
      {
        MarkServed(base, prefix, restored, stored, b);
      }
    }

    /** A longer boundary has the same filename. */
    ghost predicate LaterNamesake(prefix: seq<Token>, b: nat)
      requires block >= 1 && b <= |prefix|
    {
      exists c :: b < c <= |prefix| && IsMark(c, |prefix|, block) &&
        manager.store.name(keys.keyFor(prefix[..c])) == manager.store.name(keys.keyFor(prefix[..b]))
    }

    /** An entry of `base`, or another boundary stored, has the same filename. */
    ghost predicate Namesake(base: map<Key, Entry>, prefix: seq<Token>, stored: seq<nat>, b: nat)
      requires b <= |prefix|
    {
      exists k :: (k in base || KeyIn(Items(prefix, stored), k)) && k != keys.keyFor(prefix[..b])
        && manager.store.name(k) == manager.store.name(keys.keyFor(prefix[..b]))
    }

    lemma ItemOf(prefix: seq<Token>, restored: nat, stored: seq<nat>, j: nat)
      requires block >= 1 && AllStorable(prefix, restored, stored, |prefix|) && j < |stored|
      ensures restored < stored[j] <= |prefix| && Items(prefix, stored)[j] == ItemFor(prefix[..stored[j]])
      ensures Items(prefix, stored)[j].key == keys.keyFor(prefix[..stored[j]]) && IsMark(stored[j], |prefix|, block)
    {
      hide C.Envelope, IsMark, Storable;
      assert stored[j] in stored;
    }

    lemma DistinctItems(prefix: seq<Token>, restored: nat, stored: seq<nat>)
      requires keys.Apart() && block >= 1 && InPlay(prefix) && AllStorable(prefix, restored, stored, |prefix|)
      ensures OwnKeys(Items(prefix, stored))
    {
      var items := Items(prefix, stored);
      hide Items, ItemFor, IsMark, Storable, C.Envelope;
      forall i, j | 0 <= i < j < |items| ensures items[i].key != items[j].key {
        ItemOf(prefix, restored, stored, i);
        ItemOf(prefix, restored, stored, j);
        assert |prefix[..stored[i]]| < |prefix[..stored[j]]|;
      }
    }

    /** Without a limit a boundary crossed can be loaded from the store unless a
        longer one has its filename. */
    lemma MarkServed(base: map<Key, Entry>, prefix: seq<Token>, restored: nat, stored: seq<nat>, b: nat)
      requires block >= 1 && restored < b <= |prefix| && IsMark(b, |prefix|, block) && manager.store.maxBytes == 0
      requires AllStorable(prefix, restored, stored, |prefix|) && Holding(base, prefix, stored)
      ensures manager.store.Readable(keys.keyFor(prefix[..b])) <==> !LaterNamesake(prefix, b)
    {
      var st, items := manager.store, Items(prefix, stored);
      assert Storable(prefix[..b]) && b in stored;
      var j :| 0 <= j < |stored| && stored[j] == b;
      hide IsMark, PutJust, Items, AllStorable, Overwritten, LaterNamesake;
      ItemOf(prefix, restored, stored, j);
      ServedFree(base, items, st.entries, st.files, st.nextRecency, st.name, j);
      OverwrittenLater(prefix, restored, stored, j);
    }

    /** Being overwritten, in terms of the boundaries. */
    lemma OverwrittenLater(prefix: seq<Token>, restored: nat, stored: seq<nat>, j: nat)
      requires block >= 1 && AllStorable(prefix, restored, stored, |prefix|) && j < |stored| && stored[j] <= |prefix|
      requires manager.store.maxBytes == 0
      ensures Overwritten(manager.store.name, Items(prefix, stored), j) <==> LaterNamesake(prefix, stored[j])
    {
      var name, items, b := manager.store.name, Items(prefix, stored), stored[j];
      hide IsMark, C.Envelope, ItemFor, Items;
      ItemOf(prefix, restored, stored, j);
      if Overwritten(name, items, j) {
        var m :| j < m < |items| && name(items[m].key) == name(items[j].key);
        ItemOf(prefix, restored, stored, m);
      }
      if LaterNamesake(prefix, b) {
        var c :| b < c <= |prefix| && IsMark(c, |prefix|, block)
          && name(keys.keyFor(prefix[..c])) == name(keys.keyFor(prefix[..b]));
        assert Storable(prefix[..c]) && c in stored;
        var m :| 0 <= m < |stored| && stored[m] == c;
        ItemOf(prefix, restored, stored, m);
      }
    }

    /** With a limit the latest boundaries stay, and nothing older than one that is
        gone does; one that stays can be loaded unless it has a namesake. */
    lemma MarksStay(base: map<Key, Entry>, prefix: seq<Token>, restored: nat, stored: seq<nat>, b: nat)
      requires keys.Apart() && block >= 1 && InPlay(prefix) && b in stored && b <= |prefix|
      requires AllStorable(prefix, restored, stored, |prefix|) && Holding(base, prefix, stored)
      ensures var entries, key := manager.store.entries, keys.keyFor(prefix[..b]);
        && (key !in entries ==>
              && (forall c :: c in stored && c < b ==> c <= |prefix| && keys.keyFor(prefix[..c]) !in entries)
              && (forall k :: k in base && !KeyIn(Items(prefix, stored), k) ==> k !in entries))
        && (key in entries && !Namesake(base, prefix, stored, b) ==> manager.store.Readable(key))
    {
      var st, items := manager.store, Items(prefix, stored);
      hide IsMark, C.Envelope, PutJust, ItemFor, Items, Keys.Apart, Storable, OwnKeys;
      var j :| 0 <= j < |stored| && stored[j] == b;
      ItemOf(prefix, restored, stored, j);
      DistinctItems(prefix, restored, stored);
      LatestStay(base, items, st.entries, st.files, st.nextRecency, st.name, st.maxBytes, j);
      if items[j].key !in st.entries {
        EarlierGone(prefix, restored, stored, j, st.entries);
      } else if !Namesake(base, prefix, stored, b) {
        ServedAlone(base, items, st.entries, st.files, st.nextRecency, st.name, st.maxBytes, j);
      }
    }

    lemma EarlierGone(prefix: seq<Token>, restored: nat, stored: seq<nat>, j: nat, entries: map<Key, Entry>)
      requires block >= 1 && AllStorable(prefix, restored, stored, |prefix|) && j < |stored|
      requires forall m :: 0 <= m < j ==> Items(prefix, stored)[m].key !in entries
      ensures forall c :: c in stored && c < stored[j] ==> c <= |prefix| && keys.keyFor(prefix[..c]) !in entries
    {
      hide IsMark, Storable, Items;
      forall c | c in stored && c < stored[j] ensures c <= |prefix| && keys.keyFor(prefix[..c]) !in entries {
        var m :| 0 <= m < |stored| && stored[m] == c;
        ItemOf(prefix, restored, stored, m);
      }
    }

    lemma LastMark(prefix: seq<Token>, marks: seq<nat>)
      requires block >= 1 && prefix != [] && AreBoundaries(marks, |prefix|, block)
      ensures marks != [] && marks[|marks| - 1] == |prefix|
    {
    }

    /** Marks follow one another. */
    lemma NoneBetween(prefix: seq<Token>, marks: seq<nat>, i: nat, pos: nat)
      requires block >= 1 && AreBoundaries(marks, |prefix|, block) && i < |marks| && pos < marks[i]
      requires i > 0 ==> pos >= marks[i - 1]
      ensures pos < marks[i] <= |prefix| && IsMark(marks[i], |prefix|, block)
      ensures forall c :: pos < c < marks[i] ==> !IsMark(c, |prefix|, block)
    {
      hide IsMark;
      assert marks[i] in marks;
      forall c | pos < c < marks[i] ensures !IsMark(c, |prefix|, block) {
        if IsMark(c, |prefix|, block) {
          assert c in marks;
          var j :| 0 <= j < |marks| && marks[j] == c;
        }
      }
    }

    lemma NoneStored(base: map<Key, Entry>, prefix: seq<Token>, restored: nat)
      requires Valid() && base == manager.store.entries && restored <= |prefix|
      ensures AllStorable(prefix, restored, [], restored) && Holding(base, prefix, [])
      ensures SoFar(base, prefix, restored, restored, [])
    {
      var st := manager.store;
      BooksStrict(st.entries, st.files, st.name, st.last, st.uses, st.nextRecency, st.clock);
      PutNone(base, st.files, st.nextRecency, st.name, st.maxBytes);
    }

    /** Leaves the backend holding exactly the prefix, whatever the cache holds,
        and runs the model over what was not restored only. */
    method Prefill(prefix: seq<Token>, backend: LlamaBackend)
      returns (ok: bool, restored: nat, ghost clean: bool, ghost stored: seq<nat>, ghost mid: Held)
      requires Valid() && backend.model == model && InPlay(prefix)
      modifies manager, manager.store, backend
      ensures Valid() && (ok ==> backend.Holds(prefix))
      ensures restored <= |prefix| && (ok ==> backend.decoded == old(backend.decoded) + |prefix| - restored)
      ensures restored > 0 ==> IsMark(restored, |prefix|, block)
      ensures Longest(old(Now()), prefix, restored, clean)
      ensures manager.store.undeleted == old(manager.store.undeleted) ==> clean
      ensures manager.store.unwritten >= old(manager.store.unwritten)
      ensures backend.faults == old(backend.faults) + if ok then 0 else 1
      ensures ok && restored < |prefix| && manager.store.unwritten == old(manager.store.unwritten) ==>
        Storable(prefix) ==> Available(prefix)
      ensures old(Available(prefix)) ==> restored == |prefix|
      ensures TriedOut(old(Now()), mid, prefix, restored) && (ok ==> AllStorable(prefix, restored, stored, |prefix|))
      ensures ok && manager.store.unwritten == old(manager.store.unwritten) ==> Holding(mid.entries, prefix, stored)
      ensures ok && manager.store.unwritten == old(manager.store.unwritten) && manager.store.maxBytes == 0 ==>
        CrossedAvailable(prefix, restored)
    {
      BlockSize();
      NothingDone(Now());
      hide *;
      if prefix == [] {
        ok, restored, clean, stored, mid := true, 0, true, [], Now();
        NothingLonger(mid);
        backend.Reset();
        return;
      }
      var marks := Boundaries(|prefix|, block);
      ok, restored, clean, stored, mid := PrefillMarks(prefix, marks, backend);
    }

    /** The same for a prefix with boundaries. */
    method PrefillMarks(prefix: seq<Token>, marks: seq<nat>, backend: LlamaBackend)
      returns (ok: bool, restored: nat, ghost clean: bool, ghost stored: seq<nat>, ghost mid: Held)
      requires Valid() && backend.model == model && InPlay(prefix)
      requires prefix != [] && AreBoundaries(marks, |prefix|, block)
      modifies manager, manager.store, backend
      ensures Valid() && (ok ==> backend.Holds(prefix))
      ensures restored <= |prefix| && (ok ==> backend.decoded == old(backend.decoded) + |prefix| - restored)
      ensures restored > 0 ==> IsMark(restored, |prefix|, block)
      ensures Longest(old(Now()), prefix, restored, clean)
      ensures manager.store.undeleted == old(manager.store.undeleted) ==> clean
      ensures manager.store.unwritten >= old(manager.store.unwritten)
      ensures backend.faults == old(backend.faults) + if ok then 0 else 1
      ensures ok && restored < |prefix| && manager.store.unwritten == old(manager.store.unwritten) ==>
        Storable(prefix) ==> Available(prefix)
      ensures old(Available(prefix)) ==> restored == |prefix|
      ensures TriedOut(old(Now()), mid, prefix, restored) && (ok ==> AllStorable(prefix, restored, stored, |prefix|))
      ensures ok && manager.store.unwritten == old(manager.store.unwritten) ==> Holding(mid.entries, prefix, stored)
      ensures ok && manager.store.unwritten == old(manager.store.unwritten) && manager.store.maxBytes == 0 ==>
        CrossedAvailable(prefix, restored)
    {
      BlockSize();
      ghost var held := Now();
      assert Available(prefix) == keys.Has(held, prefix) && prefix[..|prefix|] == prefix && prefix[..0] == [];
      hide *;
      restored, clean := Restore(prefix, marks, backend);
      NowIs();
      MarksWithin(prefix, marks);
      mid := Held(manager.staging, manager.store.entries, manager.store.files);
      WholeHit(held, prefix, restored, clean);
      Unentered(held, mid, prefix, restored);
      if restored == 0 { backend.Reset(); }
      ok, stored := Remainder(prefix, marks, restored, backend);
      if ok && manager.store.unwritten == old(manager.store.unwritten) && manager.store.maxBytes == 0 {
        MarksAvailable(held, mid, prefix, restored, stored);
      }
    }

    ghost predicate CrossedAvailable(prefix: seq<Token>, restored: nat)
      requires block >= 1
      reads this, manager, manager.store
    {
      forall b :: restored < b <= |prefix| && IsMark(b, |prefix|, block) ==>
        (Available(prefix[..b]) <==> !LaterNamesake(prefix, b))
    }

    lemma MarksAvailable(held: Held, mid: Held, prefix: seq<Token>, restored: nat, stored: seq<nat>)
      requires block >= 1 && restored <= |prefix| && manager.store.maxBytes == 0
      requires AllStorable(prefix, restored, stored, |prefix|) && Holding(mid.entries, prefix, stored)
      requires TriedOut(held, mid, prefix, restored) && manager.staging == mid.staging
      ensures CrossedAvailable(prefix, restored)
    {
      hide AllStorable, Holding, TriedOut, IsMark, LaterNamesake, Available;
      forall b | restored < b <= |prefix| && IsMark(b, |prefix|, block)
        ensures Available(prefix[..b]) <==> !LaterNamesake(prefix, b)
      {
        MarkAvailable(held, mid, prefix, restored, stored, b);
      }
    }

    lemma NowIs()
      ensures Now() == Held(manager.staging, manager.store.entries, manager.store.files)
    {
    }

    lemma MarksWithin(prefix: seq<Token>, marks: seq<nat>)
      requires block >= 1 && AreBoundaries(marks, |prefix|, block)
      ensures forall b :: b in marks ==> 1 <= b <= |prefix| && IsMark(b, |prefix|, block)
    {
      hide IsMark;
    }

    lemma NothingDone(held: Held)
      requires Valid() && held == Now()
      ensures TriedOut(held, held, [], 0) && AllStorable([], 0, [], 0) && Holding(held.entries, [], [])
    {
      NoneStored(held.entries, [], 0);
    }

    lemma Unentered(held: Held, mid: Held, prefix: seq<Token>, restored: nat)
      requires block >= 1 && restored <= |prefix| && TriedOut(held, mid, prefix, restored)
      ensures Spacious(mid.entries, prefix, restored)
    {
      hide BeyondKey;
    }

    lemma MarkAvailable(held: Held, mid: Held, prefix: seq<Token>, restored: nat, stored: seq<nat>, b: nat)
      requires block >= 1 && restored < b <= |prefix| && IsMark(b, |prefix|, block) && manager.store.maxBytes == 0
      requires AllStorable(prefix, restored, stored, |prefix|) && Holding(mid.entries, prefix, stored)
      requires TriedOut(held, mid, prefix, restored) && manager.staging == mid.staging
      ensures Available(prefix[..b]) <==> !LaterNamesake(prefix, b)
    {
      MarkServed(mid.entries, prefix, restored, stored, b);
      assert BeyondKey(prefix, restored, keys.keyFor(prefix[..b]));
      hide IsMark, AllStorable, Holding, LaterNamesake;
    }

    /** Two prompts with a common beginning, one after the other. With no limit and
        no failing write the second restores at least as much of it as the first
        crossed in whole blocks, filenames permitting. */
    method PrefillBoth(first: seq<Token>, second: seq<Token>, backend: LlamaBackend)
      returns (ok: bool, restored: nat, again: nat)
      requires Valid() && backend.model == model && InPlay(first) && InPlay(second)
      modifies manager, manager.store, backend
      ensures Valid() && (ok ==> backend.Holds(second))
      ensures restored <= |first| && again <= |second|
      ensures ok ==> backend.decoded == old(backend.decoded) + |first| - restored + |second| - again
      ensures ok && manager.store.unwritten == old(manager.store.unwritten) && manager.store.maxBytes == 0 ==>
        forall b: nat :: restored < b && CommonBlocks(first, second, b) ==> b <= again
    {
      again := 0;
      ghost var clean, stored, mid;
      ok, restored, clean, stored, mid := Prefill(first, backend);
      if !ok { return; }
      BlockSize();
      ghost var held := Now();
      hide Longest, TriedOut, AllStorable, Holding;
      if manager.store.unwritten == old(manager.store.unwritten) && manager.store.maxBytes == 0 {
        forall b: nat | restored < b && CommonBlocks(first, second, b)
          ensures keys.Has(held, second[..b]) && IsMark(b, |second|, block) && !keys.Shadowed(held, second, block, b)
        {
          assert Available(first[..b]);
          NoShadow(second, b);
        }
      }
      hide Valid, CommonBlocks;
      ok, again, clean, stored, mid := Prefill(second, backend);
      if ok && manager.store.unwritten == old(manager.store.unwritten) && manager.store.maxBytes == 0 {
        forall b: nat | restored < b && CommonBlocks(first, second, b) ensures b <= again {
          FoundAtLeast(held, second, again, clean, b);
        }
      }
    }

    /** The two begin with the same b tokens, a whole number of blocks, and no longer
        boundary of either has their filename. */
    ghost predicate CommonBlocks(first: seq<Token>, second: seq<Token>, b: nat) {
      && block >= 1 && 0 < b <= |first| && b <= |second| && OnGrid(b, block) && first[..b] == second[..b]
      && !LaterNamesake(first, b) && !LaterNamesake(second, b)
    }

    lemma NoShadow(prefix: seq<Token>, b: nat)
      requires Valid() && b <= |prefix| && !LaterNamesake(prefix, b)
      ensures !keys.Shadowed(Now(), prefix, block, b)
    {
      var st := manager.store;
      BooksSay(st.entries, st.files, st.name, st.last, st.uses, st.nextRecency, st.clock);
      hide IsMark, Books, StagingOk;
    }

    lemma FoundAtLeast(held: Held, prefix: seq<Token>, found: nat, clean: bool, b: nat)
      requires found <= |prefix| && Longest(held, prefix, found, clean) && b <= |prefix| && block >= 1
      requires keys.Has(held, prefix[..b]) && IsMark(b, |prefix|, block) && !keys.Shadowed(held, prefix, block, b)
      ensures b <= found
    {
      hide Keys.Has, Keys.Shadowed, IsMark;
    }

    /** A prefix that is itself available is restored whole: nothing longer can
        shadow it. */
    lemma WholeHit(held: Held, prefix: seq<Token>, found: nat, clean: bool)
      requires found <= |prefix| && Longest(held, prefix, found, clean)
      ensures keys.Has(held, prefix) ==> found == |prefix|
    {
      hide Keys.Has, Keys.Clash;
      assert prefix[..|prefix|] == prefix && !keys.Shadowed(held, prefix, block, |prefix|);
    }

    lemma NothingLonger(held: Held)
      requires block >= 1
      ensures Longest(held, [], 0, true)
    {
    }

    /** Stages the longest boundary that a load would hit; the cache stays
        faithful. */
    method Prefetch(prefix: seq<Token>) returns (ok: bool, ghost staged: nat, ghost clean: bool)
      requires Valid() && InPlay(prefix)
      modifies manager, manager.store
      ensures Valid() && staged <= |prefix| && (ok <==> staged > 0)
      ensures ok ==> manager.budget > 0 && IsMark(staged, |prefix|, block)
                     && keys.keyFor(prefix[..staged]) in manager.staging
      ensures manager.budget > 0 ==> Longest(old(Now()), prefix, staged, clean)
      ensures manager.store.undeleted == old(manager.store.undeleted) ==> clean
    {
      assert block >= 1;
      hide Valid, Longest;
      ok, staged, clean := false, 0, true;
      if prefix == [] {
        NothingLonger(Now());
        return;
      }
      var marks := Boundaries(|prefix|, block);
      ok, staged, clean := StageFirst(prefix, marks);
    }

    method StageFirst(prefix: seq<Token>, marks: seq<nat>) returns (ok: bool, ghost staged: nat, ghost clean: bool)
      requires Valid() && AreBoundaries(marks, |prefix|, block) && InPlay(prefix)
      modifies manager, manager.store
      ensures Valid() && staged <= |prefix| && (ok <==> staged > 0)
      ensures ok ==> manager.budget > 0 && staged in marks && keys.keyFor(prefix[..staged]) in manager.staging
      ensures manager.budget > 0 ==> Longest(old(Now()), prefix, staged, clean)
      ensures manager.store.undeleted == old(manager.store.undeleted) ==> clean
    {
      hide StagingOk, ReadableIn, IsMark, Keys.Has, Missed, Keys.Apart, Keys.Faithful;
      ghost var held := Now();
      ok, staged, clean := false, 0, true;
      var i := |marks|;
      assert keys.Searching(held, Now(), prefix, marks, i, false) by { SearchStarts(keys, held, prefix, marks); }
      while i > 0
        invariant 0 <= i <= |marks| && Valid() && !ok
        invariant manager.store.undeleted >= old(manager.store.undeleted)
        invariant manager.store.undeleted == old(manager.store.undeleted) ==> clean
        invariant manager.budget > 0 ==> keys.Searching(held, Now(), prefix, marks, i, !clean)
      {
        assert keys.Apart();
        hide Valid, Keys.Searching;
        i := i - 1;
        ghost var now, undeleted := Now(), manager.store.undeleted;
        ok := Stage(prefix[..marks[i]]);
        if ok {
          staged := marks[i];
          SearchEnded(held, now, prefix, marks, i, clean);
          return;
        }
        ghost var failed := manager.store.undeleted > undeleted;
        if manager.budget > 0 { keys.SearchOn(held, now, Now(), prefix, marks, i, !clean, failed); }
        clean := clean && !failed;
      }
      if manager.budget > 0 { SearchFailed(held, Now(), prefix, marks, clean); }
    }

    method Stage(t: seq<Token>) returns (ok: bool)
      requires Valid() && keys.inPlay(t)
      modifies manager, manager.store
      ensures Valid() && (ok <==> manager.budget > 0 && old(Available(t))) && (ok ==> keys.keyFor(t) in manager.staging)
      ensures !ok ==> manager.staging == old(manager.staging)
      ensures manager.store.undeleted >= old(manager.store.undeleted)
      ensures !ok && manager.budget > 0 ==>
        Missed(old(manager.store.entries), old(manager.store.files), manager.store.entries, manager.store.files,
               keys.keyFor(t), manager.store.undeleted > old(manager.store.undeleted))
    {
      hide StagingOk, ReadableIn, C.Envelope, C.Open, OthersKept, Missed;
      ContentOf(t);
      ghost var staging := manager.staging;
      ok := manager.Prefetch(keys.keyFor(t));
      if keys.keyFor(t) in manager.staging && !ok { assert keys.Snapshot(model, manager.store.last, staging, t); }
      keys.Restaged(model, manager.store.last, staging, manager.staging, t);
    }
  }
}
