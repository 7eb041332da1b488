/** Named KV snapshots: the envelope around the disk store, and a staging area
    for snapshots fetched ahead of their request. */
module CacheManager {
  import opened Backend
  import opened DiskStore
  import C = Checksum

  /** A snapshot ready to be applied. */
  datatype Ready = Ready(blob: seq<Byte>, nPast: nat)

  function Opened(e: Payload): Option<Ready> {
    var r := C.Open(e);
    if r.None? then None else Some(Ready(r.value.0, r.value.1))
  }

  // ---- Staging bookkeeping ------------------------------------------------

  function SizeOf(staging: map<Key, Ready>, k: Key): nat {
    if k in staging then |staging[k].blob| else 0
  }

  function StagedBytes(lru: seq<Key>, staging: map<Key, Ready>): nat
    decreases |lru|
  {
    if lru == [] then 0 else SizeOf(staging, lru[0]) + StagedBytes(lru[1..], staging)
  }

  function Drop(lru: seq<Key>, k: Key): (r: seq<Key>)
    ensures forall j :: j in r <==> j in lru && j != k
    decreases |lru|
  {
    if lru == [] then []
    else (if lru[0] == k then [] else [lru[0]]) + Drop(lru[1..], k)
  }

  ghost predicate Distinct(lru: seq<Key>) {
    forall i, j :: 0 <= i < j < |lru| ==> lru[i] != lru[j]
  }

  ghost predicate StagingOk(lru: seq<Key>, staging: map<Key, Ready>, used: nat) {
    Distinct(lru) && staging.Keys == (set k | k in lru) && used == StagedBytes(lru, staging)
  }

  lemma {:induction false} StagedSame(lru: seq<Key>, a: map<Key, Ready>, b: map<Key, Ready>)
    requires forall k :: k in lru ==> SizeOf(a, k) == SizeOf(b, k)
    ensures StagedBytes(lru, a) == StagedBytes(lru, b)
    decreases |lru|
  {
    if lru == [] {
    } else {
      assert lru[0] in lru;
      StagedSame(lru[1..], a, b);
    }
  }

  lemma {:induction false} StagedPush(lru: seq<Key>, staging: map<Key, Ready>, k: Key)
    ensures StagedBytes(lru + [k], staging) == StagedBytes(lru, staging) + SizeOf(staging, k)
    decreases |lru|
  {
    if lru == [] {
      assert lru + [k] == [k] && [k][1..] == [];
    } else {
      assert (lru + [k])[1..] == lru[1..] + [k];
      StagedPush(lru[1..], staging, k);
    }
  }

  lemma {:induction false} DropDistinct(lru: seq<Key>, k: Key)
    requires Distinct(lru)
    ensures Distinct(Drop(lru, k))
    decreases |lru|
  {
    if lru == [] {
    } else {
      assert Distinct(lru[1..]);
      DropDistinct(lru[1..], k);
      var rest := Drop(lru[1..], k);
      assert lru[0] !in lru[1..];
      assert lru[0] !in rest;
    }
  }

  lemma {:induction false} DropMissing(lru: seq<Key>, k: Key)
    requires k !in lru
    ensures Drop(lru, k) == lru
    decreases |lru|
  {
    if lru == [] {
    } else {
      assert lru[0] in lru;
      DropMissing(lru[1..], k);
    }
  }

  lemma {:induction false} DropBytes(lru: seq<Key>, staging: map<Key, Ready>, k: Key)
    requires Distinct(lru) && k in lru
    ensures StagedBytes(Drop(lru, k), staging) + SizeOf(staging, k) == StagedBytes(lru, staging)
    decreases |lru|
  {
    assert Distinct(lru[1..]);
    if lru[0] == k {
      DropMissing(lru[1..], k);
      assert [] + Drop(lru[1..], k) == lru[1..];
    } else {
      DropBytes(lru[1..], staging, k);
      var rest := Drop(lru[1..], k);
      assert ([lru[0]] + rest)[1..] == rest;
    }
  }

  /** Taking a staged snapshot away keeps the books. */
  lemma Unstage(lru: seq<Key>, staging: map<Key, Ready>, used: nat, k: Key)
    requires StagingOk(lru, staging, used) && k in staging
    ensures |staging[k].blob| <= used && StagingOk(Drop(lru, k), staging - {k}, used - |staging[k].blob|)
  {
    hide StagedBytes, Drop;
    DropDistinct(lru, k);
    DropBytes(lru, staging, k);
    StagedSame(Drop(lru, k), staging, staging - {k});
  }

  lemma UnstageOldest(lru: seq<Key>, staging: map<Key, Ready>, used: nat)
    requires StagingOk(lru, staging, used) && lru != []
    ensures Drop(lru, lru[0]) == lru[1..]
  {
    hide StagedBytes;
    assert lru[0] !in lru[1..];
    DropMissing(lru[1..], lru[0]);
  }

  lemma Stage(lru: seq<Key>, staging: map<Key, Ready>, used: nat, k: Key, r: Ready)
    requires StagingOk(lru, staging, used) && k !in staging
    ensures StagingOk(lru + [k], staging[k := r], used + |r.blob|)
  {
    hide StagedBytes;
    StagedSame(lru, staging, staging[k := r]);
    StagedPush(lru, staging[k := r], k);
  }

  // ---- The manager --------------------------------------------------------

  class CacheManager {
    const store: DiskCacheStore
    const budget: nat                 // staging bytes; 0 disables staging
    var staging: map<Key, Ready>
    var lru: seq<Key>                 // staged keys, oldest first
    var used: nat

    ghost predicate Valid()
      reads this, store
    {
      store.Valid() && StagingOk(lru, staging, used)
    }

    constructor (store: DiskCacheStore, budget: nat)
      requires store.Valid()
      ensures Valid() && this.store == store && this.budget == budget && staging == map[]
    {
      this.store, this.budget := store, budget;
      staging, lru, used := map[], [], 0;
    }

    /** The snapshot a load under this key would apply. */
    ghost function Content(key: Key): Option<Ready>
      requires Valid()
      reads this, store
    {
      if key in staging then Some(staging[key])
      else if store.Readable(key) then
        assert key in store.last;
        Opened(store.last[key])
      else None
    }

    method StoreState(key: Key, backend: LlamaBackend, nPast: nat) returns (ok: bool)
      requires Valid()
      modifies store
      ensures Valid()
      ensures store.last == if ok then old(store.last)[key := C.Envelope(backend.model.save(backend.kv), nPast)]
                            else old(store.last)
      ensures ok && store.maxBytes != 0 ==> store.total <= store.maxBytes
      ensures store.undeleted >= old(store.undeleted) && (ok ==> store.Readable(key))
      ensures store.unwritten == old(store.unwritten) +
        if ok || store.TooLarge(key, C.Envelope(backend.model.save(backend.kv), nPast)) then 0 else 1
      ensures ok ==>
        PutStep(old(store.entries), old(store.files), old(store.nextRecency), store.entries, store.files,
                store.nextRecency, store.name, store.maxBytes,
                Item(key, C.Envelope(backend.model.save(backend.kv), nPast)))
      ensures !ok ==> store.nextRecency == old(store.nextRecency)
      ensures store.TooLarge(key, C.Envelope(backend.model.save(backend.kv), nPast)) ==>
        !ok && store.entries == old(store.entries) && store.files == old(store.files)
    {
      hide StagingOk, Sum, Books, PutStep, FewestOldest, SameBut;
      var raw := backend.model.save(backend.kv);
      var entry := C.Envelope(raw, nPast);
      ok := store.Put(key, entry);
    }

    method TakeStaging(key: Key) returns (r: Option<Ready>)
      requires Valid()
      modifies `staging, `lru, `used
      ensures Valid()
      ensures r == if key in old(staging) then Some(old(staging)[key]) else None
      ensures staging == old(staging) - {key}
    {
      if key !in staging {
        assert staging - {key} == staging;
        return None;
      }
      Unstage(lru, staging, used, key);
      r := Some(staging[key]);
      used := used - |staging[key].blob|;
      staging, lru := staging - {key}, Drop(lru, key);
    }

    /** Reads, checks and unpacks an entry; one that fails is dropped. */
    method Fetch(key: Key) returns (r: Option<Ready>)
      requires Valid()
      modifies store
      ensures Valid() && store.last == old(store.last) && store.unwritten == old(store.unwritten)
      ensures OthersKept(old(store.entries), old(store.files), store.entries, store.files, key)
      ensures store.undeleted >= old(store.undeleted)
      ensures !old(store.Readable(key)) ==>
        Missed(old(store.entries), old(store.files), store.entries, store.files, key,
               store.undeleted > old(store.undeleted))
      ensures r.Some? ==> key in old(store.entries) && key in store.entries && store.files == old(store.files)
      ensures r.Some? ==> store.entries == old(store.entries)[key := store.entries[key]]
      ensures r.Some? ==> UsedOnly(old(store.entries), store.entries, key)
      ensures r.None? ==> key !in store.entries
      ensures old(store.Readable(key)) ==> key in store.last
      ensures r == if old(store.Readable(key)) then Opened(store.last[key]) else None
    {
      hide StagingOk, Opened, Sum, Books, ReadableIn, OthersKept, Missed;
      ghost var entries, files := store.entries, store.files;
      ghost var undeleted := store.undeleted;
      var entry := store.Get(key);
      if entry.None? {
        MissedGone(entries, files, store.entries, store.files, key, store.undeleted > undeleted);
        return None;
      }
      r := Opened(entry.value);
      if r.None? {
        ghost var read, left := store.entries, store.files;
        assert key in read;
        undeleted := store.undeleted;
        var present := store.Remove(key);
        MissedGone(read, left, store.entries, store.files, key, store.undeleted > undeleted);
        KeptTwice(entries, files, read, key, read[key], store.entries, store.files);
      }
    }

    /** Applies the staged copy if there is one, the stored one otherwise. */
    method LoadState(key: Key, backend: LlamaBackend) returns (ok: bool)
      requires Valid()
      modifies this, store, backend
      ensures Valid() && store.last == old(store.last) && store.unwritten == old(store.unwritten)
      ensures staging == old(staging) - {key}
      ensures OthersKept(old(store.entries), old(store.files), store.entries, store.files, key)
      ensures store.undeleted >= old(store.undeleted)
      ensures key !in old(staging) && !old(store.Readable(key)) ==>
        Missed(old(store.entries), old(store.files), store.entries, store.files, key,
               store.undeleted > old(store.undeleted))
      ensures ok ==> UsedOnly(old(store.entries), store.entries, key)
      ensures !ok ==> key !in store.entries
      ensures ok <==> old(Content(key)).Some? && backend.model.restore(old(Content(key)).value.blob).Some?
      ensures ok ==> backend.kv == backend.model.restore(old(Content(key)).value.blob).value
      ensures ok ==> backend.nPast == old(Content(key)).value.nPast
      ensures backend.decoded == old(backend.decoded) && backend.faults == old(backend.faults)
    {
      hide StagingOk, Opened, Sum, Books, ReadableIn, OthersKept, Missed;
      ghost var content, entries, files := Content(key), store.entries, store.files;
      NothingTouched(entries, files, key);
      var r := TakeStaging(key);
      if r.None? { r := Fetch(key); }
      assert r == content;
      if r.None? { return false; }
      ok := backend.SetState(r.value.blob, r.value.nPast);
      if !ok {
        ghost var read, left, undeleted := store.entries, store.files, store.undeleted;
        var present := store.Remove(key);
        MissedGone(read, left, store.entries, store.files, key, store.undeleted > undeleted);
        if read != entries { KeptTwice(entries, files, read, key, read[key], store.entries, store.files); }
      }
    }

    /** Stages a snapshot ahead of time, dropping the oldest staged ones over the
        budget but never the one just staged. */
    method Prefetch(key: Key) returns (ok: bool)
      requires Valid()
      modifies this, store
      ensures Valid() && store.last == old(store.last)
      ensures ok <==> budget > 0 && old(Content(key)).Some?
      ensures ok ==> key in staging && Some(staging[key]) == old(Content(key))
      ensures forall k :: k in staging && k != key ==> k in old(staging) && staging[k] == old(staging)[k]
      ensures !ok ==> staging == old(staging)
      ensures OthersKept(old(store.entries), old(store.files), store.entries, store.files, key)
      ensures store.undeleted >= old(store.undeleted)
      ensures budget > 0 && key !in old(staging) && !old(store.Readable(key)) ==>
        Missed(old(store.entries), old(store.files), store.entries, store.files, key,
               store.undeleted > old(store.undeleted))
      ensures ok && key !in old(staging) ==> used <= budget || |lru| == 1
    {
      hide StagingOk, Opened, Sum, Books, ReadableIn, OthersKept, Missed;
      NothingTouched(store.entries, store.files, key);
      if budget == 0 { return false; }
      if key in staging { return true; }
      var r := Fetch(key);
      if r.None? { return false; }
      Stage(lru, staging, used, key, r.value);
      used := used + |r.value.blob|;
      staging, lru := staging[key := r.value], lru + [key];
      Trim(key);
      return true;
    }

    method Trim(ghost newest: Key)
      requires Valid() && lru != [] && lru[|lru| - 1] == newest
      modifies `staging, `lru, `used
      ensures Valid() && newest in staging && staging[newest] == old(staging)[newest]
      ensures used <= budget || |lru| == 1
      ensures Trimmed(old(lru), old(staging), lru, staging, used, budget)
    {
      hide StagingOk, Trimmed, Sum, Books;
      NotTrimmed(lru, staging, used, budget);
      ghost var was, held := lru, staging;
      while used > budget && |lru| > 1
        invariant Valid() && lru != [] && lru[|lru| - 1] == newest
        invariant Trimmed(was, held, lru, staging, used, budget)
        decreases |lru|
      {
        var oldest := lru[0];
        IsStaged(lru, staging, used, 0);
        Unstage(lru, staging, used, oldest);
        UnstageOldest(lru, staging, used);
        TrimOne(was, held, lru, staging, used, budget);
        used := used - |staging[oldest].blob|;
        staging, lru := staging - {oldest}, lru[1..];
      }
      IsStaged(lru, staging, used, |lru| - 1);
      StillStaged(was, held, lru, staging, used, budget, newest);
    }
  }

  // ---- Trimming -----------------------------------------------------------

  /** The oldest staged snapshots are gone, the others are as they were, and the
      last to go had to: with it back the rest would be over the budget. */
  ghost predicate Trimmed(was: seq<Key>, held: map<Key, Ready>, lru: seq<Key>, staging: map<Key, Ready>, used: nat,
                          budget: nat)
  {
    && 1 <= |lru| <= |was| && lru == was[|was| - |lru|..]
    && (forall k :: k in staging ==> k in held && staging[k] == held[k])
    && (|lru| < |was| ==> used + SizeOf(held, was[|was| - |lru| - 1]) > budget)
  }

  lemma IsStaged(lru: seq<Key>, staging: map<Key, Ready>, used: nat, i: nat)
    requires StagingOk(lru, staging, used) && i < |lru|
    ensures lru[i] in staging
  {
    assert lru[i] in lru;
  }

  lemma NotTrimmed(lru: seq<Key>, staging: map<Key, Ready>, used: nat, budget: nat)
    requires lru != []
    ensures Trimmed(lru, staging, lru, staging, used, budget)
  {
  }

  lemma TrimOne(was: seq<Key>, held: map<Key, Ready>, lru: seq<Key>, staging: map<Key, Ready>, used: nat, budget: nat)
    requires Trimmed(was, held, lru, staging, used, budget) && |lru| > 1 && used > budget
    requires lru[0] in staging && |staging[lru[0]].blob| <= used
    ensures Trimmed(was, held, lru[1..], staging - {lru[0]}, used - |staging[lru[0]].blob|, budget)
  {
    assert was[|was| - |lru|] == lru[0];
  }

  lemma StillStaged(was: seq<Key>, held: map<Key, Ready>, lru: seq<Key>, staging: map<Key, Ready>, used: nat,
                    budget: nat, k: Key)
    requires Trimmed(was, held, lru, staging, used, budget) && k in staging
    ensures k in held && staging[k] == held[k]
  {
  }
}
