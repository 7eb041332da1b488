/** The archive of past generations: a bounded, evicting, hashed n-gram index
    over a log of token streams. */
module Corpus {
  import opened Backend
  import L = CorpusLog

  type Key = int

  type Index = map<Key, seq<nat>>

  // ---- The log as streams -------------------------------------------------

  /** Strictly increasing stream ends that cover the log. */
  ghost predicate Layout(log: seq<Token>, ends: seq<nat>) {
    && (forall i, j :: 0 <= i < j < |ends| ==> ends[i] < ends[j])
    && (forall i :: 0 <= i < |ends| ==> 1 <= ends[i] <= |log|)
    && (if ends == [] then log == [] else ends[|ends| - 1] == |log|)
  }

  function Begin(ends: seq<nat>, i: nat): nat
    requires i <= |ends|
  {
    if i == 0 then 0 else ends[i - 1]
  }

  /** The streams that a layout cuts the log into. */
  ghost function Streams(log: seq<Token>, ends: seq<nat>): (r: seq<seq<Token>>)
    requires Layout(log, ends)
    ensures |r| == |ends|
  {
    seq(|ends|, i requires 0 <= i < |ends| => log[Begin(ends, i)..ends[i]])
  }

  /** The n tokens before p and the token at p belong to one stream. */
  ghost predicate IsSite(log: seq<Token>, ends: seq<nat>, n: nat, p: int) {
    n <= p < |log| && forall j :: 0 <= j < |ends| ==> !(p - n < ends[j] <= p)
  }

  ghost predicate Hit(log: seq<Token>, ends: seq<nat>, n: nat, key: seq<Token> -> Key, k: Key, p: int) {
    IsSite(log, ends, n, p) && key(log[p - n..p]) == k
  }

  /** All sites below `upto` whose n-gram hashes to k, oldest first. */
  ghost function Sites(log: seq<Token>, ends: seq<nat>, n: nat, key: seq<Token> -> Key, k: Key, upto: nat)
    : (r: seq<nat>)
    requires upto <= |log|
    ensures forall p :: p in r ==> p < upto && Hit(log, ends, n, key, k, p)
  {
    if upto == 0 then []
    else
      var p := upto - 1;
      Sites(log, ends, n, key, k, p) + if Hit(log, ends, n, key, k, p) then [p] else []
  }

  lemma SitesStep(log: seq<Token>, ends: seq<nat>, n: nat, key: seq<Token> -> Key, k: Key, p: nat)
    requires p < |log|
    ensures Hit(log, ends, n, key, k, p) ==>
      Sites(log, ends, n, key, k, p + 1) == Sites(log, ends, n, key, k, p) + [p]
    ensures !Hit(log, ends, n, key, k, p) ==> Sites(log, ends, n, key, k, p + 1) == Sites(log, ends, n, key, k, p)
  {
    hide Hit;
  }

  function Last<T>(s: seq<T>, n: nat): seq<T> {
    if |s| <= n then s else s[|s| - n..]
  }

  function At(index: Index, k: Key): seq<nat> { if k in index then index[k] else [] }

  /** Every bucket holds the newest `cap` sites of its key, and a key has a
      bucket exactly when it has a site. This fixes the index completely. */
  ghost predicate Indexed(index: Index, log: seq<Token>, ends: seq<nat>, n: nat, cap: nat,
                          key: seq<Token> -> Key, upto: nat)
    requires upto <= |log|
  {
    && (forall k :: At(index, k) == Last(Sites(log, ends, n, key, k, upto), cap))
    && (forall k :: k in index <==> Sites(log, ends, n, key, k, upto) != [])
  }

  lemma IndexIsUnique(a: Index, b: Index, log: seq<Token>, ends: seq<nat>, n: nat, cap: nat,
                      key: seq<Token> -> Key, upto: nat)
    requires upto <= |log|
    requires Indexed(a, log, ends, n, cap, key, upto) && Indexed(b, log, ends, n, cap, key, upto)
    ensures a == b
  {
    forall k
      ensures k in a <==> k in b
      ensures k in a ==> a[k] == b[k]
    {
      assert At(a, k) == At(b, k);
    }
  }

  // ---- Growing the index --------------------------------------------------

  lemma LastPush<T>(s: seq<T>, x: T, cap: nat)
    ensures Last(Last(s, cap) + [x], cap) == Last(s + [x], cap)
  {
  }

  /** A site at p is pushed onto its bucket; every other bucket stands. */
  lemma PushSite(index: Index, log: seq<Token>, ends: seq<nat>, n: nat, cap: nat, key: seq<Token> -> Key, p: nat)
    requires p < |log| && IsSite(log, ends, n, p) && Indexed(index, log, ends, n, cap, key, p)
    ensures var k := key(log[p - n..p]);
      Indexed(index[k := Last(At(index, k) + [p], cap)], log, ends, n, cap, key, p + 1)
  {
    var k := key(log[p - n..p]);
    assert forall q :: Hit(log, ends, n, key, q, p) <==> q == k;
    hide Sites, IsSite, Hit;
    var index' := index[k := Last(At(index, k) + [p], cap)];
    forall q
      ensures At(index', q) == Last(Sites(log, ends, n, key, q, p + 1), cap)
      ensures q in index' <==> Sites(log, ends, n, key, q, p + 1) != []
    {
      SitesStep(log, ends, n, key, q, p);
      assert At(index, q) == Last(Sites(log, ends, n, key, q, p), cap);
      if q == k {
        LastPush(Sites(log, ends, n, key, q, p), p, cap);
      }
    }
  }

  /** Positions that are not sites add nothing. */
  lemma {:induction false} SkipNonSites(log: seq<Token>, ends: seq<nat>, n: nat, key: seq<Token> -> Key, k: Key,
                                        from: nat, stop: nat)
    requires from <= stop <= |log| && forall p :: from <= p < stop ==> !IsSite(log, ends, n, p)
    ensures Sites(log, ends, n, key, k, stop) == Sites(log, ends, n, key, k, from)
    decreases stop
  {
    if from == stop {
    } else {
      assert !Hit(log, ends, n, key, k, stop - 1);
      hide Sites, IsSite, Hit;
      SitesStep(log, ends, n, key, k, stop - 1);
      SkipNonSites(log, ends, n, key, k, from, stop - 1);
    }
  }

  /** Old sites are unmoved by a stream added after them. */
  lemma {:induction false} OldSites(log: seq<Token>, ends: seq<nat>, more: seq<Token>, n: nat,
                                    key: seq<Token> -> Key, k: Key, upto: nat)
    requires upto <= |log|
    ensures Sites(log + more, ends + [|log| + |more|], n, key, k, upto) == Sites(log, ends, n, key, k, upto)
  {
    hide Sites, Hit;
    if upto > 0 {
      OldSites(log, ends, more, n, key, k, upto - 1);
      OldHit(log, ends, more, n, key, k, upto - 1);
      SitesStep(log, ends, n, key, k, upto - 1);
      SitesStep(log + more, ends + [|log| + |more|], n, key, k, upto - 1);
    } else {
      assert Sites(log, ends, n, key, k, 0) == [] by { NoneBelow(log, ends, n, key, k); }
      NoneBelow(log + more, ends + [|log| + |more|], n, key, k);
    }
  }

  lemma NoneBelow(log: seq<Token>, ends: seq<nat>, n: nat, key: seq<Token> -> Key, k: Key)
    ensures Sites(log, ends, n, key, k, 0) == []
  {
  }

  lemma OldHit(log: seq<Token>, ends: seq<nat>, more: seq<Token>, n: nat, key: seq<Token> -> Key, k: Key, p: nat)
    requires p < |log|
    ensures Hit(log + more, ends + [|log| + |more|], n, key, k, p) <==> Hit(log, ends, n, key, k, p)
  {
    var log', ends' := log + more, ends + [|log| + |more|];
    assert forall j :: 0 <= j < |ends| ==> ends'[j] == ends[j];
    assert ends'[|ends|] > p;
    if n <= p { assert log'[p - n..p] == log[p - n..p]; }
    if IsSite(log', ends', n, p) {
      forall j | 0 <= j < |ends| ensures !(p - n < ends[j] <= p) { assert ends'[j] == ends[j]; }
    }
  }

  /** Inside the first n positions of a stream there is no site. */
  lemma StreamStart(log: seq<Token>, ends: seq<nat>, n: nat, begin: nat, p: nat)
    requires begin == 0 || begin in ends
    requires begin <= p < begin + n
    ensures !IsSite(log, ends, n, p)
  {
  }

  /** From its n-th position to its end, every position is a site. */
  lemma StreamBody(log: seq<Token>, ends: seq<nat>, n: nat, i: nat, p: nat)
    requires Layout(log, ends) && i < |ends|
    requires Begin(ends, i) + n <= p < ends[i]
    ensures IsSite(log, ends, n, p)
  {
    forall j | 0 <= j < |ends|
      ensures !(p - n < ends[j] <= p)
    {
      if j < i { assert ends[j] <= ends[i - 1]; } else { assert ends[i] <= ends[j]; }
    }
  }

  /** Adds one stream's n-grams to an index of everything before it. */
  method IndexStream(index0: Index, log: seq<Token>, ends: seq<nat>, i: nat, n: nat, cap: nat, key: seq<Token> -> Key)
    returns (index: Index)
    requires Layout(log, ends) && i < |ends|
    requires Indexed(index0, log, ends, n, cap, key, Begin(ends, i))
    ensures Indexed(index, log, ends, n, cap, key, ends[i])
  {
    hide Sites, IsSite, At, Last;
    index := index0;
    var begin, end := Begin(ends, i), ends[i];
    if end - begin < n + 1 {
      IndexSkip(index, log, ends, n, cap, key, begin, end);
      return;
    }
    IndexSkip(index, log, ends, n, cap, key, begin, begin + n);
    var p: nat := begin + n;
    while p < end
      invariant begin + n <= p <= end
      invariant Indexed(index, log, ends, n, cap, key, p)
    {
      StreamBody(log, ends, n, i, p);
      PushSite(index, log, ends, n, cap, key, p);
      var k := key(log[p - n..p]);
      var sites: seq<nat> := At(index, k) + [p];
      index := index[k := Last(sites, cap)];
      p := p + 1;
    }
  }

  lemma IndexSkip(index: Index, log: seq<Token>, ends: seq<nat>, n: nat, cap: nat, key: seq<Token> -> Key,
                  begin: nat, stop: nat)
    requires begin <= stop <= |log| && stop <= begin + n && (begin == 0 || begin in ends)
    requires Indexed(index, log, ends, n, cap, key, begin)
    ensures Indexed(index, log, ends, n, cap, key, stop)
  {
    hide Sites, Hit, At, Last;
    forall p | begin <= p < stop ensures !IsSite(log, ends, n, p) { StreamStart(log, ends, n, begin, p); }
    forall k
      ensures Sites(log, ends, n, key, k, stop) == Sites(log, ends, n, key, k, begin)
    {
      SkipNonSites(log, ends, n, key, k, begin, stop);
    }
  }

  lemma IndexKept(index: Index, log: seq<Token>, ends: seq<nat>, more: seq<Token>, n: nat, cap: nat,
                  key: seq<Token> -> Key)
    requires Indexed(index, log, ends, n, cap, key, |log|)
    ensures Indexed(index, log + more, ends + [|log| + |more|], n, cap, key, |log|)
  {
    hide Sites, IsSite, Hit, At, Last;
    forall k
      ensures Sites(log + more, ends + [|log| + |more|], n, key, k, |log|) == Sites(log, ends, n, key, k, |log|)
    {
      OldSites(log, ends, more, n, key, k, |log|);
    }
  }

  lemma EmptyIndex(log: seq<Token>, ends: seq<nat>, n: nat, cap: nat, key: seq<Token> -> Key)
    ensures Indexed(map[], log, ends, n, cap, key, 0)
  {
  }

  lemma LayoutEnd(log: seq<Token>, ends: seq<nat>)
    requires Layout(log, ends)
    ensures Begin(ends, |ends|) == |log|
    ensures forall i :: 0 <= i <= |ends| ==> Begin(ends, i) <= |log|
  {
  }

  method RebuildIndex(log: seq<Token>, ends: seq<nat>, n: nat, cap: nat, key: seq<Token> -> Key) returns (index: Index)
    requires Layout(log, ends)
    ensures Indexed(index, log, ends, n, cap, key, |log|)
  {
    LayoutEnd(log, ends);
    hide Sites, Layout;
    index := map[];
    EmptyIndex(log, ends, n, cap, key);
    var i := 0;
    while i < |ends|
      invariant 0 <= i <= |ends| && Begin(ends, i) <= |log|
      invariant Indexed(index, log, ends, n, cap, key, Begin(ends, i))
    {
      index := IndexStream(index, log, ends, i, n, cap, key);
      i := i + 1;
    }
  }

  // ---- Drafting -----------------------------------------------------------

  lemma {:induction false} SitesComplete(log: seq<Token>, ends: seq<nat>, n: nat, key: seq<Token> -> Key, k: Key,
                                         upto: nat, p: nat)
    requires upto <= |log| && p < upto && Hit(log, ends, n, key, k, p)
    ensures p in Sites(log, ends, n, key, k, upto)
  {
    hide Hit;
    if p < upto - 1 { SitesComplete(log, ends, n, key, k, upto - 1, p); }
  }

  lemma {:induction false} NewestSite(log: seq<Token>, ends: seq<nat>, n: nat, key: seq<Token> -> Key, k: Key,
                                      upto: nat)
    requires 1 <= upto <= |log| && Sites(log, ends, n, key, k, upto) != []
    ensures var s := Sites(log, ends, n, key, k, upto); forall p :: p in s ==> p <= s[|s| - 1]
  {
    hide Hit;
    if Sites(log, ends, n, key, k, upto - 1) != [] { NewestSite(log, ends, n, key, k, upto - 1); }
  }

  function EndIndex(ends: seq<nat>, offset: int, i: nat): (r: nat)
    requires i <= |ends|
    ensures i <= r <= |ends|
    ensures forall j :: i <= j < r ==> ends[j] <= offset
    ensures r < |ends| ==> ends[r] > offset
    decreases |ends| - i
  {
    if i == |ends| || ends[i] > offset then i else EndIndex(ends, offset, i + 1)
  }

  /** First stream end beyond `offset`. */
  function StreamEndFor(log: seq<Token>, ends: seq<nat>, offset: nat): nat {
    var i := EndIndex(ends, offset, 0);
    if i == |ends| then |log| else ends[i]
  }

  lemma StreamEnd(log: seq<Token>, ends: seq<nat>, offset: nat)
    requires Layout(log, ends) && offset < |log|
    ensures var e := StreamEndFor(log, ends, offset);
      offset < e <= |log| && e in ends && forall j :: 0 <= j < |ends| ==> !(offset < ends[j] < e)
  {
    var i := EndIndex(ends, offset, 0);
    assert i < |ends|;
    forall j | 0 <= j < |ends|
      ensures !(offset < ends[j] < ends[i])
    {
      if j > i { assert ends[i] < ends[j]; }
    }
  }

  /** The gram occurs just before p, with a token of the same stream after it. */
  ghost predicate MatchAt(log: seq<Token>, ends: seq<nat>, gram: seq<Token>, p: int) {
    IsSite(log, ends, |gram|, p) && log[p - |gram|..p] == gram
  }

  ghost predicate NewestMatch(log: seq<Token>, ends: seq<nat>, gram: seq<Token>, p: int) {
    MatchAt(log, ends, gram, p) && forall q :: q > p ==> !MatchAt(log, ends, gram, q)
  }

  /** What followed position p in its own stream, at most k tokens of it. */
  ghost predicate Continues(log: seq<Token>, ends: seq<nat>, p: nat, k: int, r: seq<Token>) {
    && 1 <= |r| <= k
    && p + |r| <= |log| && r == log[p..p + |r|]
    && (forall j :: 0 <= j < |ends| ==> !(p < ends[j] < p + |r|))
    && (|r| == k || p + |r| in ends)
  }

  /** No other n-gram of the log shares the gram's hash. */
  ghost predicate NoCollision(log: seq<Token>, ends: seq<nat>, key: seq<Token> -> Key, gram: seq<Token>) {
    forall p {:trigger IsSite(log, ends, |gram|, p)} ::
      IsSite(log, ends, |gram|, p) && key(log[p - |gram|..p]) == key(gram) ==> log[p - |gram|..p] == gram
  }

  /** Walks a bucket from its newest site; a site that is only a hash collision,
      or has nothing left in its stream, is passed over. */
  method FirstGenuine(sites: seq<nat>, log: seq<Token>, ends: seq<nat>, gram: seq<Token>, k: nat)
    returns (r: seq<Token>, ghost p: nat)
    requires Layout(log, ends) && k >= 1
    requires forall i :: 0 <= i < |sites| ==> IsSite(log, ends, |gram|, sites[i])
    ensures r != [] ==> MatchAt(log, ends, gram, p) && Continues(log, ends, p, k, r)
    ensures |gram| >= 1 && sites != [] && MatchAt(log, ends, gram, sites[|sites| - 1]) ==>
              r != [] && p == sites[|sites| - 1]
  {
    hide Layout, StreamEndFor, MatchAt, Continues, IsSite;
    var n := |gram|;
    r, p := [], 0;
    var i := |sites|;
    while i > 0
      invariant 0 <= i <= |sites|
      invariant i < |sites| ==> n == 0 || !MatchAt(log, ends, gram, sites[|sites| - 1])
    {
      i := i - 1;
      var start := sites[i];
      var end := StreamEndFor(log, ends, if start > 0 then start - 1 else 0);
      SiteEnd(log, ends, n, start);
      if start < end && log[start - n..start] == gram {
        var take := Min(end - start, k);
        Genuine(log, ends, gram, start, end, k);
        p := start;
        r := log[start..start + take];
        return;
      }
      if log[start - n..start] != gram { NotGenuine(log, ends, gram, start); }
    }
  }

  lemma Genuine(log: seq<Token>, ends: seq<nat>, gram: seq<Token>, p: nat, end: nat, k: nat)
    requires IsSite(log, ends, |gram|, p) && log[p - |gram|..p] == gram && k >= 1
    requires p < end <= |log| && end in ends && forall j :: 0 <= j < |ends| ==> !(p < ends[j] < end)
    ensures MatchAt(log, ends, gram, p) && Continues(log, ends, p, k, log[p..p + Min(end - p, k)])
  {
  }

  lemma NotGenuine(log: seq<Token>, ends: seq<nat>, gram: seq<Token>, p: nat)
    requires IsSite(log, ends, |gram|, p) && log[p - |gram|..p] != gram
    ensures !MatchAt(log, ends, gram, p)
  {
  }

  function Gram(tail: seq<Token>, n: nat): seq<Token>
    requires n <= |tail|
  {
    tail[|tail| - n..]
  }

  /** The archive's index against a naive search of its log: a draft is always a
      real continuation of a real occurrence; without collisions it is the
      newest one, and it is empty only when there is none. */
  method Draft(index: Index, log: seq<Token>, ends: seq<nat>, n: nat, cap: nat, key: seq<Token> -> Key,
               tail: seq<Token>, k: int) returns (r: seq<Token>, ghost p: nat)
    requires Layout(log, ends) && Indexed(index, log, ends, n, cap, key, |log|)
    ensures k <= 0 || |tail| < n ==> r == []
    ensures r != [] ==> |tail| >= n && MatchAt(log, ends, Gram(tail, n), p) && Continues(log, ends, p, k, r)
    ensures n >= 1 && cap >= 1 && k > 0 && |tail| >= n && NoCollision(log, ends, key, Gram(tail, n)) ==>
      if r == [] then forall q :: !MatchAt(log, ends, Gram(tail, n), q)
      else NewestMatch(log, ends, Gram(tail, n), p)
  {
    hide Sites, IsSite, MatchAt, NoCollision, Continues, Layout, Hit;
    r, p := [], 0;
    if k <= 0 || |tail| < n { return; }
    var gram := Gram(tail, n);
    var sites := At(index, key(gram));
    ghost var all := Sites(log, ends, n, key, key(gram), |log|);
    if all == [] { NoSites(log, ends, key, gram); } else { NewestOfBucket(log, ends, n, cap, key, gram); }
    forall i | 0 <= i < |sites| ensures IsSite(log, ends, n, sites[i]) {
      assert sites[i] in all;
      HitIsSite(log, ends, n, key, key(gram), sites[i]);
    }
    r, p := FirstGenuine(sites, log, ends, gram, k);
  }

  lemma SiteEnd(log: seq<Token>, ends: seq<nat>, n: nat, p: nat)
    requires Layout(log, ends) && IsSite(log, ends, n, p)
    ensures var e := StreamEndFor(log, ends, if p > 0 then p - 1 else 0);
      && n <= p <= e <= |log| && e in ends && (n >= 1 ==> p < e)
      && forall j :: 0 <= j < |ends| ==> !(p < ends[j] < e)
  {
    hide StreamEndFor;
    StreamEnd(log, ends, if p > 0 then p - 1 else 0);
  }

  lemma HitIsSite(log: seq<Token>, ends: seq<nat>, n: nat, key: seq<Token> -> Key, k: Key, p: nat)
    requires Hit(log, ends, n, key, k, p)
    ensures IsSite(log, ends, n, p)
  {
  }

  lemma NoSites(log: seq<Token>, ends: seq<nat>, key: seq<Token> -> Key, gram: seq<Token>)
    requires Sites(log, ends, |gram|, key, key(gram), |log|) == []
    ensures forall q :: !MatchAt(log, ends, gram, q)
  {
    forall q
      ensures !MatchAt(log, ends, gram, q)
    {
      if MatchAt(log, ends, gram, q) { SitesComplete(log, ends, |gram|, key, key(gram), |log|, q); }
    }
  }

  /** With room in the bucket and no collision, its last site is the newest
      occurrence. */
  lemma NewestOfBucket(log: seq<Token>, ends: seq<nat>, n: nat, cap: nat, key: seq<Token> -> Key, gram: seq<Token>)
    requires n == |gram| && Sites(log, ends, n, key, key(gram), |log|) != []
    ensures var kept := Last(Sites(log, ends, n, key, key(gram), |log|), cap);
      cap >= 1 && NoCollision(log, ends, key, gram) ==> kept != [] && NewestMatch(log, ends, gram, kept[|kept| - 1])
  {
    var all := Sites(log, ends, n, key, key(gram), |log|);
    var p := all[|all| - 1];
    assert p in all;
    NewestSite(log, ends, n, key, key(gram), |log|);
    forall q | q > p
      ensures !MatchAt(log, ends, gram, q)
    {
      if MatchAt(log, ends, gram, q) { SitesComplete(log, ends, n, key, key(gram), |log|, q); }
    }
  }

  // ---- Eviction -----------------------------------------------------------

  function Total(streams: seq<seq<Token>>): nat
    decreases |streams|
  {
    if streams == [] then 0 else |streams[0]| + Total(streams[1..])
  }

  /** Drops the oldest streams until the rest fits. */
  function KeepNewest(streams: seq<seq<Token>>, budget: nat): (r: seq<seq<Token>>)
    ensures Total(r) <= budget
    ensures |r| <= |streams| && r == streams[|streams| - |r|..]
    decreases |streams|
  {
    if Total(streams) <= budget then streams else KeepNewest(streams[1..], budget)
  }

  /** No longer suffix of the streams would have fitted. */
  lemma {:induction false} KeepsLongest(streams: seq<seq<Token>>, budget: nat, n: nat)
    requires n <= |streams| && Total(streams[n..]) <= budget
    ensures |streams| - n <= |KeepNewest(streams, budget)|
    decreases |streams|
  {
    assert streams[0..] == streams;
    if Total(streams) > budget && n > 0 {
      assert streams[n..] == streams[1..][n - 1..];
      KeepsLongest(streams[1..], budget, n - 1);
    }
  }

  lemma {:induction false} TotalShrinks(streams: seq<seq<Token>>, n: nat, m: nat)
    requires n <= m <= |streams|
    ensures Total(streams[m..]) <= Total(streams[n..])
    decreases m - n
  {
    if n == m {
    } else {
      TotalShrinks(streams, n + 1, m);
      assert streams[n..][1..] == streams[n + 1..];
    }
  }

  /** Eviction drops just the oldest half exactly when the newer half fits and
      would not with one stream more. */
  lemma DropsHalfWhen(streams: seq<seq<Token>>, budget: nat)
    requires |streams| >= 2
    ensures var half := |streams| / 2;
      |KeepNewest(streams, budget)| == |streams| - half
      <==> Total(streams[half..]) <= budget < Total(streams[half - 1..])
  {
    hide KeepNewest, Total;
    var half, kept := |streams| / 2, |KeepNewest(streams, budget)|;
    if Total(streams[half..]) <= budget { KeepsLongest(streams, budget, half); }
    if Total(streams[half - 1..]) <= budget { KeepsLongest(streams, budget, half - 1); }
    if kept > |streams| - half { TotalShrinks(streams, |streams| - kept, half - 1); }
  }

  /** Otherwise it drops less, or more: here one stream of four. */
  lemma DropsLessThanHalf()
    ensures KeepNewest([[1], [2], [3], [4]], 3) == [[2], [3], [4]]
  {
    var s: seq<seq<Token>> := [[1], [2], [3], [4]];
    assert s[1..] == [[2], [3], [4]] && s[1..][1..] == [[3], [4]] && s[1..][1..][1..] == [[4]];
    assert Total([[4]]) == 1 && Total([[3], [4]]) == 2 && Total(s[1..]) == 3 && Total(s) == 4;
  }

  /** The tokens of the streams from the d-th on. */
  lemma {:induction false} TotalFrom(log: seq<Token>, ends: seq<nat>, d: nat)
    requires Layout(log, ends) && d <= |ends|
    ensures Total(Streams(log, ends)[d..]) == |log| - Begin(ends, d)
    decreases |ends| - d
  {
    if d < |ends| {
      TotalFrom(log, ends, d + 1);
      var rest := Streams(log, ends)[d..];
      assert rest[0] == log[Begin(ends, d)..ends[d]] && rest[1..] == Streams(log, ends)[d + 1..];
    }
  }

  function Shifted(ends: seq<nat>, d: nat, cut: nat): seq<nat>
    requires d <= |ends| && forall i :: d <= i < |ends| ==> cut <= ends[i]
  {
    seq(|ends| - d, i requires 0 <= i < |ends| - d => ends[i + d] - cut)
  }

  /** Dropping d streams shifts everything left by what they held. */
  lemma DropStreams(log: seq<Token>, ends: seq<nat>, d: nat)
    requires Layout(log, ends) && d <= |ends|
    ensures var cut := Begin(ends, d);
      && cut <= |log| && (forall i :: d <= i < |ends| ==> cut <= ends[i])
      && Layout(log[cut..], Shifted(ends, d, cut))
      && Streams(log[cut..], Shifted(ends, d, cut)) == Streams(log, ends)[d..]
  {
    var cut := Begin(ends, d);
    BeyondCut(log, ends, d);
    var ends', log' := Shifted(ends, d, cut), log[cut..];
    ShiftedLayout(log, ends, d);
    hide Layout, Shifted;
    forall i: nat | i < |ends'| ensures Streams(log', ends')[i] == Streams(log, ends)[d..][i] {
      ShiftedStream(log, ends, d, i);
    }
  }

  lemma BeyondCut(log: seq<Token>, ends: seq<nat>, d: nat)
    requires Layout(log, ends) && d <= |ends|
    ensures Begin(ends, d) <= |log| && forall i :: d <= i < |ends| ==> Begin(ends, d) < ends[i]
  {
    LayoutEnd(log, ends);
  }

  lemma ShiftedLayout(log: seq<Token>, ends: seq<nat>, d: nat)
    requires Layout(log, ends) && d <= |ends|
    requires Begin(ends, d) <= |log| && forall i :: d <= i < |ends| ==> Begin(ends, d) < ends[i]
    ensures var ends' := Shifted(ends, d, Begin(ends, d));
      |ends'| == |ends| - d && Layout(log[Begin(ends, d)..], ends')
  {
  }

  lemma ShiftedStream(log: seq<Token>, ends: seq<nat>, d: nat, i: nat)
    requires Layout(log, ends) && d <= |ends| && i < |ends| - d
    requires Begin(ends, d) <= |log| && forall i :: d <= i < |ends| ==> Begin(ends, d) < ends[i]
    ensures var log', ends' := log[Begin(ends, d)..], Shifted(ends, d, Begin(ends, d));
      Layout(log', ends') ==> Streams(log', ends')[i] == Streams(log, ends)[i + d]
  {
    var cut := Begin(ends, d);
    var log', ends' := log[cut..], Shifted(ends, d, cut);
    assert Begin(ends', i) == Begin(ends, i + d) - cut && ends'[i] == ends[i + d] - cut;
    assert Begin(ends, i + d) <= ends[i + d] <= |log|;
    assert log'[Begin(ends', i)..ends'[i]] == log[Begin(ends, i + d)..ends[i + d]];
  }

  lemma AddStream(log: seq<Token>, ends: seq<nat>, tokens: seq<Token>)
    requires Layout(log, ends) && tokens != []
    ensures Layout(log + tokens, ends + [|log| + |tokens|])
    ensures Streams(log + tokens, ends + [|log| + |tokens|]) == Streams(log, ends) + [tokens]
  {
    var log', ends' := log + tokens, ends + [|log| + |tokens|];
    LayoutEnd(log, ends);
    forall i | 0 <= i < |ends'|
      ensures Streams(log', ends')[i] == (Streams(log, ends) + [tokens])[i]
    {
      if i < |ends| {
        assert log'[Begin(ends, i)..ends[i]] == log[Begin(ends, i)..ends[i]];
      } else {
        assert log'[|log|..|log| + |tokens|] == tokens;
      }
    }
  }

  /** How many of the oldest streams must go, and the tokens they hold. */
  method CountDrops(log: seq<Token>, ends: seq<nat>, budget: nat) returns (drop: nat, cut: nat)
    requires Layout(log, ends)
    ensures drop <= |ends| && cut == Begin(ends, drop) <= |log|
    ensures Streams(log, ends)[drop..] == KeepNewest(Streams(log, ends), budget)
  {
    hide Streams, Layout, KeepNewest, Total;
    ghost var streams := Streams(log, ends);
    LayoutEnd(log, ends);
    drop, cut := 0, 0;
    TotalFrom(log, ends, 0);
    assert streams[0..] == streams;
    while drop < |ends| && |log| - cut > budget
      invariant 0 <= drop <= |ends| && cut == Begin(ends, drop)
      invariant Total(streams[drop..]) == |log| - cut
      invariant KeepNewest(streams, budget) == KeepNewest(streams[drop..], budget)
    {
      ghost var rest := streams[drop..];
      KeepStep(rest, budget);
      assert rest[1..] == streams[drop + 1..];
      TotalFrom(log, ends, drop + 1);
      cut := ends[drop];
      drop := drop + 1;
    }
    KeepStep(streams[drop..], budget);
  }

  lemma KeepStep(streams: seq<seq<Token>>, budget: nat)
    ensures Total(streams) <= budget ==> KeepNewest(streams, budget) == streams
    ensures Total(streams) > budget ==> streams != [] && KeepNewest(streams, budget) == KeepNewest(streams[1..], budget)
  {
  }

  predicate AllInt32(tokens: seq<Token>) { forall t :: t in tokens ==> L.Int32(t) }

  lemma {:induction false} StreamWithin(streams: seq<seq<Token>>, i: nat)
    requires i < |streams|
    ensures |streams[i]| <= Total(streams)
    decreases |streams|
  {
    if i == 0 {
    } else {
      StreamWithin(streams[1..], i - 1);
    }
  }

  /** Streams of a log within the budget can all be stored. */
  lemma FitsStorable(log: seq<Token>, ends: seq<nat>)
    requires Layout(log, ends) && AllInt32(log) && Total(Streams(log, ends)) <= L.MAX_STREAM
    ensures L.AllStorable(Streams(log, ends))
  {
    var streams := Streams(log, ends);
    forall s | s in streams
      ensures L.Storable(s)
    {
      var i :| 0 <= i < |streams| && streams[i] == s;
      StreamWithin(streams, i);
      if i > 0 { assert ends[i - 1] < ends[i]; }
      forall t | t in s ensures L.Int32(t) { assert t in log; }
    }
  }

  lemma StorableInt32(log: seq<Token>, ends: seq<nat>)
    requires Layout(log, ends) && L.AllStorable(Streams(log, ends))
    ensures AllInt32(log)
  {
    forall t | t in log
      ensures L.Int32(t)
    {
      var p :| 0 <= p < |log| && log[p] == t;
      var i := EndIndex(ends, p, 0);
      assert i < |ends|;
      var s := Streams(log, ends)[i];
      assert Begin(ends, i) <= p < ends[i];
      assert s[p - Begin(ends, i)] == t;
      assert s in Streams(log, ends);
    }
  }

  /** The streams determine the log and its ends, hence (with IndexIsUnique) the
      index and every draft. */
  lemma {:induction false} SameStreams(log1: seq<Token>, ends1: seq<nat>, log2: seq<Token>, ends2: seq<nat>)
    requires Layout(log1, ends1) && Layout(log2, ends2) && Streams(log1, ends1) == Streams(log2, ends2)
    ensures log1 == log2 && ends1 == ends2
  {
    SameEnds(log1, ends1, log2, ends2, |ends1|);
    assert ends1 == ends2;
    LayoutEnd(log1, ends1);
    LayoutEnd(log2, ends2);
    forall p | 0 <= p < |log1|
      ensures log1[p] == log2[p]
    {
      var i := EndIndex(ends1, p, 0);
      var b := Begin(ends1, i);
      assert b <= p < ends1[i];
      assert Streams(log1, ends1)[i][p - b] == Streams(log2, ends2)[i][p - b];
    }
  }

  lemma {:induction false} SameEnds(log1: seq<Token>, ends1: seq<nat>, log2: seq<Token>, ends2: seq<nat>, n: nat)
    requires Layout(log1, ends1) && Layout(log2, ends2) && Streams(log1, ends1) == Streams(log2, ends2)
    requires n <= |ends1|
    ensures |ends1| == |ends2| && ends1[..n] == ends2[..n]
  {
    assert |Streams(log1, ends1)| == |Streams(log2, ends2)|;
    if n == 0 {
    } else {
      SameEnds(log1, ends1, log2, ends2, n - 1);
      assert |Streams(log1, ends1)[n - 1]| == |Streams(log2, ends2)[n - 1]|;
      if n > 1 { assert ends1[..n - 1][n - 2] == ends2[..n - 1][n - 2]; }
      assert ends1[..n] == ends1[..n - 1] + [ends1[n - 1]];
      assert ends2[..n] == ends2[..n - 1] + [ends2[n - 1]];
    }
  }

  // ---- The archive --------------------------------------------------------

  class CorpusIndex {
    const n: nat
    const cap: nat
    const budget: nat           // in tokens
    const key: seq<Token> -> Key
    var log: seq<Token>
    var ends: seq<nat>
    var index: Index
    var flushed: nat
    var file: seq<Byte>

    ghost function View(): seq<seq<Token>>
      requires Layout(log, ends)
      reads this
    {
      Streams(log, ends)
    }

    ghost predicate Valid()
      reads this
    {
      && Layout(log, ends)
      && Indexed(index, log, ends, n, cap, key, |log|)
      && flushed <= |ends|
      && L.AllStorable(View())
      && Total(View()) <= budget <= L.MAX_STREAM
    }

    /** The file holds exactly the flushed streams. */
    ghost predicate Clean()
      requires Valid()
      reads this
    {
      file == L.Encode(View()[..flushed])
    }

    /** Everything but the file and the budget. */
    ghost predicate Sound()
      reads this
    {
      && Layout(log, ends)
      && Indexed(index, log, ends, n, cap, key, |log|)
      && AllInt32(log)
      && budget <= L.MAX_STREAM
    }

    lemma ValidIsSound()
      requires Valid()
      ensures Sound()
    {
      hide Indexed;
      StorableInt32(log, ends);
    }

    method Append(tokens: seq<Token>)
      requires Sound() && tokens != [] && AllInt32(tokens)
      modifies `log, `ends, `index
      ensures Sound() && View() == old(View()) + [tokens]
    {
      hide Indexed, Layout, L.Int32;
      AddStream(log, ends, tokens);
      IndexKept(index, log, ends, tokens, n, cap, key);
      ghost var before := ends;
      LayoutEnd(log, ends);
      ends := ends + [|log| + |tokens|];
      log := log + tokens;
      assert Begin(ends, |before|) == Begin(before, |before|);
      index := IndexStream(index, log, ends, |ends| - 1, n, cap, key);
    }

    method RewriteFile()
      requires Layout(log, ends) && L.AllStorable(View())
      modifies `file, `flushed
      ensures file == L.Encode(View()) && flushed == |ends|
    {
      hide L.Frame, L.Storable;
      ghost var streams := View();
      file := [];
      L.EncodeNone();
      for i := 0 to |ends|
        invariant L.AllStorable(streams[..i]) && file == L.Encode(streams[..i])
        invariant View() == streams
      {
        var s := log[Begin(ends, i)..ends[i]];
        AppendFrame(streams, i);
        file := file + L.Frame(s);
      }
      assert streams[..|ends|] == streams;
      flushed := |ends|;
    }

    static lemma AppendFrame(streams: seq<L.Stream>, i: nat)
      requires i < |streams| && L.AllStorable(streams)
      ensures L.AllStorable(streams[..i]) && L.AllStorable(streams[..i + 1]) && L.Storable(streams[i])
      ensures L.Encode(streams[..i + 1]) == L.Encode(streams[..i]) + L.Frame(streams[i])
    {
      hide L.Frame, L.Storable;
      var s := streams[i];
      assert streams[..i + 1] == streams[..i] + [s];
      assert s in streams;
      L.EncodeConcat(streams[..i], [s]);
      L.EncodeNone();
      L.EncodeCons(s, []);
      assert [s] + [] == [s];
      assert L.Frame(s) + [] == L.Frame(s);
    }

    method EvictOldest()
      requires Sound()
      modifies `log, `ends, `index, `file, `flushed
      ensures Valid() && Clean() && flushed == |ends|
      ensures View() == KeepNewest(old(View()), budget)
    {
      hide Indexed, L.Int32, Layout, KeepNewest, L.Storable, L.Encode;
      ghost var streams := View();
      var drop, cut := CountDrops(log, ends, budget);
      DropStreams(log, ends, drop);
      log, ends := log[cut..], Shifted(ends, drop, cut);
      index := RebuildIndex(log, ends, n, cap, key);
      FitsStorable(log, ends);
      RewriteFile();
      assert View()[..flushed] == View();
    }

    /** A stream observed is the newest one remembered, unless it alone is over
        the budget; the oldest make room for it. */
    method Observe(tokens: seq<Token>)
      requires Valid() && AllInt32(tokens)
      modifies `log, `ends, `index, `file, `flushed
      ensures Valid() && (old(Clean()) ==> Clean())
      ensures View() == if tokens == [] then old(View()) else KeepNewest(old(View()) + [tokens], budget)
    {
      if tokens == [] { return; }
      ValidIsSound();
      hide Indexed, L.Int32, Layout;
      ghost var before := View();
      Append(tokens);
      assert View()[..flushed] == before[..flushed];
      TotalIsLength();
      if |log| > budget {
        EvictOldest();
      } else {
        FitsStorable(log, ends);
      }
    }

    lemma TotalIsLength()
      requires Layout(log, ends)
      ensures Total(View()) == |log|
    {
      TotalFrom(log, ends, 0);
      assert View()[0..] == View();
    }

    /** Appends what the file does not have yet. */
    method Flush()
      requires Valid()
      modifies `file, `flushed
      ensures Valid() && flushed == |ends| && View() == old(View())
      ensures file == old(file) + L.Encode(View()[old(flushed)..])
      ensures old(Clean()) ==> Clean()
    {
      hide Indexed, L.Int32, L.Frame, L.Storable, L.Encode;
      ghost var streams, from := View(), flushed;
      L.EncodeNone();
      assert streams[from..from] == [] && file + [] == file;
      while flushed < |ends|
        invariant Valid() && View() == streams && from <= flushed
        invariant file == old(file) + L.Encode(streams[from..flushed])
      {
        var s := log[Begin(ends, flushed)..ends[flushed]];
        NextFrame(streams, from, flushed);
        file := file + L.Frame(s);
        flushed := flushed + 1;
      }
      assert streams[from..|streams|] == streams[from..];
      if old(Clean()) {
        L.EncodeConcat(streams[..from], streams[from..]);
        assert streams[..from] + streams[from..] == streams == streams[..|streams|];
      }
    }

    static lemma NextFrame(streams: seq<L.Stream>, from: nat, i: nat)
      requires from <= i < |streams| && L.AllStorable(streams)
      ensures L.AllStorable(streams[from..i]) && L.AllStorable(streams[from..i + 1]) && L.Storable(streams[i])
      ensures L.Encode(streams[from..i + 1]) == L.Encode(streams[from..i]) + L.Frame(streams[i])
    {
      var tail := streams[from..];
      AppendFrame(tail, i - from);
      assert tail[..i - from] == streams[from..i] && tail[..i - from + 1] == streams[from..i + 1];
    }

    /** Reads the log file back. A file that ends in a torn frame loads, but is
        not a clean base to append to unless eviction rewrote it. */
    constructor (file: seq<Byte>, n: nat, cap: nat, budget: nat, key: seq<Token> -> Key)
      requires budget <= L.MAX_STREAM
      ensures Valid() && this.n == n && this.cap == cap && this.budget == budget && this.key == key
      ensures View() == KeepNewest(L.Load(file).streams, budget) && flushed == |ends|
      ensures Clean() <==> L.Load(file).unread == [] || Total(L.Load(file).streams) > budget
    {
      this.n, this.cap, this.budget, this.key, this.file := n, cap, budget, key, file;
      log, ends, index, flushed := [], [], map[], 0;
      new;
      hide L.Load;
      EmptyIndex([], [], n, cap, key);
      LoadFile();
    }

    method LoadFile()
      requires Sound() && View() == []
      modifies `log, `ends, `index, `flushed, `file
      ensures Valid() && View() == KeepNewest(L.Load(old(file)).streams, budget) && flushed == |ends|
      ensures Clean() <==> L.Load(old(file)).unread == [] || Total(L.Load(old(file)).streams) > budget
    {
      hide Indexed, L.Load, L.Int32, Layout, L.Encode, L.Storable;
      ghost var loaded := L.Load(file);
      LoadLoop();
      TotalIsLength();
      if |log| > budget {
        EvictOldest();
      } else {
        FitsStorable(log, ends);
        L.EncodeAfterLoad(file);
        assert View()[..flushed] == loaded.streams;
      }
    }

    method LoadLoop()
      requires Sound() && View() == []
      modifies `log, `ends, `index, `flushed
      ensures Sound() && View() == L.Load(file).streams && flushed == |ends|
    {
      hide Indexed, L.Int32, Layout, L.Load, L.ParseFrame;
      var rest := file;
      while true
        invariant Sound() && L.Load(file).streams == View() + L.Load(rest).streams
        decreases |rest|
      {
        L.LoadStep(rest);
        var frame := L.ParseFrame(rest);
        if frame.None? { break; }
        L.FrameBack(rest);
        FrameInt32(frame.value);
        Append(frame.value);
        rest := rest[4 + 4 * |frame.value|..];
      }
      flushed := |ends|;
    }

    static lemma FrameInt32(s: L.Stream)
      requires L.Storable(s)
      ensures AllInt32(s) && s != []
    {
    }

    /** Flushing and reopening is remembering: same streams, same log, same index. */
    lemma Reopened(other: CorpusIndex)
      requires Valid() && Clean() && flushed == |ends|
      requires other.Valid() && other.n == n && other.cap == cap && other.key == key && other.budget == budget
      requires other.View() == KeepNewest(L.Load(file).streams, budget)
      ensures other.View() == View() && other.log == log && other.ends == ends && other.index == index
    {
      hide Indexed, L.Storable, KeepNewest, Total, L.Encode, L.Load, Layout, Streams;
      assert View()[..flushed] == View();
      L.LoadRoundTrip(View());
      KeepStep(View(), budget);
      SameStreams(other.log, other.ends, log, ends);
      IndexIsUnique(other.index, index, log, ends, n, cap, key, |log|);
    }
  }
}
