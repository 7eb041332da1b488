/** Top-p sampling: the smallest probability-sorted prefix of sufficient mass,
    found by sorting only as many entries as it takes. */
module Nucleus {
  import opened Backend
  import opened Acceptance

  // ---- Orders -------------------------------------------------------------

  /** Every index below n, once. */
  ghost predicate Perm(order: seq<nat>, n: nat) {
    && |order| == n
    && (forall i :: 0 <= i < n ==> order[i] < n)
    && (forall i, j :: 0 <= i < j < n ==> order[i] != order[j])
    && (forall x: nat :: x < n ==> x in order)
  }

  /** No index of the first k has a smaller probability than one after them. */
  ghost predicate Split(probs: seq<real>, order: seq<nat>, k: nat)
    requires Perm(order, |probs|)
  {
    forall i, j :: 0 <= i < k <= j < |order| ==> probs[order[i]] >= probs[order[j]]
  }

  ghost predicate Descending(probs: seq<real>, order: seq<nat>, k: nat)
    requires Perm(order, |probs|) && k <= |probs|
  {
    forall i, j :: 0 <= i < j < k ==> probs[order[i]] >= probs[order[j]]
  }

  lemma SwapPerm(order: seq<nat>, i: nat, j: nat)
    requires Perm(order, |order|) && i < |order| && j < |order|
    ensures Perm(order[i := order[j]][j := order[i]], |order|)
  {
    var swapped := order[i := order[j]][j := order[i]];
    forall x: nat | x < |order|
      ensures x in swapped
    {
      assert x in order;
      var k :| 0 <= k < |order| && order[k] == x;
      assert x == swapped[if k == i then j else if k == j then i else k];
    }
  }

  /** Puts the largest entries of positions [..hi) first, for m positions. */
  method Select(probs: seq<real>, order0: seq<nat>, m: nat, hi: nat) returns (order: seq<nat>)
    requires Perm(order0, |probs|) && m <= hi <= |probs|
    ensures Perm(order, |probs|)
    ensures forall i, j :: 0 <= i < m && i < j < hi ==> probs[order[i]] >= probs[order[j]]
    ensures order[hi..] == order0[hi..]
    ensures forall i :: 0 <= i < hi ==> order[i] in order0[..hi]
  {
    order := order0;
    for i := 0 to m
      invariant Perm(order, |probs|)
      invariant forall a, b :: 0 <= a < i && a < b < hi ==> probs[order[a]] >= probs[order[b]]
      invariant order[hi..] == order0[hi..]
      invariant forall a :: 0 <= a < hi ==> order[a] in order0[..hi]
    {
      var best := i;
      for j := i to hi
        invariant i <= best < hi
        invariant forall b :: i <= b < j ==> probs[order[best]] >= probs[order[b]]
      {
        if probs[order[j]] > probs[order[best]] { best := j; }
      }
      SwapPerm(order, i, best);
      order := order[i := order[best]][best := order[i]];
    }
  }

  /** The standard library's partial selection: the k largest come first. */
  method NthElement(probs: seq<real>, order0: seq<nat>, k: nat) returns (order: seq<nat>)
    requires Perm(order0, |probs|) && k < |probs|
    ensures Perm(order, |probs|) && Split(probs, order, k)
  {
    order := Select(probs, order0, k, |probs|);
  }

  /** Sorting the first k, which stay the first k. */
  method SortPrefix(probs: seq<real>, order0: seq<nat>, k: nat) returns (order: seq<nat>)
    requires Perm(order0, |probs|) && k <= |probs|
    ensures Perm(order, |probs|) && Descending(probs, order, k)
    ensures Split(probs, order0, k) ==> Split(probs, order, k)
  {
    order := Select(probs, order0, k, k);
    if Split(probs, order0, k) {
      forall i, j | 0 <= i < k <= j < |order|
        ensures probs[order[i]] >= probs[order[j]]
      {
        assert order[j] == order[k..][j - k] == order0[j];
        var a :| 0 <= a < k && order0[..k][a] == order[i];
        assert order0[a] == order[i];
      }
    }
  }

  // ---- The nucleus --------------------------------------------------------

  /** Probability of the first m indices. */
  ghost function Mass(probs: seq<real>, order: seq<nat>, m: nat): real
    requires Perm(order, |probs|) && m <= |probs|
  {
    if m == 0 then 0.0 else Mass(probs, order, m - 1) + probs[order[m - 1]]
  }

  ghost predicate Positive(probs: seq<real>) { forall i :: 0 <= i < |probs| ==> probs[i] > 0.0 }

  lemma {:induction false} MassGrows(probs: seq<real>, order: seq<nat>, a: nat, b: nat)
    requires Perm(order, |probs|) && Positive(probs) && a <= b <= |probs|
    ensures Mass(probs, order, a) <= Mass(probs, order, b) && (a < b ==> Mass(probs, order, a) < Mass(probs, order, b))
    decreases b
  {
    if a == b {
    } else {
      MassGrows(probs, order, a, b - 1);
    }
  }

  /** The first `keep` indices are the nucleus: the most probable ones, enough of
      them, and not one more than needed. */
  ghost predicate IsNucleus(probs: seq<real>, topP: real, order: seq<nat>, keep: nat) {
    && Perm(order, |probs|) && 1 <= keep <= |probs|
    && Descending(probs, order, keep) && Split(probs, order, keep)
    && (Mass(probs, order, keep) >= topP || keep == |probs|)
    && (keep == 1 || Mass(probs, order, keep - 1) < topP)
  }

  ghost function Members(order: seq<nat>, m: nat): set<nat>
    requires m <= |order|
  {
    set i: nat | i < m :: order[i]
  }

  lemma {:induction false} CountMembers(order: seq<nat>, m: nat)
    requires m <= |order| && forall i, j :: 0 <= i < j < |order| ==> order[i] != order[j]
    ensures |Members(order, m)| == m
  {
    if m > 0 {
      CountMembers(order, m - 1);
      assert Members(order, m) == Members(order, m - 1) + {order[m - 1]};
      assert order[m - 1] !in Members(order, m - 1);
    } else {
      assert Members(order, 0) == {};
    }
  }

  lemma RankNotLarger(probs: seq<real>, o1: seq<nat>, k1: nat, o2: seq<nat>, k2: nat, i: nat)
    requires Perm(o1, |probs|) && Perm(o2, |probs|) && k1 <= |probs| && k2 <= |probs| && i < k1 && i < k2
    requires Descending(probs, o1, k1) && Split(probs, o1, k1)
    requires Descending(probs, o2, k2) && Split(probs, o2, k2)
    ensures probs[o1[i]] <= probs[o2[i]]
  {
    if probs[o1[i]] > probs[o2[i]] {
      forall x | x in Members(o1, i + 1)
        ensures x in Members(o2, i)
      {
        var m: nat :| m < i + 1 && o1[m] == x;
        assert probs[x] >= probs[o1[i]];
        assert x in o2;
        var j :| 0 <= j < |o2| && o2[j] == x;
        assert j < i;
      }
      CountMembers(o1, i + 1);
      CountMembers(o2, i);
      SubsetCount(Members(o1, i + 1), Members(o2, i));
    }
  }

  /** The i-th largest probability does not depend on how the order was found. */
  lemma RankIsUnique(probs: seq<real>, o1: seq<nat>, k1: nat, o2: seq<nat>, k2: nat, i: nat)
    requires Perm(o1, |probs|) && Perm(o2, |probs|) && k1 <= |probs| && k2 <= |probs| && i < k1 && i < k2
    requires Descending(probs, o1, k1) && Split(probs, o1, k1)
    requires Descending(probs, o2, k2) && Split(probs, o2, k2)
    ensures probs[o1[i]] == probs[o2[i]]
  {
    RankNotLarger(probs, o1, k1, o2, k2, i);
    RankNotLarger(probs, o2, k2, o1, k1, i);
  }

  lemma {:induction false} SameMass(probs: seq<real>, o1: seq<nat>, o2: seq<nat>, m: nat)
    requires Perm(o1, |probs|) && Perm(o2, |probs|) && m <= |probs|
    requires forall i :: 0 <= i < m ==> probs[o1[i]] == probs[o2[i]]
    ensures Mass(probs, o1, m) == Mass(probs, o2, m)
  {
    if m == 0 {
    } else {
      SameMass(probs, o1, o2, m - 1);
    }
  }

  lemma NotLonger(probs: seq<real>, topP: real, o1: seq<nat>, k1: nat, o2: seq<nat>, k2: nat)
    requires Positive(probs) && IsNucleus(probs, topP, o1, k1) && IsNucleus(probs, topP, o2, k2)
    ensures k2 <= k1
  {
    if k1 < k2 {
      forall i | 0 <= i < k1
        ensures probs[o1[i]] == probs[o2[i]]
      {
        RankIsUnique(probs, o1, k1, o2, k2, i);
      }
      SameMass(probs, o1, o2, k1);
      MassGrows(probs, o2, k1, k2 - 1);
    }
  }

  /** Any two ways of finding the nucleus keep equally many entries, with the
      same probabilities in the same order: in particular the widening selection
      and a full descending sort. */
  lemma NucleusIsUnique(probs: seq<real>, topP: real, o1: seq<nat>, k1: nat, o2: seq<nat>, k2: nat)
    requires Positive(probs) && IsNucleus(probs, topP, o1, k1) && IsNucleus(probs, topP, o2, k2)
    ensures k1 == k2 && forall i :: 0 <= i < k1 ==> probs[o1[i]] == probs[o2[i]]
  {
    NotLonger(probs, topP, o1, k1, o2, k2);
    NotLonger(probs, topP, o2, k2, o1, k1);
    forall i | 0 <= i < k1
      ensures probs[o1[i]] == probs[o2[i]]
    {
      RankIsUnique(probs, o1, k1, o2, k2, i);
    }
  }

  // ---- Sums under update --------------------------------------------------

  lemma {:induction false} SumUpdate(s: seq<real>, i: nat, v: real)
    requires i < |s|
    ensures Sum(s[i := v]) == Sum(s) - s[i] + v
    decreases |s|
  {
    var t, front := s[i := v], s[..|s| - 1];
    if i == |s| - 1 {
      assert t[..|s| - 1] == front;
    } else {
      SumUpdate(front, i, v);
      assert t[..|s| - 1] == front[i := v];
    }
  }

  /** Entries at positions [from..stop) of the order set to zero. */
  ghost predicate ZeroedFrom(before: seq<real>, after: seq<real>, order: seq<nat>, from: nat, stop: nat)
    requires Perm(order, |before|) && stop <= |before|
  {
    && |after| == |before|
    && (forall i :: 0 <= i < |before| && !(from <= i < stop) ==> after[order[i]] == before[order[i]])
    && (forall i :: from <= i < stop ==> after[order[i]] == 0.0)
  }

  lemma {:induction false} ZeroedSum(probs: seq<real>, order: seq<nat>, stop: nat) returns (q: seq<real>)
    requires Perm(order, |probs|) && stop <= |probs|
    ensures ZeroedFrom(probs, q, order, 0, stop) && Sum(q) == Sum(probs) - Mass(probs, order, stop)
  {
    if stop == 0 {
      q := probs;
    } else {
      var p := ZeroedSum(probs, order, stop - 1);
      SumUpdate(p, order[stop - 1], 0.0);
      q := p[order[stop - 1] := 0.0];
    }
  }

  /** Adding the entries in any order gives their sum. */
  lemma MassOfAll(probs: seq<real>, order: seq<nat>)
    requires Perm(order, |probs|)
    ensures Mass(probs, order, |probs|) == Sum(probs)
  {
    var q := ZeroedSum(probs, order, |probs|);
    forall x: nat | x < |q|
      ensures q[x] == 0.0
    {
      assert x in order;
      var i :| 0 <= i < |order| && order[i] == x;
    }
    SumZeros(q);
  }

  // ---- Finding it ---------------------------------------------------------

  /** The shortest prefix of the first k that reaches topP, or all k. */
  method Accumulate(probs: seq<real>, order: seq<nat>, k: nat, topP: real) returns (keep: nat, cumulative: real)
    requires Perm(order, |probs|) && 1 <= k <= |probs| && Positive(probs)
    ensures 1 <= keep <= k && cumulative == Mass(probs, order, keep)
    ensures keep == 1 || Mass(probs, order, keep - 1) < topP
    ensures cumulative >= topP || keep == k
  {
    keep, cumulative := 0, 0.0;
    while keep < k
      invariant 0 <= keep <= k && cumulative == Mass(probs, order, keep)
      invariant keep > 0 ==> cumulative < topP
    {
      cumulative := cumulative + probs[order[keep]];
      keep := keep + 1;
      if cumulative >= topP { break; }
    }
  }

  /** Selects 512 candidates, then four times as many, until they suffice. */
  method Widen(probs: seq<real>, topP: real) returns (order: seq<nat>, keep: nat, cumulative: real)
    requires probs != [] && Positive(probs)
    ensures IsNucleus(probs, topP, order, keep) && cumulative == Mass(probs, order, keep)
  {
    hide Mass;
    var n := |probs|;
    order := seq(n, i => i);
    IdentityPerm(order);
    var k := Min(512, n);
    while true
      invariant Perm(order, n) && 1 <= k <= n
      decreases n - k
    {
      if k < n { order := NthElement(probs, order, k); }
      order := SortPrefix(probs, order, k);
      keep, cumulative := Accumulate(probs, order, k, topP);
      if cumulative >= topP || k == n {
        Narrow(probs, order, k, keep);
        return;
      }
      k := Min(k * 4, n);
    }
  }

  lemma IdentityPerm(order: seq<nat>)
    requires forall i :: 0 <= i < |order| ==> order[i] == i
    ensures Perm(order, |order|)
  {
    forall x: nat | x < |order| ensures x in order { assert order[x] == x; }
  }

  lemma Narrow(probs: seq<real>, order: seq<nat>, k: nat, keep: nat)
    requires Perm(order, |probs|) && keep <= k <= |probs|
    requires Descending(probs, order, k) && Split(probs, order, k)
    ensures Descending(probs, order, keep) && Split(probs, order, keep)
  {
  }

  /** The kept entries, scaled to one; the others zero. */
  ghost predicate Renormalised(probs: seq<real>, r: seq<real>, order: seq<nat>, keep: nat)
    requires Perm(order, |probs|) && keep <= |probs| && Mass(probs, order, keep) != 0.0
  {
    && |r| == |probs|
    && (forall i :: 0 <= i < keep ==> r[order[i]] == probs[order[i]] / Mass(probs, order, keep))
    && (forall i :: keep <= i < |probs| ==> r[order[i]] == 0.0)
  }

  method ZeroTail(probs: seq<real>, order: seq<nat>, keep: nat) returns (q: seq<real>)
    requires Perm(order, |probs|) && keep <= |probs|
    ensures ZeroedFrom(probs, q, order, keep, |probs|) && Sum(q) == Mass(probs, order, keep)
  {
    hide Sum;
    MassOfAll(probs, order);
    q := probs;
    for i := keep to |probs|
      invariant ZeroedFrom(probs, q, order, keep, i)
      invariant Sum(q) == Mass(probs, order, keep) + (Mass(probs, order, |probs|) - Mass(probs, order, i))
    {
      SumUpdate(q, order[i], 0.0);
      q := q[order[i] := 0.0];
    }
  }

  lemma Shares(a: real, b: real, c: real)
    requires c != 0.0
    ensures (a + b) / c == a / c + b / c
  {
  }

  method Scale(probs: seq<real>, q: seq<real>, order: seq<nat>, keep: nat, cumulative: real) returns (r: seq<real>)
    requires Perm(order, |probs|) && keep <= |probs| && cumulative == Mass(probs, order, keep) > 0.0
    requires ZeroedFrom(probs, q, order, keep, |probs|) && Sum(q) == cumulative
    ensures Renormalised(probs, r, order, keep) && Sum(r) == 1.0
  {
    hide Sum, Mass;
    r := q;
    ghost var mass, share := 0.0, 0.0;
    MassStart(probs, order);
    for i := 0 to keep
      invariant |r| == |probs| && mass == Mass(probs, order, i) && share == mass / cumulative
      invariant forall j :: 0 <= j < i ==> r[order[j]] == probs[order[j]] / cumulative
      invariant forall j :: i <= j < |probs| ==> r[order[j]] == q[order[j]]
      invariant Sum(r) == cumulative - mass + share
    {
      ghost var p := probs[order[i]];
      SumUpdate(r, order[i], r[order[i]] / cumulative);
      Shares(mass, p, cumulative);
      MassStep(probs, order, i);
      r := r[order[i] := r[order[i]] / cumulative];
      mass, share := mass + p, share + p / cumulative;
    }
    Whole(cumulative);
  }

  lemma SharesOfMass(probs: seq<real>, r: seq<real>, order: seq<nat>, keep: nat)
    requires Perm(order, |probs|) && Positive(probs) && keep <= |probs| && Mass(probs, order, keep) > 0.0
    requires Renormalised(probs, r, order, keep)
    ensures forall x :: 0 <= x < |r| ==> r[x] >= 0.0
  {
    hide Mass;
    forall x: nat | x < |r|
      ensures r[x] >= 0.0
    {
      assert x in order;
      var i :| 0 <= i < |order| && order[i] == x;
      if i < keep { Share(probs[order[i]], Mass(probs, order, keep)); }
    }
  }

  lemma Whole(c: real)
    requires c != 0.0
    ensures c / c == 1.0
  {
  }

  lemma MassStart(probs: seq<real>, order: seq<nat>)
    requires Perm(order, |probs|)
    ensures Mass(probs, order, 0) == 0.0
  {
  }

  lemma MassStep(probs: seq<real>, order: seq<nat>, i: nat)
    requires Perm(order, |probs|) && i < |probs|
    ensures Mass(probs, order, i + 1) == Mass(probs, order, i) + probs[order[i]]
  {
  }

  /** Top-p: unchanged when the whole distribution is wanted, otherwise the
      renormalised nucleus. */
  method TopP(probs: seq<real>, topP0: real) returns (r: seq<real>, ghost order: seq<nat>, ghost keep: nat)
    requires probs != [] && Positive(probs) && Sum(probs) == 1.0
    ensures IsTopP(probs, topP0, r) && IsDistribution(r)
    ensures topP0 >= 1.0 ==> r == probs
    ensures topP0 < 1.0 ==>
      && IsNucleus(probs, if topP0 < 0.0 then 0.0 else topP0, order, keep)
      && Mass(probs, order, keep) > 0.0 && Renormalised(probs, r, order, keep)
  {
    hide Sum;
    order, keep := [], 0;
    var topP := if topP0 < 0.0 then 0.0 else if topP0 > 1.0 then 1.0 else topP0;
    if topP >= 1.0 { return probs, order, keep; }
    var o, k, cumulative := Widen(probs, topP);
    MassGrows(probs, o, 0, k);
    var q := ZeroTail(probs, o, k);
    r := Scale(probs, q, o, k, cumulative);
    SharesOfMass(probs, r, o, k);
    assert IsNucleus(probs, Clamped(topP0), o, k) && IsScaled(probs, r, o, k);
    order, keep := o, k;
  }

  // ---- What it computes ---------------------------------------------------

  function Clamped(topP: real): real { if topP < 0.0 then 0.0 else topP }

  /** The result of top-p shaping, however the nucleus was found. */
  ghost predicate IsTopP(probs: seq<real>, topP: real, r: seq<real>) {
    if topP >= 1.0 then r == probs
    else exists order, keep: nat :: IsNucleus(probs, Clamped(topP), order, keep) && IsScaled(probs, r, order, keep)
  }

  ghost predicate IsScaled(probs: seq<real>, r: seq<real>, order: seq<nat>, keep: nat) {
    && Perm(order, |probs|) && keep <= |probs| && Mass(probs, order, keep) > 0.0
    && Renormalised(probs, r, order, keep)
  }

  /** The largest k entries can be put in front, in descending order. */
  lemma {:induction false} SortedExists(probs: seq<real>, k: nat) returns (order: seq<nat>)
    requires k <= |probs|
    ensures Perm(order, |probs|) && Descending(probs, order, k) && Split(probs, order, k)
  {
    if k == 0 {
      order := seq(|probs|, i => i);
      IdentityPerm(order);
    } else {
      var before := SortedExists(probs, k - 1);
      var best := LargestFrom(probs, before, k - 1);
      SwapPerm(before, k - 1, best);
      order := before[k - 1 := before[best]][best := before[k - 1]];
    }
  }

  lemma {:induction false} LargestFrom(probs: seq<real>, order: seq<nat>, k: nat) returns (best: nat)
    requires Perm(order, |probs|) && k < |probs|
    ensures k <= best < |probs| && forall j :: k <= j < |probs| ==> probs[order[best]] >= probs[order[j]]
    decreases |probs| - k
  {
    best := k;
    if k + 1 == |probs| {
    } else {
      var later := LargestFrom(probs, order, k + 1);
      if probs[order[later]] > probs[order[k]] { best := later; }
    }
  }

  /** The shortest prefix that reaches topP, if m entries do. */
  lemma {:induction false} ShortestExists(probs: seq<real>, order: seq<nat>, topP: real, m: nat) returns (keep: nat)
    requires Perm(order, |probs|) && 1 <= m <= |probs| && (Mass(probs, order, m) >= topP || m == |probs|)
    ensures 1 <= keep <= m && (Mass(probs, order, keep) >= topP || keep == |probs|)
    ensures keep == 1 || Mass(probs, order, keep - 1) < topP
  {
    hide Mass;
    if m == 1 || Mass(probs, order, m - 1) < topP {
      keep := m;
    } else {
      keep := ShortestExists(probs, order, topP, m - 1);
    }
  }

  lemma NucleusExists(probs: seq<real>, topP: real) returns (order: seq<nat>, keep: nat)
    requires probs != []
    ensures IsNucleus(probs, topP, order, keep)
  {
    hide Mass;
    order := SortedExists(probs, |probs|);
    keep := ShortestExists(probs, order, topP, |probs|);
    Narrow(probs, order, |probs|, keep);
  }

  lemma ScaledExists(probs: seq<real>, order: seq<nat>, keep: nat) returns (r: seq<real>)
    requires Perm(order, |probs|) && 1 <= keep <= |probs| && Positive(probs)
    ensures IsScaled(probs, r, order, keep)
  {
    MassGrows(probs, order, 0, keep);
    MassStart(probs, order);
    hide Mass;
    var mass := Mass(probs, order, keep);
    r := seq(|probs|, x requires 0 <= x < |probs| => if x in order[..keep] then probs[x] / mass else 0.0);
    forall i | 0 <= i < |probs|
      ensures order[i] in order[..keep] <==> i < keep
    {
      if i < keep { assert order[..keep][i] == order[i]; }
    }
  }

  lemma TopPExists(probs: seq<real>, topP: real)
    requires probs != [] && Positive(probs)
    ensures exists r :: IsTopP(probs, topP, r)
  {
    if topP >= 1.0 {
      assert IsTopP(probs, topP, probs);
    } else {
      var order, keep := NucleusExists(probs, Clamped(topP));
      var r := ScaledExists(probs, order, keep);
      hide IsScaled;
      assert IsTopP(probs, topP, r);
    }
  }

  lemma {:induction false} SharesAddUp(probs: seq<real>, r: seq<real>, order: seq<nat>, keep: nat, m: nat)
    requires IsScaled(probs, r, order, keep) && m <= |probs|
    ensures Perm(order, |r|) && |r| == |probs|
    ensures Mass(r, order, m) == Mass(probs, order, Min(m, keep)) / Mass(probs, order, keep)
  {
    hide Mass;
    var mass := Mass(probs, order, keep);
    MassStart(probs, order);
    MassStart(r, order);
    if m == 0 {
      assert Min(m, keep) == 0;
      Whole(mass);
      assert 0.0 / mass == 0.0;
    } else {
      SharesAddUp(probs, r, order, keep, m - 1);
      MassStep(r, order, m - 1);
      if m <= keep {
        MassStep(probs, order, m - 1);
        Shares(Mass(probs, order, m - 1), probs[order[m - 1]], mass);
      }
    }
  }

  /** Top-p of a positive distribution is a distribution. */
  lemma TopPIsDistribution(probs: seq<real>, topP: real, r: seq<real>)
    requires probs != [] && Positive(probs) && Sum(probs) == 1.0 && IsTopP(probs, topP, r)
    ensures |r| == |probs| && IsDistribution(r)
  {
    hide Sum;
    if topP < 1.0 {
      var order, keep: nat :| IsNucleus(probs, Clamped(topP), order, keep) && IsScaled(probs, r, order, keep);
      SharesAddUp(probs, r, order, keep, |probs|);
      MassOfAll(r, order);
      Whole(Mass(probs, order, keep));
      SharesOfMass(probs, r, order, keep);
    }
  }
}
