/** Several attempts at one prompt, and the answer they agree on. */
module Conclave {
  import opened Backend

  // ---- Counting votes -----------------------------------------------------

  /** The first k candidates that conclude with x. */
  ghost function Carriers(numbers: seq<string>, x: string, k: nat): set<nat>
    requires k <= |numbers|
  {
    set i: nat | i < k && numbers[i] == x
  }

  ghost function Votes(numbers: seq<string>, x: string): nat { |Carriers(numbers, x, |numbers|)| }

  lemma CountOne(numbers: seq<string>, x: string, k: nat)
    requires k < |numbers|
    ensures |Carriers(numbers, x, k + 1)| == |Carriers(numbers, x, k)| + if numbers[k] == x then 1 else 0
  {
    var before := Carriers(numbers, x, k);
    if numbers[k] == x {
      assert Carriers(numbers, x, k + 1) == before + {k};
    } else {
      assert Carriers(numbers, x, k + 1) == before;
    }
  }

  /** Two different numbers cannot both hold a majority. */
  lemma {:induction false} DisjointVotes(numbers: seq<string>, x: string, y: string, k: nat)
    requires x != y && k <= |numbers|
    ensures |Carriers(numbers, x, k)| + |Carriers(numbers, y, k)| <= k
  {
    if k > 0 {
      DisjointVotes(numbers, x, y, k - 1);
      CountOne(numbers, x, k - 1);
      CountOne(numbers, y, k - 1);
    } else {
      assert Carriers(numbers, x, k) == {} && Carriers(numbers, y, k) == {};
    }
  }

  // ---- The election -------------------------------------------------------

  ghost predicate Numeric(numbers: seq<string>) {
    2 * Votes(numbers, "") <= |numbers|
  }

  /** Candidate i concludes with a number that somebody else concludes with. */
  ghost predicate Seconded(numbers: seq<string>, i: int) {
    0 <= i < |numbers| && numbers[i] != "" && Votes(numbers, numbers[i]) >= 2
  }

  /** r is the first candidate whose number has the most votes, at least two. */
  ghost predicate FirstOfMajority(numbers: seq<string>, r: nat) {
    && r < |numbers| && numbers[r] != "" && Votes(numbers, numbers[r]) >= 2
    && (forall j :: 0 <= j < |numbers| && numbers[j] != "" ==> Votes(numbers, numbers[j]) <= Votes(numbers, numbers[r]))
    && (forall j :: 0 <= j < r && numbers[j] != "" ==> Votes(numbers, numbers[j]) < Votes(numbers, numbers[r]))
  }

  method CountVotes(numbers: seq<string>, x: string) returns (votes: nat)
    ensures votes == Votes(numbers, x)
  {
    votes := 0;
    for j := 0 to |numbers|
      invariant votes == |Carriers(numbers, x, j)|
    {
      CountOne(numbers, x, j);
      if numbers[j] == x { votes := votes + 1; }
    }
  }

  /** How alike the candidate is to all others together. */
  function Score(candidates: seq<string>, similarity: (string, string) -> real, i: nat, j: nat): real
    requires i < |candidates| && j <= |candidates|
  {
    if j == 0 then 0.0
    else Score(candidates, similarity, i, j - 1)
         + if i == j - 1 then 0.0 else similarity(candidates[i], candidates[j - 1])
  }

  /** The medoid: the first candidate of greatest total similarity. */
  ghost predicate Medoid(candidates: seq<string>, similarity: (string, string) -> real, r: nat) {
    var n := |candidates|;
    && r < n
    && (forall j :: 0 <= j < n ==> Score(candidates, similarity, j, n) <= Score(candidates, similarity, r, n))
    && (forall j :: 0 <= j < r ==> Score(candidates, similarity, j, n) < Score(candidates, similarity, r, n))
  }

  method Elect(candidates: seq<string>, similarity: (string, string) -> real) returns (best: nat)
    requires forall a, b {:trigger similarity(a, b)} :: similarity(a, b) >= 0.0
    ensures |candidates| < 2 ==> best == 0
    ensures |candidates| >= 2 ==> Medoid(candidates, similarity, best)
  {
    best := 0;
    var n := |candidates|;
    if n < 2 { return; }
    var bestScore := -1.0;
    for i := 0 to n
      invariant best < n && (i == 0 ==> bestScore == -1.0)
      invariant i > 0 ==> best < i && bestScore == Score(candidates, similarity, best, n)
      invariant forall j :: 0 <= j < i ==> Score(candidates, similarity, j, n) <= bestScore
      invariant forall j :: 0 <= j < best && i > 0 ==> Score(candidates, similarity, j, n) < bestScore
    {
      var score := 0.0;
      for j := 0 to n
        invariant score == Score(candidates, similarity, i, j) && score >= 0.0
      {
        if i != j { score := score + similarity(candidates[i], candidates[j]); }
      }
      if score > bestScore { bestScore, best := score, i; }
    }
  }

  method ElectNumeric(candidates: seq<string>, similarity: (string, string) -> real)
    returns (r: nat)
    requires forall a, b {:trigger similarity(a, b)} :: similarity(a, b) >= 0.0
    ensures |candidates| < 2 ==> r == 0
    ensures |candidates| >= 2 ==>
      var numbers := Numbers(candidates);
      if Numeric(numbers) && exists i :: Seconded(numbers, i) then FirstOfMajority(numbers, r)
      else Medoid(candidates, similarity, r)
  {
    var n := |candidates|;
    if n < 2 { return 0; }
    var numbers := Numbers(candidates);
    var empty := CountVotes(numbers, "");
    if (n - empty) * 2 >= n {
      var best, bestVotes := MostVoted(numbers);
      if best < n {
        assert Seconded(numbers, best);
        return best;
      }
    }
    hide Votes;
    r := Elect(candidates, similarity);
  }

  function Numbers(candidates: seq<string>): (r: seq<string>)
    ensures |r| == |candidates| && forall i :: 0 <= i < |r| ==> r[i] == NumberOf(candidates[i])
  {
    seq(|candidates|, i requires 0 <= i < |candidates| => NumberOf(candidates[i]))
  }

  /** The first carrier of the most voted number, or |numbers| if no number has
      two votes. */
  method MostVoted(numbers: seq<string>) returns (best: nat, bestVotes: nat)
    ensures best <= |numbers|
    ensures best < |numbers| ==> FirstOfMajority(numbers, best)
    ensures best == |numbers| ==> forall i :: !Seconded(numbers, i)
  {
    hide Votes;
    best, bestVotes := |numbers|, 1;
    for i := 0 to |numbers|
      invariant best < i || (best == |numbers| && bestVotes == 1)
      invariant best < |numbers| ==>
        numbers[best] != "" && bestVotes == Votes(numbers, numbers[best]) && bestVotes >= 2
      invariant forall j :: 0 <= j < i && numbers[j] != "" ==> Votes(numbers, numbers[j]) <= bestVotes
      invariant best < |numbers| ==>
        forall j :: 0 <= j < best && numbers[j] != "" ==> Votes(numbers, numbers[j]) < bestVotes
    {
      if numbers[i] != "" {
        var votes := CountVotes(numbers, numbers[i]);
        if votes > bestVotes { bestVotes, best := votes, i; }
      }
    }
  }

  /** What the full election picks from these candidates. */
  ghost predicate Elected(numbers: seq<string>, r: nat) {
    Numeric(numbers) && (exists i :: Seconded(numbers, i)) ==> FirstOfMajority(numbers, r)
  }

  /** An absolute majority decides the election. */
  lemma MajorityWins(numbers: seq<string>, w: nat, r: nat)
    requires |numbers| >= 2 && w < |numbers| && numbers[w] != "" && 2 * Votes(numbers, numbers[w]) > |numbers|
    requires Elected(numbers, r)
    ensures r < |numbers| && numbers[r] == numbers[w]
  {
    DisjointVotes(numbers, numbers[w], "", |numbers|);
    assert Seconded(numbers, w);
    if numbers[r] != numbers[w] { DisjointVotes(numbers, numbers[r], numbers[w], |numbers|); }
  }

  // ---- Early consensus ----------------------------------------------------

  function Text(pieces: seq<string>): string
    decreases |pieces|
  {
    if pieces == [] then "" else Text(pieces[..|pieces| - 1]) + pieces[|pieces| - 1]
  }

  /** The pieces of an answer make it up in their order. */
  lemma {:induction false} TextConcat(a: seq<string>, b: seq<string>)
    ensures Text(a + b) == Text(a) + Text(b) && (|b| == 1 ==> Text(b) == b[0])
    decreases |b|
  {
    if b == [] {
      assert a + b == a && Text(a) + "" == Text(a);
    } else {
      var front, last := b[..|b| - 1], b[|b| - 1];
      TextConcat(a, front);
      assert (a + b)[..|a + b| - 1] == a + front;
      assert Text(a) + (Text(front) + last) == Text(a) + Text(front) + last;
      assert |b| == 1 ==> front == [] && Text(front) + last == last;
    }
  }

  function TallyOf(tally: map<string, nat>, x: string): nat { if x in tally then tally[x] else 0 }

  /** The voters among the attempts that conclude with x. */
  ghost function Supporters(numbers: seq<string>, voters: set<nat>, x: string): set<nat> {
    set i | i in voters && i < |numbers| && numbers[i] == x
  }

  /** The tally counts the voters, each of whom concludes with a number; a winner
      is declared exactly when a number first holds an absolute majority. */
  ghost predicate Counted(numbers: seq<string>, voters: set<nat>, tally: map<string, nat>, winner: Option<nat>) {
    && (forall i :: i in voters ==> i < |numbers| && numbers[i] != "")
    && (forall x :: TallyOf(tally, x) == |Supporters(numbers, voters, x)|)
    && (winner.Some? ==> winner.value in voters && 2 * TallyOf(tally, numbers[winner.value]) > |numbers|)
    && (winner.None? ==> forall x :: 2 * TallyOf(tally, x) <= |numbers|)
  }

  lemma CastVote(numbers: seq<string>, voters: set<nat>, tally: map<string, nat>, i: nat)
    requires Counted(numbers, voters, tally, None) && i < |numbers| && i !in voters && numbers[i] != ""
    ensures var x := numbers[i];
      var tally' := tally[x := TallyOf(tally, x) + 1];
      Counted(numbers, voters + {i}, tally', if 2 * tally'[x] > |numbers| then Some(i) else None)
  {
    hide Supporters;
    var x := numbers[i];
    var tally' := tally[x := TallyOf(tally, x) + 1];
    forall y
      ensures TallyOf(tally', y) == |Supporters(numbers, voters + {i}, y)|
      ensures y == x || 2 * TallyOf(tally', y) <= |numbers|
    {
      OneMore(numbers, voters, i, y);
      assert TallyOf(tally, y) == |Supporters(numbers, voters, y)|;
      assert 2 * TallyOf(tally, y) <= |numbers|;
    }
  }

  lemma OneMore(numbers: seq<string>, voters: set<nat>, i: nat, y: string)
    requires i < |numbers| && i !in voters
    ensures |Supporters(numbers, voters + {i}, y)|
            == |Supporters(numbers, voters, y)| + if y == numbers[i] then 1 else 0
  {
    var before := Supporters(numbers, voters, y);
    if y == numbers[i] {
      assert Supporters(numbers, voters + {i}, y) == before + {i};
    } else {
      assert Supporters(numbers, voters + {i}, y) == before;
    }
  }

  /** Early consensus is final: the winner's number is the one the full election
      would pick from all complete answers, however the stragglers end. */
  lemma EarlyIsFinal(numbers: seq<string>, voters: set<nat>, tally: map<string, nat>, w: nat, r: nat)
    requires |numbers| >= 2 && Counted(numbers, voters, tally, Some(w)) && Elected(numbers, r)
    ensures r < |numbers| && numbers[r] == numbers[w]
  {
    var x := numbers[w];
    assert TallyOf(tally, x) == |Supporters(numbers, voters, x)|;
    SubsetCount(Supporters(numbers, voters, x), Carriers(numbers, x, |numbers|));
    MajorityWins(numbers, w, r);
  }

  /** The attempts, in any interleaving: pieces arrive one by one, a callback
      that sees the stop flag cuts its attempt short, and a finished attempt
      deposits its vote under the lock. */
  class Ballot {
    const pieces: seq<seq<string>>       // each attempt's complete answer, as streamed
    ghost const numbers: seq<string>     // the final numbers of the complete answers
    var got: seq<nat>
    var cut: seq<bool>
    var finished: seq<bool>
    var outs: seq<string>
    var tally: map<string, nat>
    var stop: bool
    var winner: Option<nat>
    ghost var voters: set<nat>

    ghost predicate Valid()
      reads this
    {
      var n := |pieces|;
      && |got| == |cut| == |finished| == |outs| == |numbers| == n
      && (forall i :: 0 <= i < n ==> got[i] <= |pieces[i]| && (cut[i] ==> stop))
      && (forall i :: 0 <= i < n ==> numbers[i] == NumberOf(Text(pieces[i])))
      && (forall i :: i in voters ==> i < n && finished[i] && outs[i] == Text(pieces[i]))
      && Counted(numbers, voters, tally, winner)
      && (stop <==> winner.Some?)
    }

    constructor (pieces: seq<seq<string>>)
      ensures Valid() && this.pieces == pieces && winner == None && voters == {}
    {
      var n := |pieces|;
      this.pieces := pieces;
      numbers := seq(n, i requires 0 <= i < n => NumberOf(Text(pieces[i])));
      got, cut, finished, outs := seq(n, _ => 0), seq(n, _ => false), seq(n, _ => false), seq(n, _ => "");
      tally, stop, winner, voters := map[], false, None, {};
    }

    /** One more piece for attempt i, and the callback's answer to it. */
    method Deliver(i: nat) returns (goOn: bool)
      requires Valid() && i < |pieces| && !finished[i] && !cut[i] && got[i] < |pieces[i]|
      modifies `got, `cut
      ensures Valid() && goOn == !stop
      ensures got == old(got)[i := old(got)[i] + 1] && cut == old(cut)[i := !goOn]
    {
      got := got[i := got[i] + 1];
      goOn := !stop;
      cut := cut[i := !goOn];
    }

    /** Attempt i is over: complete, or cut short. Only a complete answer that
        arrives before the verdict votes, and at most one winner is declared. */
    method Finish(i: nat)
      requires Valid() && i < |pieces| && !finished[i] && (cut[i] || got[i] == |pieces[i]|)
      modifies this
      ensures Valid() && finished == old(finished)[i := true] && got == old(got) && cut == old(cut)
      ensures outs == old(outs)[i := Text(pieces[i][..old(got)[i]])]
      ensures old(winner).Some? ==> winner == old(winner) && voters == old(voters) && tally == old(tally)
      ensures old(winner).None? && numbers[i] != "" ==> voters == old(voters) + {i}
      ensures winner.Some? && old(winner).None? ==> winner == Some(i)
    {
      hide Counted, NumberOf, Text, Starts, Ends, Unsigned, Strip, IsMinus;
      assert i !in voters;
      var text := Text(pieces[i][..got[i]]);
      outs, finished := outs[i := text], finished[i := true];
      if stop { return; }
      assert pieces[i][..got[i]] == pieces[i];
      var num, start, end := FinalNumber(text);
      if num == "" { return; }
      CastVote(numbers, voters, tally, i);
      tally, voters := tally[num := TallyOf(tally, num) + 1], voters + {i};
      if tally[num] * 2 > |pieces| {
        winner, stop := Some(i), true;
      }
    }
  }

  // ---- The final number of a text -----------------------------------------

  predicate IsAlnum(c: char) { IsDigit(c) || 'a' <= c <= 'z' || 'A' <= c <= 'Z' }

  predicate DigitAt(text: string, i: int) { 0 <= i < |text| && IsDigit(text[i]) }

  predicate SignAt(text: string, i: int) {
    && 0 <= i < |text| && text[i] == '-' && DigitAt(text, i + 1)
    && (i == 0 || !IsAlnum(text[i - 1]))
  }

  predicate Digits(s: string) { s != "" && forall i :: 0 <= i < |s| ==> IsDigit(s[i]) }

  /** Digits, perhaps with one inner decimal point. */
  ghost predicate Unsigned(s: string) {
    Digits(s) || exists k :: 0 < k < |s| - 1 && s[k] == '.' && Digits(s[..k]) && Digits(s[k + 1..])
  }

  /** Unsigned, or a decimal point still waiting for its first digit. */
  ghost predicate Underway(s: string, seenDot: bool, dangling: bool) {
    if dangling then seenDot && |s| >= 2 && s[|s| - 1] == '.' && Digits(s[..|s| - 1])
    else s == "" || (if seenDot then Unsigned(s) else Digits(s))
  }

  lemma AddDigit(s: string, c: char, seenDot: bool, dangling: bool)
    requires Underway(s, seenDot, dangling) && IsDigit(c)
    ensures s + [c] != "" && Underway(s + [c], if s == "" then false else seenDot, false)
    ensures s == "" && seenDot ==> Underway(s + [c], true, false)
  {
    var t := s + [c];
    if dangling {
      var k := |s| - 1;
      assert t[..k] == s[..k] && t[k + 1..] == [c];
    } else if s == "" {
      assert t == [c];
    } else if seenDot && !Digits(s) {
      var k :| 0 < k < |s| - 1 && s[k] == '.' && Digits(s[..k]) && Digits(s[k + 1..]);
      assert t[..k] == s[..k] && t[k + 1..] == s[k + 1..] + [c];
    }
  }

  /** The number under way at i, and where it ends. */
  function Scan(text: string, i: nat, s: string, seenDot: bool): (r: (string, nat))
    requires i <= |text|
    ensures i <= r.1 <= |text| && (DigitAt(text, i) ==> i < r.1)
    decreases |text| - i
  {
    if i == |text| then (s, i)
    else if IsDigit(text[i]) then Scan(text, i + 1, s + [text[i]], seenDot)
    else if text[i] == ',' && DigitAt(text, i + 1) then Scan(text, i + 1, s, seenDot)
    else if text[i] == '.' && !seenDot && DigitAt(text, i + 1) then Scan(text, i + 1, s + [text[i]], true)
    else (s, i)
  }

  /** The last number from i on, `last` being the one before. */
  function LastNumber(text: string, i: nat, last: string): string
    requires i <= |text|
    decreases |text| - i
  {
    if i == |text| then last
    else if DigitAt(text, i) then
      var (s, next) := Scan(text, i, "", false);
      LastNumber(text, next, s)
    else if SignAt(text, i) then
      var (s, next) := Scan(text, i + 1, "", false);
      LastNumber(text, next, "-" + s)
    else LastNumber(text, i + 1, last)
  }

  function NumberOf(text: string): string { LastNumber(text, 0, "") }

  /** Without the thousands separators. */
  function Strip(s: string): string {
    if s == "" then ""
    else Strip(s[..|s| - 1]) + if s[|s| - 1] == ',' then "" else [s[|s| - 1]]
  }

  lemma StripStep(text: string, start: nat, i: nat)
    requires start <= i < |text|
    ensures Strip(text[start..i + 1]) == Strip(text[start..i]) + if text[i] == ',' then "" else [text[i]]
  {
    assert text[start..i + 1][..i - start] == text[start..i];
  }

  /** A decimal point, then only digits and separators up to e. */
  ghost predicate DotBefore(text: string, e: nat)
    requires e <= |text|
  {
    exists d :: 0 <= d < e && text[d] == '.' && forall j :: d < j < e ==> IsDigit(text[j]) || text[j] == ','
  }

  lemma DotKept(text: string, e: nat)
    requires e < |text| && DotBefore(text, e) && (IsDigit(text[e]) || text[e] == ',')
    ensures DotBefore(text, e + 1)
  {
  }

  /** What stands at e does not continue a number that ends there. */
  ghost predicate Ends(text: string, e: nat) {
    && e <= |text| && !DigitAt(text, e)
    && !(DigitAt(text, e + 1) && text[e] == ',')
    && (DigitAt(text, e + 1) && text[e] == '.' ==> DotBefore(text, e))
  }

  /** A number starts at this digit: it does not continue an earlier one. */
  ghost predicate Starts(text: string, i: nat) {
    && DigitAt(text, i) && !DigitAt(text, i - 1)
    && (i >= 2 && DigitAt(text, i - 2) ==> Ends(text, i - 1))
  }

  /** One number, starting at a digit: thousands separators are skipped, at most
      one decimal point is kept, and it goes on as long as it can. */
  method ScanNumber(text: string, start: nat) returns (s: string, i: nat)
    requires DigitAt(text, start)
    ensures start < i <= |text| && DigitAt(text, i - 1) && Ends(text, i)
    ensures s != "" && Unsigned(s) && s == Strip(text[start..i])
    ensures (s, i) == Scan(text, start, "", false)
  {
    s, i := "", start;
    var seenDot := false;
    ghost var dangling := false;
    ScannedNone(text, start);
    hide Scanned, Ends, Unsigned, Strip, Scan;
    while i < |text|
      invariant start <= i <= |text| && Scanned(text, start, i, s, seenDot, dangling)
    {
      var ch := text[i];
      ScannedNext(text, start, i, s, seenDot, dangling);
      if IsDigit(ch) {
        s, i, dangling := s + [ch], i + 1, false;
      } else if ch == ',' && DigitAt(text, i + 1) {
        i := i + 1;
      } else if ch == '.' && !seenDot && DigitAt(text, i + 1) {
        s, i, seenDot, dangling := s + ['.'], i + 1, true, true;
      } else {
        break;
      }
    }
    ScannedAll(text, start, i, s, seenDot, dangling);
  }

  /** The number under way at i. */
  ghost predicate Scanned(text: string, start: nat, i: nat, s: string, seenDot: bool, dangling: bool)
    requires start <= i <= |text|
  {
    && (i == start ==> s == "" && !seenDot && !dangling) && (i > start ==> s != "")
    && Underway(s, seenDot, dangling) && s == Strip(text[start..i]) && (seenDot ==> DotBefore(text, i))
    && Scan(text, start, "", false) == Scan(text, i, s, seenDot)
    && (dangling ==> DigitAt(text, i)) && (i == start || DigitAt(text, i - 1) || DigitAt(text, i))
  }

  lemma ScannedNone(text: string, start: nat)
    requires DigitAt(text, start)
    ensures Scanned(text, start, start, "", false, false)
  {
    assert Strip(text[start..start]) == "" && Underway("", false, false);
  }

  lemma ScannedNext(text: string, start: nat, i: nat, s: string, seenDot: bool, dangling: bool)
    requires DigitAt(text, start) && start <= i < |text| && Scanned(text, start, i, s, seenDot, dangling)
    ensures var ch := text[i];
      if IsDigit(ch) then Scanned(text, start, i + 1, s + [ch], seenDot, false)
      else if ch == ',' && DigitAt(text, i + 1) then Scanned(text, start, i + 1, s, seenDot, dangling)
      else if ch == '.' && !seenDot && DigitAt(text, i + 1) then Scanned(text, start, i + 1, s + ['.'], true, true)
      else true
  {
    hide DotBefore, Underway, Strip, Scan;
    var ch := text[i];
    StripStep(text, start, i);
    ScanStep(text, i, s, seenDot);
    if IsDigit(ch) {
      AddDigit(s, ch, seenDot, dangling);
      if seenDot { DotKept(text, i); }
    } else if ch == ',' && DigitAt(text, i + 1) {
      if seenDot { DotKept(text, i); }
    } else if ch == '.' && !seenDot && DigitAt(text, i + 1) {
      NewDot(text, i);
      AddDot(s);
    }
  }

  lemma ScannedAll(text: string, start: nat, i: nat, s: string, seenDot: bool, dangling: bool)
    requires DigitAt(text, start) && start <= i <= |text| && Scanned(text, start, i, s, seenDot, dangling)
    requires i < |text| ==>
      && !IsDigit(text[i]) && !(text[i] == ',' && DigitAt(text, i + 1))
      && !(text[i] == '.' && !seenDot && DigitAt(text, i + 1))
    ensures start < i && DigitAt(text, i - 1) && Ends(text, i)
    ensures s != "" && Unsigned(s) && s == Strip(text[start..i]) && (s, i) == Scan(text, start, "", false)
  {
    hide DotBefore, Underway, Strip, Scan, Unsigned;
    ScanStep(text, i, s, seenDot);
    Complete(s, seenDot);
  }

  lemma ScanStep(text: string, i: nat, s: string, seenDot: bool)
    requires i <= |text|
    ensures Scan(text, i, s, seenDot) ==
      if DigitAt(text, i) then Scan(text, i + 1, s + [text[i]], seenDot)
      else if DigitAt(text, i + 1) && text[i] == ',' then Scan(text, i + 1, s, seenDot)
      else if DigitAt(text, i + 1) && text[i] == '.' && !seenDot then Scan(text, i + 1, s + [text[i]], true)
      else (s, i)
  {
  }

  lemma AddDot(s: string)
    requires s != "" && Underway(s, false, false)
    ensures Underway(s + ['.'], true, true)
  {
    assert (s + ['.'])[..|s|] == s;
  }

  lemma Complete(s: string, seenDot: bool)
    requires s != "" && Underway(s, seenDot, false)
    ensures Unsigned(s)
  {
  }

  lemma NewDot(text: string, i: nat)
    requires i < |text| && text[i] == '.'
    ensures DotBefore(text, i + 1)
  {
  }

  /** The last number of the text, with its sign and without separators; nothing
      exactly when the text has no digit. */
  method FinalNumber(text: string) returns (last: string, ghost start: nat, ghost end: nat)
    ensures last == NumberOf(text)
    ensures last == "" <==> forall i :: !DigitAt(text, i)
    ensures last != "" ==>
      && start < end <= |text| && Starts(text, start) && Ends(text, end) && (forall j :: j >= end ==> !DigitAt(text, j))
      && Unsigned(Strip(text[start..end]))
      && last == (if SignAt(text, start - 1) then "-" else "") + Strip(text[start..end])
      && (last[0] == '-' <==> IsMinus(text, start - 1))
  {
    hide DotBefore, Unsigned, Strip, Scan, IsMinus;
    last, start, end := "", 0, 0;
    var i := 0;
    while i < |text|
      invariant 0 <= i <= |text| && end <= i && NumberOf(text) == LastNumber(text, i, last)
      invariant last == "" <==> forall j :: j < i ==> !DigitAt(text, j)
      invariant !SignAt(text, i - 1)
      invariant DigitAt(text, i - 1) ==> Ends(text, i)
      invariant i >= 2 && DigitAt(text, i - 2) && !DigitAt(text, i - 1) ==> Ends(text, i - 1)
      invariant last != "" ==>
        && start < end <= |text| && Starts(text, start) && Ends(text, end)
        && (forall j :: end <= j < i ==> !DigitAt(text, j))
        && Unsigned(Strip(text[start..end]))
        && last == (if SignAt(text, start - 1) then "-" else "") + Strip(text[start..end])
    {
      if !DigitAt(text, i) && !SignAt(text, i) {
        i := i + 1;
        continue;
      }
      var sign := !DigitAt(text, i);
      start := if sign then i + 1 else i;
      var cur, next := ScanNumber(text, if sign then i + 1 else i);
      assert SignAt(text, start - 1) == sign;
      assert DigitAt(text, start) && Starts(text, start);
      assert "" + cur == cur;
      last, i, end := (if sign then "-" else "") + cur, next, next;
    }
    if last != "" { SignIsMinus(text, start, Strip(text[start..end])); }
  }

  /** A hyphen not behind a letter or a digit. */
  predicate IsMinus(text: string, i: int) {
    && 0 <= i < |text| && text[i] == '-'
    && (i > 0 ==> var c := text[i - 1]; !('0' <= c <= '9') && !('a' <= c <= 'z') && !('A' <= c <= 'Z'))
  }

  lemma SignIsMinus(text: string, start: nat, s: string)
    requires DigitAt(text, start) && Unsigned(s)
    ensures SignAt(text, start - 1) <==> IsMinus(text, start - 1)
    ensures s != "" && s[0] != '-'
  {
    if !Digits(s) {
      var k :| 0 < k < |s| - 1 && s[k] == '.' && Digits(s[..k]) && Digits(s[k + 1..]);
      assert s[0] == s[..k][0];
    }
  }

  lemma {:induction false} ScanStops(text: string, p: nat, i: nat, s: string, seenDot: bool)
    requires i <= p < |text| && text[p] == '-'
    ensures Scan(text, i, s, seenDot).1 <= p
    decreases p - i
  {
    if i < p {
      var c := text[i];
      if IsDigit(c) || c == ',' || c == '.' {
        ScanStops(text, p, i + 1, s, seenDot);
        ScanStops(text, p, i + 1, s + [c], seenDot);
        ScanStops(text, p, i + 1, s + [c], true);
      }
    }
  }

  /** The search for numbers comes by every hyphen. */
  lemma {:induction false} ComesBy(text: string, p: nat, i: nat, last: string) returns (so: string)
    requires i <= p < |text| && text[p] == '-'
    ensures LastNumber(text, i, last) == LastNumber(text, p, so)
    decreases p - i
  {
    if i == p {
      so := last;
    } else if DigitAt(text, i) {
      ScanStops(text, p, i, "", false);
      var (s, next) := Scan(text, i, "", false);
      so := ComesBy(text, p, next, s);
    } else if SignAt(text, i) {
      ScanStops(text, p, i + 1, "", false);
      var (s, next) := Scan(text, i + 1, "", false);
      so := ComesBy(text, p, next, "-" + s);
    } else {
      so := ComesBy(text, p, i + 1, last);
    }
  }

  lemma {:induction false} ScanDigits(text: string, i: nat, k: nat, s: string, seenDot: bool)
    requires i <= k <= |text| && forall j :: i <= j < k ==> IsDigit(text[j])
    ensures Scan(text, i, s, seenDot) == Scan(text, k, s + text[i..k], seenDot)
    decreases k - i
  {
    if i == k {
      assert s + text[i..k] == s;
    } else {
      ScanDigits(text, i + 1, k, s + [text[i]], seenDot);
      assert s + [text[i]] + text[i + 1..k] == s + text[i..k];
    }
  }

  /** Behind a letter or a digit a hyphen is no minus; behind any other character,
      or at the very beginning, it is one: whatever stands before it. */
  lemma HyphenAndDigits(before: string, digits: string)
    requires digits != "" && forall i :: 0 <= i < |digits| ==> '0' <= digits[i] <= '9'
    ensures before == "" ==> NumberOf(before + "-" + digits) == "-" + digits
    ensures before != "" ==>
      var c := before[|before| - 1];
      NumberOf(before + "-" + digits) ==
        if '0' <= c <= '9' || 'a' <= c <= 'z' || 'A' <= c <= 'Z' then digits else "-" + digits
  {
    var text, p := before + "-" + digits, |before|;
    assert text[p + 1..|text|] == digits && "" + digits == digits;
    var so := ComesBy(text, p, 0, "");
    ScanDigits(text, p + 1, |text|, "", false);
    assert DigitAt(text, p + 1) && (p > 0 ==> text[p - 1] == before[p - 1]);
    assert LastNumber(text, |text|, digits) == digits && LastNumber(text, |text|, "-" + digits) == "-" + digits;
  }

  /** Separators between digits are dropped, one decimal point is kept, and a
      second one begins another number. */
  lemma SeparatorAndPoints(a: string, b: string, c: string)
    requires Digits(a) && Digits(b) && Digits(c)
    ensures NumberOf(a + "," + b + "." + c) == a + b + "." + c
    ensures NumberOf(a + "." + b + "." + c) == c
  {
    hide LastNumber;
    var text, i, k := a + "," + b + "." + c, |a|, |a| + 1 + |b|;
    ScanDigits(text, 0, i, "", false);
    ScanDigits(text, i + 1, k, a, false);
    ScanDigits(text, k + 1, |text|, a + b + ".", true);
    assert "" + text[0..i] == a && a + text[i + 1..k] == a + b && a + b + "." + text[k + 1..|text|] == a + b + "." + c;
    assert [text[k]] == "." && Scan(text, k, a + b, false) == Scan(text, k + 1, a + b + ".", true);
    assert DigitAt(text, i + 1) && Scan(text, i, a, false) == Scan(text, i + 1, a, false);
    WholeText(text, a + b + "." + c);
    PointTwice(a, b, c);
  }

  lemma PointTwice(a: string, b: string, c: string)
    requires Digits(a) && Digits(b) && Digits(c)
    ensures NumberOf(a + "." + b + "." + c) == c
  {
    hide LastNumber;
    var text, i, k := a + "." + b + "." + c, |a|, |a| + 1 + |b|;
    ScanDigits(text, 0, i, "", false);
    ScanDigits(text, i + 1, k, a + ".", true);
    ScanDigits(text, k + 1, |text|, "", false);
    assert "" + text[0..i] == a && a + "." + text[i + 1..k] == a + "." + b && "" + text[k + 1..|text|] == c;
    assert [text[i]] == "." && Scan(text, i, a, false) == Scan(text, i + 1, a + ".", true);
    assert Scan(text, k, a + "." + b, true) == (a + "." + b, k);
    ThenAnother(text, k, a + "." + b, c);
  }

  lemma WholeText(text: string, s: string)
    requires DigitAt(text, 0) && Scan(text, 0, "", false) == (s, |text|)
    ensures NumberOf(text) == s
  {
    assert LastNumber(text, |text|, s) == s;
  }

  lemma ThenAnother(text: string, k: nat, s: string, t: string)
    requires 0 < k < |text| && DigitAt(text, 0) && Scan(text, 0, "", false) == (s, k) && text[k] == '.'
    requires DigitAt(text, k + 1) && Scan(text, k + 1, "", false) == (t, |text|)
    ensures NumberOf(text) == t
  {
    assert NumberOf(text) == LastNumber(text, k, s) == LastNumber(text, k + 1, s);
    assert LastNumber(text, k + 1, s) == LastNumber(text, |text|, t) == t;
  }
}
