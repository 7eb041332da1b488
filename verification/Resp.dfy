/** The RESP2 request parser: TCP delivers arbitrary slices, commands come out
    whole and in order. */
module Resp {
  import opened Backend

  type Command = seq<string>

  const CRLF := "\r\n"
  const MAX_ELEMENTS := 1024
  const MAX_BULK := 64 * 1024 * 1024

  /** Parsing the front of a buffer: more bytes are needed, the bytes are
      malformed, or a value was read and `rest` follows it. */
  datatype Parsed<T> = Incomplete | Malformed | Done(value: T, rest: string)

  // ---- Lines and numbers --------------------------------------------------

  /** Everything before the first CRLF, and everything after it. */
  function SplitLine(s: string): (r: Option<(string, string)>)
    ensures r.Some? ==> |r.value.0| + 2 + |r.value.1| == |s| && s == r.value.0 + CRLF + r.value.1
    decreases |s|
  {
    if |s| < 2 then None
    else if s[0] == '\r' && s[1] == '\n' then Some(("", s[2..]))
    else
      var r := SplitLine(s[1..]);
      if r.None? then None else Some(([s[0]] + r.value.0, r.value.1))
  }

  predicate AllDigits(s: string) { forall i :: 0 <= i < |s| ==> IsDigit(s[i]) }

  function Value(digits: string): nat
    requires AllDigits(digits)
  {
    if digits == "" then 0
    else 10 * Value(digits[..|digits| - 1]) + (digits[|digits| - 1] as int - '0' as int)
  }

  /** The integer after a type marker, up to CRLF. */
  function ParseNumber(s: string): (r: Parsed<int>)
    ensures r.Done? ==> |r.rest| + 2 < |s|
  {
    var line := SplitLine(s);
    if line.None? then Incomplete
    else
      var (digits, rest) := line.value;
      if digits == "" then Malformed
      else
        var negative := digits[0] == '-';
        var body := if negative then digits[1..] else digits;
        if body == "" || !AllDigits(body) then Malformed
        else
          var v: int := Value(body);
          Done(if negative then -v else v, rest)
  }

  // ---- Commands -----------------------------------------------------------

  function ParseBulk(s: string): (r: Parsed<string>)
    ensures r.Done? ==> |r.rest| < |s|
  {
    if s == "" then Incomplete
    else if s[0] != '$' then Malformed
    else
      var num := ParseNumber(s[1..]);
      match num
      case Incomplete => Incomplete
      case Malformed => Malformed
      case Done(len, rest) =>
        if len < 0 || len > MAX_BULK then Malformed
        else if |rest| < len + 2 then Incomplete
        else if rest[len..len + 2] != CRLF then Malformed
        else Done(rest[..len], rest[len + 2..])
  }

  function ParseBulks(s: string, n: nat): (r: Parsed<Command>)
    ensures r.Done? ==> |r.rest| <= |s| && |r.value| == n
    decreases n
  {
    if n == 0 then Done([], s)
    else
      match ParseBulk(s)
      case Incomplete => Incomplete
      case Malformed => Malformed
      case Done(part, rest) =>
        match ParseBulks(rest, n - 1)
        case Incomplete => Incomplete
        case Malformed => Malformed
        case Done(parts, rest') => Done([part] + parts, rest')
  }

  /** The words of a line, `word` being the one under way. */
  function Words(line: string, word: string): Command
    decreases |line|
  {
    var ended := if word == "" then [] else [word];
    if line == "" then ended
    else if line[0] == ' ' then ended + Words(line[1..], "")
    else Words(line[1..], word + [line[0]])
  }

  /** One command off the front: multibulk after '*', inline otherwise. */
  function ParseOne(s: string): (r: Parsed<Command>)
    ensures r.Done? ==> |r.rest| < |s|
  {
    if s == "" then Incomplete
    else if s[0] != '*' then
      var line := SplitLine(s);
      if line.None? then Incomplete else Done(Words(line.value.0, ""), line.value.1)
    else
      match ParseNumber(s[1..])
      case Incomplete => Incomplete
      case Malformed => Malformed
      case Done(n, rest) =>
        if n < 0 || n > MAX_ELEMENTS then Malformed else ParseBulks(rest, n)
  }

  /** All whole commands of a buffer (empty ones dropped), what is left of it,
      and whether it turned out malformed. */
  datatype Drained = Drained(commands: seq<Command>, rest: string, malformed: bool)

  function Drain(s: string): Drained
    decreases |s|
  {
    match ParseOne(s)
    case Incomplete => Drained([], s, false)
    case Malformed => Drained([], s, true)
    case Done(cmd, rest) =>
      var d := Drain(rest);
      if cmd == [] then d else d.(commands := [cmd] + d.commands)
  }

  // ---- More bytes never change what was already decided -------------------

  lemma {:induction false} SplitLineExtends(s: string, more: string)
    requires SplitLine(s).Some?
    ensures SplitLine(s + more) == Some((SplitLine(s).value.0, SplitLine(s).value.1 + more))
    decreases |s|
  {
    if !(s[0] == '\r' && s[1] == '\n') {
      SplitLineExtends(s[1..], more);
      assert (s + more)[1..] == s[1..] + more;
    } else {
      assert (s + more)[2..] == s[2..] + more;
    }
  }

  ghost predicate Stable<T(!new)>(before: Parsed<T>, after: Parsed<T>, more: string) {
    && (before.Malformed? ==> after.Malformed?)
    && (before.Done? ==> after == Done(before.value, before.rest + more))
  }

  lemma NumberExtends(s: string, more: string)
    ensures Stable(ParseNumber(s), ParseNumber(s + more), more)
  {
    if SplitLine(s).Some? { SplitLineExtends(s, more); }
  }

  lemma BulkExtends(s: string, more: string)
    ensures Stable(ParseBulk(s), ParseBulk(s + more), more)
  {
    hide ParseNumber;
    if s != "" && s[0] == '$' {
      NumberExtends(s[1..], more);
      assert (s + more)[1..] == s[1..] + more;
      var num := ParseNumber(s[1..]);
      if num.Done? && 0 <= num.value <= MAX_BULK && |num.rest| >= num.value + 2 {
        var rest, len := num.rest, num.value;
        assert (rest + more)[len..len + 2] == rest[len..len + 2];
        assert (rest + more)[..len] == rest[..len];
        assert (rest + more)[len + 2..] == rest[len + 2..] + more;
      }
    }
  }

  lemma {:induction false} BulksExtend(s: string, n: nat, more: string)
    ensures Stable(ParseBulks(s, n), ParseBulks(s + more, n), more)
    decreases n
  {
    hide ParseBulk;
    if n == 0 {
    } else {
      BulkExtends(s, more);
      var bulk := ParseBulk(s);
      if bulk.Done? { BulksExtend(bulk.rest, n - 1, more); }
    }
  }

  lemma OneExtends(s: string, more: string)
    ensures Stable(ParseOne(s), ParseOne(s + more), more)
  {
    hide ParseBulks, ParseNumber;
    if s != "" {
      assert (s + more)[1..] == s[1..] + more;
      if s[0] != '*' {
        if SplitLine(s).Some? { SplitLineExtends(s, more); }
      } else {
        NumberExtends(s[1..], more);
        var num := ParseNumber(s[1..]);
        if num.Done? && 0 <= num.value <= MAX_ELEMENTS { BulksExtend(num.rest, num.value, more); }
      }
    }
  }

  /** Draining more bytes is draining the old ones first and then going on from
      what they left; an error stays where it was. */
  lemma {:induction false} DrainExtends(s: string, more: string)
    ensures var d, e := Drain(s), Drain(s + more);
      if d.malformed then e.malformed && e.commands == d.commands
      else
        var f := Drain(d.rest + more);
        e.commands == d.commands + f.commands && e.malformed == f.malformed && e.rest == f.rest
    decreases |s|
  {
    hide ParseOne;
    OneExtends(s, more);
    var one := ParseOne(s);
    if one.Done? { DrainExtends(one.rest, more); }
  }

  // ---- Chunking -----------------------------------------------------------

  function Concat(chunks: seq<string>): string
    decreases |chunks|
  {
    if chunks == [] then "" else chunks[0] + Concat(chunks[1..])
  }

  /** Feeding chunk after chunk to a parser holding `buf`, up to the first
      error. */
  function FeedAll(buf: string, chunks: seq<string>): Drained
    decreases |chunks|
  {
    if chunks == [] then Drained([], buf, false)
    else
      var d := Drain(buf + chunks[0]);
      if d.malformed then d
      else
        var rest := FeedAll(d.rest, chunks[1..]);
        rest.(commands := d.commands + rest.commands)
  }

  /** A buffer on which the parser has stopped for want of bytes. */
  predicate Starved(buf: string) { ParseOne(buf).Incomplete? }

  lemma {:induction false} DrainStarves(s: string)
    ensures !Drain(s).malformed ==> Starved(Drain(s).rest)
    decreases |s|
  {
    hide ParseOne;
    var one := ParseOne(s);
    if one.Done? { DrainStarves(one.rest); }
  }

  lemma StarvedDrain(s: string)
    requires Starved(s)
    ensures Drain(s) == Drained([], s, false)
  {
  }

  /** Chunking independence: however the bytes are cut, the same commands come
      out in the same order, the same bytes are left over, and an error is an
      error. */
  lemma {:induction false} ChunkingIndependence(buf: string, chunks: seq<string>)
    requires Starved(buf)
    ensures var whole, cut := Drain(buf + Concat(chunks)), FeedAll(buf, chunks);
      && cut.malformed == whole.malformed
      && cut.commands == whole.commands
      && (!whole.malformed ==> cut.rest == whole.rest)
    decreases |chunks|
  {
    hide ParseOne, Drain, Starved;
    if chunks == [] {
      assert buf + Concat(chunks) == buf;
      StarvedDrain(buf);
    } else {
      var first, others := buf + chunks[0], Concat(chunks[1..]);
      assert buf + Concat(chunks) == first + others;
      DrainExtends(first, others);
      DrainStarves(first);
      var d := Drain(first);
      if !d.malformed { ChunkingIndependence(d.rest, chunks[1..]); }
    }
  }

  // ---- Encoding and round trip --------------------------------------------

  function Digit(d: nat): (c: char)
    requires d < 10
    ensures IsDigit(c) && c as int == d + '0' as int
  {
    (d + '0' as int) as char
  }

  function Decimal(n: nat): (s: string)
    ensures s != "" && AllDigits(s)
  {
    if n < 10 then [Digit(n)] else Decimal(n / 10) + [Digit(n % 10)]
  }

  lemma {:induction false} DecimalValue(n: nat)
    ensures Value(Decimal(n)) == n
  {
    var s := Decimal(n);
    if n >= 10 {
      DecimalValue(n / 10);
      assert s[..|s| - 1] == Decimal(n / 10);
    } else {
      assert s[..|s| - 1] == "";
    }
  }

  function Bulk(s: string): string { "$" + Decimal(|s|) + CRLF + s + CRLF }

  function Bulks(parts: Command): string
    decreases |parts|
  {
    if parts == [] then "" else Bulk(parts[0]) + Bulks(parts[1..])
  }

  function Multibulk(cmd: Command): string { "*" + Decimal(|cmd|) + CRLF + Bulks(cmd) }

  function EncodeAll(cmds: seq<Command>): string
    decreases |cmds|
  {
    if cmds == [] then "" else Multibulk(cmds[0]) + EncodeAll(cmds[1..])
  }

  predicate Sendable(cmd: Command) {
    1 <= |cmd| <= MAX_ELEMENTS && forall i :: 0 <= i < |cmd| ==> |cmd[i]| <= MAX_BULK
  }

  lemma {:induction false} LineOf(digits: string, rest: string)
    requires AllDigits(digits)
    ensures SplitLine(digits + CRLF + rest) == Some((digits, rest))
    decreases |digits|
  {
    var s := digits + CRLF + rest;
    if digits == "" {
      assert s == CRLF + rest && s[2..] == rest;
    } else {
      assert s[1..] == digits[1..] + CRLF + rest;
      LineOf(digits[1..], rest);
      assert IsDigit(s[0]) && [digits[0]] + digits[1..] == digits;
    }
  }

  lemma NumberOf(n: nat, rest: string)
    ensures ParseNumber(Decimal(n) + CRLF + rest) == Done(n, rest)
  {
    LineOf(Decimal(n), rest);
    DecimalValue(n);
    assert IsDigit(Decimal(n)[0]);
  }

  lemma BulkOf(part: string, rest: string)
    requires |part| <= MAX_BULK
    ensures ParseBulk(Bulk(part) + rest) == Done(part, rest)
  {
    hide ParseNumber, Decimal;
    var s, tail := Bulk(part) + rest, part + CRLF + rest;
    assert s[0] == '$' && s[1..] == Decimal(|part|) + CRLF + tail;
    NumberOf(|part|, tail);
    assert tail[|part|..|part| + 2] == CRLF && tail[..|part|] == part && tail[|part| + 2..] == rest;
  }

  lemma {:induction false} BulksOf(parts: Command, rest: string)
    requires forall i :: 0 <= i < |parts| ==> |parts[i]| <= MAX_BULK
    ensures ParseBulks(Bulks(parts) + rest, |parts|) == Done(parts, rest)
    decreases |parts|
  {
    hide ParseBulk, Bulk;
    if parts == [] {
      assert Bulks(parts) + rest == rest;
      assert ParseBulks(rest, 0) == Done([], rest);
    } else {
      var tail := Bulks(parts[1..]) + rest;
      assert Bulks(parts) + rest == Bulk(parts[0]) + tail;
      BulkOf(parts[0], tail);
      BulksOf(parts[1..], rest);
      assert [parts[0]] + parts[1..] == parts;
    }
  }

  lemma CommandOf(cmd: Command, rest: string)
    requires Sendable(cmd)
    ensures ParseOne(Multibulk(cmd) + rest) == Done(cmd, rest)
  {
    hide ParseNumber, Decimal, Bulks, ParseBulks;
    var s, tail := Multibulk(cmd) + rest, Bulks(cmd) + rest;
    assert s[0] == '*' && s[1..] == Decimal(|cmd|) + CRLF + tail;
    NumberOf(|cmd|, tail);
    BulksOf(cmd, rest);
  }

  /** Round trip: any non-empty commands within the limits, whatever bytes their
      parts hold, come back as they were sent, and nothing is left. */
  lemma {:induction false} RoundTrip(cmds: seq<Command>)
    requires forall i :: 0 <= i < |cmds| ==> Sendable(cmds[i])
    ensures Drain(EncodeAll(cmds)) == Drained(cmds, "", false)
    decreases |cmds|
  {
    hide ParseOne, Multibulk;
    if cmds != [] {
      CommandOf(cmds[0], EncodeAll(cmds[1..]));
      RoundTrip(cmds[1..]);
      assert [cmds[0]] + cmds[1..] == cmds;
    } else {
      StarvedEmpty();
    }
  }

  lemma StarvedEmpty()
    ensures Starved("")
  {
  }

  /** A count is refused, as soon as its line is there, exactly from 1025 on. */
  lemma CountLimit(n: nat)
    ensures ParseOne("*" + Decimal(n) + CRLF).Malformed? <==> n > 1024
  {
    hide ParseNumber, Decimal;
    var s := "*" + Decimal(n) + CRLF;
    assert s[0] == '*' && s[1..] == Decimal(n) + CRLF + "";
    NumberOf(n, "");
  }

  /** And a length exactly from one byte over 64 MB on. */
  lemma LengthLimit(n: nat)
    ensures ParseBulk("$" + Decimal(n) + CRLF).Malformed? <==> n > 67108864
  {
    hide ParseNumber, Decimal;
    var s := "$" + Decimal(n) + CRLF;
    assert s[0] == '$' && s[1..] == Decimal(n) + CRLF + "";
    NumberOf(n, "");
  }

  /** Negative counts are refused, but minus zero is a count like zero. */
  lemma NegativeCount(n: nat, rest: string)
    ensures ParseOne("*-" + Decimal(n) + CRLF + rest) == if n == 0 then Done([], rest) else Malformed
  {
    hide Decimal, Value;
    var s, line := "*-" + Decimal(n) + CRLF + rest, "-" + Decimal(n);
    assert s[0] == '*' && s[1..] == line + CRLF + rest;
    assert forall i :: 0 < i < |line| ==> line[i] == Decimal(n)[i - 1];
    LineUpTo(line, rest);
    DecimalValue(n);
    assert line[1..] == Decimal(n);
  }

  // ---- Inline commands ----------------------------------------------------

  ghost predicate IsWord(w: string) { w != "" && ' ' !in w }

  ghost predicate AllWords(words: Command) { forall i :: 0 <= i < |words| ==> IsWord(words[i]) }

  function Spaces(n: nat): (s: string)
    ensures |s| == n && forall i :: 0 <= i < n ==> s[i] == ' '
  {
    seq(n, _ => ' ')
  }

  /** Numbers of spaces before, between and after the words: between two words
      there is at least one. */
  ghost predicate Gaps(words: Command, gaps: seq<nat>) {
    |gaps| == |words| + 1 && forall i :: 0 < i < |words| ==> gaps[i] > 0
  }

  /** The words written with these gaps. */
  function Spaced(words: Command, gaps: seq<nat>): string
    requires |gaps| == |words| + 1
    decreases |words|
  {
    if words == [] then Spaces(gaps[0]) else Spaces(gaps[0]) + words[0] + Spaced(words[1..], gaps[1..])
  }

  lemma {:induction false} SkipSpaces(n: nat, rest: string)
    ensures Words(Spaces(n) + rest, "") == Words(rest, "")
  {
    if n == 0 {
      assert Spaces(n) + rest == rest;
    } else {
      SkipSpaces(n - 1, rest);
      assert (Spaces(n) + rest)[1..] == Spaces(n - 1) + rest;
      assert [] + Words(rest, "") == Words(rest, "");
    }
  }

  lemma {:induction false} TakeWord(word: string, w: string, rest: string)
    requires ' ' !in w
    ensures Words(w + rest, word) == Words(rest, word + w)
    decreases |w|
  {
    if w == "" {
      assert w + rest == rest && word + w == word;
    } else {
      TakeWord(word + [w[0]], w[1..], rest);
      assert (w + rest)[1..] == w[1..] + rest && word + [w[0]] + w[1..] == word + w;
    }
  }

  /** However words are spaced out, they are the words of the line. */
  lemma {:induction false} WordsOfSpaced(words: Command, gaps: seq<nat>)
    requires Gaps(words, gaps) && AllWords(words)
    ensures Words(Spaced(words, gaps), "") == words
    decreases |words|
  {
    if words == [] {
      SkipSpaces(gaps[0], "");
      assert Spaces(gaps[0]) + "" == Spaces(gaps[0]);
    } else {
      var w, others, rest := words[0], words[1..], Spaced(words[1..], gaps[1..]);
      WordsOfSpaced(others, gaps[1..]);
      SkipSpaces(gaps[0], w + rest);
      assert Spaces(gaps[0]) + w + rest == Spaces(gaps[0]) + (w + rest);
      TakeWord("", w, rest);
      assert "" + w == w && [w] + others == words && gaps[1..][0] == gaps[1];
      WordEnds(w, others, gaps[1..]);
    }
  }

  /** A word ends where the next gap begins. */
  lemma WordEnds(w: string, words: Command, gaps: seq<nat>)
    requires |gaps| == |words| + 1 && (words != [] ==> gaps[0] > 0) && w != ""
    ensures Words(Spaced(words, gaps), w) == [w] + Words(Spaced(words, gaps), "")
  {
    var rest := Spaced(words, gaps);
    if rest != "" { assert rest[0] == Spaces(gaps[0])[0] == ' '; }
    assert [] + Words(rest[if rest == "" then 0 else 1..], "") == Words(rest[if rest == "" then 0 else 1..], "");
  }

  /** These are words, and the text is written with them and these gaps. */
  ghost predicate IsSpaced(text: string, words: Command, gaps: seq<nat>) {
    AllWords(words) && Gaps(words, gaps) && text == Spaced(words, gaps)
  }

  /** Every line is its words, spaced out. */
  lemma WordsOfLine(line: string) returns (gaps: seq<nat>)
    ensures IsSpaced(line, Words(line, ""), gaps)
  {
    gaps := SpacedFrom(line, "");
    assert "" + line == line;
  }

  lemma {:induction false} SpacedFrom(line: string, word: string) returns (gaps: seq<nat>)
    requires ' ' !in word
    ensures IsSpaced(word + line, Words(line, word), gaps) && (word != "" ==> gaps[0] == 0)
    decreases |line|
  {
    if line == "" {
      gaps := if word == "" then [0] else [0, 0];
      assert word + line == word + "" && Spaces(0) == "" && Spaced([], [0]) == "";
    } else if line[0] == ' ' {
      var others := SpacedFrom(line[1..], "");
      var words := Words(line[1..], "");
      assert "" + line[1..] == line[1..] && [] + words == words;
      OneMoreSpace(line, words, others);
      gaps := [others[0] + 1] + others[1..];
      if word == "" {
        assert word + line == line;
      } else {
        OneMoreWord(line, word, words, gaps);
        gaps := [0] + gaps;
      }
    } else {
      gaps := SpacedFrom(line[1..], word + [line[0]]);
      assert word + [line[0]] + line[1..] == word + line;
    }
  }

  lemma OneMoreSpace(line: string, words: Command, gaps: seq<nat>)
    requires line != "" && line[0] == ' ' && IsSpaced(line[1..], words, gaps)
    ensures IsSpaced(line, words, [gaps[0] + 1] + gaps[1..])
  {
    var wider: seq<nat> := [gaps[0] + 1] + gaps[1..];
    assert Spaces(gaps[0] + 1) == " " + Spaces(gaps[0]) && wider[1..] == gaps[1..];
    assert line == " " + line[1..];
    if words != [] {
      var rest := Spaced(words[1..], gaps[1..]);
      assert " " + (Spaces(gaps[0]) + words[0] + rest) == " " + Spaces(gaps[0]) + words[0] + rest;
    }
  }

  lemma OneMoreWord(line: string, word: string, words: Command, gaps: seq<nat>)
    requires IsWord(word) && IsSpaced(line, words, gaps) && gaps[0] > 0
    ensures IsSpaced(word + line, [word] + words, [0] + gaps)
  {
    var zero: seq<nat> := [0];
    assert ([word] + words)[1..] == words && (zero + gaps)[1..] == gaps && Spaces(0) + word == word;
  }

  /** No line end inside. */
  ghost predicate Unbroken(s: string) { forall i :: 0 <= i < |s| - 1 ==> !(s[i] == '\r' && s[i + 1] == '\n') }

  lemma {:induction false} LineUpTo(line: string, rest: string)
    requires Unbroken(line)
    ensures SplitLine(line + CRLF + rest) == Some((line, rest))
    decreases |line|
  {
    var s := line + CRLF + rest;
    if line == "" {
      assert s == CRLF + rest && s[2..] == rest;
    } else {
      assert s[1..] == line[1..] + CRLF + rest;
      LineUpTo(line[1..], rest);
      assert [line[0]] + line[1..] == line;
    }
  }

  lemma {:induction false} SpacedUnbroken(words: Command, gaps: seq<nat>)
    requires Gaps(words, gaps) && forall i :: 0 <= i < |words| ==> IsWord(words[i]) && Unbroken(words[i])
    ensures Unbroken(Spaced(words, gaps))
    decreases |words|
  {
    if words == [] {
    } else {
      var rest := Spaced(words[1..], gaps[1..]);
      SpacedUnbroken(words[1..], gaps[1..]);
      if rest != "" { assert rest[0] == Spaces(gaps[1])[0] == ' '; }
      BothUnbroken(words[0], rest);
      BothUnbroken(Spaces(gaps[0]), words[0] + rest);
      assert Spaces(gaps[0]) + words[0] + rest == Spaces(gaps[0]) + (words[0] + rest);
    }
  }

  lemma BothUnbroken(a: string, b: string)
    requires Unbroken(a) && Unbroken(b) && (a != "" && b != "" ==> a[|a| - 1] == ' ' || b[0] == ' ')
    ensures Unbroken(a + b)
  {
  }

  /** A command that can be written inline with these gaps. */
  ghost predicate Writable(words: Command, gaps: seq<nat>) {
    && Gaps(words, gaps) && (forall i :: 0 <= i < |words| ==> IsWord(words[i]) && Unbroken(words[i]))
    && (words != [] && gaps[0] == 0 ==> words[0] != "" && words[0][0] != '*')
  }

  /** Inline round trip: the words come back whatever the spacing, and what
      follows the line is left. */
  lemma InlineOf(words: Command, gaps: seq<nat>, rest: string)
    requires Writable(words, gaps)
    ensures ParseOne(Spaced(words, gaps) + CRLF + rest) == Done(words, rest)
  {
    hide SplitLine, Words;
    var line := Spaced(words, gaps);
    WordsOfSpaced(words, gaps);
    SpacedUnbroken(words, gaps);
    LineUpTo(line, rest);
    var s := line + CRLF + rest;
    assert s[0] == if line == "" then '\r' else line[0];
    if gaps[0] > 0 { assert line[0] == Spaces(gaps[0])[0]; }
  }

  ghost predicate AllWritable(cmds: seq<Command>, gaps: seq<seq<nat>>) {
    |gaps| == |cmds| && forall i :: 0 <= i < |cmds| ==> cmds[i] != [] && Writable(cmds[i], gaps[i])
  }

  /** Lines one after the other. */
  ghost function Lines(cmds: seq<Command>, gaps: seq<seq<nat>>): string
    requires AllWritable(cmds, gaps)
    decreases |cmds|
  {
    if cmds == [] then "" else Spaced(cmds[0], gaps[0]) + CRLF + Lines(cmds[1..], gaps[1..])
  }

  /** Any inline commands come back as they were written, whatever the spacing. */
  lemma {:induction false} InlineRoundTrip(cmds: seq<Command>, gaps: seq<seq<nat>>)
    requires AllWritable(cmds, gaps)
    ensures Drain(Lines(cmds, gaps)) == Drained(cmds, "", false)
    decreases |cmds|
  {
    hide ParseOne;
    if cmds != [] {
      InlineOf(cmds[0], gaps[0], Lines(cmds[1..], gaps[1..]));
      InlineRoundTrip(cmds[1..], gaps[1..]);
      assert [cmds[0]] + cmds[1..] == cmds;
    } else {
      StarvedEmpty();
    }
  }

  // ---- The parser object --------------------------------------------------

  /** The first CRLF at or after pos. */
  method FindCrlf(buf: string, pos: nat) returns (at: Option<nat>)
    requires pos <= |buf|
    ensures match at
      case None => SplitLine(buf[pos..]) == None
      case Some(i) => pos <= i && i + 2 <= |buf| && SplitLine(buf[pos..]) == Some((buf[pos..i], buf[i + 2..]))
  {
    hide SplitLine, LineFrom;
    var i := pos;
    LineStart(buf, pos);
    while i + 2 <= |buf|
      invariant pos <= i <= |buf| && LineFrom(buf, pos, i)
      decreases |buf| - i
    {
      if buf[i] == '\r' && buf[i + 1] == '\n' {
        LineFound(buf, pos, i);
        return Some(i);
      }
      LineNext(buf, pos, i);
      i := i + 1;
    }
    LineOpen(buf, pos, i);
    return None;
  }

  /** The line at pos ends where the one at i does. */
  ghost predicate LineFrom(buf: string, pos: nat, i: nat)
    requires pos <= i <= |buf|
  {
    match SplitLine(buf[i..])
    case None => SplitLine(buf[pos..]) == None
    case Some(line) => SplitLine(buf[pos..]) == Some((buf[pos..i] + line.0, line.1))
  }

  lemma LineStart(buf: string, pos: nat)
    requires pos <= |buf|
    ensures LineFrom(buf, pos, pos)
  {
    hide SplitLine;
    var line := SplitLine(buf[pos..]);
    if line.Some? { assert buf[pos..pos] + line.value.0 == line.value.0; }
  }

  lemma LineFound(buf: string, pos: nat, i: nat)
    requires pos <= i && i + 2 <= |buf| && buf[i] == '\r' && buf[i + 1] == '\n' && LineFrom(buf, pos, i)
    ensures SplitLine(buf[pos..]) == Some((buf[pos..i], buf[i + 2..]))
  {
    assert SplitLine(buf[i..]) == Some(("", buf[i + 2..]));
    assert buf[pos..i] + "" == buf[pos..i];
  }

  lemma LineNext(buf: string, pos: nat, i: nat)
    requires pos <= i && i + 2 <= |buf| && !(buf[i] == '\r' && buf[i + 1] == '\n') && LineFrom(buf, pos, i)
    ensures LineFrom(buf, pos, i + 1)
  {
    var s := buf[i..];
    assert s[1..] == buf[i + 1..];
    var line := SplitLine(s[1..]);
    assert SplitLine(s) == if line.None? then None else Some(([s[0]] + line.value.0, line.value.1));
    hide SplitLine;
    if line.Some? {
      assert buf[pos..i] + ([buf[i]] + line.value.0) == buf[pos..i + 1] + line.value.0;
    }
  }

  lemma LineOpen(buf: string, pos: nat, i: nat)
    requires pos <= i <= |buf| < i + 2 && LineFrom(buf, pos, i)
    ensures SplitLine(buf[pos..]) == None
  {
  }

  /** A position instead of a rest. */
  datatype Found<T> = More | Bad | Got(value: T, pos: nat)

  ghost predicate Agrees<T(!new)>(found: Found<T>, parsed: Parsed<T>, buf: string) {
    match found
    case More => parsed.Incomplete?
    case Bad => parsed.Malformed?
    case Got(value, pos) => pos <= |buf| && parsed == Done(value, buf[pos..])
  }

  method ParseDigits(body: string) returns (r: Option<nat>)
    ensures r == if AllDigits(body) then Some(Value(body)) else None
  {
    var out := 0;
    for i := 0 to |body|
      invariant AllDigits(body[..i]) && out == Value(body[..i])
    {
      if !IsDigit(body[i]) { return None; }
      assert body[..i + 1][..i] == body[..i];
      out := 10 * out + (body[i] as int - '0' as int);
    }
    assert body[..|body|] == body;
    return Some(out);
  }

  method ParseNumberLine(buf: string, pos: nat) returns (r: Found<int>)
    requires pos <= |buf|
    ensures Agrees(r, ParseNumber(buf[pos..]), buf)
  {
    hide SplitLine, Value, AllDigits;
    var crlf := FindCrlf(buf, pos);
    if crlf.None? { return More; }
    var digits := buf[pos..crlf.value];
    if digits == "" { return Bad; }
    var negative := digits[0] == '-';
    var body := if negative then digits[1..] else digits;
    if body == "" { return Bad; }
    var value := ParseDigits(body);
    if value.None? { return Bad; }
    var v: int := value.value;
    return Got(if negative then -v else v, crlf.value + 2);
  }

  method ParseBulkAt(buf: string, pos0: nat) returns (r: Found<string>)
    requires pos0 <= |buf|
    ensures Agrees(r, ParseBulk(buf[pos0..]), buf)
  {
    hide ParseNumber;
    if pos0 == |buf| { return More; }
    if buf[pos0] != '$' { return Bad; }
    assert buf[pos0..][1..] == buf[pos0 + 1..];
    var num := ParseNumberLine(buf, pos0 + 1);
    match num {
      case More => return More;
      case Bad => return Bad;
      case Got(len, pos) =>
        if len < 0 || len > MAX_BULK { return Bad; }
        if |buf| < pos + len + 2 { return More; }
        assert buf[pos..][len..len + 2] == buf[pos + len..pos + len + 2];
        if buf[pos + len..pos + len + 2] != CRLF { return Bad; }
        assert buf[pos..][..len] == buf[pos..pos + len] && buf[pos..][len + 2..] == buf[pos + len + 2..];
        return Got(buf[pos..pos + len], pos + len + 2);
    }
  }

  ghost function Prefixed(parts: Command, r: Parsed<Command>): Parsed<Command> {
    if r.Done? then r.(value := parts + r.value) else r
  }

  method ParseBulksAt(buf: string, pos0: nat, n: nat) returns (r: Found<Command>)
    requires pos0 <= |buf|
    ensures Agrees(r, ParseBulks(buf[pos0..], n), buf)
  {
    hide ParseBulk;
    var parts: Command := [];
    var pos: nat := pos0;
    assert forall t: Command :: [] + t == t;
    for i := 0 to n
      invariant 0 <= pos <= |buf|
      invariant ParseBulks(buf[pos0..], n) == Prefixed(parts, ParseBulks(buf[pos..], n - i))
    {
      var bulk := ParseBulkAt(buf, pos);
      match bulk {
        case More => return More;
        case Bad => return Bad;
        case Got(part, next) =>
          assert forall t: Command :: parts + ([part] + t) == parts + [part] + t;
          parts, pos := parts + [part], next;
      }
    }
    assert parts + [] == parts;
    return Got(parts, pos);
  }

  method ParseOneAt(buf: string, offset: nat) returns (r: Found<Command>)
    requires offset <= |buf|
    ensures Agrees(r, ParseOne(buf[offset..]), buf)
    ensures r.Got? ==> r.pos > offset
  {
    hide ParseNumber, ParseBulks, SplitLine;
    if offset == |buf| { return More; }
    if buf[offset] != '*' {
      var crlf := FindCrlf(buf, offset);
      if crlf.None? { return More; }
      var words := SplitWords(buf[offset..crlf.value]);
      return Got(words, crlf.value + 2);
    }
    assert buf[offset..][1..] == buf[offset + 1..];
    var num := ParseNumberLine(buf, offset + 1);
    match num {
      case More => return More;
      case Bad => return Bad;
      case Got(n, pos) =>
        if n < 0 || n > MAX_ELEMENTS { return Bad; }
        r := ParseBulksAt(buf, pos, n);
    }
  }

  /** The words of an inline command, split on spaces. */
  method SplitWords(line: string) returns (words: Command)
    ensures words == Words(line, "")
    ensures exists gaps :: IsSpaced(line, words, gaps)
  {
    ghost var gaps := WordsOfLine(line);
    hide IsSpaced;
    words := [];
    var word := "";
    for i := 0 to |line|
      invariant Words(line, "") == words + Words(line[i..], word)
    {
      ghost var rest := line[i..];
      assert rest[1..] == line[i + 1..];
      if line[i] == ' ' {
        assert forall t: Command :: words + ([word] + t) == words + [word] + t;
        if word != "" { words := words + [word]; }
        word := "";
      } else {
        word := word + [line[i]];
      }
    }
    if word != "" { words := words + [word]; }
  }

  lemma DrainStep(s: string)
    ensures match ParseOne(s)
      case Incomplete => Drain(s) == Drained([], s, false)
      case Malformed => Drain(s).malformed && Drain(s).commands == []
      case Done(cmd, rest) =>
        && Drain(s).malformed == Drain(rest).malformed && Drain(s).rest == Drain(rest).rest
        && Drain(s).commands == (if cmd == [] then [] else [cmd]) + Drain(rest).commands
  {
    hide ParseOne;
  }

  class RespParser {
    var buf: string
    var ready: seq<Command>

    /** Between feeds the buffer never holds a whole command. */
    ghost predicate Valid()
      reads this
    {
      Starved(buf)
    }

    constructor ()
      ensures Valid() && buf == "" && ready == []
    {
      buf, ready := "", [];
      StarvedEmpty();
    }

    /** Takes the bytes in and the whole commands out. After malformed bytes the
        commands before them are still ready, and nothing is dropped from the
        buffer: the next feed hands them out again and fails again. */
    method Feed(bytes: string) returns (ok: bool)
      modifies this
      ensures var d := Drain(old(buf) + bytes);
        && ok == !d.malformed
        && ready == old(ready) + d.commands
        && (if ok then Valid() && buf == d.rest else buf == old(buf) + bytes)
      ensures Drain(old(buf)).malformed ==> !ok && ready == old(ready) + Drain(old(buf)).commands
    {
      hide ParseOne, Starved, Drain;
      DrainExtends(buf, bytes);
      buf := buf + bytes;
      ghost var all := Drain(buf);
      DrainStarves(buf);
      var offset := 0;
      assert buf[0..] == buf;
      while true
        invariant offset <= |buf| && buf == old(buf) + bytes
        invariant var d := Drain(buf[offset..]);
          && all.malformed == d.malformed && all.rest == d.rest
          && old(ready) + all.commands == ready + d.commands
        decreases |buf| - offset
      {
        DrainStep(buf[offset..]);
        var one := ParseOneAt(buf, offset);
        match one {
          case More => break;
          case Bad => return false;
          case Got(cmd, next) =>
            assert forall t: seq<Command> :: ready + ([cmd] + t) == ready + [cmd] + t;
            if cmd != [] { ready := ready + [cmd]; }
            offset := next;
        }
      }
      buf := buf[offset..];
      ok := true;
    }

    method Take() returns (out: seq<Command>)
      modifies this
      ensures out == old(ready) && ready == [] && buf == old(buf)
    {
      out := ready;
      ready := [];
    }
  }
}
