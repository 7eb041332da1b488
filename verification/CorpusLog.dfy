/** The archive's file: streams framed as a 32-bit length and raw tokens. */
module CorpusLog {
  import opened Backend
  import B = Bytes

  const TWO32 := 0x1_0000_0000
  const MAX_STREAM := 0x400_0000   // 2^26 tokens

  type Stream = seq<Token>

  predicate Int32(t: Token) { -0x8000_0000 <= t < 0x8000_0000 }

  /** A stream whose frame `load` will accept. */
  predicate Storable(s: Stream) {
    1 <= |s| <= MAX_STREAM && forall t :: t in s ==> Int32(t)
  }

  predicate AllStorable(streams: seq<Stream>) { forall s :: s in streams ==> Storable(s) }

  // ---- Tokens -------------------------------------------------------------

  function TokenBytes(t: Token): (b: seq<Byte>)
    requires Int32(t)
    ensures |b| == 4
  {
    B.Encode(if t < 0 then t + TWO32 else t, 4)
  }

  function BytesToken(b: seq<Byte>): Token
    requires |b| == 4
  {
    var v := B.Decode(b);
    if v >= 0x8000_0000 then v - TWO32 else v
  }

  lemma Pow4()
    ensures B.Pow256(4) == TWO32
  {
    assert B.Pow256(1) == 256 && B.Pow256(2) == 65536 && B.Pow256(3) == 16777216;
  }

  lemma TokenRoundTrip(t: Token)
    requires Int32(t)
    ensures BytesToken(TokenBytes(t)) == t
  {
    Pow4();
    B.RoundTrip(if t < 0 then t + TWO32 else t, 4);
  }

  function Raw(s: Stream): (b: seq<Byte>)
    requires forall t :: t in s ==> Int32(t)
    ensures |b| == 4 * |s|
    decreases |s|
  {
    if s == [] then [] else TokenBytes(s[0]) + Raw(s[1..])
  }

  function Unraw(b: seq<Byte>, n: nat): (s: Stream)
    requires |b| == 4 * n
    ensures |s| == n
    decreases n
  {
    if n == 0 then [] else [BytesToken(b[..4])] + Unraw(b[4..], n - 1)
  }

  lemma {:induction false} RawRoundTrip(s: Stream)
    requires forall t :: t in s ==> Int32(t)
    ensures Unraw(Raw(s), |s|) == s
    decreases |s|
  {
    if s == [] {
    } else {
      RawRoundTrip(s[1..]);
      TokenRoundTrip(s[0]);
      var b := Raw(s);
      assert b[..4] == TokenBytes(s[0]) && b[4..] == Raw(s[1..]);
    }
  }

  // ---- Frames -------------------------------------------------------------

  function Frame(s: Stream): (b: seq<Byte>)
    requires Storable(s)
    ensures |b| == 4 + 4 * |s|
  {
    B.Encode(|s|, 4) + Raw(s)
  }

  function Encode(streams: seq<Stream>): seq<Byte>
    requires AllStorable(streams)
    decreases |streams|
  {
    if streams == [] then [] else Frame(streams[0]) + Encode(streams[1..])
  }

  /** One frame off the front, or None where `load` stops. */
  function ParseFrame(b: seq<Byte>): (r: Option<Stream>)
    ensures r.Some? ==> 1 <= |r.value| <= MAX_STREAM && 4 + 4 * |r.value| <= |b|
  {
    if |b| < 4 then None
    else
      var len := B.Decode(b[..4]);
      if len == 0 || len > MAX_STREAM || |b| < 4 + 4 * len then None
      else Some(Unraw(b[4..4 + 4 * len], len))
  }

  /** The streams `load` reads, and the bytes it leaves unread. */
  datatype Loaded = Loaded(streams: seq<Stream>, unread: seq<Byte>)

  function Load(b: seq<Byte>): Loaded
    decreases |b|
  {
    var frame := ParseFrame(b);
    if frame.None? then Loaded([], b)
    else
      var rest := Load(b[4 + 4 * |frame.value|..]);
      Loaded([frame.value] + rest.streams, rest.unread)
  }

  lemma ParseOneFrame(s: Stream, rest: seq<Byte>)
    requires Storable(s)
    ensures ParseFrame(Frame(s) + rest) == Some(s)
  {
    var b := Frame(s) + rest;
    assert b[..4] == B.Encode(|s|, 4);
    Pow4();
    B.RoundTrip(|s|, 4);
    assert b[4..4 + 4 * |s|] == Raw(s);
    RawRoundTrip(s);
  }

  /** A frame is read exactly if it announces 1 to 2^26 tokens and they are there. */
  lemma FrameLimit(b: seq<Byte>)
    requires |b| >= 4
    ensures var n := B.Decode(b[..4]); ParseFrame(b).Some? <==> 1 <= n <= 67108864 && |b| >= 4 + 4 * n
  {
  }

  lemma LoadFrame(s: Stream, rest: seq<Byte>)
    requires Storable(s)
    ensures Load(Frame(s) + rest) == Loaded([s] + Load(rest).streams, Load(rest).unread)
  {
    ParseOneFrame(s, rest);
    assert (Frame(s) + rest)[4 + 4 * |s|..] == rest;
  }

  /** Loading what was written gives it back, and goes on with what follows. */
  lemma {:induction false} LoadAfterEncode(streams: seq<Stream>, rest: seq<Byte>)
    requires AllStorable(streams)
    ensures Load(Encode(streams) + rest).streams == streams + Load(rest).streams
    ensures Load(Encode(streams) + rest).unread == Load(rest).unread
    decreases |streams|
  {
    hide Load, Frame, Storable;
    if streams == [] {
      assert Encode(streams) + rest == rest;
    } else {
      var s, tail := streams[0], Encode(streams[1..]) + rest;
      assert Encode(streams) + rest == Frame(s) + tail;
      LoadFrame(s, tail);
      LoadAfterEncode(streams[1..], rest);
      assert [s] + (streams[1..] + Load(rest).streams) == streams + Load(rest).streams;
    }
  }

  lemma LoadRoundTrip(streams: seq<Stream>)
    requires AllStorable(streams)
    ensures Load(Encode(streams)) == Loaded(streams, [])
  {
    assert Encode(streams) + [] == Encode(streams);
    LoadAfterEncode(streams, []);
    assert Load([]) == Loaded([], []);
  }

  lemma TokenBack(b: seq<Byte>)
    requires |b| == 4
    ensures Int32(BytesToken(b)) && TokenBytes(BytesToken(b)) == b
  {
    Pow4();
    B.DecodeBound(b);
    B.EncodeDecode(b);
  }

  lemma {:induction false} RawBack(b: seq<Byte>, n: nat)
    requires |b| == 4 * n
    ensures (forall t :: t in Unraw(b, n) ==> Int32(t)) && Raw(Unraw(b, n)) == b
    decreases n
  {
    if n == 0 {
    } else {
      RawBack(b[4..], n - 1);
      TokenBack(b[..4]);
      var s := Unraw(b, n);
      assert s[1..] == Unraw(b[4..], n - 1);
      assert b[..4] + b[4..] == b;
    }
  }

  lemma FrameBack(b: seq<Byte>)
    requires ParseFrame(b).Some?
    ensures var s := ParseFrame(b).value; Storable(s) && Frame(s) == b[..4 + 4 * |s|]
  {
    var s := ParseFrame(b).value;
    RawBack(b[4..4 + 4 * |s|], |s|);
    B.EncodeDecode(b[..4]);
  }

  lemma LoadStep(b: seq<Byte>)
    ensures match ParseFrame(b)
      case None => Load(b) == Loaded([], b)
      case Some(s) =>
        var rest := Load(b[4 + 4 * |s|..]);
        Load(b) == Loaded([s] + rest.streams, rest.unread)
  {
  }

  lemma EncodeCons(s: Stream, rest: seq<Stream>)
    requires Storable(s) && AllStorable(rest)
    ensures AllStorable([s] + rest) && Encode([s] + rest) == Frame(s) + Encode(rest)
  {
    assert ([s] + rest)[1..] == rest;
  }

  lemma EncodeNone()
    ensures AllStorable([]) && Encode([]) == []
  {
  }

  /** Whatever the bytes, they are the loaded streams written out, and then the
      unread rest. */
  lemma {:induction false} EncodeAfterLoad(b: seq<Byte>)
    ensures AllStorable(Load(b).streams)
    ensures b == Encode(Load(b).streams) + Load(b).unread
    decreases |b|
  {
    hide ParseFrame, Frame, Storable, Encode, Load, AllStorable;
    LoadStep(b);
    var frame := ParseFrame(b);
    if frame.Some? {
      FrameBack(b);
      var s, n := frame.value, 4 + 4 * |frame.value|;
      EncodeAfterLoad(b[n..]);
      EncodeCons(s, Load(b[n..]).streams);
      assert b == b[..n] + b[n..];
    } else {
      EncodeNone();
    }
  }

  /** A frame cut short anywhere is not read at all. */
  lemma TornFrame(s: Stream, n: nat)
    requires Storable(s) && n < |Frame(s)|
    ensures ParseFrame(Frame(s)[..n]) == None
  {
    var b := Frame(s)[..n];
    if n >= 4 {
      assert b[..4] == B.Encode(|s|, 4);
      Pow4();
      B.RoundTrip(|s|, 4);
    }
  }

  /** A crash loses only a tail: any byte prefix of the file loads to a prefix of
      the streams. */
  lemma {:induction false} TornFile(streams: seq<Stream>, n: nat)
    requires AllStorable(streams) && n <= |Encode(streams)|
    ensures Load(Encode(streams)[..n]).streams <= streams
    decreases |streams|
  {
    hide Frame, Storable, Load, ParseFrame;
    if streams != [] {
      var s, rest, m := streams[0], Encode(streams[1..]), 4 + 4 * |streams[0]|;
      var b := Encode(streams)[..n];
      LoadStep(b);
      if n < m {
        assert b == Frame(s)[..n];
        TornFrame(s, n);
      } else {
        assert b == Frame(s) + rest[..n - m];
        LoadFrame(s, rest[..n - m]);
        TornFile(streams[1..], n - m);
      }
    } else {
      assert Encode(streams)[..n] == [];
      LoadStep([]);
      assert ParseFrame([]).None? by { NothingToParse(); }
    }
  }

  lemma NothingToParse()
    ensures ParseFrame([]).None?
  {
  }

  lemma {:induction false} EncodeConcat(a: seq<Stream>, b: seq<Stream>)
    requires AllStorable(a) && AllStorable(b)
    ensures AllStorable(a + b) && Encode(a + b) == Encode(a) + Encode(b)
    decreases |a|
  {
    if a == [] {
      assert a + b == b;
    } else {
      assert (a + b)[1..] == a[1..] + b;
      EncodeConcat(a[1..], b);
    }
  }

  /** Appending to a torn file does not recover: what is written after the torn
      frame is read as part of it. One lost token id 7 turns the new stream
      [8, 9] into the phantom stream [2]. */
  lemma AppendAfterTear()
    ensures var torn := Frame([7])[..4];
      && Load(torn) == Loaded([], torn)
      && |Load(torn + Frame([8, 9])).streams| >= 1
      && Load(torn + Frame([8, 9])).streams[0] == [2]
  {
    TornFrame([7], 4);
    TornLength();
    var torn := Frame([7])[..4];
    var tail := Frame([8, 9]);
    assert tail[..4] == TokenBytes(2);
    SingleToken(2);
    hide Frame, TokenBytes;
    Phantom(torn, tail, 2);
    LoadStep(torn);
    LoadStep(torn + tail);
  }

  /** Whatever is appended to the file will be read back after what is there. */
  ghost predicate Appendable(file: seq<Byte>) {
    forall more :: AllStorable(more) ==> Load(file + Encode(more)).streams == Load(file).streams + more
  }

  /** A file can be appended to exactly when loading it leaves nothing unread. */
  lemma CleanBase(file: seq<Byte>)
    ensures Appendable(file) <==> Load(file).unread == []
  {
    hide Load, Encode, Storable, AllStorable;
    if Load(file).unread == [] {
      forall more | AllStorable(more)
        ensures Load(file + Encode(more)).streams == Load(file).streams + more
      {
        AppendClean(file, more);
      }
    } else {
      var s := AppendTorn(file);
    }
  }

  lemma AppendClean(file: seq<Byte>, more: seq<Stream>)
    requires Load(file).unread == [] && AllStorable(more)
    ensures Load(file + Encode(more)).streams == Load(file).streams + more
  {
    hide Load, Encode, Storable, AllStorable;
    var streams := Load(file).streams;
    EncodeAfterLoad(file);
    assert file == Encode(streams);
    LoadRoundTrip(more);
    LoadAfterEncode(streams, Encode(more));
  }

  lemma AppendTorn(file: seq<Byte>) returns (s: Stream)
    requires Load(file).unread != []
    ensures AllStorable([s]) && Load(file + Encode([s])).streams != Load(file).streams + [s]
  {
    hide Load, Encode, Storable, AllStorable;
    var streams, u := Load(file).streams, Load(file).unread;
    EncodeAfterLoad(file);
    s := Misread(u);
    LoadAfterEncode(streams, u + Encode([s]));
    assert file + Encode([s]) == Encode(streams) + (u + Encode([s]));
    var wrong := Load(u + Encode([s])).streams;
    assert wrong == (streams + wrong)[|streams|..] && [s] == (streams + [s])[|streams|..];
  }

  /** For any leftover there is a stream that cannot be read after it: one whose
      length does not begin with the leftover's first byte. */
  lemma Misread(u: seq<Byte>) returns (s: Stream)
    requires u != []
    ensures AllStorable([s]) && Load(u + Encode([s])).streams != [s]
  {
    s := if u[0] == 1 then [0, 0] else [0];
    FirstByte(s);
    hide Load, Frame;
    var b := u + Encode([s]);
    EncodeAfterLoad(b);
    assert b[0] == u[0];
    assert (Encode([s]) + Load(b).unread)[0] == Encode([s])[0];
  }

  lemma FirstByte(s: Stream)
    requires Storable(s) && |s| < 256
    ensures AllStorable([s]) && |Encode([s])| >= 4 && Encode([s])[0] as int == |s|
  {
    assert [s][1..] == [];
    assert Encode([s]) == Frame(s) + Encode([]);
    assert B.Encode(|s|, 4)[0] == (|s| % 256) as Byte;
  }

  lemma Phantom(torn: seq<Byte>, tail: seq<Byte>, t: Token)
    requires |torn| == 4 && B.Decode(torn) == 1 && |tail| >= 4 && Unraw(tail[..4], 1) == [t]
    ensures ParseFrame(torn + tail) == Some([t])
  {
    hide B.Decode, Unraw;
    var b := torn + tail;
    assert b[..4] == torn && b[4..8] == tail[..4];
  }

  lemma TornLength()
    ensures B.Decode(Frame([7])[..4]) == 1
  {
    Pow4();
    B.RoundTrip(1, 4);
    assert Frame([7])[..4] == B.Encode(1, 4);
  }

  lemma SingleToken(t: Token)
    requires Int32(t)
    ensures Unraw(TokenBytes(t), 1) == [t]
  {
    TokenRoundTrip(t);
    assert TokenBytes(t)[..4] == TokenBytes(t);
    assert TokenBytes(t)[4..] == [];
  }
}
