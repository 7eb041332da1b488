/** FNV-1a over 64 bits, and the envelope a KV snapshot is stored in. */
module Checksum {
  import opened Backend
  import B = Bytes

  const TWO64: nat := 0x1_0000_0000_0000_0000
  const OFFSET: nat := 0xcbf29ce484222325
  const PRIME: nat := 0x100000001b3

  function Pow2(n: nat): nat { if n == 0 then 1 else 2 * Pow2(n - 1) }

  /** Exclusive-or of the lowest n bits. */
  function Xor(x: nat, y: nat, n: nat): (r: nat)
    ensures r < Pow2(n)
  {
    if n == 0 then 0 else 2 * Xor(x / 2, y / 2, n - 1) + (x + y) % 2
  }

  function Low(x: nat, b: Byte): (r: nat)
    requires x < 256
    ensures r < 256
  {
    EightBits();
    Xor(x, b as int, 8)
  }

  lemma EightBits()
    ensures Pow2(8) == 256
  {
    assert Pow2(3) == 8 && Pow2(6) == 64;
  }

  /** Exclusive-or with a byte touches the low byte only. */
  function XorByte(h: nat, b: Byte): nat { h / 256 * 256 + Low(h % 256, b) }

  function Step(h: nat, b: Byte): (r: nat)
    ensures r < TWO64
  {
    XorByte(h, b) * PRIME % TWO64
  }

  function Fnv(h: nat, data: seq<Byte>): nat
    decreases |data|
  {
    if data == [] then h else Fnv(Step(h, data[0]), data[1..])
  }

  method Compute(data: seq<Byte>) returns (h: nat)
    ensures h == Fnv(OFFSET, data)
  {
    h := OFFSET;
    for i := 0 to |data|
      invariant Fnv(OFFSET, data) == Fnv(h, data[i..])
    {
      assert data[i..][1..] == data[i + 1..];
      h := Step(h, data[i]);
    }
  }

  /** The i-th bit. */
  function Bit(x: nat, i: nat): nat {
    if i == 0 then x % 2 else Bit(x / 2, i - 1)
  }

  lemma {:induction false} BitIs(x: nat, i: nat)
    ensures Pow2(i) >= 1 && Bit(x, i) == x / Pow2(i) % 2
    decreases i
  {
    if i > 0 {
      BitIs(x / 2, i - 1);
      B.DivTwice(x, 2, Pow2(i - 1));
    }
  }

  lemma XorHalf(x: nat, y: nat, n: nat)
    requires n > 0
    ensures Xor(x, y, n) / 2 == Xor(x / 2, y / 2, n - 1) && Xor(x, y, n) % 2 == (x + y) % 2
  {
    B.QuotientIs(Xor(x, y, n), 2, Xor(x / 2, y / 2, n - 1), (x + y) % 2);
  }

  /** Every bit of the result tells whether the two bits differ. */
  lemma {:induction false} XorBit(x: nat, y: nat, n: nat, i: nat)
    requires i < n
    ensures Bit(Xor(x, y, n), i) == if Bit(x, i) != Bit(y, i) then 1 else 0
    decreases n
  {
    hide Xor, Bit;
    XorHalf(x, y, n);
    BitStep(Xor(x, y, n), i);
    BitStep(x, i);
    BitStep(y, i);
    Parity(x, y);
    if i > 0 { XorBit(x / 2, y / 2, n - 1, i - 1); }
  }

  lemma BitStep(x: nat, i: nat)
    ensures Bit(x, i) == if i == 0 then x % 2 else Bit(x / 2, i - 1)
  {
  }

  lemma Parity(x: nat, y: nat)
    ensures (x + y) % 2 == if x % 2 != y % 2 then 1 else 0
  {
  }

  /** The published checksums of the empty text and of "a". */
  lemma KnownChecksums()
    ensures Fnv(OFFSET, []) == 0xcbf29ce484222325 && Fnv(OFFSET, [97]) == 0xaf63dc4c8601ec8c
  {
    assert OFFSET % 256 == 0x25 && OFFSET / 256 * 256 == 0xcbf29ce484222300;
    assert Low(0x25, 97) == 0x44 by { LowOfA(); }
    assert XorByte(OFFSET, 97) == 0xcbf29ce484222344;
    hide XorByte;
    assert Step(OFFSET, 97) == 0xaf63dc4c8601ec8c;
    assert [97 as Byte][1..] == [];
  }

  lemma LowOfA()
    ensures Low(0x25, 97) == 0x44
  {
    assert Xor(0, 0, 1) == 0 && Xor(0, 1, 2) == 1 && Xor(1, 3, 3) == 2;
    assert Xor(2, 6, 4) == 4 && Xor(4, 12, 5) == 8 && Xor(9, 24, 6) == 17;
    assert Xor(18, 48, 7) == 34;
  }

  // ---- Every step is injective --------------------------------------------

  const INVERSE: nat := 0xce965057aff6957b   // PRIME * INVERSE == 1 modulo 2^64

  lemma Remainder(x: int, a: nat, t: int)
    requires a < TWO64 && x == a + t * TWO64
    ensures x % TWO64 == a
  {
  }

  /** The prime is odd, so multiplying by it can be undone. */
  lemma Undo(a: nat)
    requires a < TWO64
    ensures a * PRIME % TWO64 * INVERSE % TWO64 == a
  {
    var q, r := a * PRIME / TWO64, a * PRIME % TWO64;
    Remainder(r * INVERSE, a, 0xce9650590f * a - INVERSE * q);
  }

  lemma SameHalves(a: nat, c: nat, b: nat, d: nat)
    requires c < 2 && d < 2 && 2 * a + c == 2 * b + d
    ensures a == b && c == d
  {
  }

  lemma SameParity(x: nat, y: nat, z: nat)
    requires x / 2 == y / 2 && (x + z) % 2 == (y + z) % 2
    ensures x == y
  {
  }

  /** Exclusive-or with a fixed number can be undone. */
  lemma {:induction false} XorInjective(x: nat, y: nat, z: nat, n: nat)
    requires x < Pow2(n) && y < Pow2(n) && Xor(x, z, n) == Xor(y, z, n)
    ensures x == y
  {
    if n == 0 {
    } else {
      SameHalves(Xor(x / 2, z / 2, n - 1), (x + z) % 2, Xor(y / 2, z / 2, n - 1), (y + z) % 2);
      XorInjective(x / 2, y / 2, z / 2, n - 1);
      SameParity(x, y, z);
    }
  }

  lemma {:induction false} XorCommutes(x: nat, y: nat, n: nat)
    ensures Xor(x, y, n) == Xor(y, x, n)
  {
    if n == 0 {
    } else {
      XorCommutes(x / 2, y / 2, n - 1);
    }
  }

  lemma LowInjective(x: nat, y: nat, b: Byte)
    requires x < 256 && y < 256 && Low(x, b) == Low(y, b)
    ensures x == y
  {
    EightBits();
    XorInjective(x, y, b as int, 8);
  }

  lemma LowSensitive(x: nat, a: Byte, b: Byte)
    requires x < 256 && Low(x, a) == Low(x, b)
    ensures a == b
  {
    EightBits();
    XorCommutes(x, a as int, 8);
    XorCommutes(x, b as int, 8);
    XorInjective(a as int, b as int, x, 8);
  }

  lemma XorParts(h: nat, b: Byte)
    requires h < TWO64
    ensures XorByte(h, b) < TWO64
    ensures XorByte(h, b) / 256 == h / 256 && XorByte(h, b) % 256 == Low(h % 256, b)
  {
    hide Low;
    B.Digits(Low(h % 256, b), h / 256);
  }

  lemma StepInjective(g: nat, h: nat, b: Byte)
    requires g < TWO64 && h < TWO64 && Step(g, b) == Step(h, b)
    ensures g == h
  {
    hide Low;
    XorParts(g, b);
    XorParts(h, b);
    Undo(XorByte(g, b));
    Undo(XorByte(h, b));
    LowInjective(g % 256, h % 256, b);
  }

  lemma StepSensitive(h: nat, a: Byte, b: Byte)
    requires h < TWO64 && Step(h, a) == Step(h, b)
    ensures a == b
  {
    hide Low;
    XorParts(h, a);
    XorParts(h, b);
    Undo(XorByte(h, a));
    Undo(XorByte(h, b));
    LowSensitive(h % 256, a, b);
  }

  lemma {:induction false} FnvInjective(g: nat, h: nat, data: seq<Byte>)
    requires g < TWO64 && h < TWO64 && g != h
    ensures Fnv(g, data) != Fnv(h, data)
    decreases |data|
  {
    hide Step;
    if data == [] {
    } else {
      if Step(g, data[0]) == Step(h, data[0]) { StepInjective(g, h, data[0]); }
      FnvInjective(Step(g, data[0]), Step(h, data[0]), data[1..]);
    }
  }

  /** One changed byte, anywhere in data of any length, changes the checksum. */
  lemma {:induction false} SingleByteDetected(h: nat, data: seq<Byte>, i: nat, b: Byte)
    requires h < TWO64 && i < |data| && b != data[i]
    ensures Fnv(h, data[i := b]) != Fnv(h, data)
    decreases |data|
  {
    hide Step;
    var data' := data[i := b];
    if i == 0 {
      assert data'[1..] == data[1..];
      if Step(h, data[0]) == Step(h, b) { StepSensitive(h, data[0], b); }
      FnvInjective(Step(h, b), Step(h, data[0]), data[1..]);
    } else {
      assert data'[1..] == data[1..][i - 1 := b];
      SingleByteDetected(Step(h, data[0]), data[1..], i - 1, b);
    }
  }

  // ---- The snapshot envelope ----------------------------------------------

  const MAGIC: seq<Byte> := [83, 86, 75, 49]   // "SVK1"
  const RAW: Byte := 82                        // 'R'
  const TWO32: nat := 0x1_0000_0000

  /** A snapshot as stored: magic, checksum of the payload, position count, and
      the payload behind its compression flag. */
  function Envelope(blob: seq<Byte>, nPast: nat): (e: seq<Byte>)
    ensures |e| == 17 + |blob|
  {
    MAGIC + B.Encode(Fnv(OFFSET, [RAW] + blob), 8) + B.Encode(nPast, 4) + [RAW] + blob
  }

  /** A snapshot read back, or None where the code drops the entry. */
  function Open(e: seq<Byte>): Option<(seq<Byte>, nat)> {
    if |e| < 16 || e[..4] != MAGIC then None
    else if Fnv(OFFSET, e[16..]) != B.Decode(e[4..12]) then None
    else if e[16..] == [] || e[16] != RAW then None
    else Some((e[17..], B.Decode(e[12..16])))
  }

  lemma {:induction false} FnvBound(h: nat, data: seq<Byte>)
    requires h < TWO64
    ensures Fnv(h, data) < TWO64
    decreases |data|
  {
    hide Step;
    if data == [] {
    } else {
      FnvBound(Step(h, data[0]), data[1..]);
    }
  }

  lemma Widths()
    ensures B.Pow256(4) == TWO32 && B.Pow256(8) == TWO64
  {
    assert B.Pow256(1) == 256 && B.Pow256(2) == 65536 && B.Pow256(3) == 16777216;
    assert B.Pow256(5) == 0x100_0000_0000 && B.Pow256(6) == 0x1_0000_0000_0000 && B.Pow256(7) == 0x100_0000_0000_0000;
  }

  /** Where each field of an envelope lies. */
  lemma Fields(blob: seq<Byte>, nPast: nat)
    ensures var e := Envelope(blob, nPast);
      && e[..4] == MAGIC && e[4..12] == B.Encode(Fnv(OFFSET, [RAW] + blob), 8)
      && e[12..16] == B.Encode(nPast, 4) && e[16..] == [RAW] + blob && e[17..] == blob
  {
    hide Fnv, B.Encode;
  }

  lemma StoredSum(blob: seq<Byte>)
    ensures B.Decode(B.Encode(Fnv(OFFSET, [RAW] + blob), 8)) == Fnv(OFFSET, [RAW] + blob)
  {
    hide Fnv;
    FnvBound(OFFSET, [RAW] + blob);
    Widths();
    B.RoundTrip(Fnv(OFFSET, [RAW] + blob), 8);
  }

  /** What is stored is what comes back. */
  lemma OpenEnvelope(blob: seq<Byte>, nPast: nat)
    requires nPast < TWO32
    ensures Open(Envelope(blob, nPast)) == Some((blob, nPast))
  {
    hide Fnv, B.Encode, B.Decode, Envelope;
    Fields(blob, nPast);
    StoredSum(blob);
    Widths();
    B.RoundTrip(nPast, 4);
    assert Envelope(blob, nPast)[16..][0] == RAW;
  }

  lemma Untouched(e: seq<Byte>, i: nat, b: Byte, lo: nat, hi: nat)
    requires i < |e| && lo <= hi <= |e| && !(lo <= i < hi)
    ensures e[i := b][lo..hi] == e[lo..hi]
  {
  }

  lemma Touched(e: seq<Byte>, i: nat, b: Byte, lo: nat, hi: nat)
    requires lo <= i < hi <= |e| && b != e[i]
    ensures e[i := b][lo..hi] == e[lo..hi][i - lo := b] != e[lo..hi]
  {
    assert e[i := b][lo..hi][i - lo] == b;
  }

  /** Any single changed byte makes a stored snapshot unusable, except in the
      four bytes of the position count, which nothing protects: there the same
      state comes back with a wrong count. */
  lemma SingleByteCorruption(blob: seq<Byte>, nPast: nat, i: nat, b: Byte)
    requires nPast < TWO32 && i < 17 + |blob|
    ensures var e := Envelope(blob, nPast);
      var r := Open(e[i := b]);
      b != e[i] ==>
        && (r.None? <==> !(12 <= i < 16))
        && (r.Some? ==> r.value.0 == blob && r.value.1 != nPast)
  {
    hide Fnv, Envelope, Open;
    if b != Envelope(blob, nPast)[i] { Corrupted(blob, nPast, i, b); }
  }

  lemma Corrupted(blob: seq<Byte>, nPast: nat, i: nat, b: Byte)
    requires nPast < TWO32
    requires i < |Envelope(blob, nPast)| && b != Envelope(blob, nPast)[i]
    ensures var r := Open(Envelope(blob, nPast)[i := b]);
      && (r.None? <==> !(12 <= i < 16))
      && (r.Some? ==> r.value.0 == blob && r.value.1 != nPast)
  {
    hide Fnv, B.Encode, B.Decode, Envelope;
    var e := Envelope(blob, nPast);
    Fields(blob, nPast);
    StoredSum(blob);
    Widths();
    B.RoundTrip(nPast, 4);
    assert e[16..|e|] == e[16..] && e[i := b][16..|e|] == e[i := b][16..] && e[0..4] == e[..4];
    assert e[i := b][0..4] == e[i := b][..4];
    if i < 4 {
      Touched(e, i, b, 0, 4);
    } else if i < 12 {
      Untouched(e, i, b, 16, |e|);
      Touched(e, i, b, 4, 12);
      if B.Decode(e[i := b][4..12]) == B.Decode(e[4..12]) { B.DecodeInjective(e[i := b][4..12], e[4..12]); }
    } else if i < 16 {
      CountChanged(e, i, b);
    } else {
      Untouched(e, i, b, 4, 12);
      Touched(e, i, b, 16, |e|);
      SingleByteDetected(OFFSET, e[16..], i - 16, b);
    }
  }

  lemma CountChanged(e: seq<Byte>, i: nat, b: Byte)
    requires |e| >= 17 && 12 <= i < 16 && b != e[i] && Open(e).Some?
    ensures Open(e[i := b]).Some? && Open(e[i := b]).value.0 == Open(e).value.0
    ensures Open(e[i := b]).value.1 != Open(e).value.1
  {
    hide Fnv, B.Encode, B.Decode;
    var f := e[i := b];
    assert f[..4] == e[..4] && f[4..12] == e[4..12] && f[16..] == e[16..] && f[17..] == e[17..];
    Touched(e, i, b, 12, 16);
    if B.Decode(f[12..16]) == B.Decode(e[12..16]) { B.DecodeInjective(f[12..16], e[12..16]); }
  }
}
