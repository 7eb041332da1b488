/** Little-endian fixed-width numbers, as every on-disk header here uses them. */
module Bytes {
  import opened Backend

  function Pow256(n: nat): (r: nat)
    ensures r >= 1
  {
    if n == 0 then 1 else 256 * Pow256(n - 1)
  }

  function Encode(v: nat, n: nat): (s: seq<Byte>)
    ensures |s| == n
  {
    if n == 0 then [] else [(v % 256) as Byte] + Encode(v / 256, n - 1)
  }

  function Decode(s: seq<Byte>): (v: nat)
  {
    if s == [] then 0 else s[0] as int + 256 * Decode(s[1..])
  }

  /** The i-th byte counts 256^i. */
  lemma {:induction false} LittleEndian(v: nat, n: nat, i: nat)
    requires i < n
    ensures Encode(v, n)[i] as int == v / Pow256(i) % 256
  {
    if i > 0 {
      LittleEndian(v / 256, n - 1, i - 1);
      DivTwice(v, 256, Pow256(i - 1));
    }
  }

  lemma DivTwice(v: nat, a: nat, b: nat)
    requires a >= 1 && b >= 1
    ensures a * b >= 1 && v / (a * b) == v / a / b
  {
    var n, m := v / a, v % a;
    var q, r := n / b, n % b;
    Mono(a, r + 1, b);
    Mono(a, 1, b);
    Spread(a, r, 1);
    Spread(a, b * q, r);
    Regroup(a, b, q);
    QuotientIs(v, a * b, q, a * r + m);
  }

  lemma Spread(a: int, b: int, c: int)
    ensures a * (b + c) == a * b + a * c
  {
  }

  lemma Regroup(a: int, b: int, c: int)
    ensures a * (b * c) == a * b * c
  {
  }

  lemma Mono(d: nat, x: int, y: int)
    requires x <= y
    ensures d * x <= d * y
  {
  }

  lemma QuotientIs(v: nat, d: nat, q: int, r: nat)
    requires d >= 1 && v == d * q + r && r < d
    ensures v / d == q && v % d == r
  {
    if v / d > q { Mono(d, q + 1, v / d); }
    if v / d < q { Mono(d, v / d + 1, q); }
  }

  /** Every number that fits its width comes back. */
  lemma {:induction false} RoundTrip(v: nat, n: nat)
    requires v < Pow256(n)
    ensures Decode(Encode(v, n)) == v
  {
    if n == 0 {
    } else {
      RoundTrip(v / 256, n - 1);
      assert Encode(v, n)[1..] == Encode(v / 256, n - 1);
    }
  }

  lemma {:induction false} DecodeBound(s: seq<Byte>)
    ensures Decode(s) < Pow256(|s|)
    decreases |s|
  {
    if s == [] {
    } else {
      DecodeBound(s[1..]);
    }
  }

  lemma Digits(c: nat, w: nat)
    requires c < 256
    ensures (c + 256 * w) % 256 == c && (c + 256 * w) / 256 == w
  {
  }

  lemma {:induction false} EncodeDecode(s: seq<Byte>)
    ensures Encode(Decode(s), |s|) == s
    decreases |s|
  {
    if s == [] {
    } else {
      EncodeDecode(s[1..]);
      Digits(s[0] as int, Decode(s[1..]));
      var v := Decode(s);
      assert v % 256 == s[0] as int && v / 256 == Decode(s[1..]);
    }
  }

  /** Different bytes, different number. */
  lemma DecodeInjective(a: seq<Byte>, b: seq<Byte>)
    requires |a| == |b| && Decode(a) == Decode(b)
    ensures a == b
  {
    EncodeDecode(a);
    EncodeDecode(b);
  }
}
