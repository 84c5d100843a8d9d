/**
 * Fixed-width unsigned and two's-complement integers as byte strings, in
 * either byte order, and the packing of big-endian bit fields into a word.
 * These are the primitives that the construct library's Int32ub/Int32sb/
 * Int32ul, Float32b/Float64b (as raw IEEE words) and BitStruct build on.
 */
module Bytes {

  type byte = x: int | 0 <= x < 256

  datatype Endian = Big | Little

  const TwoTo31: int := 0x8000_0000
  const TwoTo32: int := 0x1_0000_0000

  function Pow2(n: nat): (r: nat)
    ensures r >= 1
  {
    if n == 0 then 1 else 2 * Pow2(n - 1)
  }

  function Pow256(n: nat): (r: nat)
    ensures r >= 1
  {
    if n == 0 then 1 else 256 * Pow256(n - 1)
  }

  lemma {:induction false} Pow2Add(a: nat, b: nat)
    ensures Pow2(a + b) == Pow2(a) * Pow2(b)
  {
    if b > 0 {
      Pow2Add(a, b - 1);
    }
  }

  /** 2^(8n) == 256^n: a word of n bytes is a word of 8n bits. */
  lemma {:induction false} Pow2Bytes(n: nat)
    ensures Pow2(8 * n) == Pow256(n)
  {
    if n > 0 {
      Pow2Bytes(n - 1);
      Pow2Add(8 * (n - 1), 8);
      assert Pow2(8) == 256;
    }
  }

  // ---------------------------------------------------------------------
  // Unsigned integers
  // ---------------------------------------------------------------------

  /** Big-endian value of a byte string: the last byte is the least significant. */
  function FromBE(b: seq<byte>): (x: nat)
    ensures x < Pow256(|b|)
  {
    if b == [] then 0 else FromBE(b[..|b| - 1]) * 256 + b[|b| - 1]
  }

  /** The n-byte big-endian representation of x. */
  function ToBE(n: nat, x: nat): (b: seq<byte>)
    requires x < Pow256(n)
    ensures |b| == n
  {
    if n == 0 then [] else ToBE(n - 1, x / 256) + [x % 256]
  }

  /** Little-endian value of a byte string: the first byte is the least significant. */
  function FromLE(b: seq<byte>): (x: nat)
    ensures x < Pow256(|b|)
  {
    if b == [] then 0 else b[0] + 256 * FromLE(b[1..])
  }

  /** The n-byte little-endian representation of x. */
  function ToLE(n: nat, x: nat): (b: seq<byte>)
    requires x < Pow256(n)
    ensures |b| == n
  {
    if n == 0 then [] else [x % 256] + ToLE(n - 1, x / 256)
  }

  function Uint(e: Endian, b: seq<byte>): (x: nat)
    ensures x < Pow256(|b|)
  {
    match e
    case Big => FromBE(b)
    case Little => FromLE(b)
  }

  function UintBytes(e: Endian, n: nat, x: nat): (b: seq<byte>)
    requires x < Pow256(n)
    ensures |b| == n
  {
    match e
    case Big => ToBE(n, x)
    case Little => ToLE(n, x)
  }

  lemma {:induction false} BERoundTrip(n: nat, x: nat)
    requires x < Pow256(n)
    ensures FromBE(ToBE(n, x)) == x
  {
    if n > 0 {
      BERoundTrip(n - 1, x / 256);
      var b := ToBE(n, x);
      assert b[..n - 1] == ToBE(n - 1, x / 256);
    }
  }

  lemma {:induction false} BEBytesRoundTrip(b: seq<byte>)
    ensures ToBE(|b|, FromBE(b)) == b
  {
    if b != [] {
      var init := b[..|b| - 1];
      BEBytesRoundTrip(init);
      DivMod256(b[|b| - 1], FromBE(init));
      assert b == init + [b[|b| - 1]];
    }
  }

  lemma {:induction false} LERoundTrip(n: nat, x: nat)
    requires x < Pow256(n)
    ensures FromLE(ToLE(n, x)) == x
  {
    if n > 0 {
      LERoundTrip(n - 1, x / 256);
      var b := ToLE(n, x);
      assert b[1..] == ToLE(n - 1, x / 256);
    }
  }

  /** Splitting off the low byte of lo + 256 * hi. */
  lemma DivMod256(lo: int, hi: int)
    requires 0 <= lo < 256
    ensures (lo + 256 * hi) % 256 == lo && (lo + 256 * hi) / 256 == hi
  {
  }

  lemma {:induction false} LEBytesRoundTrip(b: seq<byte>)
    ensures ToLE(|b|, FromLE(b)) == b
  {
    if b != [] {
      var hi := FromLE(b[1..]);
      LEBytesRoundTrip(b[1..]);
      DivMod256(b[0], hi);
      assert ToLE(|b|, FromLE(b)) == [b[0]] + ToLE(|b| - 1, hi);
      assert b == [b[0]] + b[1..];
    }
  }

  /** Decoding undoes encoding, in either byte order. */
  lemma UintRoundTrip(e: Endian, n: nat, x: nat)
    requires x < Pow256(n)
    ensures Uint(e, UintBytes(e, n, x)) == x
  {
    match e
    case Big => BERoundTrip(n, x);
    case Little => LERoundTrip(n, x);
  }

  /** Encoding undoes decoding: every byte string is the image of its value. */
  lemma UintBytesRoundTrip(e: Endian, b: seq<byte>)
    ensures UintBytes(e, |b|, Uint(e, b)) == b
  {
    match e
    case Big => BEBytesRoundTrip(b);
    case Little => LEBytesRoundTrip(b);
  }

  // ---------------------------------------------------------------------
  // 32-bit two's complement (Int32sb)
  // ---------------------------------------------------------------------

  function ToSigned32(x: nat): (i: int)
    requires x < TwoTo32
    ensures -TwoTo31 <= i < TwoTo31
    ensures i % TwoTo32 == x
  {
    if x < TwoTo31 then x else x - TwoTo32
  }

  function FromSigned32(i: int): (x: nat)
    requires -TwoTo31 <= i < TwoTo31
    ensures x < TwoTo32
    ensures ToSigned32(x) == i
  {
    if i < 0 then i + TwoTo32 else i
  }

  // ---------------------------------------------------------------------
  // Bit fields (construct's BitStruct): the word is read as a big-endian
  // string of bits and each field takes the next `width` bits of it.
  // ---------------------------------------------------------------------

  type bit = x: int | 0 <= x < 2

  function FromBits(s: seq<bit>): (x: nat)
    ensures x < Pow2(|s|)
  {
    if s == [] then 0 else FromBits(s[..|s| - 1]) * 2 + s[|s| - 1]
  }

  function ToBits(n: nat, x: nat): (s: seq<bit>)
    requires x < Pow2(n)
    ensures |s| == n
  {
    if n == 0 then [] else ToBits(n - 1, x / 2) + [x % 2]
  }

  lemma {:induction false} BitsRoundTrip(n: nat, x: nat)
    requires x < Pow2(n)
    ensures FromBits(ToBits(n, x)) == x
  {
    if n > 0 {
      BitsRoundTrip(n - 1, x / 2);
      var s := ToBits(n, x);
      assert s[..n - 1] == ToBits(n - 1, x / 2);
    }
  }

  lemma {:induction false} BitStringRoundTrip(s: seq<bit>)
    ensures ToBits(|s|, FromBits(s)) == s
  {
    if s != [] {
      var init, d := s[..|s| - 1], s[|s| - 1];
      BitStringRoundTrip(init);
      var x := FromBits(s);
      assert x == FromBits(init) * 2 + d;
      assert x / 2 == FromBits(init) && x % 2 == d;
      assert ToBits(|s|, x) == ToBits(|init|, FromBits(init)) + [d];
      assert s == init + [d];
    }
  }

  lemma ShiftStep(x: int, p: int, f: int, d: int)
    ensures (x * p + f) * 2 + d == x * (p * 2) + (f * 2 + d)
  {
  }

  /** The value of a concatenation: the high part shifted left past the low part. */
  lemma {:induction false} FromBitsAppend(a: seq<bit>, b: seq<bit>)
    ensures FromBits(a + b) == FromBits(a) * Pow2(|b|) + FromBits(b)
  {
    if b == [] {
      assert a + b == a;
    } else {
      var init := b[..|b| - 1];
      var d := b[|b| - 1];
      FromBitsAppend(a, init);
      assert (a + b)[..|a + b| - 1] == a + init;
      assert FromBits(a + b) == FromBits(a + init) * 2 + d;
      ShiftStep(FromBits(a), Pow2(|init|), FromBits(init), d);
    }
  }

  function Sum(ws: seq<nat>): nat
  {
    if ws == [] then 0 else ws[0] + Sum(ws[1..])
  }

  /** Each field value lies in the range of its width. */
  predicate PartsFit(ws: seq<nat>, parts: seq<int>)
  {
    |parts| == |ws| && forall i :: 0 <= i < |ws| ==> 0 <= parts[i] < Pow2(ws[i])
  }

  /** The bit string holding `parts`, most significant field first. */
  function Pack(ws: seq<nat>, parts: seq<int>): (s: seq<bit>)
    requires PartsFit(ws, parts)
    ensures |s| == Sum(ws)
  {
    if ws == [] then []
    else ToBits(ws[0], parts[0]) + Pack(ws[1..], parts[1..])
  }

  /** The fields of a bit string, taken in order from its most significant end. */
  function Unpack(ws: seq<nat>, s: seq<bit>): (parts: seq<int>)
    requires Sum(ws) <= |s|
    ensures PartsFit(ws, parts)
  {
    if ws == [] then []
    else [FromBits(s[..ws[0]])] + Unpack(ws[1..], s[ws[0]..])
  }

  /** Unpacking a packed bit string gives back its fields. */
  lemma {:induction false} UnpackPack(ws: seq<nat>, parts: seq<int>)
    requires PartsFit(ws, parts)
    ensures Unpack(ws, Pack(ws, parts)) == parts
  {
    if ws != [] {
      var s := Pack(ws, parts);
      var head := ToBits(ws[0], parts[0]);
      assert s[..ws[0]] == head;
      assert s[ws[0]..] == Pack(ws[1..], parts[1..]);
      BitsRoundTrip(ws[0], parts[0]);
      UnpackPack(ws[1..], parts[1..]);
    }
  }

  /** Packing the fields of a bit string rebuilds the bits that the fields cover. */
  lemma {:induction false} PackUnpack(ws: seq<nat>, s: seq<bit>)
    requires Sum(ws) <= |s|
    ensures Pack(ws, Unpack(ws, s)) == s[..Sum(ws)]
  {
    if ws != [] {
      var parts := Unpack(ws, s);
      assert parts[1..] == Unpack(ws[1..], s[ws[0]..]);
      BitStringRoundTrip(s[..ws[0]]);
      PackUnpack(ws[1..], s[ws[0]..]);
      assert s[..Sum(ws)] == s[..ws[0]] + s[ws[0]..][..Sum(ws[1..])];
    }
  }

  /** Appending one bit shifts the value left by one. */
  lemma FromBitsSnoc(a: seq<bit>, d: bit)
    ensures FromBits(a + [d]) == FromBits(a) * 2 + d
  {
    assert (a + [d])[..|a|] == a;
  }

  /** A four-field word is the concatenation of its fields' bits. */
  lemma PackFour(ws: seq<nat>, parts: seq<int>)
    requires |ws| == 4 && PartsFit(ws, parts)
    ensures Pack(ws, parts)
            == ToBits(ws[0], parts[0]) + ToBits(ws[1], parts[1]) + ToBits(ws[2], parts[2]) + ToBits(ws[3], parts[3])
  {
    var w1, p1 := ws[1..], parts[1..];
    var w2, p2 := w1[1..], p1[1..];
    var w3, p3 := w2[1..], p2[1..];
    PackCons(ws, parts);
    PackCons(w1, p1);
    PackCons(w2, p2);
    PackCons(w3, p3);
    assert w1[0] == ws[1] && w2[0] == ws[2] && w3[0] == ws[3];
    assert p1[0] == parts[1] && p2[0] == parts[2] && p3[0] == parts[3];
    var b0, b1, b2, b3 := ToBits(ws[0], parts[0]), ToBits(ws[1], parts[1]), ToBits(ws[2], parts[2]), ToBits(ws[3], parts[3]);
    assert w3[1..] == [];
    assert Pack(w3, p3) == b3 + [] == b3;
    AppendFour(b0, b1, b2, b3);
  }

  lemma AppendFour<T>(a: seq<T>, b: seq<T>, c: seq<T>, d: seq<T>)
    ensures a + (b + (c + d)) == a + b + c + d
  {
  }

  /** Packing takes the first field's bits, then packs the rest. */
  lemma PackCons(ws: seq<nat>, parts: seq<int>)
    requires |ws| > 0 && PartsFit(ws, parts)
    ensures PartsFit(ws[1..], parts[1..])
    ensures Pack(ws, parts) == ToBits(ws[0], parts[0]) + Pack(ws[1..], parts[1..])
  {
  }
}
