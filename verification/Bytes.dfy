/** Little-endian integers in byte vectors, and byte strings found at an offset. */
module Bytes {
  import opened Words
  import opened Permutations

  function Power(n: nat): (r: nat)
    ensures r > 0
  {
    if n == 0 then 1 else 256 * Power(n - 1)
  }

  /** The n low bytes of x, least significant first. */
  function LeBytes(x: nat, n: nat): (r: seq<byte>)
    ensures |r| == n
  {
    if n == 0 then [] else [x % 256] + LeBytes(x / 256, n - 1)
  }

  /** The number a byte string stands for. */
  function LeValue(bs: seq<byte>): nat
  {
    if bs == [] then 0 else bs[0] + 256 * LeValue(bs[1..])
  }

  /** Encoding then decoding gives the number back, and no shorter field would do. */
  lemma {:induction false} LeRoundTrip(x: nat, n: nat)
    ensures LeValue(LeBytes(x, n)) == x <==> x < Power(n)
    ensures LeValue(LeBytes(x, n)) < Power(n)
    decreases n
  {
    if n > 0 {
      LeRoundTrip(x / 256, n - 1);
      assert x == 256 * (x / 256) + x % 256;
      assert LeBytes(x, n)[1..] == LeBytes(x / 256, n - 1);
    }
  }

  /** Every byte string of length n is the encoding of its own value: decoding then encoding
      gives the bytes back. */
  lemma {:induction false} LeInverse(bs: seq<byte>)
    ensures LeBytes(LeValue(bs), |bs|) == bs && LeValue(bs) < Power(|bs|)
    decreases |bs|
  {
    if bs != [] {
      LeInverse(bs[1..]);
      assert bs == [bs[0]] + bs[1..];
    }
  }

  lemma {:induction false} LeSnoc(bs: seq<byte>, b: byte)
    ensures LeValue(bs + [b]) == LeValue(bs) + b * Power(|bs|)
    decreases |bs|
  {
    if bs == [] {
      assert bs + [b] == [b];
    } else {
      LeSnoc(bs[1..], b);
      assert (bs + [b])[1..] == bs[1..] + [b];
      calc {
        256 * (b * Power(|bs| - 1));
        b * (256 * Power(|bs| - 1));
      }
    }
  }

  lemma Scale(x: int, p: int, v: int)
    ensures 256 * (x + p * v) == 256 * x + (256 * p) * v
  {
  }

  lemma {:induction false} LeConcat(a: seq<byte>, b: seq<byte>)
    ensures LeValue(a + b) == LeValue(a) + Power(|a|) * LeValue(b)
    decreases |a|
  {
    if a == [] {
      assert a + b == b;
    } else {
      LeConcat(a[1..], b);
      assert (a + b)[1..] == a[1..] + b;
      Scale(LeValue(a[1..]), Power(|a| - 1), LeValue(b));
    }
  }

  const U32 := 4
  const U64 := 8

  lemma Powers()
    ensures Power(U32) == 0x1_0000_0000 && Power(U64) == WORD
  {
    assert Power(2) == 65536;
    assert Power(4) == 0x1_0000_0000;
    assert Power(6) == 0x1_0000_0000 * 65536;
  }

  // ---------------------------------------------------------------------------------
  // The converters
  // ---------------------------------------------------------------------------------

  /** bytes.at throws past the end. */
  datatype Decoded = Value(value: nat) | OutOfRange

  method BinToUint32(bytes: seq<byte>, start: nat) returns (r: Decoded)
    ensures r == if start + U32 <= |bytes| then Value(LeValue(bytes[start..start + U32])) else OutOfRange
  {
    var dest: nat, scale: nat := 0, 1;
    for i := 0 to U32
      invariant start + i <= |bytes| || i == 0
      invariant i > 0 ==> dest == LeValue(bytes[start..start + i])
      invariant i == 0 ==> dest == 0
      invariant scale == Power(i)
    {
      if start + i >= |bytes| { return OutOfRange; }
      ghost var done := bytes[start..start + i];
      LeSnoc(done, bytes[start + i]);
      assert bytes[start..start + i + 1] == done + [bytes[start + i]];
      dest := dest + bytes[start + i] * scale;
      scale := 256 * scale;
    }
    r := Value(dest);
  }

  method Uint32ToBin(source: nat, dest: seq<byte>) returns (r: seq<byte>)
    requires source < 0x1_0000_0000
    ensures r == dest + LeBytes(source, U32)
  {
    r := dest;
    var rest := source;
    for i := 0 to U32
      invariant r + LeBytes(rest, U32 - i) == dest + LeBytes(source, U32)
    {
      assert r + LeBytes(rest, U32 - i) == r + [rest % 256] + LeBytes(rest / 256, U32 - i - 1);
      r := r + [rest % 256];
      rest := rest / 256;
    }
    assert LeBytes(rest, 0) == [];
  }

  method BinToUint64(bytes: seq<byte>, start: nat) returns (r: Decoded)
    ensures r == if start + U64 <= |bytes| then Value(LeValue(bytes[start..start + U64])) else OutOfRange
  {
    var lsb := BinToUint32(bytes, start);
    var msb := BinToUint32(bytes, start + U32);
    if lsb.OutOfRange? || msb.OutOfRange? { return OutOfRange; }
    Powers();
    LeConcat(bytes[start..start + U32], bytes[start + U32..start + U64]);
    assert bytes[start..start + U64] == bytes[start..start + U32] + bytes[start + U32..start + U64];
    r := Value(msb.value * 0x1_0000_0000 + lsb.value);
  }

  method Uint64ToBin(source: nat, dest: seq<byte>) returns (r: seq<byte>)
    requires source < WORD
    ensures r == dest + LeBytes(source, U64)
  {
    var lsb, msb := source % 0x1_0000_0000, source / 0x1_0000_0000;
    r := Uint32ToBin(lsb, dest);
    r := Uint32ToBin(msb, r);
    Assoc(dest, LeBytes(lsb, U32), LeBytes(msb, U32));
    TwoHalves(source);
  }

  /** A 64-bit field is its low half followed by its high half. */
  lemma TwoHalves(x: nat)
    requires x < WORD
    ensures LeBytes(x % 0x1_0000_0000, U32) + LeBytes(x / 0x1_0000_0000, U32) == LeBytes(x, U64)
  {
    var lo, hi := LeBytes(x % 0x1_0000_0000, U32), LeBytes(x / 0x1_0000_0000, U32);
    HalfRoundTrip(x % 0x1_0000_0000);
    HalfRoundTrip(x / 0x1_0000_0000);
    HalvesMake(x, lo, hi);
    LeInverse(lo + hi);
  }

  lemma HalfRoundTrip(x: nat)
    requires x < 0x1_0000_0000
    ensures LeValue(LeBytes(x, U32)) == x
  {
    Powers();
    LeRoundTrip(x, U32);
  }

  lemma HalvesMake(x: nat, lo: seq<byte>, hi: seq<byte>)
    requires |lo| == U32 && LeValue(lo) == x % 0x1_0000_0000 && LeValue(hi) == x / 0x1_0000_0000
    ensures LeValue(lo + hi) == x
  {
    Powers();
    LeConcat(lo, hi);
  }

  // ---------------------------------------------------------------------------------
  // Byte strings inside a buffer
  // ---------------------------------------------------------------------------------

  /** The bytes bs stand at offset o of d. */
  predicate Has(d: seq<byte>, o: nat, bs: seq<byte>)
  {
    o + |bs| <= |d| && d[o..o + |bs|] == bs
  }

  lemma HasSplit(d: seq<byte>, o: nat, a: seq<byte>, b: seq<byte>)
    requires Has(d, o, a + b)
    ensures Has(d, o, a) && Has(d, o + |a|, b)
  {
    var both := d[o..o + |a + b|];
    assert both[..|a|] == a && both[|a|..] == b;
    assert d[o..o + |a|] == both[..|a|];
    assert d[o + |a|..o + |a| + |b|] == both[|a|..];
  }

  lemma HasMiddle(a: seq<byte>, b: seq<byte>, c: seq<byte>)
    ensures Has(a + (b + c), |a|, b)
  {
    var d := a + (b + c);
    assert d[|a|..|a| + |b|] == b;
  }

  /** Byte strings one after the other. */
  function Chain(parts: seq<seq<byte>>): seq<byte>
  {
    if parts == [] then [] else parts[0] + Chain(parts[1..])
  }
}
