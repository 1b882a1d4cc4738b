/** The prefixed integers of section 5.1 of RFC 7541, as SET_DICTIONARY frames carry them. */
module VarInt {
  import opened Bytes

  datatype Error = UnexpectedEof | InvalidInteger

  datatype ReadResult =
    | Value(remain: Buffer, v: uint64)
    | Failed(remain: Buffer, err: Error)

  /** All ones in the low `n` bits of a uint64; a shift by 64 or more yields zero, less one wraps. */
  function Mask(n: byte): (k: uint64)
    ensures 1 <= n <= 8 ==> k == Pow2(n) - 1 && k < 256
  {
    if n >= 64 then TWO_64 - 1 else Pow2Small(n); Pow2(n) - 1
  }

  /** The low seven bits of a byte, `b & 127`. */
  function Low7(b: byte): (r: nat)
    ensures r == b % 128
  {
    if b < 128 then b else b - 128
  }

  /** uint64 wrap-around. */
  function Wrap(x: nat): uint64 {
    if x < TWO_64 then x else x % TWO_64
  }

  function EncodeTail(i: nat): Buffer {
    if i < 128 then [i] else [128 + i % 128] + EncodeTail(i / 128)
  }

  /** What appendVarInt appends. */
  function Encode(n: byte, i: uint64): Buffer {
    if i < Mask(n) then [i % 256] else [Mask(n) % 256] + EncodeTail(i - Mask(n))
  }

  function ReadTail(p: Buffer, m: nat, v: uint64, origP: Buffer): (r: ReadResult)
    ensures r.Value? ==> |r.remain| < |p|
  {
    if p == [] then Failed([], UnexpectedEof)
    else
      var v' := Wrap(v + Low7(p[0]) * Pow2(m));
      if p[0] < 128 then Value(p[1..], v')
      else if m + 7 >= 63 then Failed(origP, InvalidInteger)
      else ReadTail(p[1..], m + 7, v', origP)
  }

  /** What http2ReadVarInt returns. */
  function Read(n: byte, p: Buffer): (r: ReadResult)
    requires 1 <= n <= 8
    ensures r.Value? ==> |r.remain| < |p|
  {
    if p == [] then Failed([], UnexpectedEof)
    else
      var v := p[0] % Pow2(n);
      Pow2Small(n);
      if v < Mask(n) then Value(p[1..], v) else ReadTail(p[1..], 0, v, p)
  }

  method AppendVarInt(dst: Buffer, n: byte, i0: uint64) returns (r: Buffer)
    ensures r == dst + Encode(n, i0)
  {
    var k := Mask(n);
    if i0 < k {
      return dst + [i0 % 256];
    }
    ghost var goal := dst + Encode(n, i0);
    r := dst + [k % 256];
    var i := i0 - k;
    assert r + EncodeTail(i) == goal by {
      Associate(dst, [k % 256], EncodeTail(i));
    }
    while i >= 128
      invariant 0 <= i
      invariant r + EncodeTail(i) == goal
    {
      EncodeTailStep(r, i);
      r, i := r + [128 + i % 128], i / 128;
    }
    r := r + [i];
  }

  lemma EncodeTailStep(r: Buffer, i: nat)
    requires i >= 128
    ensures r + EncodeTail(i) == r + [128 + i % 128] + EncodeTail(i / 128)
  {
  }

  /** The reader panics outside 1..8, so callers must stay inside. */
  method ReadVarInt(n: byte, p0: Buffer) returns (r: ReadResult)
    requires 1 <= n <= 8
    ensures r == Read(n, p0)
  {
    if |p0| == 0 {
      return Failed([], UnexpectedEof);
    }
    Pow2Small(n);
    var v: uint64 := p0[0];
    if n < 8 {
      v := v % Pow2(n);
    } else {
      EightBits(p0[0]);
    }
    if v < Mask(n) {
      return Value(p0[1..], v);
    }
    var origP := p0;
    var p := p0[1..];
    var m := 0;
    while |p| > 0
      invariant m < 63
      invariant ReadTail(p, m, v, origP) == Read(n, p0)
      decreases |p|
    {
      var b := p[0];
      p := p[1..];
      v := Wrap(v + Low7(b) * Pow2(m));
      if b < 128 {
        return Value(p, v);
      }
      m := m + 7;
      if m >= 63 {
        return Failed(origP, InvalidInteger);
      }
    }
    r := Failed([], UnexpectedEof);
  }

  /**
    Reading back what was appended, before any suffix, returns the value and leaves the suffix exactly
    when the value is below 2^63 + 2^n - 1; every larger value is refused as an invalid integer.
   */
  lemma RoundTrip(n: byte, i: uint64, suffix: Buffer)
    requires 1 <= n <= 8
    ensures Read(n, Encode(n, i) + suffix) ==
            if i < TWO_63 + Pow2(n) - 1 then Value(suffix, i)
            else Failed(Encode(n, i) + suffix, InvalidInteger)
  {
    if i < Mask(n) {
      ShortRoundTrip(n, i, suffix);
    } else {
      LongRoundTrip(n, i, suffix);
    }
  }

  lemma {:induction false} TailIgnoresOrigin(p: Buffer, m: nat, v: uint64, a: Buffer, b: Buffer)
    requires ReadTail(p, m, v, a).Value?
    ensures ReadTail(p, m, v, b) == ReadTail(p, m, v, a)
  {
    if p[0] >= 128 {
      TailIgnoresOrigin(p[1..], m + 7, Wrap(v + Low7(p[0]) * Pow2(m)), a, b);
    }
  }

  /** The bits above the prefix belong to others: an integer is read the same whatever they are. */
  lemma ReadIgnoresHigh(n: byte, p: Buffer, q: Buffer)
    requires 1 <= n <= 8 && p != [] && q != [] && p[1..] == q[1..] && p[0] % Pow2(n) == q[0] % Pow2(n)
    requires Read(n, p).Value?
    ensures Read(n, q) == Read(n, p)
  {
    var v := p[0] % Pow2(n);
    Pow2Small(n);
    if v >= Mask(n) {
      TailIgnoresOrigin(p[1..], 0, v, p, q);
    }
  }

  lemma ShortRoundTrip(n: byte, i: uint64, suffix: Buffer)
    requires 1 <= n <= 8 && i < Mask(n)
    ensures Read(n, Encode(n, i) + suffix) == Value(suffix, i)
  {
    var p := Encode(n, i) + suffix;
    EncodeShape(n, i);
    ReadShort(n, p);
    assert p[1..] == suffix;
  }

  lemma LongRoundTrip(n: byte, i: uint64, suffix: Buffer)
    requires 1 <= n <= 8 && i >= Mask(n)
    ensures Read(n, Encode(n, i) + suffix) ==
            if i - Mask(n) < TWO_63 then Value(suffix, i) else Failed(Encode(n, i) + suffix, InvalidInteger)
  {
    var k, p := Mask(n), Encode(n, i) + suffix;
    EncodeShape(n, i);
    ReadLong(n, p);
    assert p[1..] == EncodeTail(i - k) + suffix;
    TailRoundTripFromZero(i - k, k, suffix, p);
  }

  lemma EncodeShape(n: byte, i: uint64)
    requires 1 <= n <= 8
    ensures i < Mask(n) ==> Encode(n, i) == [i]
    ensures i >= Mask(n) ==> Encode(n, i) == [Mask(n)] + EncodeTail(i - Mask(n))
  {
    SmallMod(Mask(n), 256);
    if i < 256 {
      SmallMod(i, 256);
    }
  }

  /** The first byte of an encoding leaves the bits above the prefix free. */
  lemma FirstFits(n: byte, i: uint64)
    requires 1 <= n <= 8
    ensures Encode(n, i) != [] && Encode(n, i)[0] < Pow2(n)
    ensures n == 7 ==> Encode(n, i)[0] < 128
    ensures n == 6 ==> Encode(n, i)[0] < 64
  {
    EncodeShape(n, i);
    assert Pow2(7) == 128 && Pow2(6) == 64;
  }

  lemma ReadShort(n: byte, p: Buffer)
    requires 1 <= n <= 8 && p != [] && p[0] < Mask(n)
    ensures Read(n, p) == Value(p[1..], p[0])
  {
    SmallMod(p[0], Pow2(n));
  }

  lemma ReadLong(n: byte, p: Buffer)
    requires 1 <= n <= 8 && p != [] && p[0] == Mask(n)
    ensures Read(n, p) == ReadTail(p[1..], 0, p[0], p)
  {
    SmallMod(p[0], Pow2(n));
  }

  lemma EightBits(b: byte)
    ensures b % Pow2(8) == b
  {
    SmallMod(b, 256);
    assert Pow2(8) == 256;
  }

  lemma SmallMod(a: nat, b: nat)
    requires a < b
    ensures a % b == a
  {
  }

  /** One step of the reader, once it is known that nothing wraps. */
  lemma ReadTailStep(p: Buffer, m: nat, v: uint64, origP: Buffer, v': uint64)
    requires p != [] && v' == v + Low7(p[0]) * Pow2(m)
    ensures ReadTail(p, m, v, origP) ==
            if p[0] < 128 then Value(p[1..], v')
            else if m + 7 >= 63 then Failed(origP, InvalidInteger)
            else ReadTail(p[1..], m + 7, v', origP)
  {
  }

  lemma TailRoundTripFromZero(i: nat, v: nat, suffix: Buffer, origP: Buffer)
    requires v < 256
    ensures i < TWO_63 ==> v + i < TWO_64
    ensures ReadTail(EncodeTail(i) + suffix, 0, v, origP) ==
            if i < TWO_63 then Value(suffix, v + i) else Failed(origP, InvalidInteger)
  {
    Pow2Values();
    TailRoundTrip(i, 0, v, suffix, origP);
  }

  lemma {:induction false} TailRoundTrip(i: nat, m: nat, v: uint64, suffix: Buffer, origP: Buffer)
    requires m % 7 == 0 && m <= 56
    requires v < TWO_63 + Pow2(m)
    ensures i < Pow2(63 - m) ==> v + i * Pow2(m) < TWO_64
    ensures ReadTail(EncodeTail(i) + suffix, m, v, origP) ==
            if i < Pow2(63 - m) then Value(suffix, v + i * Pow2(m)) else Failed(origP, InvalidInteger)
    decreases 56 - m
  {
    hide EncodeTail, ReadTail, Pow2, Wrap, Low7;
    var p := EncodeTail(i) + suffix;
    TailShape(i);
    var v' := GroupStep(i, m, v);
    ReadTailStep(p, m, v, origP, v');
    if i < 128 {
      assert p[1..] == suffix;
    } else {
      assert p[1..] == EncodeTail(i / 128) + suffix;
      if m < 56 {
        TailRoundTrip(i / 128, m + 7, v', suffix, origP);
      }
    }
  }

  /** The arithmetic of one group: what is read so far plus what is left keeps adding up to the value. */
  lemma GroupStep(i: nat, m: nat, v: uint64) returns (v': uint64)
    requires m <= 56 && v < TWO_63 + Pow2(m)
    ensures v' == v + i % 128 * Pow2(m)
    ensures v' < TWO_63 + Pow2(m + 7)
    ensures i < 128 ==> i < Pow2(63 - m) && v' == v + i * Pow2(m)
    ensures i >= 128 && m < 56 ==> v' + i / 128 * Pow2(m + 7) == v + i * Pow2(m)
    ensures i >= 128 && m < 56 ==> (i < Pow2(63 - m) <==> i / 128 < Pow2(63 - (m + 7)))
    ensures i >= 128 && m == 56 ==> i >= Pow2(63 - m)
  {
    LowGroupFits(i % 128, v, m);
    Pow2Window(m);
    SplitGroup(i, Pow2(m));
    v' := v + i % 128 * Pow2(m);
  }

  lemma TailShape(i: nat)
    ensures EncodeTail(i) != [] && Low7(EncodeTail(i)[0]) == i % 128
    ensures i < 128 ==> EncodeTail(i) == [i]
    ensures i >= 128 ==> EncodeTail(i)[0] >= 128 && EncodeTail(i)[1..] == EncodeTail(i / 128)
  {
  }

  /** A group weighs 128 times the one before it, and 63 - m bits are left at weight 2^m. */
  lemma Pow2Window(m: nat)
    requires m <= 56
    ensures Pow2(m + 7) == 128 * Pow2(m)
    ensures 128 <= Pow2(63 - m)
    ensures m < 56 ==> Pow2(63 - m) == 128 * Pow2(63 - (m + 7))
    ensures m == 56 ==> Pow2(63 - m) == 128
  {
    Pow2Values();
    Pow2Add(7, m);
    Pow2Add(7, 56 - m);
  }

  lemma LowGroupFits(low: nat, v: uint64, m: nat)
    requires low < 128 && m <= 56 && v < TWO_63 + Pow2(m)
    ensures v + low * Pow2(m) < TWO_63 + 128 * Pow2(m) <= TWO_64
  {
    Pow2Monotone(m, 56);
    Pow2Values();
    MulMonotone(low, 127, Pow2(m));
  }

  lemma MulMonotone(a: nat, b: nat, c: nat)
    requires a <= b
    ensures a * c <= b * c
  {
  }

  lemma SplitGroup(i: nat, unit: nat)
    ensures i % 128 * unit + i / 128 * (128 * unit) == i * unit
  {
    var q, r := i / 128, i % 128;
    assert i == 128 * q + r;
    assert (128 * q + r) * unit == 128 * q * unit + r * unit;
    assert q * (128 * unit) == 128 * q * unit;
  }

  lemma {:induction false} Pow2Add(a: nat, b: nat)
    ensures Pow2(a + b) == Pow2(a) * Pow2(b)
  {
    if a > 0 {
      Pow2Add(a - 1, b);
      assert Pow2(a + b) == 2 * Pow2(a - 1 + b) == 2 * (Pow2(a - 1) * Pow2(b));
    }
  }

  lemma Pow2Values()
    ensures Pow2(0) == 1 && Pow2(7) == 128 && Pow2(8) == 256
    ensures Pow2(56) == 0x100_0000_0000_0000 && Pow2(63) == TWO_63 && Pow2(64) == TWO_64
  {
    assert Pow2(7) == 128;
    Pow2Add(7, 7);
    Pow2Add(14, 14);
    Pow2Add(28, 28);
    Pow2Add(7, 56);
  }

  lemma Pow2Small(n: nat)
    requires n <= 64
    ensures Pow2(n) <= TWO_64
    ensures n <= 8 ==> Pow2(n) <= 256
  {
    Pow2Monotone(n, 64);
    Pow2Values();
    if n <= 8 {
      Pow2Monotone(n, 8);
    }
  }
}
