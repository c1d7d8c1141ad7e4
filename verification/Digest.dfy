/**
 The 64-bit FNV-1a digest behind state_hash, over unsigned integers modulo 2^64.
 The offset basis is the one the source writes, which has one decimal digit fewer
 than the published FNV constant.
 */
module Digest {
  import opened Arithmetic

  const FNV_OFFSET_BASIS: Uint64 := 1469598103934665603
  const FNV_PRIME: int := 1099511628211
  const FNV_PRIME_INVERSE: int := 14886173955864302971
  const INVERSE_QUOTIENT: int := 887285111055

  type Byte = x: int | 0 <= x < 256

  /** Bitwise exclusive or of two natural numbers. */
  function Xor(a: nat, b: nat): nat
    decreases a + b
  {
    if a == 0 && b == 0 then 0 else 2 * Xor(a / 2, b / 2) + (if a % 2 != b % 2 then 1 else 0)
  }

  lemma {:induction false} XorUndo(a: nat, b: nat)
    ensures Xor(Xor(a, b), b) == a
    decreases a + b
  {
    if a != 0 || b != 0 {
      XorUndo(a / 2, b / 2);
      var x := Xor(a, b);
      assert x / 2 == Xor(a / 2, b / 2);
      assert x % 2 == if a % 2 != b % 2 then 1 else 0;
    }
  }

  lemma {:induction false} XorCommutes(a: nat, b: nat)
    ensures Xor(a, b) == Xor(b, a)
    decreases a + b
  {
    if a != 0 || b != 0 {
      XorCommutes(a / 2, b / 2);
    }
  }

  /** An 8-bit operand cannot carry a 64-bit one out of range. */
  lemma {:induction false} XorBound(a: nat, b: nat, limit: nat, k: nat)
    requires limit == Pow2(k) && a < limit && b < limit
    ensures Xor(a, b) < limit
    decreases k
  {
    if k > 0 {
      XorBound(a / 2, b / 2, limit / 2, k - 1);
    }
  }

  function Pow2(k: nat): nat {
    if k == 0 then 1 else 2 * Pow2(k - 1)
  }

  lemma Pow2Of64()
    ensures Pow2(64) == TWO64
  {
    assert Pow2(8) == 256;
    Pow2Double(8);
    Pow2Double(16);
    Pow2Double(32);
  }

  lemma Pow2Double(k: nat)
    ensures Pow2(2 * k) == Pow2(k) * Pow2(k)
  {
    Pow2Sum(k, k);
  }

  lemma {:induction false} Pow2Sum(a: nat, b: nat)
    ensures Pow2(a + b) == Pow2(a) * Pow2(b)
  {
    if a > 0 {
      Pow2Sum(a - 1, b);
      Associate(2, Pow2(a - 1), Pow2(b));
    }
  }

  lemma Associate(a: int, b: int, c: int)
    ensures a * (b * c) == (a * b) * c
  {}

  /** hash_byte: exclusive or, then multiply, modulo 2^64. */
  function HashByte(digest: Uint64, byte: Byte): Uint64 {
    (Xor(digest, byte) * FNV_PRIME) % TWO64
  }

  function HashBytes(digest: Uint64, bytes: seq<Byte>): Uint64 {
    if bytes == [] then digest else HashByte(HashBytes(digest, bytes[..|bytes| - 1]), bytes[|bytes| - 1])
  }

  lemma {:induction false} HashBytesConcat(digest: Uint64, a: seq<Byte>, b: seq<Byte>)
    ensures HashBytes(digest, a + b) == HashBytes(HashBytes(digest, a), b)
  {
    if b == [] {
      assert a + b == a;
    } else {
      assert (a + b)[..|a + b| - 1] == a + b[..|b| - 1];
      HashBytesConcat(digest, a, b[..|b| - 1]);
    }
  }

  /** Multiplying by the odd prime loses nothing modulo 2^64: the prime has an inverse. */
  lemma PrimeInjective(x: Uint64, y: Uint64)
    requires (x * FNV_PRIME) % TWO64 == (y * FNV_PRIME) % TWO64
    ensures x == y
  {
    var d := x - y;
    var e := (x * FNV_PRIME) / TWO64 - (y * FNV_PRIME) / TWO64;
    assert d * FNV_PRIME == e * TWO64;
    assert FNV_PRIME * FNV_PRIME_INVERSE == 1 + INVERSE_QUOTIENT * TWO64;
    var t := e * FNV_PRIME_INVERSE - d * INVERSE_QUOTIENT;
    assert d == t * TWO64;
  }

  /** One byte's step is a bijection on digests, and on the byte for one digest. */
  /** The inverse of the prime undoes the multiplication. */
  lemma PrimeUndone(x: Uint64)
    ensures (x * FNV_PRIME % TWO64) * FNV_PRIME_INVERSE % TWO64 == x
  {
    var k := x * FNV_PRIME / TWO64;
    var y := x * FNV_PRIME % TWO64;
    assert FNV_PRIME * FNV_PRIME_INVERSE == 1 + INVERSE_QUOTIENT * TWO64;
    assert y == x * FNV_PRIME - k * TWO64;
    var t := x * INVERSE_QUOTIENT - k * FNV_PRIME_INVERSE;
    assert y * FNV_PRIME_INVERSE == t * TWO64 + x;
    DivModUnique(y * FNV_PRIME_INVERSE, t, x, TWO64);
  }

  /** The step run backwards: divide by the prime, then take the byte out again. */
  lemma StepUndone(digest: Uint64, byte: Byte)
    ensures Xor(HashByte(digest, byte) * FNV_PRIME_INVERSE % TWO64, byte) == digest
  {
    Pow2Of64();
    XorBound(digest, byte, TWO64, 64);
    PrimeUndone(Xor(digest, byte));
    XorUndo(digest, byte);
  }

  lemma StepInjective(d1: Uint64, d2: Uint64, b1: Byte, b2: Byte)
    requires HashByte(d1, b1) == HashByte(d2, b2)
    ensures b1 == b2 ==> d1 == d2
    ensures d1 == d2 ==> b1 == b2
  {
    Pow2Of64();
    XorBound(d1, b1, TWO64, 64);
    XorBound(d2, b2, TWO64, 64);
    PrimeInjective(Xor(d1, b1), Xor(d2, b2));
    XorUndo(d1, b1);
    XorUndo(d2, b2);
    XorCommutes(d1, b1);
    XorCommutes(d2, b2);
    XorUndo(b1, d1);
    XorUndo(b2, d2);
  }

  lemma {:induction false} HashBytesInjective(d1: Uint64, d2: Uint64, bytes: seq<Byte>)
    requires HashBytes(d1, bytes) == HashBytes(d2, bytes)
    ensures d1 == d2
  {
    if bytes != [] {
      var n := |bytes| - 1;
      StepInjective(HashBytes(d1, bytes[..n]), HashBytes(d2, bytes[..n]), bytes[n], bytes[n]);
      HashBytesInjective(d1, d2, bytes[..n]);
    }
  }

  /** Streams of one length that differ in exactly one byte never share a digest. */
  lemma OneByteDetected(digest: Uint64, a: seq<Byte>, b: seq<Byte>, i: nat)
    requires i < |a| == |b| && a[i] != b[i]
    requires forall k :: 0 <= k < |a| && k != i ==> a[k] == b[k]
    ensures HashBytes(digest, a) != HashBytes(digest, b)
  {
    var head, tail := a[..i], a[i + 1..];
    assert a == head + ([a[i]] + tail);
    assert b == head + ([b[i]] + tail);
    HashBytesConcat(digest, head, [a[i]] + tail);
    HashBytesConcat(digest, head, [b[i]] + tail);
    var d := HashBytes(digest, head);
    HashBytesConcat(d, [a[i]], tail);
    HashBytesConcat(d, [b[i]], tail);
    OneStep(d, a[i]);
    OneStep(d, b[i]);
    if HashBytes(digest, a) == HashBytes(digest, b) {
      HashBytesInjective(HashByte(d, a[i]), HashByte(d, b[i]), tail);
      StepInjective(d, d, a[i], b[i]);
    }
  }

  lemma OneStep(d: Uint64, x: Byte)
    ensures HashBytes(d, [x]) == HashByte(d, x)
  {
    assert [x][..0] == [];
  }

  // ---- hash_integer: eight bytes, least significant first ----

  function LittleEndian(value: nat, width: nat): (bytes: seq<Byte>)
    ensures |bytes| == width
  {
    if width == 0 then [] else [value % 256] + LittleEndian(value / 256, width - 1)
  }

  function Pow256(k: nat): nat {
    if k == 0 then 1 else 256 * Pow256(k - 1)
  }

  lemma {:induction false} LittleEndianInjective(x: nat, y: nat, width: nat)
    requires x < Pow256(width) && y < Pow256(width)
    requires LittleEndian(x, width) == LittleEndian(y, width)
    ensures x == y
  {
    if width > 0 {
      assert LittleEndian(x, width)[0] == LittleEndian(y, width)[0];
      assert LittleEndian(x, width)[1..] == LittleEndian(y, width)[1..];
      LittleEndianInjective(x / 256, y / 256, width - 1);
    }
  }

  lemma {:induction false} LittleEndianAt(x: nat, width: nat, i: nat)
    requires i < width
    ensures Pow256(i) > 0
    ensures LittleEndian(x, width)[i] == x / Pow256(i) % 256
  {
    if i > 0 {
      LittleEndianAt(x / 256, width - 1, i - 1);
      DivDiv(x, 256, Pow256(i - 1));
    }
  }

  /** The last of the eight bytes is the most significant one. */
  lemma TopByte(x: nat)
    ensures LittleEndian(x, 8)[7] == x / 0x100_0000_0000_0000 % 256
  {
    LittleEndianAt(x, 8, 7);
    assert Pow256(7) == 256 * 256 * 256 * 256 * Pow256(3);
    assert Pow256(3) == 256 * 256 * 256;
  }

  lemma Pow256Of8()
    ensures Pow256(8) == TWO64
  {
    var a := Pow256(4);
    assert a == 256 * (256 * Pow256(2));
    assert Pow256(2) == 256 * (256 * Pow256(0));
    assert Pow256(6) == 256 * (256 * a);
    assert Pow256(8) == 256 * (256 * Pow256(6));
  }

  lemma WordInjective(x: Uint64, y: Uint64)
    requires LittleEndian(x, 8) == LittleEndian(y, 8)
    ensures x == y
  {
    Pow256Of8();
    LittleEndianInjective(x, y, 8);
  }

  /** Peeling the low byte off a word. */
  lemma LowByte(x: nat, width: nat)
    requires width > 0
    ensures LittleEndian(x, width) == [x % 256] + LittleEndian(x / 256, width - 1)
  {}

  lemma LowByteOfNext(n: nat, width: nat)
    requires width > 0 && n % 256 != 255
    ensures LittleEndian(n + 1, width) == [n % 256 + 1] + LittleEndian(n / 256, width - 1)
  {
    assert (n + 1) / 256 == n / 256 && (n + 1) % 256 == n % 256 + 1;
  }

  /** Fewer bytes are the lower ones. */
  lemma {:induction false} LittleEndianPrefix(x: nat, width: nat)
    ensures LittleEndian(x, width + 1)[..width] == LittleEndian(x, width)
  {
    if width > 0 {
      LittleEndianPrefix(x / 256, width - 1);
      LowByte(x, width + 1);
      LowByte(x, width);
    }
  }

  /** And they do not see what is above them. */
  lemma {:induction false} LittleEndianPeriod(y: nat, k: nat, width: nat)
    ensures k * Pow256(width) >= 0
    ensures LittleEndian(y + k * Pow256(width), width) == LittleEndian(y, width)
  {
    if width > 0 {
      var p := Pow256(width - 1);
      LittleEndianPeriod(y / 256, k, width - 1);
      Shifted(k, p);
      HighPart(y, k * p);
    }
  }

  lemma HighPart(y: nat, q: nat)
    ensures (y + 256 * q) / 256 == y / 256 + q && (y + 256 * q) % 256 == y % 256
  {}

  lemma Shifted(b: int, p: int)
    ensures b * (256 * p) == 256 * (b * p)
  {}

  /** The number whose low byte comes first. */
  function ReadWord(bytes: seq<Byte>): nat {
    if bytes == [] then 0 else bytes[0] + 256 * ReadWord(bytes[1..])
  }

  lemma {:induction false} ReadWordOf(x: nat, width: nat)
    requires x < Pow256(width)
    ensures ReadWord(LittleEndian(x, width)) == x
  {
    if width > 0 {
      ReadWordOf(x / 256, width - 1);
      assert LittleEndian(x, width)[1..] == LittleEndian(x / 256, width - 1);
    }
  }
}
