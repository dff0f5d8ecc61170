/** Two FNV-style lanes over a byte stream (crates/resonance-agent/src/recovery_config.rs, StableFingerprint). */
module Fingerprint {
  import opened Base
  import opened LittleEndian

  const START: Lanes := Lanes(0xcbf2_9ce4_8422_2325, 0x8422_2325_cbf2_9ce4)
  const SECOND_MASK: u8 := 0xa5

  datatype Lanes = Lanes(first: u64, second: u64)

  function Pow2(n: nat): nat {
    if n == 0 then 1 else 2 * Pow2(n - 1)
  }

  /** Exclusive or of the low `n` bits, bit by bit. */
  function XorBits(a: nat, b: nat, n: nat): (r: nat)
    ensures r < Pow2(n)
  {
    if n == 0 then 0 else (if a % 2 == b % 2 then 0 else 1) + 2 * XorBits(a / 2, b / 2, n - 1)
  }

  lemma {:induction false} XorBitsCancels(a: nat, b: nat, n: nat)
    requires a < Pow2(n)
    ensures XorBits(XorBits(a, b, n), b, n) == a
    ensures XorBits(a, b, n) == XorBits(b, a, n)
  {
    if n > 0 {
      XorBitsCancels(a / 2, b / 2, n - 1);
      var low, high := if a % 2 == b % 2 then 0 else 1, XorBits(a / 2, b / 2, n - 1);
      assert (low + 2 * high) / 2 == high && (low + 2 * high) % 2 == low;
    }
  }

  lemma Pow2Of8()
    ensures Pow2(8) == 256
  {
    assert Pow2(8) == 2 * Pow2(7) == 4 * Pow2(6) == 8 * Pow2(5) == 16 * Pow2(4);
    assert Pow2(4) == 2 * Pow2(3) == 4 * Pow2(2) == 8 * Pow2(1);
  }

  function Xor8(a: u8, b: u8): u8 {
    Pow2Of8();
    XorBits(a, b, 8)
  }

  lemma Xor8Cancels(a: u8, b: u8)
    ensures Xor8(Xor8(a, b), b) == a
    ensures Xor8(a, b) == Xor8(b, a)
  {
    Pow2Of8();
    XorBitsCancels(a, b, 8);
  }

  /** `word ^ u64::from(byte)`: only the low byte can change. */
  function XorLow(word: u64, byte: u8): u64 {
    256 * (word / 256) + Xor8(word % 256, byte)
  }

  lemma XorLowInjective(word: u64, byte: u8, word': u64, byte': u8)
    requires XorLow(word, byte) == XorLow(word', byte')
    ensures byte == byte' ==> word == word'
    ensures word == word' ==> byte == byte'
  {
    var low, low' := word % 256, word' % 256;
    assert Xor8(low, byte) == Xor8(low', byte') && word / 256 == word' / 256;
    Xor8Cancels(low, byte);
    Xor8Cancels(low', byte');
    Xor8Cancels(byte, low);
    Xor8Cancels(byte', low');
  }

  function MulFirst(word: u64): u64 {
    (word * 0x100000001b3) % 0x1_0000_0000_0000_0000
  }

  /** The multiplier is odd, so it has an inverse modulo 2^64 that recovers the word. */
  lemma UndoFirst(word: u64)
    ensures (MulFirst(word) * 0xce965057aff6957b) % 0x1_0000_0000_0000_0000 == word
  {
    var quotient := (word * 0x100000001b3) / 0x1_0000_0000_0000_0000;
    assert MulFirst(word) * 0xce965057aff6957b
        == word + 0x1_0000_0000_0000_0000 * (word * 0xce9650590f - quotient * 0xce965057aff6957b);
  }

  function MulSecond(word: u64): u64 {
    (word * 0x100000001e7) % 0x1_0000_0000_0000_0000
  }

  /** The multiplier is odd, so it has an inverse modulo 2^64 that recovers the word. */
  lemma UndoSecond(word: u64)
    ensures (MulSecond(word) * 0x14bb6589b98f81d7) % 0x1_0000_0000_0000_0000 == word
  {
    var quotient := (word * 0x100000001e7) / 0x1_0000_0000_0000_0000;
    assert MulSecond(word) * 0x14bb6589b98f81d7
        == word + 0x1_0000_0000_0000_0000 * (word * 0x14bb6589e1 - quotient * 0x14bb6589b98f81d7);
  }

  function Absorb1(l: Lanes, byte: u8): Lanes {
    Lanes(MulFirst(XorLow(l.first, byte)), MulSecond(XorLow(l.second, Xor8(byte, SECOND_MASK))))
  }

  /** What `write` makes of both lanes. */
  function Absorb(l: Lanes, bytes: seq<u8>): Lanes
    decreases |bytes|
  {
    if bytes == [] then l else Absorb1(Absorb(l, bytes[..|bytes| - 1]), bytes[|bytes| - 1])
  }

  /** Both lanes put side by side in one 128-bit number. */
  function Finish(l: Lanes): nat {
    l.first * 0x1_0000_0000_0000_0000 + l.second
  }

  lemma {:induction false} AbsorbAppend(l: Lanes, a: seq<u8>, b: seq<u8>)
    ensures Absorb(l, a + b) == Absorb(Absorb(l, a), b)
    decreases |b|
  {
    if b == [] {
      assert a + b == a;
    } else {
      var n := |b| - 1;
      AbsorbAppend(l, a, b[..n]);
      assert (a + b)[..|a + b| - 1] == a + b[..n];
    }
  }

  /** One byte absorbed into one lane: different lanes, or different bytes, stay different. */
  lemma AbsorbOneInjective(l: Lanes, byte: u8, l': Lanes, byte': u8)
    ensures byte == byte' && l.first != l'.first ==> Absorb1(l, byte).first != Absorb1(l', byte').first
    ensures byte != byte' && l.first == l'.first ==> Absorb1(l, byte).first != Absorb1(l', byte').first
  {
    if Absorb1(l, byte).first == Absorb1(l', byte').first {
      UndoFirst(XorLow(l.first, byte));
      UndoFirst(XorLow(l'.first, byte'));
      XorLowInjective(l.first, byte, l'.first, byte');
    }
  }

  lemma AbsorbOneInjectiveSecond(l: Lanes, byte: u8, l': Lanes, byte': u8)
    ensures byte == byte' && l.second != l'.second ==> Absorb1(l, byte).second != Absorb1(l', byte').second
    ensures byte != byte' && l.second == l'.second ==> Absorb1(l, byte).second != Absorb1(l', byte').second
  {
    if Absorb1(l, byte).second == Absorb1(l', byte').second {
      UndoSecond(XorLow(l.second, Xor8(byte, SECOND_MASK)));
      UndoSecond(XorLow(l'.second, Xor8(byte', SECOND_MASK)));
      XorLowInjective(l.second, Xor8(byte, SECOND_MASK), l'.second, Xor8(byte', SECOND_MASK));
      Xor8Cancels(byte, SECOND_MASK);
      Xor8Cancels(byte', SECOND_MASK);
    }
  }

  /** A difference once made is never absorbed again by equal bytes. */
  lemma {:induction false} DifferenceSurvives(l: Lanes, l': Lanes, bytes: seq<u8>)
    ensures l.first != l'.first ==> Absorb(l, bytes).first != Absorb(l', bytes).first
    ensures l.second != l'.second ==> Absorb(l, bytes).second != Absorb(l', bytes).second
    decreases |bytes|
  {
    if bytes != [] {
      var n := |bytes| - 1;
      DifferenceSurvives(l, l', bytes[..n]);
      AbsorbOneInjective(Absorb(l, bytes[..n]), bytes[n], Absorb(l', bytes[..n]), bytes[n]);
      AbsorbOneInjectiveSecond(Absorb(l, bytes[..n]), bytes[n], Absorb(l', bytes[..n]), bytes[n]);
    }
  }

  /** Streams of equal length whose only difference is the byte at `i`. */
  predicate DiffersOnlyAt(a: seq<u8>, b: seq<u8>, i: nat) {
    |a| == |b| && i < |a| && a[i] != b[i] && forall j :: 0 <= j < |a| && j != i ==> a[j] == b[j]
  }

  ghost predicate OneByteApart(a: seq<u8>, b: seq<u8>) {
    exists i :: 0 <= i < |a| && DiffersOnlyAt(a, b, i)
  }

  lemma OneByteApartBehind(prefix: seq<u8>, a: seq<u8>, b: seq<u8>)
    requires OneByteApart(a, b)
    ensures OneByteApart(prefix + a, prefix + b)
  {
    var i :| 0 <= i < |a| && DiffersOnlyAt(a, b, i);
    assert DiffersOnlyAt(prefix + a, prefix + b, |prefix| + i);
  }

  /** Streams that differ in exactly one byte differ in both lanes of their fingerprint. */
  lemma OneChangedByteChangesFingerprint(l: Lanes, a: seq<u8>, b: seq<u8>)
    requires OneByteApart(a, b)
    ensures Absorb(l, a).first != Absorb(l, b).first
    ensures Absorb(l, a).second != Absorb(l, b).second
    ensures Finish(Absorb(l, a)) != Finish(Absorb(l, b))
  {
    var i :| 0 <= i < |a| && DiffersOnlyAt(a, b, i);
    var prefix, suffix := a[..i], a[i + 1..];
    assert a == (prefix + [a[i]]) + suffix && b == (prefix + [b[i]]) + suffix;
    AbsorbAppend(l, prefix + [a[i]], suffix);
    AbsorbAppend(l, prefix + [b[i]], suffix);
    assert (prefix + [a[i]])[..i] == prefix && (prefix + [b[i]])[..i] == prefix;
    var before := Absorb(l, prefix);
    AbsorbOneInjective(before, a[i], before, b[i]);
    AbsorbOneInjectiveSecond(before, a[i], before, b[i]);
    DifferenceSurvives(Absorb1(before, a[i]), Absorb1(before, b[i]), suffix);
  }

  class StableFingerprint {
    var first: u64
    var second: u64

    function Value(): Lanes
      reads this
    {
      Lanes(first, second)
    }

    constructor ()
      ensures Value() == START
    {
      first, second := START.first, START.second;
    }

    method Write(bytes: seq<u8>)
      modifies this
      ensures Value() == Absorb(old(Value()), bytes)
    {
      for i := 0 to |bytes|
        invariant Value() == Absorb(old(Value()), bytes[..i])
      {
        assert bytes[..i + 1][..i] == bytes[..i];
        first := XorLow(first, bytes[i]);
        first := MulFirst(first);
        second := XorLow(second, Xor8(bytes[i], SECOND_MASK));
        second := MulSecond(second);
      }
      assert bytes[..|bytes|] == bytes;
    }

    /** Writing `n` leaves the lanes where they would be had `n` been put in front of `tail`. */
    method WriteLe(n: nat, width: nat, ghost tail: seq<u8>)
      modifies this
      ensures Absorb(Value(), tail) == Absorb(old(Value()), Put(n, width, tail))
    {
      Write(ToLe(n, width));
      AbsorbAppend(old(Value()), ToLe(n, width), tail);
    }

    method WriteU8(byte: u8, ghost tail: seq<u8>)
      modifies this
      ensures Absorb(Value(), tail) == Absorb(old(Value()), [byte] + tail)
    {
      Write([byte]);
      AbsorbAppend(old(Value()), [byte], tail);
    }
  }
}
