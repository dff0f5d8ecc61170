/** Interleaved `f32` samples as little-endian bytes. */
module SampleBytes {
  import opened Base
  import opened LittleEndian
  import opened Signal

  function WordAt(bytes: seq<u8>, i: nat): Bits32
    requires 4 * i + 4 <= |bytes|
  {
    Capacities();
    FromToLe(bytes[4 * i..4 * i + 4]);
    FromLe(bytes[4 * i..4 * i + 4])
  }

  function ToBytes(samples: seq<Bits32>): (bytes: seq<u8>)
    ensures |bytes| == 4 * |samples|
  {
    if samples == [] then [] else ToLe(samples[0], 4) + ToBytes(samples[1..])
  }

  lemma {:induction false} ToBytesAppend(a: seq<Bits32>, b: seq<Bits32>)
    ensures ToBytes(a + b) == ToBytes(a) + ToBytes(b)
  {
    if a == [] {
      assert a + b == b;
      assert ToBytes(a) + ToBytes(b) == ToBytes(b);
    } else {
      ToBytesAppend(a[1..], b);
      assert (a + b)[1..] == a[1..] + b;
      Associative(ToLe(a[0], 4), ToBytes(a[1..]), ToBytes(b));
    }
  }

  lemma {:induction false} ToBytesAt(samples: seq<Bits32>, i: nat)
    requires i < |samples|
    ensures ToBytes(samples)[4 * i..4 * i + 4] == ToLe(samples[i], 4)
  {
    if i > 0 {
      ToBytesAt(samples[1..], i - 1);
      assert ToBytes(samples)[4..] == ToBytes(samples[1..]);
      assert ToBytes(samples)[4 * i..4 * i + 4] == ToBytes(samples)[4..][4 * i - 4..4 * i];
    }
  }

  lemma WordOfToBytes(samples: seq<Bits32>, i: nat)
    requires i < |samples|
    ensures WordAt(ToBytes(samples), i) == samples[i]
  {
    ToBytesAt(samples, i);
    Capacities();
    ToFromLe(samples[i], 4);
  }

  /** Samples read word by word are the only ones with these bytes. */
  lemma {:induction false} WordsDetermineBytes(samples: seq<Bits32>, bytes: seq<u8>)
    requires |bytes| == 4 * |samples|
    requires forall i :: 0 <= i < |samples| ==> samples[i] == WordAt(bytes, i)
    ensures ToBytes(samples) == bytes
  {
    if samples != [] {
      forall i | 0 <= i < |samples[1..]|
        ensures samples[1..][i] == WordAt(bytes[4..], i)
      {
        assert bytes[4..][4 * i..4 * i + 4] == bytes[4 * (i + 1)..4 * (i + 1) + 4];
        assert samples[1..][i] == samples[i + 1];
      }
      WordsDetermineBytes(samples[1..], bytes[4..]);
      assert bytes[4 * 0..4 * 0 + 4] == bytes[..4];
      FromToLe(bytes[..4]);
      assert bytes == bytes[..4] + bytes[4..];
    }
  }

  lemma {:induction false} ZeroBytes(count: nat)
    ensures ToBytes(seq(count, _ => 0)) == seq(4 * count, _ => 0)
  {
    if count > 0 {
      ZeroBytes(count - 1);
      assert seq(count, _ => 0)[1..] == seq(count - 1, _ => 0);
      assert ToLe(0, 4) == [0, 0, 0, 0] by {
        assert ToLe(0, 4) == [0] + ToLe(0, 3);
        assert ToLe(0, 3) == [0] + ToLe(0, 2);
        assert ToLe(0, 2) == [0] + ToLe(0, 1);
      }
    }
  }
}
