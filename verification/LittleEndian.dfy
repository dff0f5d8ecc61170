/** Rust's `to_le_bytes` and `from_le_bytes`, and reading them back from the front of a byte stream. */
module LittleEndian {
  import opened Base

  function Capacity(width: nat): nat
    ensures Capacity(width) >= 1
  {
    if width == 0 then 1 else 256 * Capacity(width - 1)
  }

  lemma Capacities()
    ensures Capacity(1) == 0x100
    ensures Capacity(2) == 0x1_0000
    ensures Capacity(4) == 0x1_0000_0000
    ensures Capacity(8) == 0x1_0000_0000_0000_0000
  {
    assert Capacity(2) == 256 * Capacity(1);
    assert Capacity(4) == 256 * Capacity(3) == 65536 * Capacity(2);
    assert Capacity(6) == 256 * Capacity(5) == 65536 * Capacity(4);
    assert Capacity(8) == 256 * Capacity(7) == 65536 * Capacity(6);
  }

  function ToLe(n: nat, width: nat): (bytes: seq<u8>)
    ensures |bytes| == width
  {
    if width == 0 then [] else [n % 256] + ToLe(n / 256, width - 1)
  }

  function FromLe(bytes: seq<u8>): nat {
    if bytes == [] then 0 else bytes[0] + 256 * FromLe(bytes[1..])
  }

  lemma {:induction false} ToFromLe(n: nat, width: nat)
    requires n < Capacity(width)
    ensures FromLe(ToLe(n, width)) == n
  {
    if width > 0 {
      ToFromLe(n / 256, width - 1);
      assert ToLe(n, width)[1..] == ToLe(n / 256, width - 1);
    }
  }

  lemma {:induction false} FromToLe(bytes: seq<u8>)
    ensures FromLe(bytes) < Capacity(|bytes|)
    ensures ToLe(FromLe(bytes), |bytes|) == bytes
  {
    if bytes != [] {
      FromToLe(bytes[1..]);
      SplitByte(bytes[0], FromLe(bytes[1..]));
    }
  }

  lemma SplitByte(low: u8, high: nat)
    ensures (low + 256 * high) % 256 == low && (low + 256 * high) / 256 == high
  {
  }

  /** A value written in front of the rest of a stream. */
  function Put(n: nat, width: nat, tail: seq<u8>): seq<u8> {
    ToLe(n, width) + tail
  }

  function Get(bytes: seq<u8>, width: nat): Option<(nat, seq<u8>)> {
    if |bytes| < width then None else Some((FromLe(bytes[..width]), bytes[width..]))
  }

  lemma GetPut(n: nat, width: nat, tail: seq<u8>)
    requires n < Capacity(width)
    ensures Get(Put(n, width, tail), width) == Some((n, tail))
  {
    ToFromLe(n, width);
    assert Put(n, width, tail)[..width] == ToLe(n, width);
  }
}
