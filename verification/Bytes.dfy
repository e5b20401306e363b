/** Byte strings and the little-endian integers of the WAL format. */
module Bytes {
  type Byte = x: int | 0 <= x < 256 witness 0
  type Bytes = seq<Byte>

  datatype Option<+T> = None | Some(value: T)

  predicate StartsWith(key: Bytes, prefix: Bytes) { prefix <= key }

  const U32_LIMIT: nat := 0x1_0000_0000
  const U64_LIMIT: nat := 0x1_0000_0000_0000_0000

  /** `n` as `width` little-endian bytes, low bits first; higher bits are dropped. */
  function Le(n: nat, width: nat): (r: Bytes)
    ensures |r| == width
  {
    if width == 0 then [] else [n % 256] + Le(n / 256, width - 1)
  }

  function FromLe(bytes: Bytes): nat {
    if bytes == [] then 0 else bytes[0] + 256 * FromLe(bytes[1..])
  }

  function Pow256(width: nat): (r: nat)
    ensures r > 0
  {
    if width == 0 then 1 else 256 * Pow256(width - 1)
  }

  lemma {:induction false} LeRoundTrip(n: nat, width: nat)
    requires n < Pow256(width)
    ensures FromLe(Le(n, width)) == n
  {
    if width > 0 {
      LeRoundTrip(n / 256, width - 1);
      assert Le(n, width)[1..] == Le(n / 256, width - 1);
    }
  }

  lemma U32RoundTrip(n: nat)
    requires n < U32_LIMIT
    ensures FromLe(Le(n, 4)) == n
  {
    assert Pow256(4) == 256 * Pow256(3) && Pow256(3) == 256 * Pow256(2) && Pow256(2) == 256 * Pow256(1);
    LeRoundTrip(n, 4);
  }

  lemma U64RoundTrip(n: nat)
    requires n < U64_LIMIT
    ensures FromLe(Le(n, 8)) == n
  {
    assert Pow256(8) == 256 * Pow256(7) && Pow256(7) == 256 * Pow256(6) && Pow256(6) == 256 * Pow256(5);
    assert Pow256(5) == 256 * Pow256(4) && Pow256(4) == 256 * Pow256(3) && Pow256(3) == 256 * Pow256(2);
    assert Pow256(2) == 256 * Pow256(1);
    LeRoundTrip(n, 8);
  }

  lemma {:induction false} FromLeBound(bytes: Bytes)
    ensures FromLe(bytes) < Pow256(|bytes|)
    decreases |bytes|
  {
    if bytes != [] { FromLeBound(bytes[1..]); }
  }
}
