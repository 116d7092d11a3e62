/** Identifiers shared by every component, and the symbolic cryptography they rest on. */
module Base {
  type byte = x: int | 0 <= x < 256

  type Bytes = seq<byte>

  const TWO_32 := 0x1_0000_0000
  const TWO_63 := 0x8000_0000_0000_0000
  const TWO_64 := 0x1_0000_0000_0000_0000

  type int64 = x: int | -TWO_63 <= x < TWO_63
  type uint32 = x: int | 0 <= x < TWO_32

  const MAX_INT64: int64 := TWO_63 - 1

  /** Two's complement wrap-around of a 64-bit sum. */
  function Wrap64(x: int): int64 {
    (x + TWO_63) % TWO_64 - TWO_63
  }

  datatype Option<+T> = None | Some(value: T)

  /** A 256-bit digest. Hashing is symbolic: a digest is known by the bytes it was computed from,
      so two digests are equal exactly when those bytes are. */
  datatype Digest = Digest(preimage: Bytes)

  type TxID = Digest
  type ValueID = Digest
  type UnitID = Digest

  /** A node identifier is the 32 bytes of the node's public key. */
  type NodeID = b: Bytes | |b| == 32 witness Zeros(32)

  function HashBytes(data: Bytes): Digest {
    Digest(data)
  }

  /** The all-zero identifiers, which no hash and no key produces. */
  const ZERO_TX_ID: TxID := Digest([])
  function Zeros(n: nat): (r: Bytes)
    ensures |r| == n
  {
    seq(n, i => 0)
  }

  const ZERO_NODE_ID: NodeID := Zeros(32)

  /** The bytes of a digest: whatever they are, they determine the digest. */
  function DigestBytes(d: Digest): Bytes {
    d.preimage
  }

  lemma {:induction false} SubsetSize<T>(a: set<T>, b: set<T>)
    requires a <= b
    ensures |a| <= |b|
  {
    if a != {} {
      var x :| x in a;
      SubsetSize(a - {x}, b - {x});
    }
  }
}
