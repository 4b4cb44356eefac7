/** Machine integers, bytes and result types shared by every module. */
module Base {

  datatype Option<+T> = None | Some(value: T)

  datatype Result<+T, +E> = Ok(value: T) | Err(error: E)

  const TWO32: nat := 0x1_0000_0000
  const TWO63: int := 0x8000_0000_0000_0000
  const TWO64: nat := 0x1_0000_0000_0000_0000
  const U32_MAX: nat := 0xFFFF_FFFF
  const U64_MAX: nat := 0xFFFF_FFFF_FFFF_FFFF

  type byte = x: int | 0 <= x < 256
  type u32 = x: int | 0 <= x < 0x1_0000_0000
  type u64 = x: int | 0 <= x < 0x1_0000_0000_0000_0000
  type i64 = x: int | -0x8000_0000_0000_0000 <= x < 0x8000_0000_0000_0000

  /** A 32-byte digest. */
  type Digest = d: seq<byte> | |d| == 32
    witness [0, 0, 0, 0, 0, 0, 0, 0, 0, 0, 0, 0, 0, 0, 0, 0, 0, 0, 0, 0, 0, 0, 0, 0, 0, 0, 0, 0, 0, 0, 0, 0]

  const ZERO_DIGEST: Digest := [0, 0, 0, 0, 0, 0, 0, 0, 0, 0, 0, 0, 0, 0, 0, 0,
                                0, 0, 0, 0, 0, 0, 0, 0, 0, 0, 0, 0, 0, 0, 0, 0]

  function Pow2(k: nat): (r: nat)
    ensures r > 0
  {
    if k == 0 then 1 else 2 * Pow2(k - 1)
  }

  lemma {:induction false} Pow2Add(a: nat, b: nat)
    ensures Pow2(a + b) == Pow2(a) * Pow2(b)
  {
    if a > 0 {
      Pow2Add(a - 1, b);
      assert Pow2(a + b) == 2 * Pow2(a - 1 + b);
    }
  }

  /** `uint32(n)`: truncation to 32 bits. */
  function ToU32(n: nat): (r: u32)
    ensures n < TWO32 ==> r == n
  {
    n % TWO32
  }

  /** Unsigned 64-bit addition, which wraps. */
  function AddU64(a: u64, b: u64): (r: u64)
    ensures a + b < TWO64 ==> r == a + b
    ensures a + b >= TWO64 ==> r == a + b - TWO64
  {
    (a + b) % TWO64
  }

  /** Signed 64-bit subtraction, which wraps. */
  function SubI64(a: i64, b: i64): (r: i64)
    ensures -TWO63 <= a - b < TWO63 ==> r == a - b
    ensures a - b >= TWO63 ==> r == a - b - TWO64
    ensures a - b < -TWO63 ==> r == a - b + TWO64
  {
    (a - b + TWO63) % TWO64 - TWO63
  }

  /**
   * Double SHA-256: an arbitrary but fixed function. Nothing is known about it
   * beyond its type; collision-freeness is a stated hypothesis of the theorems
   * that need it, and always over an explicit finite set of preimages.
   */
  const Sha256d: seq<byte> -> Digest

  /** No two preimages in `pre` share a digest. */
  ghost predicate CollisionFree(pre: set<seq<byte>>)
  {
    forall x, y :: x in pre && y in pre && Sha256d(x) == Sha256d(y) ==> x == y
  }
}
