/** Bytes, 32-byte digests, hash functions and little-endian words. */
module ByteStrings {

  newtype byte = x: int | 0 <= x < 0x100

  type Bytes = seq<byte>

  type Digest = d: Bytes | |d| == 32 witness seq(32, _ => 0)

  const ZERO: Digest := [0, 0, 0, 0, 0, 0, 0, 0, 0, 0, 0, 0, 0, 0, 0, 0, 0, 0, 0, 0, 0, 0, 0, 0, 0, 0, 0, 0, 0, 0, 0, 0]

  /** The model's Keccak-256: any function from byte strings to digests. */
  type Hash = Bytes -> Digest

  /** `h` has no collision inside the finite set `inputs`. Every injective `h` satisfies it. */
  ghost predicate NoCollision(h: Hash, inputs: set<Bytes>) {
    forall x, y :: x in inputs && y in inputs && h(x) == h(y) ==> x == y
  }

  lemma FewerInputs(h: Hash, inputs: set<Bytes>, fewer: set<Bytes>)
    requires NoCollision(h, inputs) && fewer <= inputs
    ensures NoCollision(h, fewer)
  {
  }

  lemma SameInput(h: Hash, inputs: set<Bytes>, x: Bytes, y: Bytes)
    requires NoCollision(h, inputs) && x in inputs && y in inputs && h(x) == h(y)
    ensures x == y
  {
  }

  const TWO_TO_THE_32: nat := 0x1_0000_0000

  const TWO_TO_THE_64: nat := 0x1_0000_0000_0000_0000

  /** `(n as u32).to_le_bytes()` */
  function LeBytes(n: nat): (b: Bytes)
    ensures |b| == 4
  {
    [(n % 0x100) as byte, (n / 0x100 % 0x100) as byte,
     (n / 0x1_0000 % 0x100) as byte, (n / 0x100_0000 % 0x100) as byte]
  }

  /** `u32::from_le_bytes` */
  function FromLe(b: Bytes): (n: nat)
    requires |b| == 4
    ensures n < TWO_TO_THE_32
  {
    b[0] as nat + 0x100 * b[1] as nat + 0x1_0000 * b[2] as nat + 0x100_0000 * b[3] as nat
  }

  lemma Quotients(n: nat)
    ensures n / 0x1_0000 == n / 0x100 / 0x100
    ensures n / 0x100_0000 == n / 0x1_0000 / 0x100
  {
  }

  lemma LowWord(n: nat, rest: nat, low: nat)
    requires n == low + TWO_TO_THE_32 * rest && low < TWO_TO_THE_32
    ensures n % TWO_TO_THE_32 == low
  {
  }

  lemma FromLeOfLeBytes(n: nat)
    ensures FromLe(LeBytes(n)) == n % TWO_TO_THE_32
  {
    Quotients(n);
    LowWord(n, n / 0x100_0000 / 0x100, FromLe(LeBytes(n)));
  }
}
