/** Verification data, its commitment, and the hash backend of the batch's Merkle tree. */
module Commitment {
  import opened ByteStrings
  import opened Merkle

  datatype Option<+T> = None | Some(value: T)

  datatype ProvingSystemId = GnarkPlonkBls12_381 | GnarkPlonkBn254 | Groth16Bn254 | SP1 | Halo2KZG | Halo2IPA

  type Address = a: Bytes | |a| == 20 witness seq(20, _ => 0)

  datatype VerificationData = VerificationData(
    provingSystem: ProvingSystemId,
    proof: Bytes,
    pubInput: Option<Bytes>,
    verificationKey: Option<Bytes>,
    vmProgramCode: Option<Bytes>,
    generator: Address)
  {
    /** The auxiliary data that is committed to: the program code if there is one, else the key. */
    function Aux(): Option<Bytes> {
      if vmProgramCode.Some? then vmProgramCode else verificationKey
    }
  }

  datatype VerificationDataCommitment = VerificationDataCommitment(
    proof: Digest,
    pubInput: Digest,
    aux: Digest,
    generator: Address)

  /** A streaming Keccak-256 hasher. */
  class Hasher {
    const h: Hash
    var absorbed: Bytes

    constructor (h: Hash)
      ensures this.h == h && absorbed == []
    {
      this.h := h;
      absorbed := [];
    }

    method Update(data: Bytes)
      modifies this
      ensures absorbed == old(absorbed) + data
    {
      absorbed := absorbed + data;
    }

    method FinalizeReset() returns (digest: Digest)
      modifies this
      ensures digest == h(old(absorbed)) && absorbed == []
    {
      digest := h(absorbed);
      absorbed := [];
    }
  }

  // ---------- commitments ----------

  function HashOption(h: Hash, data: Option<Bytes>): Digest {
    if data.Some? then h(data.value) else ZERO
  }

  function Commit(h: Hash, data: VerificationData): VerificationDataCommitment {
    VerificationDataCommitment(h(data.proof), HashOption(h, data.pubInput), HashOption(h, data.Aux()), data.generator)
  }

  /** `From<VerificationData>`: one hasher, reset between the parts. */
  method ToCommitment(h: Hash, data: VerificationData) returns (c: VerificationDataCommitment)
    ensures c == Commit(h, data)
    ensures c.proof == h(data.proof) && c.generator == data.generator
    ensures c.pubInput == if data.pubInput.Some? then h(data.pubInput.value) else ZERO
    ensures data.vmProgramCode.Some? ==> c.aux == h(data.vmProgramCode.value)
    ensures data.vmProgramCode.None? && data.verificationKey.Some? ==> c.aux == h(data.verificationKey.value)
    ensures data.vmProgramCode.None? && data.verificationKey.None? ==> c.aux == ZERO
  {
    var hasher := new Hasher(h);
    hasher.Update(data.proof);
    assert hasher.absorbed == data.proof;
    var proof := hasher.FinalizeReset();
    var pubInput: Digest := ZERO;
    if data.pubInput.Some? {
      hasher.Update(data.pubInput.value);
      assert hasher.absorbed == data.pubInput.value;
      pubInput := hasher.FinalizeReset();
    }
    var aux: Digest := ZERO;
    if data.vmProgramCode.Some? {
      hasher.Update(data.vmProgramCode.value);
      assert hasher.absorbed == data.vmProgramCode.value;
      aux := hasher.FinalizeReset();
    } else if data.verificationKey.Some? {
      hasher.Update(data.verificationKey.value);
      assert hasher.absorbed == data.verificationKey.value;
      aux := hasher.FinalizeReset();
    }
    c := VerificationDataCommitment(proof, pubInput, aux, data.generator);
  }

  ghost function OptionInputs(data: Option<Bytes>): set<Bytes> {
    if data.Some? then {data.value} else {}
  }

  ghost function CommitInputs(data: VerificationData): set<Bytes> {
    {data.proof} + OptionInputs(data.pubInput) + OptionInputs(data.Aux())
  }

  /**
   What two commitments can tell about program code and key: the code where there is code, else the key. A key
   beside code is free, and a code is not told from a key of the same bytes.
   */
  predicate SameAux(a: VerificationData, b: VerificationData) {
    && (a.vmProgramCode.Some? && b.vmProgramCode.Some? ==> a.vmProgramCode == b.vmProgramCode)
    && (a.vmProgramCode.None? && b.vmProgramCode.None? ==> a.verificationKey == b.verificationKey)
    && (a.vmProgramCode.Some? && b.vmProgramCode.None? ==> a.vmProgramCode == b.verificationKey)
    && (a.vmProgramCode.None? && b.vmProgramCode.Some? ==> a.verificationKey == b.vmProgramCode)
  }

  /**
   A commitment binds the proof, the public input, the program code or else the key, and the generator's
   address, and nothing else: the proving system is free.
   */
  lemma CommitBinds(h: Hash, a: VerificationData, b: VerificationData)
    requires NoCollision(h, CommitInputs(a) + CommitInputs(b))
    requires forall x :: x in CommitInputs(a) + CommitInputs(b) ==> h(x) != ZERO
    ensures Commit(h, a) == Commit(h, b) <==>
            a.proof == b.proof && a.pubInput == b.pubInput && SameAux(a, b) && a.generator == b.generator
  {
    HashOptionBinds(h, CommitInputs(a) + CommitInputs(b), a.pubInput, b.pubInput);
    HashOptionBinds(h, CommitInputs(a) + CommitInputs(b), a.Aux(), b.Aux());
  }

  lemma HashOptionBinds(h: Hash, inputs: set<Bytes>, a: Option<Bytes>, b: Option<Bytes>)
    requires NoCollision(h, inputs) && OptionInputs(a) + OptionInputs(b) <= inputs
    requires forall x :: x in inputs ==> h(x) != ZERO
    ensures HashOption(h, a) == HashOption(h, b) <==> a == b
  {
    if a.Some? {
      assert a.value in inputs;
    }
    if b.Some? {
      assert b.value in inputs;
    }
  }

  // ---------- the tree's backend ----------

  /** The 116 bytes hashed for a leaf. */
  function LeafBytes(c: VerificationDataCommitment): (b: Bytes)
    ensures |b| == 116
  {
    c.proof + c.pubInput + c.aux + c.generator
  }

  lemma LeafBytesInjective(a: VerificationDataCommitment, b: VerificationDataCommitment)
    requires LeafBytes(a) == LeafBytes(b)
    ensures a == b
  {
    var x, y := LeafBytes(a), LeafBytes(b);
    assert x[..32] == a.proof && y[..32] == b.proof;
    assert x[32..64] == a.pubInput && y[32..64] == b.pubInput;
    assert x[64..96] == a.aux && y[64..96] == b.aux;
    assert x[96..] == a.generator && y[96..] == b.generator;
  }

  method HashData(h: Hash, c: VerificationDataCommitment) returns (node: Digest)
    ensures node == h(LeafBytes(c)) == h(c.proof + c.pubInput + c.aux + c.generator)
  {
    var hasher := new Hasher(h);
    hasher.Update(c.proof);
    hasher.Update(c.pubInput);
    hasher.Update(c.aux);
    hasher.Update(c.generator);
    assert hasher.absorbed == LeafBytes(c);
    node := hasher.FinalizeReset();
  }

  method HashNewParent(h: Hash, left: Digest, right: Digest) returns (node: Digest)
    ensures node == h(Pair(left, right)) == h(left + right)
  {
    var hasher := new Hasher(h);
    hasher.Update(left);
    hasher.Update(right);
    assert hasher.absorbed == Pair(left, right);
    node := hasher.FinalizeReset();
  }

  function Leaves(batch: seq<VerificationDataCommitment>): (leaves: seq<Bytes>)
    ensures |leaves| == |batch| && forall i :: 0 <= i < |batch| ==> leaves[i] == LeafBytes(batch[i])
  {
    seq(|batch|, i requires 0 <= i < |batch| => LeafBytes(batch[i]))
  }

  function BatchRoot(h: Hash, batch: seq<VerificationDataCommitment>): Digest
    requires |batch| >= 1
  {
    Root(h, Leaves(batch))
  }

  /** What a client is sent for its entry. */
  datatype BatchInclusionData = BatchInclusionData(
    commitment: VerificationDataCommitment,
    root: Digest,
    path: Path,
    index: nat)

  /** `BatchInclusionData::new` */
  function InclusionData(h: Hash, batch: seq<VerificationDataCommitment>, i: nat): BatchInclusionData
    requires i < |batch|
  {
    BatchInclusionData(batch[i], BatchRoot(h, batch), Proof(h, Leaves(batch), i), i)
  }
}
