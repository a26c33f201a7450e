/** From the batcher's answer to the contract's: what an accepted inclusion query means. */
module Inclusion {
  import opened ByteStrings
  import opened Merkle
  import opened Commitment
  import opened Batcher
  import opened ServiceManager
  import BatcherRuns
  import Split

  predicate Verified(batches: Batches, root: Digest) {
    Get(batches, root).taskCreatedBlock != 0 && Get(batches, root).responded
  }

  /** The contract call a client makes with the answer it got: the path flattened, the index as it is. */
  function ClientQuery(h: Hash, batches: Batches, data: BatchInclusionData): InclusionAnswer {
    InclusionQuery(h, batches, data.commitment, data.root, Merkle.Flatten(data.path), data.index)
  }

  /** Completeness: the answer for entry `i` is accepted exactly when the batch's root has been responded to. */
  lemma InclusionComplete(h: Hash, batches: Batches, batch: seq<VerificationDataCommitment>, i: nat)
    requires i < |batch|
    ensures ClientQuery(h, batches, InclusionData(h, batch, i)) == Answer(Verified(batches, BatchRoot(h, batch)))
  {
    var data := InclusionData(h, batch, i);
    ChunksOfFlatten(data.path);
    ProofFolds(h, Leaves(batch), i);
  }

  /**
   Soundness and completeness together. With no collision among the inputs hashed, the contract accepts a
   commitment, a proof and an index for a batch's root exactly when the root has been responded to, the
   proof is the path of the leaf the index selects modulo the tree's width, one sibling a level, and the
   commitment is that leaf's. Padding leaves are the last entry.
   */
  lemma AcceptedIff(h: Hash, batches: Batches, batch: seq<VerificationDataCommitment>,
                    commitment: VerificationDataCommitment, proof: Bytes, index: nat)
    requires |batch| >= 1
    requires |proof| % 32 == 0 ==> Separates(h, Leaves(batch), LeafBytes(commitment), Chunks(proof), index)
    ensures var d := Depth(|batch|);
            InclusionQuery(h, batches, commitment, BatchRoot(h, batch), proof, index) == Answer(true) <==>
            && Verified(batches, BatchRoot(h, batch))
            && proof == Merkle.Flatten(Siblings(h, Leaves(batch), 0, d, index % Pow2(d)))
            && |proof| == 32 * d
            && commitment == batch[Clamp(index % Pow2(d), |batch|)]
  {
    hide Fold, Siblings, Depth, Pow2, LeafBytes, Separates, Node, Chunks, Merkle.Flatten;
    var leaves, d := Leaves(batch), Depth(|batch|);
    var j, path := index % Pow2(d), Siblings(h, leaves, 0, d, index % Pow2(d));
    if |proof| % 32 == 0 {
      FoldsToRootIff(h, leaves, LeafBytes(commitment), Chunks(proof), index);
      FlattenOfChunks(proof);
      ChunksOfFlatten(path);
      if LeafBytes(commitment) == leaves[Clamp(j, |batch|)] {
        LeafBytesInjective(commitment, batch[Clamp(j, |batch|)]);
      }
    }
  }

  /**
   The same over a whole run from deployment, from the transactions alone: accepted exactly when a creation of the
   root that sticks was followed by a response with enough stake, and the entry and its path are the batch's.
   */
  lemma AcceptedAfterRunIff(h: Hash, txs: seq<Tx>, batch: seq<VerificationDataCommitment>,
                            commitment: VerificationDataCommitment, proof: Bytes, index: nat)
    requires |batch| >= 1
    requires |proof| % 32 == 0 ==> Separates(h, Leaves(batch), LeafBytes(commitment), Chunks(proof), index)
    ensures var d := Depth(|batch|);
            InclusionQuery(h, Run(map[], txs), commitment, BatchRoot(h, batch), proof, index) == Answer(true) <==>
            && Answered(txs, BatchRoot(h, batch))
            && proof == Merkle.Flatten(Siblings(h, Leaves(batch), 0, d, index % Pow2(d)))
            && |proof| == 32 * d
            && commitment == batch[Clamp(index % Pow2(d), |batch|)]
  {
    hide Separates, InclusionQuery, Siblings;
    AcceptedIff(h, Run(map[], txs), batch, commitment, proof, index);
    StatusIs(txs, BatchRoot(h, batch));
    AnsweredWasCreated(txs, BatchRoot(h, batch));
  }

  lemma AnsweredWasCreated(txs: seq<Tx>, root: Digest)
    ensures Answered(txs, root) ==> Created(txs, root)
  {
  }

  /**
   What acceptance says about data: if the batch's commitments are those of its data, accepted data has the
   proof, public input, auxiliary data and generator of one entry of the batch.
   */
  lemma AcceptedDataIsInBatch(h: Hash, batches: Batches, batch: seq<Entry>, data: VerificationData, proof: Bytes,
                              index: nat)
    returns (j: nat)
    requires |batch| >= 1 && forall e :: e in batch ==> e.commitment == Commit(h, e.data)
    requires InclusionQuery(h, batches, Commit(h, data), BatchRoot(h, Commitments(batch)), proof, index) == Answer(true)
    requires |proof| % 32 == 0 ==>
               Separates(h, Leaves(Commitments(batch)), LeafBytes(Commit(h, data)), Chunks(proof), index)
    requires forall e :: e in batch ==> NoCollision(h, CommitInputs(data) + CommitInputs(e.data))
    requires forall e, x :: e in batch && x in CommitInputs(data) + CommitInputs(e.data) ==> h(x) != ZERO
    ensures j < |batch|
    ensures data.proof == batch[j].data.proof && data.pubInput == batch[j].data.pubInput
    ensures SameAux(data, batch[j].data) && data.generator == batch[j].data.generator
  {
    AcceptedIff(h, batches, Commitments(batch), Commit(h, data), proof, index);
    j := Clamp(index % Pow2(Depth(|batch|)), |batch|);
    var e := batch[j];
    assert e in batch && Commitments(batch)[j] == e.commitment;
    CommitBinds(h, data, e.data);
  }

  /**
   End to end: whatever the interleaving of the batcher's tasks, a response it sent is accepted by the
   contract as soon as the root in it has been responded to, and after every later transaction; and it
   carries the commitment of data that was pushed for that connection.
   */
  lemma SentResponseIsAccepted(h: Hash, size: Entry -> nat, config: Split.Config, s: BatcherRuns.State, r: Response,
                               batches: Batches, txs: seq<Tx>) returns (e: Entry)
    requires BatcherRuns.Reachable(h, size, config, s) && r in s.sent
    requires Verified(batches, r.data.root)
    ensures ClientQuery(h, Run(batches, txs), r.data) == Answer(true)
    ensures e in s.pushed && e.sink == r.sink && r.data.commitment == Commit(h, e.data)
  {
    var j, i := BatcherRuns.ResponsesAreSound(h, size, config, s, r);
    var batch := s.cuts[j].batch;
    e := batch[i];
    StatusIsPermanent(batches, txs, r.data.root);
    InclusionComplete(h, Run(batches, txs), Commitments(batch), i);
  }
}
