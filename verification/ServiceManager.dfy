/** The contract's task state machine: any callers, reverting transactions, whole runs. */
module ServiceManager {
  import opened ByteStrings
  import opened Merkle
  import opened Commitment

  const THRESHOLD_DENOMINATOR: nat := 100
  const QUORUM_THRESHOLD_PERCENTAGE: nat := 67
  const TWO_TO_THE_96: nat := 0x1_0000_0000_0000_0000_0000_0000

  type uint96 = x: nat | x < TWO_TO_THE_96

  datatype BatchState = BatchState(taskCreatedBlock: nat, responded: bool)

  /** `mapping(bytes32 => BatchState)`: absent keys read as zero. */
  type Batches = map<Digest, BatchState>

  function Get(batches: Batches, root: Digest): BatchState {
    if root in batches then batches[root] else BatchState(0, false)
  }

  /** Outcome of `checkSignatures`, which is code outside the repository. */
  datatype SignatureCheck = BadSignature | Stakes(signed: uint96, total: uint96)

  datatype Tx =
    | CreateNewTask(root: Digest, blockNumber: nat)
    | RespondToTask(root: Digest, check: SignatureCheck)

  datatype Event = NewBatch(root: Digest, taskCreatedBlock: nat) | BatchVerified(root: Digest)

  /** The threshold test. The right product is a checked `uint96` product, so it may revert. */
  predicate MeetsThreshold(check: SignatureCheck) {
    && check.Stakes?
    && check.total * QUORUM_THRESHOLD_PERCENTAGE < TWO_TO_THE_96
    && check.signed * THRESHOLD_DENOMINATOR >= check.total * QUORUM_THRESHOLD_PERCENTAGE
  }

  /** The promise behind the test: valid signatures of at least 67% of a total whose product fits 96 bits. */
  predicate Enough(check: SignatureCheck) {
    check.Stakes? && 100 * check.signed >= 67 * check.total && 67 * check.total < 0x1_0000_0000_0000_0000_0000_0000
  }

  predicate Accepted(batches: Batches, tx: Tx) {
    match tx
    case CreateNewTask(root, _) => Get(batches, root).taskCreatedBlock == 0
    case RespondToTask(root, check) =>
      Get(batches, root).taskCreatedBlock != 0 && !Get(batches, root).responded && MeetsThreshold(check)
  }

  /** A transaction's effect; a revert leaves the state as it was. */
  function Apply(batches: Batches, tx: Tx): Batches {
    if !Accepted(batches, tx) then batches
    else match tx
      case CreateNewTask(root, block) => batches[root := BatchState(block % TWO_TO_THE_32, false)]
      case RespondToTask(root, _) => batches[root := Get(batches, root).(responded := true)]
  }

  function Emitted(batches: Batches, tx: Tx): Option<Event> {
    if !Accepted(batches, tx) then None
    else match tx
      case CreateNewTask(root, block) => Some(NewBatch(root, block % TWO_TO_THE_32))
      case RespondToTask(root, _) => Some(BatchVerified(root))
  }

  class AlignedLayerServiceManager {
    var batchesState: Batches
    var events: seq<Event>

    constructor ()
      ensures batchesState == map[] && events == []
    {
      batchesState, events := map[], [];
    }

    method CreateNewTask(batchMerkleRoot: Digest, blockNumber: nat) returns (ok: bool)
      modifies this
      ensures batchesState == Apply(old(batchesState), Tx.CreateNewTask(batchMerkleRoot, blockNumber))
      ensures var e := Emitted(old(batchesState), Tx.CreateNewTask(batchMerkleRoot, blockNumber));
              ok == e.Some? && events == old(events) + if ok then [e.value] else []
      ensures ok <==> Get(old(batchesState), batchMerkleRoot).taskCreatedBlock == 0
      ensures ok ==> events == old(events) + [NewBatch(batchMerkleRoot, blockNumber % TWO_TO_THE_32)]
      ensures var task := BatchState(blockNumber % TWO_TO_THE_32, false);
              ok ==> batchesState == old(batchesState)[batchMerkleRoot := task]
      ensures !ok ==> batchesState == old(batchesState)
    {
      if Get(batchesState, batchMerkleRoot).taskCreatedBlock != 0 {
        return false;
      }
      var batchState := BatchState(blockNumber % TWO_TO_THE_32, false);
      batchesState := batchesState[batchMerkleRoot := batchState];
      events := events + [NewBatch(batchMerkleRoot, blockNumber % TWO_TO_THE_32)];
      return true;
    }

    /** `responded` is set before the signatures are checked; a failed check undoes it. */
    method RespondToTask(batchMerkleRoot: Digest, check: SignatureCheck) returns (ok: bool)
      modifies this
      ensures batchesState == Apply(old(batchesState), Tx.RespondToTask(batchMerkleRoot, check))
      ensures var e := Emitted(old(batchesState), Tx.RespondToTask(batchMerkleRoot, check));
              ok == e.Some? && events == old(events) + if ok then [e.value] else []
      ensures var state := Get(old(batchesState), batchMerkleRoot);
              && (ok <==> state.taskCreatedBlock != 0 && !state.responded && Enough(check))
              && (ok ==> events == old(events) + [BatchVerified(batchMerkleRoot)])
              && (ok ==> batchesState == old(batchesState)[batchMerkleRoot := BatchState(state.taskCreatedBlock, true)])
              && (!ok ==> batchesState == old(batchesState))
    {
      var checkpoint := batchesState;
      if Get(batchesState, batchMerkleRoot).taskCreatedBlock == 0 {
        return false;
      }
      if Get(batchesState, batchMerkleRoot).responded {
        return false;
      }
      batchesState := batchesState[batchMerkleRoot := Get(batchesState, batchMerkleRoot).(responded := true)];
      match check {
        case BadSignature =>
          batchesState := checkpoint;
          return false;
        case Stakes(signed, total) =>
          var required := total * QUORUM_THRESHOLD_PERCENTAGE;
          if required >= TWO_TO_THE_96 || signed * THRESHOLD_DENOMINATOR < required {
            batchesState := checkpoint;
            return false;
          }
      }
      events := events + [BatchVerified(batchMerkleRoot)];
      return true;
    }

    method VerifyBatchInclusion(h: Hash, commitment: VerificationDataCommitment, batchMerkleRoot: Digest,
                                merkleProof: Bytes, index: nat) returns (answer: InclusionAnswer)
      ensures answer == InclusionQuery(h, batchesState, commitment, batchMerkleRoot, merkleProof, index)
    {
      if Get(batchesState, batchMerkleRoot).taskCreatedBlock == 0 {
        return Answer(false);
      }
      if !Get(batchesState, batchMerkleRoot).responded {
        return Answer(false);
      }
      var leaf := commitment.proof + commitment.pubInput + commitment.aux + commitment.generator;
      assert leaf == LeafBytes(commitment);
      var result := ProcessInclusionProof(h, merkleProof, h(leaf), index);
      match result {
        case Revert => return Reverted;
        case Computed(root) => return Answer(root == batchMerkleRoot);
      }
    }
  }

  datatype InclusionAnswer = Answer(included: bool) | Reverted

  function InclusionQuery(h: Hash, batches: Batches, commitment: VerificationDataCommitment, root: Digest,
                          proof: Bytes, index: nat): InclusionAnswer
  {
    if Get(batches, root).taskCreatedBlock == 0 || !Get(batches, root).responded then Answer(false)
    else if |proof| % 32 != 0 then Reverted
    else Answer(Fold(h, h(LeafBytes(commitment)), Chunks(proof), index) == root)
  }

  // ---------- whole runs ----------

  function Run(batches: Batches, txs: seq<Tx>): Batches
    decreases |txs|
  {
    if txs == [] then batches else Run(Apply(batches, txs[0]), txs[1..])
  }

  /** The event of transaction `i` of a run, if it did not revert. */
  function EventAt(batches: Batches, txs: seq<Tx>, i: nat): Option<Event>
    requires i < |txs|
    decreases |txs|
  {
    if i == 0 then Emitted(batches, txs[0]) else EventAt(Apply(batches, txs[0]), txs[1..], i - 1)
  }

  /** Transaction `i` emits a `NewBatch` for the root. */
  predicate Announces(batches: Batches, txs: seq<Tx>, root: Digest, i: nat)
    requires i < |txs|
  {
    var event := EventAt(batches, txs, i);
    event.Some? && event.value.NewBatch? && event.value.root == root
  }

  lemma {:induction false} RunAppend(batches: Batches, txs: seq<Tx>, more: seq<Tx>)
    ensures Run(batches, txs + more) == Run(Run(batches, txs), more)
    decreases |txs|
  {
    if txs == [] {
      assert txs + more == more;
    } else {
      assert (txs + more)[1..] == txs[1..] + more;
      RunAppend(Apply(batches, txs[0]), txs[1..], more);
    }
  }

  /** Once a root's task exists its block never changes, and a response is never taken back. */
  lemma {:induction false} StatusIsPermanent(batches: Batches, txs: seq<Tx>, root: Digest)
    requires Get(batches, root).taskCreatedBlock != 0
    ensures Get(Run(batches, txs), root).taskCreatedBlock == Get(batches, root).taskCreatedBlock
    ensures Get(batches, root).responded ==> Get(Run(batches, txs), root).responded
    decreases |txs|
  {
    if txs != [] {
      StatusIsPermanent(Apply(batches, txs[0]), txs[1..], root);
    }
  }

  /** An accepted inclusion query stays accepted over every later run of transactions. */
  lemma AcceptedForever(h: Hash, batches: Batches, txs: seq<Tx>, commitment: VerificationDataCommitment, root: Digest,
                        proof: Bytes, index: nat)
    requires InclusionQuery(h, batches, commitment, root, proof, index) == Answer(true)
    ensures InclusionQuery(h, Run(batches, txs), commitment, root, proof, index) == Answer(true)
  {
    StatusIsPermanent(batches, txs, root);
  }

  /** No root is verified again in a run that starts with it already responded. */
  lemma {:induction false} NeverVerifiedAgain(batches: Batches, txs: seq<Tx>, root: Digest, i: nat)
    requires Get(batches, root).taskCreatedBlock != 0 && Get(batches, root).responded
    requires i < |txs|
    ensures EventAt(batches, txs, i) != Some(BatchVerified(root))
    decreases |txs|
  {
    if i > 0 {
      NeverVerifiedAgain(Apply(batches, txs[0]), txs[1..], root, i - 1);
    }
  }

  /** After `BatchVerified`, the root is never verified again. */
  lemma {:induction false} VerifiedAtMostOnce(batches: Batches, txs: seq<Tx>, root: Digest, i: nat, j: nat)
    requires i < j < |txs|
    requires EventAt(batches, txs, i) == Some(BatchVerified(root))
    ensures EventAt(batches, txs, j) != Some(BatchVerified(root))
    decreases i
  {
    if i == 0 {
      NeverVerifiedAgain(Apply(batches, txs[0]), txs[1..], root, j - 1);
    } else {
      VerifiedAtMostOnce(Apply(batches, txs[0]), txs[1..], root, i - 1, j - 1);
    }
  }

  /** What a `BatchVerified` event proves about its own transaction. */
  lemma {:induction false} VerifiedMeetsThreshold(batches: Batches, txs: seq<Tx>, root: Digest, i: nat)
    requires i < |txs| && EventAt(batches, txs, i) == Some(BatchVerified(root))
    ensures txs[i].RespondToTask? && txs[i].root == root && txs[i].check.Stakes?
    ensures 100 * txs[i].check.signed >= 67 * txs[i].check.total
    decreases i
  {
    if i > 0 {
      VerifiedMeetsThreshold(Apply(batches, txs[0]), txs[1..], root, i - 1);
    }
  }

  /** The earlier `NewBatch`, with a non-zero block, that a `BatchVerified` rests on. */
  lemma {:induction false} VerifiedAfterNewBatch(batches: Batches, txs: seq<Tx>, root: Digest, i: nat) returns (j: nat)
    requires Get(batches, root).taskCreatedBlock == 0
    requires i < |txs| && EventAt(batches, txs, i) == Some(BatchVerified(root))
    ensures j < i && Announces(batches, txs, root, j) && EventAt(batches, txs, j).value.taskCreatedBlock != 0
    decreases i
  {
    var next := Apply(batches, txs[0]);
    if Get(next, root).taskCreatedBlock != 0 {
      j := 0;
    } else {
      var k := VerifiedAfterNewBatch(next, txs[1..], root, i - 1);
      j := k + 1;
    }
  }

  /**
   Whole-run safety from the empty state, for any callers: a root has at most one `BatchVerified`,
   after a `NewBatch` of its own, and with at least 67% of the total stake signed.
   */
  lemma RunSafety(txs: seq<Tx>, root: Digest, i: nat)
    requires i < |txs| && EventAt(map[], txs, i) == Some(BatchVerified(root))
    ensures forall j :: 0 <= j < |txs| && EventAt(map[], txs, j) == Some(BatchVerified(root)) ==> j == i
    ensures exists j :: 0 <= j < i && Announces(map[], txs, root, j)
    ensures txs[i].RespondToTask? && txs[i].root == root && txs[i].check.Stakes?
    ensures 100 * txs[i].check.signed >= 67 * txs[i].check.total
  {
    forall j | 0 <= j < |txs| && EventAt(map[], txs, j) == Some(BatchVerified(root))
      ensures j == i
    {
      if j < i {
        VerifiedAtMostOnce(map[], txs, root, j, i);
      } else if i < j {
        VerifiedAtMostOnce(map[], txs, root, i, j);
      }
    }
    VerifiedMeetsThreshold(map[], txs, root, i);
    var j := VerifiedAfterNewBatch(map[], txs, root, i);
  }

  // ---------- creation ----------

  /** A created task is never announced again. */
  lemma {:induction false} NeverCreatedAgain(batches: Batches, txs: seq<Tx>, root: Digest, i: nat)
    requires Get(batches, root).taskCreatedBlock != 0 && i < |txs|
    ensures !Announces(batches, txs, root, i)
    decreases |txs|
  {
    if i > 0 {
      NeverCreatedAgain(Apply(batches, txs[0]), txs[1..], root, i - 1);
    }
  }

  /** A second `NewBatch` of a root is possible only if the first one's block is 0 modulo 2^32. */
  lemma {:induction false} AnnouncedTwice(batches: Batches, txs: seq<Tx>, root: Digest, i: nat, j: nat)
    requires i < j < |txs| && Announces(batches, txs, root, i) && Announces(batches, txs, root, j)
    ensures txs[i].CreateNewTask? && txs[i].blockNumber % TWO_TO_THE_32 == 0
    decreases i
  {
    var next := Apply(batches, txs[0]);
    if i == 0 {
      if Get(next, root).taskCreatedBlock != 0 {
        NeverCreatedAgain(next, txs[1..], root, j - 1);
      }
    } else {
      AnnouncedTwice(next, txs[1..], root, i - 1, j - 1);
    }
  }

  /** The transaction stores a task for the root if the root has none: its block is not 0 modulo 2^32. */
  predicate Stores(tx: Tx, root: Digest) {
    tx.CreateNewTask? && tx.root == root && tx.blockNumber % TWO_TO_THE_32 != 0
  }

  /**
   Which transactions of a run announce a root, from the transactions alone: exactly the creations that no
   earlier creation outside the blocks that are 0 modulo 2^32 has come before, whatever happens in between.
   */
  lemma {:induction false} AnnouncesIff(batches: Batches, txs: seq<Tx>, root: Digest, j: nat)
    requires Get(batches, root).taskCreatedBlock == 0 && j < |txs|
    ensures Announces(batches, txs, root, j) <==>
            && txs[j].CreateNewTask? && txs[j].root == root
            && forall i :: 0 <= i < j ==> !Stores(txs[i], root)
    ensures Announces(batches, txs, root, j) ==>
              EventAt(batches, txs, j) == Some(NewBatch(root, txs[j].blockNumber % TWO_TO_THE_32))
    decreases j
  {
    if j > 0 {
      var next := Apply(batches, txs[0]);
      if Stores(txs[0], root) {
        NeverCreatedAgain(next, txs[1..], root, j - 1);
      } else {
        AnnouncesIff(next, txs[1..], root, j - 1);
        assert forall i :: 1 <= i < j ==> txs[i] == txs[1..][i - 1];
        assert forall i :: 0 <= i < j - 1 ==> txs[1..][i] == txs[i + 1];
      }
    }
  }

  /**
   A successful creation can be repeated immediately exactly when the block number is 0 modulo 2^32;
   otherwise the task exists from then on.
   */
  lemma CreationSticksIff(batches: Batches, root: Digest, block: nat, again: nat)
    requires Accepted(batches, CreateNewTask(root, block))
    ensures Accepted(Apply(batches, CreateNewTask(root, block)), CreateNewTask(root, again)) <==>
            block % TWO_TO_THE_32 == 0
  {
    assert Get(Apply(batches, CreateNewTask(root, block)), root).taskCreatedBlock == block % TWO_TO_THE_32;
  }

  /** A run in which one root is announced twice: two creations in block 2^32. */
  lemma AnnouncedTwiceExample(root: Digest)
    ensures var txs := [CreateNewTask(root, TWO_TO_THE_32), CreateNewTask(root, TWO_TO_THE_32)];
            Announces(map[], txs, root, 0) && Announces(map[], txs, root, 1)
  {
    var txs := [CreateNewTask(root, TWO_TO_THE_32), CreateNewTask(root, TWO_TO_THE_32)];
    assert EventAt(map[], txs, 1) == EventAt(Apply(map[], txs[0]), txs[1..], 0);
  }

  // ---------- the state of a root, from the transactions alone ----------

  /** Some transaction stores a task for the root. */
  ghost predicate Created(txs: seq<Tx>, root: Digest) {
    exists i :: 0 <= i < |txs| && Stores(txs[i], root)
  }

  /** A response for the root with enough stake behind it. */
  predicate Qualifies(tx: Tx, root: Digest) {
    tx.RespondToTask? && tx.root == root && Enough(tx.check)
  }

  /** Some qualifying response comes after a transaction that stores the task. */
  ghost predicate Answered(txs: seq<Tx>, root: Digest) {
    exists i, k :: 0 <= i < k < |txs| && Stores(txs[i], root) && Qualifies(txs[k], root)
  }

  lemma LastTx(batches: Batches, txs: seq<Tx>)
    requires txs != []
    ensures var n := |txs| - 1; Run(batches, txs) == Apply(Run(batches, txs[..n]), txs[n])
  {
    var n := |txs| - 1;
    assert txs == txs[..n] + [txs[n]];
    RunAppend(batches, txs[..n], [txs[n]]);
    var middle := Run(batches, txs[..n]);
    assert Run(middle, [txs[n]]) == Run(Apply(middle, txs[n]), [txs[n]][1..]);
  }

  /** What the contract stores for a root after any run: whether it was created, and whether it was answered. */
  lemma {:induction false} StatusIs(txs: seq<Tx>, root: Digest)
    ensures var state := Get(Run(map[], txs), root);
            (state.taskCreatedBlock != 0 <==> Created(txs, root)) && (state.responded <==> Answered(txs, root))
    decreases |txs|
  {
    if txs != [] {
      var n := |txs| - 1;
      StatusIs(txs[..n], root);
      LastTx(map[], txs);
      CreatedSnoc(txs, root);
      AnsweredSnoc(txs, root);
    }
  }

  lemma CreatedSnoc(txs: seq<Tx>, root: Digest)
    requires txs != []
    ensures var n := |txs| - 1; Created(txs, root) <==> Created(txs[..n], root) || Stores(txs[n], root)
  {
    var n := |txs| - 1;
    if Created(txs[..n], root) {
      var i :| 0 <= i < n && Stores(txs[..n][i], root);
      assert Stores(txs[i], root);
    }
    if Created(txs, root) && !Stores(txs[n], root) {
      var i :| 0 <= i < |txs| && Stores(txs[i], root);
      assert Stores(txs[..n][i], root);
    }
  }

  lemma AnsweredSnoc(txs: seq<Tx>, root: Digest)
    requires txs != []
    ensures var n := |txs| - 1;
            Answered(txs, root) <==> Answered(txs[..n], root) || (Created(txs[..n], root) && Qualifies(txs[n], root))
  {
    var n := |txs| - 1;
    var before := txs[..n];
    if Answered(txs, root) {
      var i, k :| 0 <= i < k < |txs| && Stores(txs[i], root) && Qualifies(txs[k], root);
      assert Stores(before[i], root) && (k < n ==> Qualifies(before[k], root));
    }
    if Answered(before, root) {
      var i, k :| 0 <= i < k < n && Stores(before[i], root) && Qualifies(before[k], root);
      assert Stores(txs[i], root) && Qualifies(txs[k], root);
    }
    if Created(before, root) && Qualifies(txs[n], root) {
      var i :| 0 <= i < n && Stores(before[i], root);
      assert Stores(txs[i], root);
    }
  }

  /** A transaction's event is that of the state the ones before it lead to. */
  lemma {:induction false} EventIs(batches: Batches, txs: seq<Tx>, j: nat)
    requires j < |txs|
    ensures EventAt(batches, txs, j) == Emitted(Run(batches, txs[..j]), txs[j])
    decreases j
  {
    if j > 0 {
      EventIs(Apply(batches, txs[0]), txs[1..], j - 1);
      assert txs[..j][1..] == txs[1..][..j - 1];
    }
  }

  /**
   Which transactions verify a root, from the transactions alone: exactly the responses with enough stake that
   come after a creation outside the blocks that are 0 modulo 2^32 and before any other such response.
   */
  lemma VerifiesIff(txs: seq<Tx>, root: Digest, j: nat)
    requires j < |txs|
    ensures EventAt(map[], txs, j) == Some(BatchVerified(root)) <==>
            Qualifies(txs[j], root) && Created(txs[..j], root) && !Answered(txs[..j], root)
  {
    EventIs(map[], txs, j);
    StatusIs(txs[..j], root);
  }

  /** The stored block is that of the first creation that stores, for ever. */
  lemma StoredBlockIs(txs: seq<Tx>, root: Digest, i: nat)
    requires i < |txs| && Stores(txs[i], root) && forall k :: 0 <= k < i ==> !Stores(txs[k], root)
    ensures Get(Run(map[], txs), root).taskCreatedBlock == txs[i].blockNumber % TWO_TO_THE_32
  {
    StatusIs(txs[..i], root);
    assert !Created(txs[..i], root);
    hide Created, Answered;
    LastTx(map[], txs[..i + 1]);
    assert txs[..i + 1][..i] == txs[..i];
    assert Get(Run(map[], txs[..i + 1]), root).taskCreatedBlock == txs[i].blockNumber % TWO_TO_THE_32;
    hide Run, Apply, Accepted;
    assert txs == txs[..i + 1] + txs[i + 1..];
    RunAppend(map[], txs[..i + 1], txs[i + 1..]);
    StatusIsPermanent(Run(map[], txs[..i + 1]), txs[i + 1..], root);
  }

  /** The stored flag is the event: a root is responded exactly when its `BatchVerified` has been emitted. */
  lemma RespondedIff(txs: seq<Tx>, root: Digest)
    ensures Get(Run(map[], txs), root).responded <==>
            exists j :: 0 <= j < |txs| && EventAt(map[], txs, j) == Some(BatchVerified(root))
  {
    StatusIs(txs, root);
    if Answered(txs, root) {
      var j := FirstAnswer(txs, root);
      VerifiesIff(txs, root, j);
    }
    if j :| 0 <= j < |txs| && EventAt(map[], txs, j) == Some(BatchVerified(root)) {
      VerifiesIff(txs, root, j);
      var i :| 0 <= i < j && Stores(txs[..j][i], root);
      assert Stores(txs[i], root) && Qualifies(txs[j], root);
    }
  }

  lemma {:induction false} FirstAnswer(txs: seq<Tx>, root: Digest) returns (j: nat)
    requires Answered(txs, root)
    ensures j < |txs| && Qualifies(txs[j], root) && Created(txs[..j], root) && !Answered(txs[..j], root)
    decreases |txs|
  {
    j := |txs| - 1;
    AnsweredSnoc(txs, root);
    if Answered(txs[..j], root) {
      var k := FirstAnswer(txs[..j], root);
      assert txs[..j][..k] == txs[..k];
      j := k;
    }
  }

  /** An accepted inclusion query rests on a response with enough stake, and one on a stored task, in that order. */
  lemma AcceptedQueryWasVerified(h: Hash, txs: seq<Tx>, commitment: VerificationDataCommitment, root: Digest,
                                 proof: Bytes, index: nat) returns (i: nat, j: nat)
    requires InclusionQuery(h, Run(map[], txs), commitment, root, proof, index) == Answer(true)
    ensures i < j < |txs| && Stores(txs[i], root) && EventAt(map[], txs, j) == Some(BatchVerified(root))
    ensures txs[j].RespondToTask? && txs[j].root == root && Enough(txs[j].check)
  {
    StatusIs(txs, root);
    j := FirstAnswer(txs, root);
    VerifiesIff(txs, root, j);
    i :| 0 <= i < j && Stores(txs[..j][i], root);
  }

  /**
   Whether an open task can be verified at all: some signed part of the stake is accepted, the whole of it for
   one, exactly when 67 times the stake fits 96 bits. Beyond that no amount of signatures verifies the root.
   */
  lemma FullySignedAcceptedIff(batches: Batches, root: Digest, total: uint96)
    requires Get(batches, root).taskCreatedBlock != 0 && !Get(batches, root).responded
    ensures Emitted(batches, RespondToTask(root, Stakes(total, total))) == Some(BatchVerified(root))
            <==> 67 * total < TWO_TO_THE_96
    ensures (exists signed: uint96 :: signed <= total && MeetsThreshold(Stakes(signed, total)))
            <==> 67 * total < TWO_TO_THE_96
  {
    if 67 * total < TWO_TO_THE_96 {
      assert MeetsThreshold(Stakes(total, total));
    }
  }
}
