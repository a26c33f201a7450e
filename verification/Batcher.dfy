/** The batch queue, the greedy split and the flush loop of one block handler. */
module Batcher {
  import opened ByteStrings
  import opened Merkle
  import opened Commitment
  import opened Json
  import opened Greedy
  import opened Split

  /** A client's data, its commitment and the connection to answer on. */
  datatype Entry = Entry(data: VerificationData, commitment: VerificationDataCommitment, sink: nat)

  function Datas(queue: seq<Entry>): (datas: seq<VerificationData>)
    ensures |datas| == |queue|
  {
    if queue == [] then [] else [queue[0].data] + Datas(queue[1..])
  }

  function Commitments(queue: seq<Entry>): (commitments: seq<VerificationDataCommitment>)
    ensures |commitments| == |queue| && forall i :: 0 <= i < |queue| ==> commitments[i] == queue[i].commitment
  {
    seq(|queue|, i requires 0 <= i < |queue| => queue[i].commitment)
  }

  function EntrySize(e: Entry): nat {
    Size(e.data)
  }

  /** Size of the serialised batch, brackets and commas included. */
  function BatchSize(queue: seq<Entry>): nat {
    |ArrayText(Texts(Datas(queue)))|
  }

  lemma {:induction false} SumIsSizeSum(queue: seq<Entry>)
    ensures SizeSum(Datas(queue)) == Sum(EntrySize, queue)
  {
    if queue != [] {
      SumIsSizeSum(queue[1..]);
      assert Datas(queue)[1..] == Datas(queue[1..]);
    }
  }

  /** The serialised size is the sum of the item sizes plus one byte an item plus one. */
  lemma BatchSizeIs(queue: seq<Entry>)
    ensures BatchSize(queue) == ListSize(EntrySize, queue)
  {
    SumIsSizeSum(queue);
    BatchTextSize(Datas(queue));
    if queue != [] {
      assert Datas(queue) != [];
    }
  }

  method SerializedSize(queue: seq<Entry>) returns (n: nat)
    ensures n == ListSize(EntrySize, queue)
  {
    n := |ArrayText(Texts(Datas(queue)))|;
    BatchSizeIs(queue);
  }

  // ---------- responses ----------

  datatype Response = Response(sink: nat, data: BatchInclusionData)

  /** The response to entry `i`: its own commitment and index, and its path in the batch's tree. */
  function ResponseTo(h: Hash, batch: seq<Entry>, i: nat): Response
    requires i < |batch|
  {
    Response(batch[i].sink, InclusionData(h, Commitments(batch), i))
  }

  /** The responses to the first `n` entries, in order. */
  function FirstResponses(h: Hash, batch: seq<Entry>, n: nat): (responses: seq<Response>)
    requires n <= |batch|
    ensures |responses| == n
  {
    if n == 0 then [] else FirstResponses(h, batch, n - 1) + [ResponseTo(h, batch, n - 1)]
  }

  function Responses(h: Hash, batch: seq<Entry>): (responses: seq<Response>)
    ensures |responses| == |batch|
  {
    FirstResponses(h, batch, |batch|)
  }

  lemma ResponseFields(h: Hash, batch: seq<Entry>, i: nat)
    requires i < |batch|
    ensures var r, leaves := ResponseTo(h, batch, i), Leaves(Commitments(batch));
            && r.sink == batch[i].sink && r.data.commitment == batch[i].commitment && r.data.index == i
            && r.data.root == Root(h, leaves) && r.data.path == Proof(h, leaves, i)
  {
  }

  lemma {:induction false} FirstResponsesAt(h: Hash, batch: seq<Entry>, n: nat, i: nat)
    requires i < n <= |batch|
    ensures FirstResponses(h, batch, n)[i] == ResponseTo(h, batch, i)
    ensures var r, leaves := FirstResponses(h, batch, n)[i], Leaves(Commitments(batch));
            && r.sink == batch[i].sink && r.data.commitment == batch[i].commitment && r.data.index == i
            && r.data.root == Root(h, leaves) && r.data.path == Proof(h, leaves, i)
  {
    ResponseFields(h, batch, i);
    hide ResponseTo;
    if i < n - 1 {
      FirstResponsesAt(h, batch, n - 1, i);
    }
  }

  // ---------- the batcher ----------

  /**
   How one call of `finalize_batch` ends. `Dropped` stands for a stream error and for the panics on the
   way to the upload: the batch is gone and the handler ends.
   */
  datatype Outcome = Submitted | Dropped

  /** One turn of the flush loop: messages handled before it, and how its batch ends. */
  datatype Turn = Turn(arrivals: seq<(VerificationData, nat)>, outcome: Outcome)

  datatype Stop = OutOfTurns | QueueNotReady | BatchDropped

  datatype Trace = Trace(cuts: seq<Cut<Entry>>, queue: seq<Entry>, last: nat, stop: Stop)

  function Prepend(cuts: seq<Cut<Entry>>, t: Trace): Trace {
    t.(cuts := cuts + t.cuts)
  }

  lemma PrependSnoc(cuts: seq<Cut<Entry>>, cut: Cut<Entry>, t: Trace)
    ensures Prepend(cuts, Prepend([cut], t)) == Prepend(cuts + [cut], t)
  {
    assert cuts + ([cut] + t.cuts) == (cuts + [cut]) + t.cuts;
  }

  function Enqueue(h: Hash, arrivals: seq<(VerificationData, nat)>): (entries: seq<Entry>)
    ensures |entries| == |arrivals|
    ensures forall i :: 0 <= i < |arrivals| ==>
              entries[i] == Entry(arrivals[i].0, Commit(h, arrivals[i].0), arrivals[i].1)
  {
    seq(|arrivals|, i requires 0 <= i < |arrivals| => Entry(arrivals[i].0, Commit(h, arrivals[i].0), arrivals[i].1))
  }

  /** The flush loop of `handle_new_block`, for as many turns as are given. */
  function Handle(h: Hash, size: Entry -> nat, config: Config, queue: seq<Entry>, last: nat, block: nat,
                  turns: seq<Turn>): Trace
    decreases |turns|
  {
    if turns == [] then Trace([], queue, last, OutOfTurns)
    else
      var now := queue + Enqueue(h, turns[0].arrivals);
      match Decide(size, config, now, block, last)
      case NotReady => Trace([], now, last, QueueNotReady)
      case Flush(batch, rest, cleared) =>
        if turns[0].outcome == Dropped then Trace([Cut(batch, cleared)], rest, last, BatchDropped)
        else
          Prepend([Cut(batch, cleared)], Handle(h, size, config, rest, block, block, turns[1..]))
  }

  class Batcher {
    const h: Hash
    const config: Config
    var batchQueue: seq<Entry>
    var lastUploadedBatchBlock: nat
    /** The batches uploaded, with a task sent for the root of each; an empty one only if the builder takes it. */
    var submitted: seq<seq<Entry>>
    var sent: seq<Response>

    constructor (h: Hash, config: Config, block: nat)
      ensures this.h == h && this.config == config && lastUploadedBatchBlock == block
      ensures batchQueue == [] && submitted == [] && sent == []
    {
      this.h, this.config := h, config;
      batchQueue, lastUploadedBatchBlock, submitted, sent := [], block, [], [];
    }

    /** `handle_message`: oversized proofs and proofs that fail pre-verification are refused. */
    method HandleMessage(data: VerificationData, sink: nat, preVerified: bool) returns (ok: bool)
      modifies this`batchQueue
      ensures ok == (|data.proof| <= config.maxProofSize && preVerified)
      ensures batchQueue == old(batchQueue) + if ok then [Entry(data, Commit(h, data), sink)] else []
    {
      if |data.proof| > config.maxProofSize || !preVerified {
        return false;
      }
      AddToBatch(data, sink);
      return true;
    }

    method AddToBatch(data: VerificationData, sink: nat)
      modifies this`batchQueue
      ensures batchQueue == old(batchQueue) + [Entry(data, Commit(h, data), sink)]
    {
      var commitment := ToCommitment(h, data);
      batchQueue := batchQueue + [Entry(data, commitment, sink)];
    }

    method IsBatchReady(block: nat) returns (ready: bool, batch: seq<Entry>, ghost cleared: bool)
      modifies this`batchQueue
      ensures ready == Decide(EntrySize, config, old(batchQueue), block, lastUploadedBatchBlock).Flush?
      ensures !ready <==>
              || |old(batchQueue)| < 2
              || (|old(batchQueue)| < config.minBatchLen
                  && block < (lastUploadedBatchBlock + config.maxBlockInterval) % TWO_TO_THE_64)
      ensures ready ==>
                Decide(EntrySize, config, old(batchQueue), block, lastUploadedBatchBlock)
                == Flush(batch, batchQueue, cleared)
      ensures !ready ==> batchQueue == old(batchQueue)
    {
      hide EntrySize;
      batch, cleared := [], false;
      var currentBatchLen := |batchQueue|;
      if currentBatchLen < 2 {
        return false, batch, cleared;
      }
      if currentBatchLen < config.minBatchLen
         && block < (lastUploadedBatchBlock + config.maxBlockInterval) % TWO_TO_THE_64 {
        return false, batch, cleared;
      }
      var currentBatchSize := SerializedSize(batchQueue);
      if currentBatchSize > config.maxBatchSize {
        var finalizedBatchIdx := SplitLoop(EntrySize, batchQueue, config.maxBatchSize);
        batch := batchQueue[..finalizedBatchIdx];
        batchQueue := batchQueue[finalizedBatchIdx..];
        return true, batch, false;
      }
      batch, cleared := batchQueue, true;
      batchQueue := [];
      return true, batch, cleared;
    }

    /** Submits the batch, records the block, and answers every client of the batch in order. */
    method FinalizeBatch(block: nat, batch: seq<Entry>, outcome: Outcome) returns (ok: bool)
      modifies this`lastUploadedBatchBlock, this`submitted, this`sent
      ensures ok == (outcome == Submitted)
      ensures lastUploadedBatchBlock == if ok then block else old(lastUploadedBatchBlock)
      ensures submitted == old(submitted) + if ok then [batch] else []
      ensures sent == old(sent) + if ok then Responses(h, batch) else []
    {
      hide Responses;
      if outcome == Dropped {
        return false;
      }
      submitted := submitted + [batch];
      lastUploadedBatchBlock := block;
      SendBatchInclusionDataResponses(batch);
      return true;
    }

    method SendBatchInclusionDataResponses(batch: seq<Entry>)
      modifies this`sent
      ensures sent == old(sent) + Responses(h, batch)
    {
      hide ResponseTo;
      var i := 0;
      while i < |batch|
        invariant 0 <= i <= |batch|
        invariant sent == old(sent) + FirstResponses(h, batch, i)
      {
        sent := sent + [ResponseTo(h, batch, i)];
        i := i + 1;
      }
    }

    /** Messages handled between two turns. */
    method AddAll(arrivals: seq<(VerificationData, nat)>)
      modifies this`batchQueue
      ensures batchQueue == old(batchQueue) + Enqueue(h, arrivals)
    {
      var j := 0;
      while j < |arrivals|
        invariant 0 <= j <= |arrivals| && batchQueue == old(batchQueue) + Enqueue(h, arrivals)[..j]
      {
        AddToBatch(arrivals[j].0, arrivals[j].1);
        j := j + 1;
      }
    }

    /** One turn of the flush loop. */
    method TakeTurn(block: nat, turn: Turn) returns (stop: Option<Stop>, ghost cuts: seq<Cut<Entry>>)
      modifies this
      ensures
        match Decide(EntrySize, config, old(batchQueue) + Enqueue(h, turn.arrivals), block, old(lastUploadedBatchBlock))
        case NotReady =>
          && stop == Some(QueueNotReady) && cuts == [] && batchQueue == old(batchQueue) + Enqueue(h, turn.arrivals)
          && lastUploadedBatchBlock == old(lastUploadedBatchBlock)
          && submitted == old(submitted) && sent == old(sent)
        case Flush(batch, rest, cleared) =>
          && cuts == [Cut(batch, cleared)] && batchQueue == rest
          && if turn.outcome == Dropped then
               && stop == Some(BatchDropped) && lastUploadedBatchBlock == old(lastUploadedBatchBlock)
               && submitted == old(submitted) && sent == old(sent)
             else
               && stop == None && lastUploadedBatchBlock == block
               && submitted == old(submitted) + [batch] && sent == old(sent) + Responses(h, batch)
    {
      hide EntrySize, ResponseTo;
      AddAll(turn.arrivals);
      var ready, batch, cleared := IsBatchReady(block);
      if !ready {
        return Some(QueueNotReady), [];
      }
      cuts := [Cut(batch, cleared)];
      var ok := FinalizeBatch(block, batch, turn.outcome);
      stop := if ok then None else Some(BatchDropped);
    }

    /** One handler run, with the messages that arrive between the turns of its loop. */
    method HandleNewBlock(block: nat, turns: seq<Turn>) returns (ghost cuts: seq<Cut<Entry>>, stop: Stop)
      modifies this
      ensures Handle(h, EntrySize, config, old(batchQueue), old(lastUploadedBatchBlock), block, turns)
              == Trace(cuts, batchQueue, lastUploadedBatchBlock, stop)
      ensures var done := if stop == BatchDropped then cuts[..|cuts| - 1] else cuts;
              submitted == old(submitted) + Batches(done) && sent == old(sent) + SentFor(h, done)
    {
      hide EntrySize, ResponseTo, Responses;
      ghost var goal := Handle(h, EntrySize, config, batchQueue, lastUploadedBatchBlock, block, turns);
      ghost var before, posted := sent, submitted;
      cuts := [];
      var n := 0;
      while n < |turns|
        invariant 0 <= n <= |turns|
        invariant goal ==
          Prepend(cuts, Handle(h, EntrySize, config, batchQueue, lastUploadedBatchBlock, block, turns[n..]))
        invariant submitted == posted + Batches(cuts) && sent == before + SentFor(h, cuts)
      {
        assert turns[n..][1..] == turns[n + 1..];
        var end, taken := TakeTurn(block, turns[n]);
        ghost var earlier := cuts;
        cuts := cuts + taken;
        if end.Some? {
          assert if end == Some(BatchDropped) then cuts[..|cuts| - 1] == earlier else cuts == earlier;
          return cuts, end.value;
        }
        SentGrows(h, before, earlier, taken[0]);
        BatchesGrow(posted, earlier, taken[0]);
        PrependSnoc(earlier, taken[0], Handle(h, EntrySize, config, batchQueue, block, block, turns[n + 1..]));
        n := n + 1;
      }
      return cuts, OutOfTurns;
    }
  }

  function Batches(cuts: seq<Cut<Entry>>): (batches: seq<seq<Entry>>)
    ensures |batches| == |cuts|
    ensures forall j :: 0 <= j < |cuts| ==> batches[j] == cuts[j].batch
  {
    if cuts == [] then [] else [cuts[0].batch] + Batches(cuts[1..])
  }

  lemma BatchesGrow(before: seq<seq<Entry>>, cuts: seq<Cut<Entry>>, cut: Cut<Entry>)
    ensures before + Batches(cuts) + [cut.batch] == before + Batches(cuts + [cut])
  {
  }

  /** The responses to a list of answered batches. */
  function SentFor(h: Hash, cuts: seq<Cut<Entry>>): seq<Response> {
    if cuts == [] then [] else Responses(h, cuts[0].batch) + SentFor(h, cuts[1..])
  }

  lemma {:induction false} SentForSnoc(h: Hash, cuts: seq<Cut<Entry>>, cut: Cut<Entry>)
    ensures SentFor(h, cuts + [cut]) == SentFor(h, cuts) + Responses(h, cut.batch)
  {
    hide Responses;
    if cuts != [] {
      assert (cuts + [cut])[1..] == cuts[1..] + [cut];
      SentForSnoc(h, cuts[1..], cut);
    } else {
      assert [cut][1..] == [];
    }
  }

  lemma SentGrows(h: Hash, before: seq<Response>, cuts: seq<Cut<Entry>>, cut: Cut<Entry>)
    ensures before + SentFor(h, cuts) + Responses(h, cut.batch) == before + SentFor(h, cuts + [cut])
  {
    hide Responses, SentFor;
    SentForSnoc(h, cuts, cut);
    assert (before + SentFor(h, cuts)) + Responses(h, cut.batch)
           == before + (SentFor(h, cuts) + Responses(h, cut.batch));
  }
}
