/** When a queue is flushed and how much of it, for any item type and serialised size. */
module Split {
  import opened ByteStrings
  import opened Greedy

  datatype Config = Config(maxBlockInterval: nat, minBatchLen: nat, maxProofSize: nat, maxBatchSize: nat)

  /** Serialised size of a list of items: two brackets and a comma between neighbours. */
  function ListSize<T>(size: T -> nat, items: seq<T>): nat {
    if items == [] then 2 else Sum(size, items) + |items| + 1
  }

  /** The two guards of `is_batch_ready`; the sum of block numbers is a 64-bit sum. */
  predicate Ready(config: Config, length: nat, block: nat, last: nat) {
    && length >= 2
    && !(length < config.minBatchLen && block < (last + config.maxBlockInterval) % TWO_TO_THE_64)
  }

  datatype Decision<T> = NotReady | Flush(batch: seq<T>, rest: seq<T>, cleared: bool)

  function Decide<T>(size: T -> nat, config: Config, queue: seq<T>, block: nat, last: nat): Decision<T> {
    if !Ready(config, |queue|, block, last) then NotReady
    else if ListSize(size, queue) > config.maxBatchSize then
      var k := SplitIndex(size, queue, config.maxBatchSize);
      Flush(queue[..k], queue[k..], false)
    else Flush(queue, [], true)
  }

  /**
   When nothing is flushed: a queue below two, or one below the minimum at a block before the last recorded one
   plus the interval. So a queue below the minimum is flushed only once the interval is over.
   */
  lemma NotReadyIff<T>(size: T -> nat, config: Config, queue: seq<T>, block: nat, last: nat)
    ensures Decide(size, config, queue, block, last).NotReady? <==>
            || |queue| < 2
            || (|queue| < config.minBatchLen && block < (last + config.maxBlockInterval) % TWO_TO_THE_64)
  {
  }

  /** Queues from which the split branch takes nothing. */
  predicate NoProgress<T>(size: T -> nat, config: Config, queue: seq<T>) {
    && queue != []
    && (|| size(queue[0]) > config.maxBatchSize
        || Sum(size, queue) <= config.maxBatchSize < Sum(size, queue) + |queue| + 1)
  }

  /**
   What the split branch returns: the longest prefix whose item sizes sum to at most the limit, unless
   the items alone fit, and then nothing. Its text exceeds the limit by at most one byte an item plus one.
   */
  lemma SplitCharacterised<T>(size: T -> nat, config: Config, queue: seq<T>, block: nat, last: nat)
    requires Decide(size, config, queue, block, last).Flush? && !Decide(size, config, queue, block, last).cleared
    ensures var d, limit := Decide(size, config, queue, block, last), config.maxBatchSize;
            && d.batch + d.rest == queue && d.rest != []
            && (d.batch == [] <==> NoProgress(size, config, queue))
            && Sum(size, d.batch) <= limit
            && (d.batch != [] ==>
                  forall k :: 0 <= k <= |queue| ==> (Sum(size, queue[..k]) <= limit <==> k <= |d.batch|))
            && (d.batch != [] ==> ListSize(size, d.batch) <= limit + |d.batch| + 1)
  {
    var d, limit := Decide(size, config, queue, block, last), config.maxBatchSize;
    assert queue[..|queue|] == queue;
    if Sum(size, queue) > limit {
      forall k | 0 <= k <= |queue|
        ensures Sum(size, queue[..k]) <= limit <==> k <= |d.batch|
      {
        FitIsLongest(size, queue, limit, k);
      }
      assert Sum(size, d.batch) <= limit;
    }
  }

  /**
   The queue is cleared, to the last of at least two items, exactly when its text fits the limit; every other
   flush leaves something behind.
   */
  lemma ClearCharacterised<T>(size: T -> nat, config: Config, queue: seq<T>, block: nat, last: nat)
    requires Decide(size, config, queue, block, last).Flush?
    ensures Decide(size, config, queue, block, last).cleared <==> Sum(size, queue) + |queue| + 1 <= config.maxBatchSize
    ensures Decide(size, config, queue, block, last).cleared ==>
              Decide(size, config, queue, block, last) == Flush(queue, [], true) && |queue| >= 2
    ensures Decide(size, config, queue, block, last).cleared <==> Decide(size, config, queue, block, last).rest == []
  {
    if !Decide(size, config, queue, block, last).cleared {
      SplitCharacterised(size, config, queue, block, last);
    }
  }

  /**
   When a flushed batch has the two entries that the readiness guard asks of the queue: exactly when the whole
   text fits, or the first two items fit and all of them together do not.
   */
  lemma BatchOfTwoIff<T>(size: T -> nat, config: Config, queue: seq<T>, block: nat, last: nat)
    requires Ready(config, |queue|, block, last)
    ensures Decide(size, config, queue, block, last).Flush?
    ensures |Decide(size, config, queue, block, last).batch| >= 2 <==>
            || Sum(size, queue) + |queue| + 1 <= config.maxBatchSize
            || size(queue[0]) + size(queue[1]) <= config.maxBatchSize < Sum(size, queue)
  {
    var d := Decide(size, config, queue, block, last);
    SumSnoc(size, queue, 0);
    SumSnoc(size, queue, 1);
    if !d.cleared && d.batch != [] {
      SplitCharacterised(size, config, queue, block, last);
    } else if !d.cleared {
      SplitCharacterised(size, config, queue, block, last);
      SumPrefix(size, queue, 1, 2);
    }
  }

  /** The readiness guard asks for two entries, yet a split can return a batch of one. */
  lemma SplitCanReturnOne<T>(size: T -> nat, config: Config, a: T, b: T, block: nat, last: nat)
    requires Ready(config, 2, block, last)
    requires size(a) <= config.maxBatchSize < size(a) + size(b)
    ensures Decide(size, config, [a, b], block, last) == Flush([a], [b], false)
  {
    var q := [a, b];
    assert q[1..] == [b];
    assert Sum(size, [b]) == size(b) + Sum(size, [b][1..]);
    assert Fit(size, [b], config.maxBatchSize - size(a)) == 0;
  }

  /** The first `k` items fit, the next one does not, and the first `k` are too long with brackets and commas. */
  predicate Overshoots<T>(size: T -> nat, queue: seq<T>, limit: nat, k: nat) {
    0 < k < |queue| && limit - k - 1 < Sum(size, queue[..k]) <= limit < Sum(size, queue[..k + 1])
  }

  /** A flushed batch's text exceeds the limit exactly when some prefix of the queue overshoots. */
  lemma TextExceedsIff<T>(size: T -> nat, config: Config, queue: seq<T>, block: nat, last: nat)
    requires Ready(config, |queue|, block, last)
    ensures var batch := Decide(size, config, queue, block, last).batch;
            batch != [] && ListSize(size, batch) > config.maxBatchSize <==>
            exists k: nat :: Overshoots(size, queue, config.maxBatchSize, k)
  {
    var d, limit := Decide(size, config, queue, block, last), config.maxBatchSize;
    if d.batch != [] && ListSize(size, d.batch) > limit {
      SplitCharacterised(size, config, queue, block, last);
      assert queue[..|d.batch|] == d.batch;
      assert Overshoots(size, queue, limit, |d.batch|);
    }
    if k: nat :| Overshoots(size, queue, limit, k) {
      OvershootIsTaken(size, config, queue, block, last, k);
    }
  }

  /** An overshooting prefix is the batch that is flushed. */
  lemma OvershootIsTaken<T>(size: T -> nat, config: Config, queue: seq<T>, block: nat, last: nat, k: nat)
    requires Ready(config, |queue|, block, last) && Overshoots(size, queue, config.maxBatchSize, k)
    ensures Decide(size, config, queue, block, last) == Flush(queue[..k], queue[k..], false)
    ensures ListSize(size, queue[..k]) > config.maxBatchSize
  {
    SumPrefix(size, queue, k + 1, |queue|);
    assert queue[..|queue|] == queue;
    FitIsLongest(size, queue, config.maxBatchSize, k);
    FitIsLongest(size, queue, config.maxBatchSize, k + 1);
  }

  /**
   Any number of items can reach the greatest excess, one byte an item and one more: `k` items of exactly the
   limit, with anything behind them.
   */
  lemma ExcessIsReached<T>(size: T -> nat, config: Config, queue: seq<T>, block: nat, last: nat, k: nat)
    requires Ready(config, |queue|, block, last)
    requires 0 < k < |queue| && Sum(size, queue[..k]) == config.maxBatchSize && size(queue[k]) > 0
    ensures Decide(size, config, queue, block, last) == Flush(queue[..k], queue[k..], false)
    ensures ListSize(size, queue[..k]) == config.maxBatchSize + k + 1
  {
    SumSnoc(size, queue, k);
    OvershootIsTaken(size, config, queue, block, last, k);
  }

  /** Every batch taken from the front of a queue leaves the list of batches tight. */
  lemma DecisionIsTight<T>(size: T -> nat, config: Config, queue: seq<T>, block: nat, last: nat)
    requires Decide(size, config, queue, block, last).Flush?
    ensures var d := Decide(size, config, queue, block, last);
            d.batch + d.rest == queue && Tight(size, [Cut(d.batch, d.cleared)], d.rest, config.maxBatchSize)
  {
    var d, limit := Decide(size, config, queue, block, last), config.maxBatchSize;
    var cuts := [Cut(d.batch, d.cleared)];
    assert Flatten(cuts[1..]) + d.rest == d.rest;
    assert Tight(size, cuts[1..], d.rest, limit);
    if !d.cleared {
      SplitCharacterised(size, config, queue, block, last);
      if d.batch != [] {
        SumSnoc(size, queue, |d.batch|);
        assert queue[..|d.batch|] == d.batch;
      }
    }
  }

  /** The split loop, over items of any size. */
  method SplitLoop<T>(size: T -> nat, items: seq<T>, limit: nat) returns (finalizedBatchIdx: nat)
    ensures finalizedBatchIdx == SplitIndex(size, items, limit)
  {
    var accBatchSize, idx := 0, 0;
    finalizedBatchIdx := 0;
    while idx < |items|
      invariant 0 <= idx <= |items| && finalizedBatchIdx == 0
      invariant accBatchSize == Sum(size, items[..idx]) <= limit
    {
      SumSnoc(size, items, idx);
      accBatchSize := accBatchSize + size(items[idx]);
      if accBatchSize > limit {
        finalizedBatchIdx := idx;
        break;
      }
      idx := idx + 1;
    }
    SplitLoopStops(size, items, limit, idx, finalizedBatchIdx);
  }
}
