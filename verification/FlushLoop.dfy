/** What one handler run does to the queue: conservation, optimality of the cuts, termination. */
module FlushLoop {
  import opened ByteStrings
  import opened Commitment
  import opened Greedy
  import opened Split
  import opened Batcher

  /** Everything handled before the turns a run actually takes. */
  function Arrived(h: Hash, turns: seq<Turn>): seq<Entry> {
    if turns == [] then [] else Enqueue(h, turns[0].arrivals) + Arrived(h, turns[1..])
  }

  /** Number of turns whose arrivals a run sees. */
  function TurnsTaken(t: Trace): nat {
    |t.cuts| + if t.stop == QueueNotReady then 1 else 0
  }

  lemma ArrivedStep(h: Hash, turns: seq<Turn>, k: nat)
    requires 0 < k <= |turns|
    ensures Arrived(h, turns[..k]) == Enqueue(h, turns[0].arrivals) + Arrived(h, turns[1..][..k - 1])
  {
    assert turns[..k][1..] == turns[1..][..k - 1];
  }

  lemma ArrivedOnce(h: Hash, turns: seq<Turn>)
    requires turns != []
    ensures Arrived(h, turns[..1]) == Enqueue(h, turns[0].arrivals)
  {
    ArrivedStep(h, turns, 1);
    assert turns[1..][..0] == [];
  }

  /** The batches in order, then the queue, are the old queue then the arrivals: nothing lost or reordered. */
  lemma {:induction false} RunConserves(h: Hash, size: Entry -> nat, config: Config, queue: seq<Entry>, last: nat,
                                        block: nat, turns: seq<Turn>)
    ensures var t := Handle(h, size, config, queue, last, block, turns);
            TurnsTaken(t) <= |turns| && Flatten(t.cuts) + t.queue == queue + Arrived(h, turns[..TurnsTaken(t)])
    decreases |turns|
  {
    hide Arrived, Enqueue, Decide;
    if turns == [] {
      NothingArrived(h, queue);
    } else {
      var now := queue + Enqueue(h, turns[0].arrivals);
      ArrivedOnce(h, turns);
      match Decide(size, config, now, block, last)
      case NotReady =>
      case Flush(batch, rest, cleared) =>
        DecisionIsTight(size, config, now, block, last);
        var first := Cut(batch, cleared);
        if turns[0].outcome == Dropped {
          FlattenFirst(first, [], rest);
        } else {
          var later := Handle(h, size, config, rest, block, block, turns[1..]);
          RunConserves(h, size, config, rest, block, block, turns[1..]);
          ArrivedStep(h, turns, TurnsTaken(later) + 1);
          FlattenFirst(first, later.cuts, later.queue);
          Regroup(queue, Enqueue(h, turns[0].arrivals), batch, rest, Arrived(h, turns[1..][..TurnsTaken(later)]));
        }
    }
  }

  lemma NothingArrived(h: Hash, queue: seq<Entry>)
    ensures Flatten<Entry>([]) + queue == queue + Arrived(h, [])
  {
    assert queue + [] == queue;
  }

  lemma Regroup(queue: seq<Entry>, arrivals: seq<Entry>, batch: seq<Entry>, rest: seq<Entry>, more: seq<Entry>)
    requires queue + arrivals == batch + rest
    ensures batch + (rest + more) == queue + (arrivals + more)
  {
    assert batch + (rest + more) == (batch + rest) + more;
    assert queue + (arrivals + more) == (queue + arrivals) + more;
  }

  lemma FlattenFirst(first: Cut<Entry>, cuts: seq<Cut<Entry>>, tail: seq<Entry>)
    ensures Flatten([first] + cuts) + tail == first.batch + (Flatten(cuts) + tail)
  {
    assert ([first] + cuts)[1..] == cuts;
  }

  /** The batches of a run fit, and each non-empty split batch would have been overfilled by the next item. */
  lemma {:induction false} RunIsTight(h: Hash, size: Entry -> nat, config: Config, queue: seq<Entry>, last: nat,
                                      block: nat, turns: seq<Turn>)
    ensures var t := Handle(h, size, config, queue, last, block, turns);
            Tight(size, t.cuts, t.queue, config.maxBatchSize)
    decreases |turns|
  {
    if turns != [] {
      var now := queue + Enqueue(h, turns[0].arrivals);
      match Decide(size, config, now, block, last)
      case NotReady =>
      case Flush(batch, rest, cleared) =>
        DecisionIsTight(size, config, now, block, last);
        if turns[0].outcome != Dropped {
          var later := Handle(h, size, config, rest, block, block, turns[1..]);
          RunIsTight(h, size, config, rest, block, block, turns[1..]);
          RunConserves(h, size, config, rest, block, block, turns[1..]);
          TightFirst(size, Cut(batch, cleared), rest, later.cuts, later.queue, config.maxBatchSize);
        }
    }
  }

  /** Later batches only move items out of what follows the first one. */
  lemma TightFirst(size: Entry -> nat, first: Cut<Entry>, rest: seq<Entry>, cuts: seq<Cut<Entry>>, tail: seq<Entry>,
                   limit: nat)
    requires Tight(size, [first], rest, limit) && Tight(size, cuts, tail, limit)
    requires rest <= Flatten(cuts) + tail
    ensures Tight(size, [first] + cuts, tail, limit)
  {
    assert [first][1..] == [];
    assert Flatten([first][1..]) + rest == rest;
    assert ([first] + cuts)[1..] == cuts;
  }

  /**
   Optimality up to breaks: whatever arrives between the turns, no division of the flushed items into
   consecutive pieces that fit uses fewer pieces than the run's non-empty batches, minus one for every
   time the whole queue was cleared and more was flushed afterwards.
   */
  lemma RunIsGreedy(h: Hash, size: Entry -> nat, config: Config, queue: seq<Entry>, last: nat, block: nat,
                    turns: seq<Turn>, pieces: seq<seq<Entry>>)
    requires Join(pieces) == Flatten(Handle(h, size, config, queue, last, block, turns).cuts)
    requires Fits(size, pieces, config.maxBatchSize)
    ensures var cuts := Handle(h, size, config, queue, last, block, turns).cuts;
            NonEmpty(cuts) <= |pieces| + Breaks(cuts)
  {
    var t := Handle(h, size, config, queue, last, block, turns);
    RunIsTight(h, size, config, queue, last, block, turns);
    GreedyBound(size, t.cuts, t.queue, pieces, config.maxBatchSize);
  }

  predicate Quiet(turns: seq<Turn>) {
    forall i :: 0 <= i < |turns| ==> turns[i].arrivals == []
  }

  /** With no arrivals a cleared queue stays empty, so a run has no breaks and is optimal. */
  lemma {:induction false} QuietRunHasNoBreaks(h: Hash, size: Entry -> nat, config: Config, queue: seq<Entry>,
                                               last: nat, block: nat, turns: seq<Turn>)
    requires Quiet(turns)
    ensures Breaks(Handle(h, size, config, queue, last, block, turns).cuts) == 0
    decreases |turns|
  {
    var t := Handle(h, size, config, queue, last, block, turns);
    if turns != [] {
      var now := queue + Enqueue(h, turns[0].arrivals);
      assert now == queue;
      match Decide(size, config, now, block, last)
      case NotReady =>
      case Flush(batch, rest, cleared) =>
        if turns[0].outcome != Dropped {
          var later := Handle(h, size, config, rest, block, block, turns[1..]);
          QuietRunHasNoBreaks(h, size, config, rest, block, block, turns[1..]);
          assert t.cuts[1..] == later.cuts;
          if cleared && turns[1..] != [] {
            assert rest + Enqueue(h, turns[1..][0].arrivals) == [];
          }
        } else {
          assert t.cuts[1..] == [];
        }
    }
  }

  lemma QuietRunIsOptimal(h: Hash, size: Entry -> nat, config: Config, queue: seq<Entry>, last: nat, block: nat,
                          turns: seq<Turn>, pieces: seq<seq<Entry>>)
    requires Quiet(turns) && Fits(size, pieces, config.maxBatchSize)
    requires Join(pieces) == Flatten(Handle(h, size, config, queue, last, block, turns).cuts)
    ensures NonEmpty(Handle(h, size, config, queue, last, block, turns).cuts) <= |pieces|
  {
    RunIsGreedy(h, size, config, queue, last, block, turns, pieces);
    QuietRunHasNoBreaks(h, size, config, queue, last, block, turns);
  }

  /**
   Exactly when a run is optimal, whatever arrives: if and only if no batch of it would have gone whole into
   the room its predecessors leave. Otherwise the fewest pieces are fewer by the number of such batches.
   */
  lemma RunIsFewestIff(h: Hash, size: Entry -> nat, config: Config, queue: seq<Entry>, last: nat, block: nat,
                       turns: seq<Turn>) returns (best: seq<seq<Entry>>)
    ensures var cuts, limit := Handle(h, size, config, queue, last, block, turns).cuts, config.maxBatchSize;
            && (Fewest(size, cuts, limit) <==> Swallowed(size, cuts, -1, limit) == 0)
            && Fits(size, best, limit) && Join(best) == Flatten(cuts)
            && NonEmpty(cuts) == |best| + Swallowed(size, cuts, -1, limit)
            && Swallowed(size, cuts, -1, limit) <= Breaks(cuts)
  {
    var t := Handle(h, size, config, queue, last, block, turns);
    RunIsTight(h, size, config, queue, last, block, turns);
    best := FewestIff(size, t.cuts, t.queue, config.maxBatchSize);
  }

  /**
   Entries that arrive after the queue was cleared go into a batch of their own. If both lots are ready and
   their texts fit, the two batches are the fewest possible exactly when their entries do not fit one piece.
   */
  lemma ClearThenArrivals(h: Hash, size: Entry -> nat, config: Config, queue: seq<Entry>,
                          arrivals: seq<(VerificationData, nat)>, block: nat, last: nat)
    requires Ready(config, |queue|, block, last) && ListSize(size, queue) <= config.maxBatchSize
    requires Ready(config, |arrivals|, block, block) && ListSize(size, Enqueue(h, arrivals)) <= config.maxBatchSize
    ensures var turns, later := [Turn([], Submitted), Turn(arrivals, Submitted)], Enqueue(h, arrivals);
            var cuts := Handle(h, size, config, queue, last, block, turns).cuts;
            && cuts == [Cut(queue, true), Cut(later, true)] && NonEmpty(cuts) == 2 && Breaks(cuts) == 1
            && (Fewest(size, cuts, config.maxBatchSize) <==> Sum(size, queue) + Sum(size, later) > config.maxBatchSize)
  {
    var turns, later := [Turn([], Submitted), Turn(arrivals, Submitted)], Enqueue(h, arrivals);
    assert queue + Enqueue(h, turns[0].arrivals) == queue;
    assert [] + Enqueue(h, turns[1..][0].arrivals) == later;
    FlushesAll(h, size, config, queue, last, block, turns);
    FlushesAll(h, size, config, [], block, block, turns[1..]);
    assert turns[1..][1..] == [];
    var cuts := Handle(h, size, config, queue, last, block, turns).cuts;
    assert cuts == [Cut(queue, true), Cut(later, true)];
    TwoClears(size, queue, later, config.maxBatchSize);
    var best := RunIsFewestIff(h, size, config, queue, last, block, turns);
  }

  /** A turn that finds a ready queue whose text fits clears it. */
  lemma FlushesAll(h: Hash, size: Entry -> nat, config: Config, queue: seq<Entry>, last: nat, block: nat,
                   turns: seq<Turn>)
    requires turns != [] && turns[0].outcome == Submitted
    requires var now := queue + Enqueue(h, turns[0].arrivals);
             Ready(config, |now|, block, last) && ListSize(size, now) <= config.maxBatchSize
    ensures var now := queue + Enqueue(h, turns[0].arrivals);
            Handle(h, size, config, queue, last, block, turns)
            == Prepend([Cut(now, true)], Handle(h, size, config, [], block, block, turns[1..]))
  {
  }

  lemma TwoClears(size: Entry -> nat, first: seq<Entry>, second: seq<Entry>, limit: nat)
    requires first != [] && second != []
    ensures var cuts := [Cut(first, true), Cut(second, true)];
            && NonEmpty(cuts) == 2 && Breaks(cuts) == 1
            && Swallowed(size, cuts, -1, limit) == if Sum(size, second) <= limit - Sum(size, first) then 1 else 0
  {
    var cuts := [Cut(first, true), Cut(second, true)];
    assert cuts[1..] == [Cut(second, true)] && cuts[1..][1..] == [];
    assert Flatten(cuts[1..]) == second && Breaks(cuts[1..]) == 0;
    assert first[Taken(size, first, -1)..] == first;
    assert Swallowed(size, cuts, -1, limit) == Swallowed(size, [Cut(second, true)], limit - Sum(size, first), limit);
    assert forall room :: Swallowed(size, [Cut(second, true)][1..], room, limit) == 0;
  }

  // ---------- termination ----------

  /** How a run with no arrivals and no dropped batch ends: with a queue left, or stuck for ever on one. */
  datatype End = Ends(queue: seq<Entry>, last: nat) | Loops(queue: seq<Entry>)

  function Outlook(size: Entry -> nat, config: Config, queue: seq<Entry>, last: nat, block: nat): End
    decreases |queue|
  {
    match Decide(size, config, queue, block, last)
    case NotReady => Ends(queue, last)
    case Flush(batch, rest, _) =>
      if |rest| < |queue| then Outlook(size, config, rest, block, block)
      else if Ready(config, |queue|, block, block) then Loops(queue)
      else Ends(queue, block)
  }

  function QuietTurns(n: nat): (turns: seq<Turn>)
    ensures |turns| == n && Quiet(turns)
    ensures forall i :: 0 <= i < n ==> turns[i] == Turn([], Submitted)
  {
    seq(n, _ => Turn([], Submitted))
  }

  /** A turn takes nothing exactly in the two no-progress states. */
  lemma ProgressIff(size: Entry -> nat, config: Config, queue: seq<Entry>, block: nat, last: nat)
    requires Decide(size, config, queue, block, last).Flush?
    ensures |Decide(size, config, queue, block, last).rest| >= |queue| <==> NoProgress(size, config, queue)
  {
    if Decide(size, config, queue, block, last).cleared {
      ClearCharacterised(size, config, queue, block, last);
      SumAtLeastFirst(size, queue);
    } else {
      SplitCharacterised(size, config, queue, block, last);
    }
  }

  lemma SumAtLeastFirst(size: Entry -> nat, queue: seq<Entry>)
    requires queue != []
    ensures size(queue[0]) <= Sum(size, queue)
  {
  }

  lemma QuietTail(n: nat)
    requires n > 0
    ensures QuietTurns(n)[1..] == QuietTurns(n - 1)
  {
  }

  /** The predicted end is the end of a run of `n` turns. */
  predicate EndsAs(size: Entry -> nat, config: Config, block: nat, t: Trace, n: nat, end: End) {
    match end
    case Ends(left, at) =>
      && t.stop == QueueNotReady && t.queue == left && t.last == at
      && (|left| < 2 || (|left| < config.minBatchLen && block < (at + config.maxBlockInterval) % TWO_TO_THE_64))
    case Loops(left) =>
      && t.stop == OutOfTurns && t.queue == left
      && Ready(config, |left|, block, block) && NoProgress(size, config, left)
      && |t.cuts| == n && n > 0 && t.cuts[n - 1].batch == []
  }

  /**
   The flush loop fails to terminate exactly when it meets a queue in a no-progress state that is still
   ready once its own block has been recorded as the last one; then every later turn flushes an empty
   batch, for as long as empty batches are finalised. Otherwise it ends within one turn an entry, on a queue of
   length below 2, or below the minimum and before the interval is over.
   */
  lemma {:induction false} LoopEndsIff(h: Hash, size: Entry -> nat, config: Config, queue: seq<Entry>, last: nat,
                                       block: nat, n: nat)
    requires n > |queue|
    ensures EndsAs(size, config, block, Handle(h, size, config, queue, last, block, QuietTurns(n)), n,
                   Outlook(size, config, queue, last, block))
    decreases n
  {
    QuietStep(h, size, config, queue, last, block, n);
    if Decide(size, config, queue, block, last).Flush? {
      var d := Decide(size, config, queue, block, last);
      if |d.rest| < |queue| {
        LoopEndsIff(h, size, config, d.rest, block, block, n - 1);
        ProgressTurn(h, size, config, queue, last, block, n);
      } else {
        DecisionIsTight(size, config, queue, block, last);
        ProgressIff(size, config, queue, block, last);
        NoProgressTurn(h, size, config, queue, last, block, n);
      }
    }
  }

  /** A turn that shortens the queue: the run ends as the shorter queue's does. */
  lemma ProgressTurn(h: Hash, size: Entry -> nat, config: Config, queue: seq<Entry>, last: nat, block: nat, n: nat)
    requires n > 0 && Decide(size, config, queue, block, last).Flush?
    requires |Decide(size, config, queue, block, last).rest| < |queue|
    requires var rest := Decide(size, config, queue, block, last).rest;
             EndsAs(size, config, block, Handle(h, size, config, rest, block, block, QuietTurns(n - 1)), n - 1,
                    Outlook(size, config, rest, block, block))
    ensures EndsAs(size, config, block, Handle(h, size, config, queue, last, block, QuietTurns(n)), n,
                   Outlook(size, config, queue, last, block))
  {
    QuietStep(h, size, config, queue, last, block, n);
    hide Handle, QuietTurns;
    var d := Decide(size, config, queue, block, last);
    OneMoreTurn(size, config, block, Cut(d.batch, d.cleared),
                Handle(h, size, config, d.rest, block, block, QuietTurns(n - 1)), n - 1,
                Outlook(size, config, d.rest, block, block));
  }

  lemma OneMoreTurn(size: Entry -> nat, config: Config, block: nat, cut: Cut<Entry>, t: Trace, n: nat, end: End)
    requires EndsAs(size, config, block, t, n, end)
    ensures EndsAs(size, config, block, Prepend([cut], t), n + 1, end)
  {
  }

  /** A turn in a no-progress state: the loop ends after it or never. */
  lemma NoProgressTurn(h: Hash, size: Entry -> nat, config: Config, queue: seq<Entry>, last: nat, block: nat, n: nat)
    requires n > 1 && Decide(size, config, queue, block, last) == Flush([], queue, false)
    requires NoProgress(size, config, queue)
    ensures EndsAs(size, config, block, Handle(h, size, config, queue, last, block, QuietTurns(n)), n,
                   Outlook(size, config, queue, last, block))
  {
    QuietStep(h, size, config, queue, last, block, n);
    if Ready(config, |queue|, block, block) {
      StuckForEver(h, size, config, queue, block, n - 1);
    } else {
      QuietStep(h, size, config, queue, block, block, n - 1);
    }
  }

  /** One turn without arrivals, unfolded. */
  lemma QuietStep(h: Hash, size: Entry -> nat, config: Config, queue: seq<Entry>, last: nat, block: nat, n: nat)
    requires n > 0
    ensures Handle(h, size, config, queue, last, block, QuietTurns(n)) ==
            match Decide(size, config, queue, block, last)
            case NotReady => Trace([], queue, last, QueueNotReady)
            case Flush(batch, rest, cleared) =>
              Prepend([Cut(batch, cleared)], Handle(h, size, config, rest, block, block, QuietTurns(n - 1)))
  {
    QuietTail(n);
    assert queue + Enqueue(h, QuietTurns(n)[0].arrivals) == queue;
  }

  /** A queue in a no-progress state that is ready at its own block stays as it is, turn after turn. */
  lemma {:induction false} StuckForEver(h: Hash, size: Entry -> nat, config: Config, queue: seq<Entry>, block: nat,
                                        n: nat)
    requires Decide(size, config, queue, block, block) == Flush([], queue, false)
    ensures var t := Handle(h, size, config, queue, block, block, QuietTurns(n));
            t.stop == OutOfTurns && t.queue == queue && |t.cuts| == n && (n > 0 ==> t.cuts[n - 1].batch == [])
    decreases n
  {
    if n > 0 {
      QuietStep(h, size, config, queue, block, block, n);
      StuckForEver(h, size, config, queue, block, n - 1);
    }
  }

  // ---------- which queues loop ----------

  /** What greedy packing leaves of a queue: it goes on while it makes progress, whatever the blocks. */
  function Residue(size: Entry -> nat, config: Config, queue: seq<Entry>): (rest: seq<Entry>)
    ensures |rest| <= |queue|
    decreases |queue|
  {
    if queue == [] || NoProgress(size, config, queue) then queue
    else
      FitOfUnstalled(size, config, queue);
      Residue(size, config, queue[Fit(size, queue, config.maxBatchSize)..])
  }

  lemma FitOfUnstalled(size: Entry -> nat, config: Config, queue: seq<Entry>)
    requires queue != [] && !NoProgress(size, config, queue)
    ensures Fit(size, queue, config.maxBatchSize) > 0
  {
  }

  /** Never ending, while every batch is finalised: however many turns the loop is given, it uses them all. */
  ghost predicate NeverEnds(h: Hash, size: Entry -> nat, config: Config, queue: seq<Entry>, last: nat, block: nat) {
    forall n :: 0 <= n ==> Handle(h, size, config, queue, last, block, QuietTurns(n)).stop == OutOfTurns
  }

  /**
   When the loop never ends, from the queue alone: it is ready to begin with, and what greedy packing leaves
   of it is ready at the block just recorded. An empty residue never is.
   */
  lemma NeverEndsIff(h: Hash, size: Entry -> nat, config: Config, queue: seq<Entry>, last: nat, block: nat)
    ensures NeverEnds(h, size, config, queue, last, block) <==>
            && Ready(config, |queue|, block, last)
            && Ready(config, |Residue(size, config, queue)|, block, block)
  {
    hide Handle, Residue, Outlook, Ready;
    var n := |queue| + 1;
    LoopEndsIff(h, size, config, queue, last, block, n);
    LoopsIff(size, config, queue, last, block);
    if Outlook(size, config, queue, last, block).Loops? {
      forall m | 0 <= m ensures Handle(h, size, config, queue, last, block, QuietTurns(m)).stop == OutOfTurns {
        if m >= n {
          LoopEndsIff(h, size, config, queue, last, block, m);
        } else {
          FewerTurns(h, size, config, queue, last, block, m, n);
        }
      }
    }
  }

  /**
   A loop without arrivals that goes on for more turns than there were entries has finalised an empty batch. So
   if the tree builder refuses empty batches every loop ends, in a panic where it would have gone on.
   */
  lemma {:induction false} LongRunHasEmptyBatch(h: Hash, size: Entry -> nat, config: Config, queue: seq<Entry>,
                                                last: nat, block: nat, turns: seq<Turn>) returns (j: nat)
    requires Quiet(turns) && |turns| > |queue|
    requires Handle(h, size, config, queue, last, block, turns).stop == OutOfTurns
    ensures var cuts := Handle(h, size, config, queue, last, block, turns).cuts;
            j < |cuts| == |turns| && cuts[j].batch == [] && j <= |queue|
    decreases |turns|
  {
    assert queue + Enqueue(h, turns[0].arrivals) == queue;
    var d := Decide(size, config, queue, block, last);
    DecisionIsTight(size, config, queue, block, last);
    if d.batch == [] {
      j := 0;
      OutOfTurnsUsesAll(h, size, config, d.rest, block, block, turns[1..]);
    } else {
      j := LongRunHasEmptyBatch(h, size, config, d.rest, block, block, turns[1..]);
      j := j + 1;
    }
  }

  lemma {:induction false} OutOfTurnsUsesAll(h: Hash, size: Entry -> nat, config: Config, queue: seq<Entry>, last: nat,
                                             block: nat, turns: seq<Turn>)
    requires Handle(h, size, config, queue, last, block, turns).stop == OutOfTurns
    ensures |Handle(h, size, config, queue, last, block, turns).cuts| == |turns|
    decreases |turns|
  {
    if turns != [] {
      var d := Decide(size, config, queue + Enqueue(h, turns[0].arrivals), block, last);
      OutOfTurnsUsesAll(h, size, config, d.rest, block, block, turns[1..]);
    }
  }

  predicate AllSubmitted(turns: seq<Turn>) {
    forall i :: 0 <= i < |turns| ==> turns[i].outcome == Submitted
  }

  /** How any run stops: on an unready queue or a dropped batch, with everything before it finalised, or not at all. */
  lemma {:induction false} HowRunsStop(h: Hash, size: Entry -> nat, config: Config, queue: seq<Entry>, last: nat,
                                       block: nat, turns: seq<Turn>)
    ensures var t := Handle(h, size, config, queue, last, block, turns);
            match t.stop
            case OutOfTurns => |t.cuts| == |turns| && AllSubmitted(turns)
            case QueueNotReady =>
              && |t.cuts| < |turns| && AllSubmitted(turns[..|t.cuts|])
              && (|| |t.queue| < 2
                  || (|t.queue| < config.minBatchLen && block < (t.last + config.maxBlockInterval) % TWO_TO_THE_64))
            case BatchDropped =>
              && 0 < |t.cuts| <= |turns| && turns[|t.cuts| - 1].outcome == Dropped
              && AllSubmitted(turns[..|t.cuts| - 1])
    decreases |turns|
  {
    hide Enqueue, AllSubmitted;
    SubmittedFirst(turns);
    if turns != [] {
      var now := queue + Enqueue(h, turns[0].arrivals);
      NotReadyIff(size, config, now, block, last);
      hide Decide;
      if turns[0].outcome == Submitted && Decide(size, config, now, block, last).Flush? {
        var rest := Decide(size, config, now, block, last).rest;
        HowRunsStop(h, size, config, rest, block, block, turns[1..]);
      }
    }
  }

  lemma SubmittedFirst(turns: seq<Turn>)
    ensures AllSubmitted([]) && AllSubmitted(turns[..0])
    ensures turns != [] && turns[0].outcome == Submitted && AllSubmitted(turns[1..]) ==> AllSubmitted(turns)
    ensures turns != [] && turns[0].outcome == Submitted ==>
              forall k :: 0 <= k < |turns| && AllSubmitted(turns[1..][..k]) ==> AllSubmitted(turns[..k + 1])
  {
    if turns != [] && turns[0].outcome == Submitted {
      assert turns == [turns[0]] + turns[1..];
      forall k | 0 <= k < |turns| && AllSubmitted(turns[1..][..k]) ensures AllSubmitted(turns[..k + 1]) {
        assert turns[..k + 1] == [turns[0]] + turns[1..][..k];
      }
    }
  }

  /**
   Whether a loop without arrivals is still going after more turns than there were entries, whatever becomes of
   its batches: exactly when the queue is ready, what greedy packing leaves of it is ready at the block just
   recorded, and every batch was finalised, the empty ones at the end of it among them.
   */
  lemma GoesOnIff(h: Hash, size: Entry -> nat, config: Config, queue: seq<Entry>, last: nat, block: nat,
                  turns: seq<Turn>)
    requires Quiet(turns) && |turns| > |queue|
    ensures Handle(h, size, config, queue, last, block, turns).stop == OutOfTurns <==>
            && Ready(config, |queue|, block, last)
            && Ready(config, |Residue(size, config, queue)|, block, block)
            && AllSubmitted(turns)
  {
    hide Handle, Residue, Outlook, Ready;
    HowRunsStop(h, size, config, queue, last, block, turns);
    if AllSubmitted(turns) {
      assert turns == QuietTurns(|turns|);
      LoopEndsIff(h, size, config, queue, last, block, |turns|);
      LoopsIff(size, config, queue, last, block);
    }
  }

  /**
   One oversized entry with enough entries behind it keeps the loop going whatever arrives: it stops only at a
   batch that is dropped.
   */
  lemma {:induction false} OversizedGoesOnIff(h: Hash, size: Entry -> nat, config: Config, queue: seq<Entry>, last: nat,
                                              block: nat, turns: seq<Turn>, p: nat)
    requires p < |queue| && size(queue[p]) > config.maxBatchSize
    requires |queue| - p >= 2 && |queue| - p >= config.minBatchLen
    ensures Handle(h, size, config, queue, last, block, turns).stop == OutOfTurns <==> AllSubmitted(turns)
    decreases |turns|
  {
    if turns != [] {
      var now := queue + Enqueue(h, turns[0].arrivals);
      var d := Decide(size, config, now, block, last);
      OversizedStays(size, config, now, last, block, p);
      if turns[0].outcome == Submitted {
        OversizedGoesOnIff(h, size, config, d.rest, block, block, turns[1..], p - |d.batch|);
        assert turns == [turns[0]] + turns[1..];
      }
    }
  }

  /** A decision takes at most what stands before an oversized entry. */
  lemma OversizedStays(size: Entry -> nat, config: Config, queue: seq<Entry>, last: nat, block: nat, p: nat)
    requires p < |queue| && size(queue[p]) > config.maxBatchSize && Ready(config, |queue|, block, last)
    ensures var d := Decide(size, config, queue, block, last);
            d.Flush? && |d.batch| <= p && d.batch + d.rest == queue
  {
    SumSnoc(size, queue, p);
    SumPrefix(size, queue, p + 1, |queue|);
    assert queue[..|queue|] == queue;
    FitIsLongest(size, queue, config.maxBatchSize, p + 1);
    DecisionIsTight(size, config, queue, block, last);
  }

  /** A run that uses up its turns uses up any fewer. */
  lemma {:induction false} FewerTurns(h: Hash, size: Entry -> nat, config: Config, queue: seq<Entry>, last: nat,
                                      block: nat, m: nat, n: nat)
    requires m <= n && Handle(h, size, config, queue, last, block, QuietTurns(n)).stop == OutOfTurns
    ensures Handle(h, size, config, queue, last, block, QuietTurns(m)).stop == OutOfTurns
    decreases m
  {
    if m > 0 {
      QuietStep(h, size, config, queue, last, block, m);
      QuietStep(h, size, config, queue, last, block, n);
      var d := Decide(size, config, queue, block, last);
      FewerTurns(h, size, config, d.rest, block, block, m - 1, n - 1);
    }
  }

  /** At the loop's own block a longer queue is ready whenever a shorter one is. */
  lemma {:induction false} LoopsIff(size: Entry -> nat, config: Config, queue: seq<Entry>, last: nat, block: nat)
    ensures Outlook(size, config, queue, last, block).Loops? <==>
            && Ready(config, |queue|, block, last)
            && Ready(config, |Residue(size, config, queue)|, block, block)
    decreases |queue|
  {
    if Ready(config, |queue|, block, last) {
      var d := Decide(size, config, queue, block, last);
      ProgressIff(size, config, queue, block, last);
      if !NoProgress(size, config, queue) {
        RestIsUnpacked(size, config, queue, last, block);
        LoopsIff(size, config, d.rest, block, block);
      }
    }
  }

  /** A turn that makes progress leaves what greedy packing leaves. */
  lemma RestIsUnpacked(size: Entry -> nat, config: Config, queue: seq<Entry>, last: nat, block: nat)
    requires Ready(config, |queue|, block, last) && !NoProgress(size, config, queue)
    ensures var rest := Decide(size, config, queue, block, last).rest;
            rest == queue[Fit(size, queue, config.maxBatchSize)..] && |rest| < |queue|
  {
    FitOfUnstalled(size, config, queue);
    assert queue[..|queue|] == queue;
    FitIsLongest(size, queue, config.maxBatchSize, |queue|);
  }

  /** One oversized entry with enough entries behind it and the loop never ends, whatever comes before it. */
  lemma OversizedEntryNeverEnds(h: Hash, size: Entry -> nat, config: Config, queue: seq<Entry>, last: nat, block: nat,
                                p: nat)
    requires p < |queue| && size(queue[p]) > config.maxBatchSize
    requires |queue| - p >= 2 && |queue| - p >= config.minBatchLen
    ensures NeverEnds(h, size, config, queue, last, block)
  {
    forall n | 0 <= n ensures Handle(h, size, config, queue, last, block, QuietTurns(n)).stop == OutOfTurns {
      OversizedGoesOnIff(h, size, config, queue, last, block, QuietTurns(n), p);
    }
  }

  /** The least queues that loop: with a minimum of at most two, both kinds of stall are there among two entries. */
  lemma TwoEntriesLoopIff(h: Hash, size: Entry -> nat, config: Config, a: Entry, b: Entry, last: nat, block: nat)
    requires config.minBatchLen <= 2
    ensures NeverEnds(h, size, config, [a, b], last, block) <==>
            || size(a) > config.maxBatchSize
            || size(a) + size(b) <= config.maxBatchSize < size(a) + size(b) + 3
  {
    var queue := [a, b];
    NeverEndsIff(h, size, config, queue, last, block);
    SumOfTwo(size, a, b);
    if !NoProgress(size, config, queue) {
      FitOfUnstalled(size, config, queue);
    }
  }

  lemma SumOfTwo<T>(size: T -> nat, a: T, b: T)
    ensures Sum(size, [a, b]) == size(a) + size(b)
  {
    assert [a, b][1..] == [b] && [b][1..] == [];
    assert Sum(size, [b]) == size(b) + Sum(size, [b][1..]);
  }
}
