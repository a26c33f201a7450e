/**
 Any number of message handlers and block handlers interleaved over the batcher's two mutexes.
 `queueLock` protects the queue, `lastLock` the last uploaded block.
 */
module BatcherRuns {
  import opened ByteStrings
  import opened Commitment
  import opened Greedy
  import opened Split
  import opened Batcher

  type TaskId = nat

  /** Where a task stands. A batch in flight is also known by its position `j` among the batches taken. */
  datatype Pc =
    | WantsToPush(data: VerificationData, sink: nat)
    | Pushing(data: VerificationData, sink: nat)
    | WantsQueue(block: nat)
    | WantsLast(block: nat)
    | Deciding(block: nat)
    | WantsToSubmit(block: nat, j: nat, batch: seq<Entry>)
    | Submitting(block: nat, j: nat, batch: seq<Entry>)
    | Answering(block: nat, j: nat, batch: seq<Entry>)
    | Finished

  predicate HoldsQueue(pc: Pc) {
    pc.Pushing? || pc.WantsLast? || pc.Deciding?
  }

  predicate HoldsLast(pc: Pc) {
    pc.Deciding? || pc.Submitting?
  }

  predicate InFlight(pc: Pc) {
    pc.WantsToSubmit? || pc.Submitting? || pc.Answering?
  }

  /** `answered` and `dropped` list positions in `cuts`; `pushed` and `sent` are histories. */
  datatype State = State(
    queue: seq<Entry>,
    last: nat,
    queueLock: Option<TaskId>,
    lastLock: Option<TaskId>,
    tasks: map<TaskId, Pc>,
    cuts: seq<Cut<Entry>>,
    answered: seq<nat>,
    dropped: seq<nat>,
    pushed: seq<Entry>,
    sent: seq<Response>)

  function Init(block: nat): State {
    State([], block, None, None, map[], [], [], [], [], [])
  }

  /** Environment choices: new messages and blocks, and how far a batch gets. */
  datatype Step =
    | Message(t: TaskId, data: VerificationData, sink: nat)
    | NewBlock(t: TaskId, block: nat)
    | LockQueue(t: TaskId)
    | LockLast(t: TaskId)
    | Push(t: TaskId)
    | Decision(t: TaskId)
    | StreamError(t: TaskId)
    | UploadPanic(t: TaskId)
    | Submit(t: TaskId)
    | Answer(t: TaskId)

  predicate Enabled(s: State, step: Step) {
    match step
    case Message(t, _, _) => t !in s.tasks
    case NewBlock(t, _) => t !in s.tasks
    case LockQueue(t) => t in s.tasks && (s.tasks[t].WantsToPush? || s.tasks[t].WantsQueue?) && s.queueLock == None
    case LockLast(t) => t in s.tasks && (s.tasks[t].WantsLast? || s.tasks[t].WantsToSubmit?) && s.lastLock == None
    case Push(t) => t in s.tasks && s.tasks[t].Pushing?
    case Decision(t) => t in s.tasks && s.tasks[t].Deciding?
    case StreamError(t) => t in s.tasks && s.tasks[t].WantsToSubmit?
    case UploadPanic(t) => t in s.tasks && s.tasks[t].Submitting?
    case Submit(t) => t in s.tasks && s.tasks[t].Submitting?
    case Answer(t) => t in s.tasks && s.tasks[t].Answering?
  }

  function Goto(s: State, t: TaskId, pc: Pc): State {
    s.(tasks := s.tasks[t := pc])
  }

  /** The effect of a step; unlocking clears the lock whoever holds it. */
  function Apply(h: Hash, size: Entry -> nat, config: Config, s: State, step: Step): State
    requires Enabled(s, step)
  {
    match step
    case Message(t, data, sink) => Goto(s, t, WantsToPush(data, sink))
    case NewBlock(t, block) => Goto(s, t, WantsQueue(block))
    case LockQueue(t) =>
      var pc := s.tasks[t];
      Goto(s.(queueLock := Some(t)), t, if pc.WantsToPush? then Pushing(pc.data, pc.sink) else WantsLast(pc.block))
    case LockLast(t) =>
      var pc := s.tasks[t];
      Goto(s.(lastLock := Some(t)), t,
           if pc.WantsLast? then Deciding(pc.block) else Submitting(pc.block, pc.j, pc.batch))
    case Push(t) =>
      var pc := s.tasks[t];
      var e := Entry(pc.data, Commit(h, pc.data), pc.sink);
      Goto(s.(queue := s.queue + [e], pushed := s.pushed + [e], queueLock := None), t, Finished)
    case Decision(t) =>
      var u := s.(queueLock := None, lastLock := None);
      var block := s.tasks[t].block;
      (match Decide(size, config, s.queue, block, s.last)
       case NotReady => Goto(u, t, Finished)
       case Flush(batch, rest, cleared) =>
         Goto(u.(queue := rest, cuts := s.cuts + [Cut(batch, cleared)]), t, WantsToSubmit(block, |s.cuts|, batch)))
    case StreamError(t) => Goto(s.(dropped := s.dropped + [s.tasks[t].j]), t, Finished)
    case UploadPanic(t) => Goto(s.(dropped := s.dropped + [s.tasks[t].j], lastLock := None), t, Finished)
    case Submit(t) =>
      var pc := s.tasks[t];
      Goto(s.(last := pc.block, lastLock := None), t, Answering(pc.block, pc.j, pc.batch))
    case Answer(t) =>
      var pc := s.tasks[t];
      Goto(s.(answered := s.answered + [pc.j], sent := s.sent + Responses(h, pc.batch)), t, WantsQueue(pc.block))
  }

  /** The state after a run, if every step of it was enabled. */
  function Run(h: Hash, size: Entry -> nat, config: Config, s: State, steps: seq<Step>): Option<State>
    decreases |steps|
  {
    if steps == [] then Some(s)
    else if !Enabled(s, steps[0]) then None
    else Run(h, size, config, Apply(h, size, config, s, steps[0]), steps[1..])
  }

  // ---------- the invariant ----------

  ghost predicate Locks(s: State) {
    && (forall t :: t in s.tasks ==> (HoldsQueue(s.tasks[t]) <==> s.queueLock == Some(t)))
    && (forall t :: t in s.tasks ==> (HoldsLast(s.tasks[t]) <==> s.lastLock == Some(t)))
    && (s.queueLock.Some? ==> s.queueLock.value in s.tasks)
    && (s.lastLock.Some? ==> s.lastLock.value in s.tasks)
  }

  ghost predicate Carries(s: State, t: TaskId, j: nat) {
    t in s.tasks && InFlight(s.tasks[t]) && s.tasks[t].j == j
  }

  ghost predicate Once(list: seq<nat>, j: nat) {
    exists i :: 0 <= i < |list| && list[i] == j && j !in list[..i] && j !in list[i + 1..]
  }

  /** Batch `j` is carried by exactly one task, or was answered exactly once, or was dropped exactly once. */
  ghost predicate OneFate(s: State, j: nat) {
    && (forall t, u :: Carries(s, t, j) && Carries(s, u, j) ==> t == u)
    && (|| ((exists t :: Carries(s, t, j)) && j !in s.answered && j !in s.dropped)
        || ((forall t :: !Carries(s, t, j)) && Once(s.answered, j) && j !in s.dropped)
        || ((forall t :: !Carries(s, t, j)) && Once(s.dropped, j) && j !in s.answered))
  }

  predicate InRange(cuts: seq<Cut<Entry>>, positions: seq<nat>) {
    forall k :: 0 <= k < |positions| ==> positions[k] < |cuts|
  }

  ghost predicate Fates(s: State) {
    && (forall j :: 0 <= j < |s.cuts| ==> OneFate(s, j))
    && (forall t :: t in s.tasks && InFlight(s.tasks[t]) ==>
          s.tasks[t].j < |s.cuts| && s.tasks[t].batch == s.cuts[s.tasks[t].j].batch)
    && InRange(s.cuts, s.answered) && InRange(s.cuts, s.dropped)
  }

  ghost predicate Conserved(s: State) {
    Flatten(s.cuts) + s.queue == s.pushed
  }

  ghost predicate Committed(h: Hash, s: State) {
    forall e :: e in s.pushed ==> e.commitment == Commit(h, e.data)
  }

  /** The responses to the answered batches, in the order they were answered. */
  function SentOf(h: Hash, cuts: seq<Cut<Entry>>, answered: seq<nat>): seq<Response>
    requires InRange(cuts, answered)
  {
    if answered == [] then []
    else
      var n := |answered| - 1;
      SentOf(h, cuts, answered[..n]) + Responses(h, cuts[answered[n]].batch)
  }

  ghost predicate Replied(h: Hash, s: State)
    requires Fates(s)
  {
    s.sent == SentOf(h, s.cuts, s.answered)
  }

  ghost predicate Inv(h: Hash, size: Entry -> nat, config: Config, s: State) {
    && Locks(s) && Fates(s) && Replied(h, s) && Conserved(s) && Committed(h, s)
    && Tight(size, s.cuts, s.queue, config.maxBatchSize)
  }

  lemma InitInv(h: Hash, size: Entry -> nat, config: Config, block: nat)
    ensures Inv(h, size, config, Init(block))
  {
  }

  lemma LocksKept(h: Hash, size: Entry -> nat, config: Config, s: State, step: Step)
    requires Locks(s) && Enabled(s, step)
    ensures Locks(Apply(h, size, config, s, step))
  {
  }

  /** A push extends both the queue and the history. */
  lemma PushKept(h: Hash, size: Entry -> nat, config: Config, s: State, e: Entry)
    requires Conserved(s) && Tight(size, s.cuts, s.queue, config.maxBatchSize)
    ensures Flatten(s.cuts) + (s.queue + [e]) == s.pushed + [e]
    ensures Tight(size, s.cuts, s.queue + [e], config.maxBatchSize)
  {
    TightExtends(size, s.cuts, s.queue, [e], config.maxBatchSize);
    assert Flatten(s.cuts) + (s.queue + [e]) == (Flatten(s.cuts) + s.queue) + [e];
  }

  /** A decision moves the front of the queue to the end of the batches. */
  lemma CutKept(h: Hash, size: Entry -> nat, config: Config, s: State, block: nat)
    requires Conserved(s) && Tight(size, s.cuts, s.queue, config.maxBatchSize)
    requires Decide(size, config, s.queue, block, s.last).Flush?
    ensures var d := Decide(size, config, s.queue, block, s.last);
            && Flatten(s.cuts + [Cut(d.batch, d.cleared)]) + d.rest == s.pushed
            && Tight(size, s.cuts + [Cut(d.batch, d.cleared)], d.rest, config.maxBatchSize)
  {
    var d := Decide(size, config, s.queue, block, s.last);
    DecisionIsTight(size, config, s.queue, block, s.last);
    TakeCut(size, s.cuts, Cut(d.batch, d.cleared), d.rest, config.maxBatchSize);
  }

  lemma QueueKept(h: Hash, size: Entry -> nat, config: Config, s: State, step: Step)
    requires Inv(h, size, config, s) && Enabled(s, step)
    ensures var u := Apply(h, size, config, s, step);
            Conserved(u) && Committed(h, u) && Tight(size, u.cuts, u.queue, config.maxBatchSize)
  {
    if step.Push? {
      PushKept(h, size, config, s, Entry(s.tasks[step.t].data, Commit(h, s.tasks[step.t].data), s.tasks[step.t].sink));
    } else if step.Decision? && Decide(size, config, s.queue, s.tasks[step.t].block, s.last).Flush? {
      CutKept(h, size, config, s, s.tasks[step.t].block);
    }
  }

  lemma OnceSnoc(list: seq<nat>, j: nat)
    requires j !in list
    ensures Once(list + [j], j)
  {
    var more := list + [j];
    assert more[|list|] == j && more[..|list|] == list && more[|list| + 1..] == [];
  }

  lemma OnceStays(list: seq<nat>, j: nat, k: nat)
    requires Once(list, j) && k != j
    ensures Once(list + [k], j)
  {
    var i :| 0 <= i < |list| && list[i] == j && j !in list[..i] && j !in list[i + 1..];
    var more := list + [k];
    assert more[i] == j && more[..i] == list[..i] && more[i + 1..] == list[i + 1..] + [k];
  }

  /** A batch untouched by a step keeps its fate. */
  lemma FateStays(s: State, u: State, j: nat)
    requires OneFate(s, j)
    requires forall t :: Carries(u, t, j) <==> Carries(s, t, j)
    requires (u.answered == s.answered && u.dropped == s.dropped)
          || (exists k :: k != j && u.answered == s.answered + [k] && u.dropped == s.dropped)
          || (exists k :: k != j && u.answered == s.answered && u.dropped == s.dropped + [k])
    ensures OneFate(u, j)
  {
    if u.answered != s.answered {
      var k :| k != j && u.answered == s.answered + [k] && u.dropped == s.dropped;
      if Once(s.answered, j) {
        OnceStays(s.answered, j, k);
      }
    } else if u.dropped != s.dropped {
      var k :| k != j && u.answered == s.answered && u.dropped == s.dropped + [k];
      if Once(s.dropped, j) {
        OnceStays(s.dropped, j, k);
      }
    }
  }

  /** A batch whose carrier records it as answered or dropped gets that one fate. */
  lemma FateEnds(s: State, u: State, t: TaskId, j: nat)
    requires OneFate(s, j) && Carries(s, t, j)
    requires forall v :: Carries(u, v, j) <==> Carries(s, v, j) && v != t
    requires (u.answered == s.answered + [j] && u.dropped == s.dropped)
          || (u.answered == s.answered && u.dropped == s.dropped + [j])
    ensures OneFate(u, j)
  {
    assert j !in s.answered && j !in s.dropped;
    if u.dropped == s.dropped {
      OnceSnoc(s.answered, j);
    } else {
      OnceSnoc(s.dropped, j);
    }
  }

  lemma FatesKept(h: Hash, size: Entry -> nat, config: Config, s: State, step: Step)
    requires Fates(s) && Enabled(s, step)
    ensures Fates(Apply(h, size, config, s, step))
  {
    var u := Apply(h, size, config, s, step);
    forall j | 0 <= j < |u.cuts|
      ensures OneFate(u, j)
    {
      FateKept(h, size, config, s, step, j);
    }
  }

  lemma FateKept(h: Hash, size: Entry -> nat, config: Config, s: State, step: Step, j: nat)
    requires Fates(s) && Enabled(s, step) && j < |Apply(h, size, config, s, step).cuts|
    ensures OneFate(Apply(h, size, config, s, step), j)
  {
    var u := Apply(h, size, config, s, step);
    var t := step.t;
    if j == |s.cuts| {
      assert Carries(u, t, j);
      assert forall v :: Carries(u, v, j) ==> v == t;
    } else if (step.StreamError? || step.UploadPanic? || step.Answer?) && s.tasks[t].j == j {
      assert forall v :: Carries(u, v, j) <==> Carries(s, v, j) && v != t;
      FateEnds(s, u, t, j);
    } else {
      assert forall v :: Carries(u, v, j) <==> Carries(s, v, j);
      FateStays(s, u, j);
    }
  }

  /** More batches change nothing for those already answered. */
  lemma {:induction false} SentOfExtends(h: Hash, cuts: seq<Cut<Entry>>, more: seq<Cut<Entry>>, answered: seq<nat>)
    requires InRange(cuts, answered)
    ensures SentOf(h, cuts + more, answered) == SentOf(h, cuts, answered)
    decreases |answered|
  {
    if answered != [] {
      SentOfExtends(h, cuts, more, answered[..|answered| - 1]);
    }
  }

  lemma RepliesKept(h: Hash, size: Entry -> nat, config: Config, s: State, step: Step)
    requires Inv(h, size, config, s) && Enabled(s, step) && Fates(Apply(h, size, config, s, step))
    ensures Replied(h, Apply(h, size, config, s, step))
  {
    hide Responses, Decide, SentOf, Tight, Locks, Conserved, Committed;
    var u := Apply(h, size, config, s, step);
    if step.Answer? {
      SentOfSnoc(h, s.cuts, s.answered, s.tasks[step.t].j);
    } else if u.cuts != s.cuts {
      SentOfExtends(h, s.cuts, u.cuts[|s.cuts|..], s.answered);
      assert u.cuts == s.cuts + u.cuts[|s.cuts|..];
    }
  }

  lemma SentOfSnoc(h: Hash, cuts: seq<Cut<Entry>>, answered: seq<nat>, j: nat)
    requires InRange(cuts, answered + [j])
    ensures InRange(cuts, answered) && j < |cuts|
    ensures SentOf(h, cuts, answered + [j]) == SentOf(h, cuts, answered) + Responses(h, cuts[j].batch)
  {
    hide Responses;
    assert (answered + [j])[|answered|] == j;
    assert forall k :: 0 <= k < |answered| ==> (answered + [j])[k] == answered[k];
    assert (answered + [j])[..|answered|] == answered;
  }

  /** Every step keeps the invariant. */
  lemma StepKeepsInv(h: Hash, size: Entry -> nat, config: Config, s: State, step: Step)
    requires Inv(h, size, config, s) && Enabled(s, step)
    ensures Inv(h, size, config, Apply(h, size, config, s, step))
  {
    LocksKept(h, size, config, s, step);
    QueueKept(h, size, config, s, step);
    FatesKept(h, size, config, s, step);
    RepliesKept(h, size, config, s, step);
  }

  lemma {:induction false} RunKeepsInv(h: Hash, size: Entry -> nat, config: Config, s: State, steps: seq<Step>)
    requires Inv(h, size, config, s) && Run(h, size, config, s, steps).Some?
    ensures Inv(h, size, config, Run(h, size, config, s, steps).value)
    decreases |steps|
  {
    if steps != [] {
      StepKeepsInv(h, size, config, s, steps[0]);
      RunKeepsInv(h, size, config, Apply(h, size, config, s, steps[0]), steps[1..]);
    }
  }

  ghost predicate Reachable(h: Hash, size: Entry -> nat, config: Config, s: State) {
    exists block, steps :: Run(h, size, config, Init(block), steps) == Some(s)
  }

  lemma ReachableInv(h: Hash, size: Entry -> nat, config: Config, s: State)
    requires Reachable(h, size, config, s)
    ensures Inv(h, size, config, s)
  {
    var block, steps :| Run(h, size, config, Init(block), steps) == Some(s);
    InitInv(h, size, config, block);
    RunKeepsInv(h, size, config, Init(block), steps);
  }

  // ---------- results over every run ----------

  /**
   Conservation: the batches taken, in order, and then the queue are the push sequence; every batch has
   exactly one fate; and the clients' responses are those of the answered batches.
   */
  lemma EveryEntryInOnePlace(h: Hash, size: Entry -> nat, config: Config, s: State)
    requires Reachable(h, size, config, s)
    ensures Flatten(s.cuts) + s.queue == s.pushed
    ensures Fates(s) && forall j :: 0 <= j < |s.cuts| ==> OneFate(s, j)
    ensures forall t :: t in s.tasks && InFlight(s.tasks[t]) ==>
              s.tasks[t].j < |s.cuts| && s.tasks[t].batch == s.cuts[s.tasks[t].j].batch
    ensures InRange(s.cuts, s.answered) && InRange(s.cuts, s.dropped) && s.sent == SentOf(h, s.cuts, s.answered)
  {
    ReachableInv(h, size, config, s);
  }

  /** The greedy bound holds for all batches of a run together, whichever handlers took them. */
  lemma AllHandlersAreGreedy(h: Hash, size: Entry -> nat, config: Config, s: State, pieces: seq<seq<Entry>>)
    requires Reachable(h, size, config, s)
    requires Join(pieces) == Flatten(s.cuts) && Fits(size, pieces, config.maxBatchSize)
    ensures NonEmpty(s.cuts) <= |pieces| + Breaks(s.cuts)
  {
    ReachableInv(h, size, config, s);
    GreedyBound(size, s.cuts, s.queue, pieces, config.maxBatchSize);
  }

  /** Exactly when all handlers' batches together are the fewest possible, and by how many they exceed them. */
  lemma AllHandlersFewestIff(h: Hash, size: Entry -> nat, config: Config, s: State) returns (best: seq<seq<Entry>>)
    requires Reachable(h, size, config, s)
    ensures Fewest(size, s.cuts, config.maxBatchSize) <==> Swallowed(size, s.cuts, -1, config.maxBatchSize) == 0
    ensures Fits(size, best, config.maxBatchSize) && Join(best) == Flatten(s.cuts)
    ensures NonEmpty(s.cuts) == |best| + Swallowed(size, s.cuts, -1, config.maxBatchSize)
  {
    ReachableInv(h, size, config, s);
    best := FewestIff(size, s.cuts, s.queue, config.maxBatchSize);
  }

  /**
   Nothing from an entry over the limit on is ever batched, by any handler: the entry blocks the queue for good,
   whatever else arrives and however many handlers run.
   */
  lemma NothingPastOversized(h: Hash, size: Entry -> nat, config: Config, s: State, p: nat)
    requires Reachable(h, size, config, s)
    requires p < |s.pushed| && size(s.pushed[p]) > config.maxBatchSize
    ensures |Flatten(s.cuts)| <= p && s.pushed[p] in s.queue
  {
    BatchedEntriesFit(h, size, config, s);
    if |Flatten(s.cuts)| <= p {
      assert s.pushed[p] == s.queue[p - |Flatten(s.cuts)|];
    }
  }

  lemma BatchedEntriesFit(h: Hash, size: Entry -> nat, config: Config, s: State)
    requires Reachable(h, size, config, s)
    ensures s.pushed == Flatten(s.cuts) + s.queue
    ensures forall i :: 0 <= i < |Flatten(s.cuts)| ==> size(s.pushed[i]) <= config.maxBatchSize
  {
    ReachableInv(h, size, config, s);
    TightBatchesFit(size, s.cuts, s.queue, config.maxBatchSize);
    ItemsFit(size, s.cuts, config.maxBatchSize);
    forall i | 0 <= i < |Flatten(s.cuts)| ensures size(s.pushed[i]) <= config.maxBatchSize {
      assert s.pushed[i] == Flatten(s.cuts)[i];
    }
  }

  /** No circular wait: while some task is unfinished, some task can take a step. */
  lemma SomeTaskCanStep(h: Hash, size: Entry -> nat, config: Config, s: State, t: TaskId) returns (step: Step)
    requires Reachable(h, size, config, s)
    requires t in s.tasks && !s.tasks[t].Finished?
    ensures Enabled(s, step) && !step.Message? && !step.NewBlock?
  {
    ReachableInv(h, size, config, s);
    if s.lastLock.Some? {
      var u := s.lastLock.value;
      step := if s.tasks[u].Deciding? then Decision(u) else Submit(u);
    } else if s.queueLock.Some? {
      var u := s.queueLock.value;
      step := if s.tasks[u].Pushing? then Push(u) else LockLast(u);
    } else {
      match s.tasks[t]
      case WantsToPush(_, _) => step := LockQueue(t);
      case WantsQueue(_) => step := LockQueue(t);
      case WantsToSubmit(_, _, _) => step := LockLast(t);
      case Answering(_, _, _) => step := Answer(t);
    }
  }

  /** A task that wants the queue never holds the last-block lock, so the lock order is queue, then last block. */
  lemma LockOrder(h: Hash, size: Entry -> nat, config: Config, s: State, t: TaskId)
    requires Reachable(h, size, config, s)
    requires t in s.tasks && s.lastLock == Some(t)
    ensures !Enabled(s, LockQueue(t)) && !s.tasks[t].WantsToPush? && !s.tasks[t].WantsQueue?
    ensures s.queueLock == Some(t) <==> s.tasks[t].Deciding?
  {
    ReachableInv(h, size, config, s);
  }

  /** Every lock is held by the one task whose place in the code holds it. */
  lemma LocksMatchCode(h: Hash, size: Entry -> nat, config: Config, s: State, t: TaskId)
    requires Reachable(h, size, config, s) && t in s.tasks
    ensures HoldsQueue(s.tasks[t]) <==> s.queueLock == Some(t)
    ensures HoldsLast(s.tasks[t]) <==> s.lastLock == Some(t)
  {
    ReachableInv(h, size, config, s);
  }

  lemma {:induction false} SentOfMember(h: Hash, cuts: seq<Cut<Entry>>, answered: seq<nat>, r: Response)
    returns (j: nat, i: nat)
    requires InRange(cuts, answered) && r in SentOf(h, cuts, answered)
    ensures j in answered && i < |cuts[j].batch| && r == ResponseTo(h, cuts[j].batch, i)
    decreases |answered|
  {
    var n := |answered| - 1;
    if r in SentOf(h, cuts, answered[..n]) {
      j, i := SentOfMember(h, cuts, answered[..n], r);
    } else {
      j := answered[n];
      var rs := Responses(h, cuts[j].batch);
      i :| 0 <= i < |rs| && rs[i] == r;
      FirstResponsesAt(h, cuts[j].batch, |cuts[j].batch|, i);
    }
  }

  lemma {:induction false} BatchIsPartOfFlatten(cuts: seq<Cut<Entry>>, j: nat)
    requires j < |cuts|
    ensures forall e :: e in cuts[j].batch ==> e in Flatten(cuts)
  {
    if j > 0 {
      BatchIsPartOfFlatten(cuts[1..], j - 1);
    }
  }

  /** Every response sent answers an entry of one answered batch whose commitments are those of its data. */
  lemma ResponsesAreSound(h: Hash, size: Entry -> nat, config: Config, s: State, r: Response) returns (j: nat, i: nat)
    requires Reachable(h, size, config, s) && r in s.sent
    ensures j < |s.cuts| && j in s.answered && i < |s.cuts[j].batch|
    ensures r == ResponseTo(h, s.cuts[j].batch, i)
    ensures forall e :: e in s.cuts[j].batch ==> e in s.pushed && e.commitment == Commit(h, e.data)
  {
    ReachableInv(h, size, config, s);
    j, i := SentOfMember(h, s.cuts, s.answered, r);
    BatchIsPartOfFlatten(s.cuts, j);
    assert forall e :: e in Flatten(s.cuts) ==> e in Flatten(s.cuts) + s.queue;
  }

  // ---------- messages ----------

  /** The data and connection of the message that task `t` handles. */
  function MessageOf(steps: seq<Step>, t: TaskId): Option<(VerificationData, nat)> {
    if steps == [] then None
    else
      var last := steps[|steps| - 1];
      if last.Message? && last.t == t then Some((last.data, last.sink)) else MessageOf(steps[..|steps| - 1], t)
  }

  /** The tasks that push, in the order of their pushes. */
  function Pushers(steps: seq<Step>): seq<TaskId> {
    if steps == [] then []
    else
      var last := steps[|steps| - 1];
      Pushers(steps[..|steps| - 1]) + if last.Push? then [last.t] else []
  }

  /** An entry is what task `t` should push: its message's data with their commitment, and its connection. */
  predicate EntryFor(h: Hash, steps: seq<Step>, t: TaskId, e: Entry) {
    && MessageOf(steps, t).Some?
    && e.data == MessageOf(steps, t).value.0 && e.sink == MessageOf(steps, t).value.1
    && e.commitment.proof == h(e.data.proof) && e.commitment == Commit(h, e.data)
  }

  /** Every task on a message's way still has the message it was given. */
  ghost predicate Remembers(steps: seq<Step>, s: State, t: TaskId) {
    if t !in s.tasks then MessageOf(steps, t) == None
    else
      match s.tasks[t]
      case WantsToPush(data, sink) => MessageOf(steps, t) == Some((data, sink))
      case Pushing(data, sink) => MessageOf(steps, t) == Some((data, sink))
      case Finished => true
      case _ => MessageOf(steps, t) == None
  }

  /** The entries pushed are those of the messages, one a push, and a message's task is finished once it has pushed. */
  ghost predicate Received(h: Hash, steps: seq<Step>, s: State) {
    && |s.pushed| == |Pushers(steps)|
    && (forall k :: 0 <= k < |s.pushed| ==> EntryFor(h, steps, Pushers(steps)[k], s.pushed[k]))
    && (forall j, k :: 0 <= j < k < |s.pushed| ==> Pushers(steps)[j] != Pushers(steps)[k])
    && (forall t :: t in Pushers(steps) <==> t in s.tasks && s.tasks[t].Finished? && MessageOf(steps, t).Some?)
    && (forall t: TaskId :: Remembers(steps, s, t))
  }

  lemma LastStep(h: Hash, size: Entry -> nat, config: Config, s: State, steps: seq<Step>) returns (before: State)
    requires steps != [] && Run(h, size, config, s, steps).Some?
    ensures var n := |steps| - 1;
            && Run(h, size, config, s, steps[..n]) == Some(before) && Enabled(before, steps[n])
            && Run(h, size, config, s, steps) == Some(Apply(h, size, config, before, steps[n]))
    decreases |steps|
  {
    hide Enabled, Apply;
    if |steps| == 1 {
      before := s;
      assert steps[1..] == [] && steps[..0] == [];
      assert Run(h, size, config, Apply(h, size, config, s, steps[0]), steps[1..])
             == Some(Apply(h, size, config, s, steps[0]));
    } else {
      before := LastStep(h, size, config, Apply(h, size, config, s, steps[0]), steps[1..]);
      assert steps[..|steps| - 1][1..] == steps[1..][..|steps| - 2];
    }
  }

  /** A step moves its own task only. */
  lemma OtherTasksStay(h: Hash, size: Entry -> nat, config: Config, s: State, step: Step, t: TaskId)
    requires Enabled(s, step) && t != step.t
    ensures var u := Apply(h, size, config, s, step);
            (t in u.tasks <==> t in s.tasks) && (t in s.tasks ==> u.tasks[t] == s.tasks[t])
  {
    hide Decide, Responses;
  }

  lemma RememberedAfter(h: Hash, size: Entry -> nat, config: Config, s: State, steps: seq<Step>, step: Step, t: TaskId)
    requires Enabled(s, step) && Remembers(steps, s, t)
    ensures Remembers(steps + [step], Apply(h, size, config, s, step), t)
  {
    hide Decide, Responses;
    assert (steps + [step])[..|steps|] == steps;
    if t != step.t {
      OtherTasksStay(h, size, config, s, step, t);
    }
  }

  /** What a push pushes. */
  lemma PushIs(h: Hash, size: Entry -> nat, config: Config, s: State, steps: seq<Step>, step: Step)
    requires Enabled(s, step) && Remembers(steps, s, step.t)
    ensures var u := Apply(h, size, config, s, step);
            && (step.Push? ==> |u.pushed| == |s.pushed| + 1 && u.pushed[..|s.pushed|] == s.pushed
                               && EntryFor(h, steps, step.t, u.pushed[|s.pushed|]))
            && (!step.Push? ==> u.pushed == s.pushed)
            && (step.Push? ==> s.tasks[step.t].Pushing? && u.tasks[step.t].Finished?)
  {
    hide Decide, Responses;
  }

  /** A task finishes with a message behind it exactly by its push. */
  lemma FinishedBy(h: Hash, size: Entry -> nat, config: Config, s: State, steps: seq<Step>, step: Step)
    requires Enabled(s, step) && Remembers(steps, s, step.t)
    ensures var u := Apply(h, size, config, s, step);
            && step.t in u.tasks && !(step.t in s.tasks && s.tasks[step.t].Finished?)
            && (u.tasks[step.t].Finished? && MessageOf(steps + [step], step.t).Some? <==> step.Push?)
  {
    hide Decide, Responses;
    assert (steps + [step])[..|steps|] == steps;
  }

  lemma MessageStays(steps: seq<Step>, step: Step, t: TaskId)
    requires MessageOf(steps, t).Some? && !(step.Message? && step.t == t)
    ensures MessageOf(steps + [step], t) == MessageOf(steps, t)
  {
    assert (steps + [step])[..|steps|] == steps;
  }

  lemma StepReceives(h: Hash, size: Entry -> nat, config: Config, s: State, steps: seq<Step>, step: Step)
    requires Received(h, steps, s) && Enabled(s, step)
    ensures Received(h, steps + [step], Apply(h, size, config, s, step))
  {
    var u, more := Apply(h, size, config, s, step), steps + [step];
    assert Remembers(steps, s, step.t);
    PushIs(h, size, config, s, steps, step);
    FinishedBy(h, size, config, s, steps, step);
    assert more[..|steps|] == steps;
    assert Pushers(more) == Pushers(steps) + if step.Push? then [step.t] else [];
    hide Apply, Pushers, EntryFor, Remembers;
    forall t: TaskId ensures Remembers(more, u, t) {
      assert Remembers(steps, s, t);
      RememberedAfter(h, size, config, s, steps, step, t);
    }
    forall k | 0 <= k < |u.pushed| ensures EntryFor(h, more, Pushers(more)[k], u.pushed[k]) {
      EntryStays(h, s, steps, step, Pushers(more)[k], u.pushed[k]);
      assert k < |s.pushed| ==> u.pushed[..|s.pushed|][k] == s.pushed[k];
    }
    forall t ensures t in Pushers(more) <==> t in u.tasks && u.tasks[t].Finished? && MessageOf(more, t).Some? {
      if t != step.t {
        OtherTasksStay(h, size, config, s, step, t);
        MessageOfOther(steps, step, t);
      }
    }
  }

  lemma MessageOfOther(steps: seq<Step>, step: Step, t: TaskId)
    requires t != step.t
    ensures MessageOf(steps + [step], t) == MessageOf(steps, t)
  {
    assert (steps + [step])[..|steps|] == steps;
  }

  lemma EntryStays(h: Hash, s: State, steps: seq<Step>, step: Step, t: TaskId, e: Entry)
    requires Enabled(s, step) && Remembers(steps, s, t)
    ensures EntryFor(h, steps, t, e) ==> EntryFor(h, steps + [step], t, e)
  {
    if MessageOf(steps, t).Some? {
      MessageStays(steps, step, t);
    }
  }

  lemma {:induction false} RunReceives(h: Hash, size: Entry -> nat, config: Config, block: nat, steps: seq<Step>,
                                       s: State)
    requires Run(h, size, config, Init(block), steps) == Some(s)
    ensures Received(h, steps, s)
    decreases |steps|
  {
    if steps != [] {
      var n := |steps| - 1;
      var before := LastStep(h, size, config, Init(block), steps);
      RunReceives(h, size, config, block, steps[..n], before);
      StepReceives(h, size, config, before, steps[..n], steps[n]);
      assert steps == steps[..n] + [steps[n]];
    }
  }

  /** Which batch an entry of the batches is in, and where. */
  lemma {:induction false} Locate(cuts: seq<Cut<Entry>>, p: nat) returns (j: nat, i: nat)
    requires p < |Flatten(cuts)|
    ensures j < |cuts| && i < |cuts[j].batch| && |Flatten(cuts[..j])| + i == p
    ensures cuts[j].batch[i] == Flatten(cuts)[p]
    decreases |cuts|
  {
    var first := |cuts[0].batch|;
    if p < first {
      j, i := 0, p;
    } else {
      j, i := Locate(cuts[1..], p - first);
      assert cuts[..j + 1][1..] == cuts[1..][..j];
      j := j + 1;
    }
  }

  /**
   Conservation for messages. In every interleaving the push sequence is exactly one entry a push, in the order
   of the pushes, with the data, commitment and connection of the message that the pushing task was given. A
   finished message has one place `p` in that sequence: in the queue, or in one batch, which is in flight, answered
   or dropped and only one of them.
   */
  lemma EveryMessageInOnePlace(h: Hash, size: Entry -> nat, config: Config, block: nat, steps: seq<Step>, s: State,
                               t: TaskId) returns (p: nat, j: nat, i: nat)
    requires Run(h, size, config, Init(block), steps) == Some(s)
    requires t in s.tasks && s.tasks[t].Finished? && MessageOf(steps, t).Some?
    ensures |Pushers(steps)| == |s.pushed| == |Flatten(s.cuts)| + |s.queue|
    ensures forall k :: 0 <= k < |s.pushed| ==> (Pushers(steps)[k] == t <==> k == p)
    ensures p < |s.pushed| && EntryFor(h, steps, t, s.pushed[p])
    ensures p >= |Flatten(s.cuts)| ==> s.queue[p - |Flatten(s.cuts)|] == s.pushed[p]
    ensures p < |Flatten(s.cuts)| ==>
              && j < |s.cuts| && i < |s.cuts[j].batch| && |Flatten(s.cuts[..j])| + i == p
              && s.cuts[j].batch[i] == s.pushed[p] && OneFate(s, j)
  {
    hide Run, EntryFor, Remembers, OneFate, Pushers, MessageOf;
    RunReceives(h, size, config, block, steps, s);
    PlacesAre(h, size, config, block, steps, s);
    p :| 0 <= p < |Pushers(steps)| && Pushers(steps)[p] == t;
    j, i := 0, 0;
    if p < |Flatten(s.cuts)| {
      j, i := Locate(s.cuts, p);
    }
  }

  lemma PlacesAre(h: Hash, size: Entry -> nat, config: Config, block: nat, steps: seq<Step>, s: State)
    requires Run(h, size, config, Init(block), steps) == Some(s)
    ensures s.pushed == Flatten(s.cuts) + s.queue
    ensures forall j :: 0 <= j < |s.cuts| ==> OneFate(s, j)
  {
    InitInv(h, size, config, block);
    RunKeepsInv(h, size, config, Init(block), steps);
  }

  // ---------- the handlers, run alone ----------

  /** A message handled without interruption: its entry is at the end of the queue, and nothing else changes. */
  lemma MessageIsQueued(h: Hash, size: Entry -> nat, config: Config, s: State, t: TaskId, data: VerificationData,
                        sink: nat)
    requires t !in s.tasks && s.queueLock == None
    ensures var u := Run(h, size, config, s, [Message(t, data, sink), LockQueue(t), Push(t)]);
            && u.Some? && u.value.tasks == s.tasks[t := Finished] && u.value.queueLock == None
            && u.value.queue == s.queue + [Entry(data, Commit(h, data), sink)]
            && u.value.last == s.last && u.value.lastLock == s.lastLock
            && u.value.cuts == s.cuts && u.value.sent == s.sent
  {
    hide Decide, Responses;
    var s1 := Apply(h, size, config, s, Message(t, data, sink));
    var s2 := Apply(h, size, config, s1, LockQueue(t));
    RunThree(h, size, config, s, Message(t, data, sink), LockQueue(t), Push(t));
  }

  lemma RunThree(h: Hash, size: Entry -> nat, config: Config, s: State, a: Step, b: Step, c: Step)
    requires Enabled(s, a) && Enabled(Apply(h, size, config, s, a), b)
    requires Enabled(Apply(h, size, config, Apply(h, size, config, s, a), b), c)
    ensures Run(h, size, config, s, [a, b, c])
            == Some(Apply(h, size, config, Apply(h, size, config, Apply(h, size, config, s, a), b), c))
  {
    hide Enabled, Apply;
    var s1 := Apply(h, size, config, s, a);
    var s2 := Apply(h, size, config, s1, b);
    assert [a, b, c][1..] == [b, c] && [b, c][1..] == [c] && [c][1..] == [];
    assert Run(h, size, config, Apply(h, size, config, s2, c), []) == Some(Apply(h, size, config, s2, c));
    assert Run(h, size, config, s2, [c]) == Run(h, size, config, Apply(h, size, config, s2, c), [c][1..]);
    assert Run(h, size, config, s1, [b, c]) == Run(h, size, config, s2, [b, c][1..]);
    assert Run(h, size, config, s, [a, b, c]) == Run(h, size, config, s1, [a, b, c][1..]);
  }

  /**
   A turn up to its decision, without interruption: the guards, the split and the clear of `is_batch_ready` on the
   queue and the last block as they stand. A queue below the minimum is flushed only once the interval is over.
   */
  lemma TurnDecides(h: Hash, size: Entry -> nat, config: Config, s: State, t: TaskId)
    requires t in s.tasks && s.tasks[t].WantsQueue? && s.queueLock == None && s.lastLock == None
    ensures var u := Run(h, size, config, s, [LockQueue(t), LockLast(t), Decision(t)]);
            var block := s.tasks[t].block;
            && u.Some? && u.value.queueLock == None && u.value.lastLock == None && u.value.last == s.last
            && u.value.sent == s.sent && u.value.answered == s.answered && u.value.dropped == s.dropped
            && (if |s.queue| < 2 || (|s.queue| < config.minBatchLen
                                     && block < (s.last + config.maxBlockInterval) % TWO_TO_THE_64) then
                  u.value.queue == s.queue && u.value.cuts == s.cuts && u.value.tasks == s.tasks[t := Finished]
                else
                  exists batch, cleared ::
                    && Decide(size, config, s.queue, block, s.last) == Flush(batch, u.value.queue, cleared)
                    && u.value.cuts == s.cuts + [Cut(batch, cleared)]
                    && u.value.tasks == s.tasks[t := WantsToSubmit(block, |s.cuts|, batch)])
  {
    var block := s.tasks[t].block;
    NotReadyIff(size, config, s.queue, block, s.last);
    hide Decide, Responses;
    RunThree(h, size, config, s, LockQueue(t), LockLast(t), Decision(t));
    var u := Run(h, size, config, s, [LockQueue(t), LockLast(t), Decision(t)]).value;
    assert u == Apply(h, size, config, Apply(h, size, config, Apply(h, size, config, s, LockQueue(t)), LockLast(t)),
                      Decision(t));
    match Decide(size, config, s.queue, block, s.last)
    case NotReady => assert u.tasks == s.tasks[t := Finished];
    case Flush(batch, rest, cleared) =>
      assert Decide(size, config, s.queue, block, s.last) == Flush(batch, u.queue, cleared);
      assert u.cuts == s.cuts + [Cut(batch, cleared)];
      assert u.tasks == s.tasks[t := WantsToSubmit(block, |s.cuts|, batch)];
  }

  /** The rest of a turn that submits: the block recorded, every client answered, and back for the next turn. */
  lemma TurnSubmits(h: Hash, size: Entry -> nat, config: Config, s: State, t: TaskId)
    requires t in s.tasks && s.tasks[t].WantsToSubmit? && s.lastLock == None
    ensures var pc := s.tasks[t];
            var u := Run(h, size, config, s, [LockLast(t), Submit(t), Answer(t)]);
            && u.Some? && u.value.lastLock == None && u.value.queueLock == s.queueLock && u.value.queue == s.queue
            && u.value.last == pc.block && u.value.sent == s.sent + Responses(h, pc.batch)
            && u.value.answered == s.answered + [pc.j] && u.value.dropped == s.dropped && u.value.cuts == s.cuts
            && u.value.tasks == s.tasks[t := WantsQueue(pc.block)]
  {
    hide Decide, Responses;
    RunThree(h, size, config, s, LockLast(t), Submit(t), Answer(t));
  }

  /** The two ways a batch is dropped: the handler ends, and neither block nor answers change. */
  lemma TurnDrops(h: Hash, size: Entry -> nat, config: Config, s: State, t: TaskId)
    requires t in s.tasks && (s.tasks[t].WantsToSubmit? || s.tasks[t].Submitting?)
    ensures var step := if s.tasks[t].WantsToSubmit? then StreamError(t) else UploadPanic(t);
            Enabled(s, step) &&
            var u := Apply(h, size, config, s, step);
            && u.tasks == s.tasks[t := Finished] && u.dropped == s.dropped + [s.tasks[t].j] && u.answered == s.answered
            && u.last == s.last && u.queue == s.queue && u.cuts == s.cuts && u.sent == s.sent
  {
  }

  /** Where handlers start. */
  lemma HandlersStart(h: Hash, size: Entry -> nat, config: Config, s: State, t: TaskId, block: nat,
                      data: VerificationData, sink: nat)
    requires t !in s.tasks
    ensures Enabled(s, NewBlock(t, block)) && Enabled(s, Message(t, data, sink))
    ensures Apply(h, size, config, s, NewBlock(t, block)) == s.(tasks := s.tasks[t := WantsQueue(block)])
    ensures Apply(h, size, config, s, Message(t, data, sink)) == s.(tasks := s.tasks[t := WantsToPush(data, sink)])
  {
  }
}
