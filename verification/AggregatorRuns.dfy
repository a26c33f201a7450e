/**
 The aggregator's handlers interleaved step by step over `taskMutex`, together with the contract they
 send responses to and with every other caller of that contract.
 */
module AggregatorRuns {
  import opened ByteStrings
  import opened Commitment
  import opened Aggregator
  import Contract = ServiceManager

  type ThreadId = nat

  /**
   Where a handler stands. `Add` handlers run `AddNewTask`, `Sign` handlers an operator's signature, `Call`
   threads the call of the signature service that a `Sign` handler spawns, `Respond` handlers a service response.
   */
  datatype Pc =
    | AddStart(root: Digest)
    | AddLocked(root: Digest)
    | AddRefused(root: Digest)
    | AddChecked(root: Digest, idx: nat)
    | AddWroteIdx(root: Digest, idx: nat)
    | AddWroteRoot(root: Digest, idx: nat)
    | AddBumped(root: Digest, idx: nat)
    | AddInitialized(root: Digest, idx: nat)
    | SignTry(root: Digest, tries: nat)
    | SignLocked(root: Digest, tries: nat)
    | SignMissed(root: Digest, tries: nat)
    | SignFound(root: Digest, idx: nat)
    | SignWaiting(root: Digest, idx: nat, callee: ThreadId)
    | SignLeaving(reply: nat)
    | CallPending(root: Digest, idx: nat)
    | CallDone
    | RespondStart(idx: nat)
    | RespondLocked(idx: nat)
    | RespondRead(idx: nat, root: Digest)
    | RespondSending(idx: nat, root: Digest, sends: nat)
    | Over

  /** Places in the code between a lock and its unlock. */
  predicate Holds(pc: Pc) {
    || pc.AddLocked? || pc.AddRefused? || pc.AddChecked? || pc.AddWroteIdx? || pc.AddWroteRoot? || pc.AddBumped?
    || pc.AddInitialized? || pc.SignLocked? || pc.SignMissed? || pc.SignFound? || pc.SignWaiting? || pc.SignLeaving?
    || pc.RespondLocked? || pc.RespondRead?
  }

  predicate WantsLock(pc: Pc) {
    pc.AddStart? || pc.SignTry? || pc.RespondStart?
  }

  predicate WantsUnlock(pc: Pc) {
    pc.AddRefused? || pc.AddInitialized? || pc.SignMissed? || pc.SignLeaving? || pc.RespondRead?
  }

  /** A thread with the number of times it has locked and unlocked `taskMutex`. */
  datatype Thread = Thread(pc: Pc, acquired: nat, released: nat)

  datatype Sent = Sent(t: ThreadId, idx: nat, root: Digest)

  datatype State = State(
    caches: Caches,
    initialized: set<nat>,
    mutex: Option<ThreadId>,
    threads: map<ThreadId, Thread>,
    halted: bool,
    calls: seq<(nat, Digest)>,
    sent: seq<Sent>,
    batches: Contract.Batches,
    txs: seq<Contract.Tx>)

  const INIT: State := State(EMPTY, {}, None, map[], false, [], [], map[], [])

  datatype Step =
    | NewBatchLog(t: ThreadId, root: Digest)
    | Signature(t: ThreadId, root: Digest)
    | ServiceResponse(t: ThreadId, idx: nat)
    | Lock(t: ThreadId)
    | Unlock(t: ThreadId)
    | Check(t: ThreadId)
    | WriteIdx(t: ThreadId)
    | WriteRoot(t: ThreadId)
    | Bump(t: ThreadId)
    | Initialize(t: ThreadId, accepted: bool)
    | Lookup(t: ThreadId)
    | Spawn(t: ThreadId, callee: ThreadId)
    | Call(t: ThreadId)
    | SeeDone(t: ThreadId)
    | Timeout(t: ThreadId)
    | Read(t: ThreadId)
    | Send(t: ThreadId, mined: Option<Contract.SignatureCheck>, ok: bool)
    | Anyone(tx: Contract.Tx)

  /**
   The signature service answers only initialised tasks; a send returns no error only if its transaction
   was mined, reverted or not. A fatal error ends the process but not the contract.
   */
  predicate Enabled(s: State, step: Step) {
    (s.halted ==> step.Anyone?) &&
    match step
    case NewBatchLog(t, _) => t !in s.threads
    case Signature(t, _) => t !in s.threads
    case ServiceResponse(t, idx) => t !in s.threads && idx in s.initialized
    case Lock(t) => t in s.threads && WantsLock(s.threads[t].pc) && s.mutex == None
    case Unlock(t) => t in s.threads && WantsUnlock(s.threads[t].pc)
    case Check(t) => t in s.threads && s.threads[t].pc.AddLocked?
    case WriteIdx(t) => t in s.threads && s.threads[t].pc.AddChecked?
    case WriteRoot(t) => t in s.threads && s.threads[t].pc.AddWroteIdx?
    case Bump(t) => t in s.threads && s.threads[t].pc.AddWroteRoot?
    case Initialize(t, _) => t in s.threads && s.threads[t].pc.AddBumped?
    case Lookup(t) => t in s.threads && s.threads[t].pc.SignLocked?
    case Spawn(t, callee) => t in s.threads && s.threads[t].pc.SignFound? && callee !in s.threads
    case Call(t) => t in s.threads && s.threads[t].pc.CallPending?
    case SeeDone(t) => t in s.threads && s.threads[t].pc.SignWaiting?
                       && s.threads[t].pc.callee in s.threads && s.threads[s.threads[t].pc.callee].pc.CallDone?
    case Timeout(t) => t in s.threads && s.threads[t].pc.SignWaiting?
    case Read(t) => t in s.threads && s.threads[t].pc.RespondLocked?
    case Send(t, mined, ok) => t in s.threads && s.threads[t].pc.RespondSending? && (ok ==> mined.Some?)
    case Anyone(_) => true
  }

  function WithCaches(s: State, rootByIdx: map<nat, Digest>, idxByRoot: map<Digest, nat>, next: nat): State {
    s.(caches := Caches(rootByIdx, idxByRoot, next))
  }

  function Goto(s: State, t: ThreadId, pc: Pc): State
    requires t in s.threads
  {
    s.(threads := s.threads[t := Thread(pc, s.threads[t].acquired, s.threads[t].released)])
  }

  function Start(s: State, t: ThreadId, pc: Pc): State {
    s.(threads := s.threads[t := Thread(pc, 0, 0)])
  }

  function Mine(s: State, tx: Contract.Tx): State {
    s.(batches := Contract.Apply(s.batches, tx), txs := s.txs + [tx])
  }

  function AfterLock(pc: Pc): Pc
    requires WantsLock(pc)
  {
    match pc
    case AddStart(root) => AddLocked(root)
    case SignTry(root, tries) => SignLocked(root, tries)
    case RespondStart(idx) => RespondLocked(idx)
  }

  function AfterUnlock(pc: Pc): Pc {
    match pc
    case SignMissed(root, tries) => if tries + 1 < WAIT_FOR_EVENT_RETRIES then SignTry(root, tries + 1) else Over
    case RespondRead(idx, root) => RespondSending(idx, root, 0)
    case _ => Over
  }

  function AfterSend(s: State, t: ThreadId, mined: Option<Contract.SignatureCheck>, ok: bool): State
    requires t in s.threads && s.threads[t].pc.RespondSending?
  {
    var pc := s.threads[t].pc;
    var next := if ok || pc.sends + 1 == MAX_SENT_TX_RETRIES then Over
                else RespondSending(pc.idx, pc.root, pc.sends + 1);
    var u := Goto(s, t, next).(sent := s.sent + [Sent(t, pc.idx, pc.root)]);
    if mined.Some? then Mine(u, Contract.RespondToTask(pc.root, mined.value)) else u
  }

  /** The effect of a step; unlocking clears the mutex whoever holds it. */
  function Apply(s: State, step: Step): State
    requires Enabled(s, step)
  {
    match step
    case NewBatchLog(t, root) => Start(s, t, AddStart(root))
    case Signature(t, root) => Start(s, t, SignTry(root, 0))
    case ServiceResponse(t, idx) => Start(s, t, RespondStart(idx))
    case Lock(t) =>
      var thread := s.threads[t];
      s.(mutex := Some(t),
         threads := s.threads[t := Thread(AfterLock(thread.pc), thread.acquired + 1, thread.released)])
    case Unlock(t) =>
      var thread := s.threads[t];
      s.(mutex := None, threads := s.threads[t := Thread(AfterUnlock(thread.pc), thread.acquired, thread.released + 1)])
    case Check(t) =>
      var root := s.threads[t].pc.root;
      Goto(s, t, if Refuses(s.caches, root) then AddRefused(root) else AddChecked(root, s.caches.next))
    case WriteIdx(t) =>
      var pc := s.threads[t].pc;
      Goto(WithCaches(s, s.caches.rootByIdx, s.caches.idxByRoot[pc.root := pc.idx], s.caches.next), t,
           AddWroteIdx(pc.root, pc.idx))
    case WriteRoot(t) =>
      var pc := s.threads[t].pc;
      Goto(WithCaches(s, s.caches.rootByIdx[pc.idx := pc.root], s.caches.idxByRoot, s.caches.next), t,
           AddWroteRoot(pc.root, pc.idx))
    case Bump(t) =>
      var pc := s.threads[t].pc;
      Goto(WithCaches(s, s.caches.rootByIdx, s.caches.idxByRoot, (s.caches.next + 1) % TWO_TO_THE_32), t,
           AddBumped(pc.root, pc.idx))
    case Initialize(t, accepted) =>
      var pc := s.threads[t].pc;
      if accepted then Goto(s.(initialized := s.initialized + {pc.idx}), t, AddInitialized(pc.root, pc.idx))
      else s.(halted := true)
    case Lookup(t) =>
      var pc := s.threads[t].pc;
      Goto(s, t, if pc.root in s.caches.idxByRoot then SignFound(pc.root, s.caches.idxByRoot[pc.root])
                 else SignMissed(pc.root, pc.tries))
    case Spawn(t, callee) =>
      var pc := s.threads[t].pc;
      Start(Goto(s, t, SignWaiting(pc.root, pc.idx, callee)), callee, CallPending(pc.root, pc.idx))
    case Call(t) =>
      var pc := s.threads[t].pc;
      Goto(s.(calls := s.calls + [(pc.idx, pc.root)]), t, CallDone)
    case SeeDone(t) => Goto(s, t, SignLeaving(0))
    case Timeout(t) => Goto(s, t, SignLeaving(1))
    case Read(t) =>
      Goto(s, t, RespondRead(s.threads[t].pc.idx, RootAt(s.caches, s.threads[t].pc.idx)))
    case Send(t, mined, ok) => AfterSend(s, t, mined, ok)
    case Anyone(tx) => Mine(s, tx)
  }

  function Run(s: State, steps: seq<Step>): Option<State>
    decreases |steps|
  {
    if steps == [] then Some(s)
    else if !Enabled(s, steps[0]) then None
    else Run(Apply(s, steps[0]), steps[1..])
  }

  // ---------- the invariant ----------

  ghost predicate Locking(s: State) {
    && (forall t :: t in s.threads ==> (Holds(s.threads[t].pc) <==> s.mutex == Some(t)))
    && (s.mutex.Some? ==> s.mutex.value in s.threads)
    && (forall t :: t in s.threads ==>
          s.threads[t].acquired == s.threads[t].released + if Holds(s.threads[t].pc) then 1 else 0)
  }

  /** The holder of the mutex, where it is in the middle of adding a task. */
  ghost predicate Adding(s: State, root: Digest, idx: nat) {
    s.mutex.Some? && s.mutex.value in s.threads &&
    var pc := s.threads[s.mutex.value].pc;
    pc == AddWroteIdx(root, idx) || pc == AddWroteRoot(root, idx) || pc == AddBumped(root, idx)
  }

  /** The maps agree on the pair. */
  predicate Paired(c: Caches, root: Digest, idx: nat) {
    root in c.idxByRoot && c.idxByRoot[root] == idx && idx in c.rootByIdx && c.rootByIdx[idx] == root
  }

  /** The maps agree on the pair and its task has been initialised. */
  predicate Settled(s: State, root: Digest, idx: nat) {
    Paired(s.caches, root, idx) && idx in s.initialized
  }

  /** Outside an addition the maps are inverse and everything in them is initialised. */
  ghost predicate Caching(s: State) {
    && (forall r :: r in s.caches.idxByRoot ==>
          var i := s.caches.idxByRoot[r]; Settled(s, r, i) || Adding(s, r, i))
    && (forall i :: i in s.caches.rootByIdx ==> Paired(s.caches, s.caches.rootByIdx[i], i))
    && (forall i :: i in s.initialized ==> i in s.caches.rootByIdx)
  }

  /** What each place in the code knows. */
  ghost predicate Knows(s: State, pc: Pc) {
    match pc
    case AddChecked(root, idx) => root !in s.caches.idxByRoot && idx !in s.caches.rootByIdx
    case AddWroteIdx(root, idx) =>
      root in s.caches.idxByRoot && s.caches.idxByRoot[root] == idx && idx !in s.caches.rootByIdx
    case AddWroteRoot(root, idx) => Paired(s.caches, root, idx)
    case AddBumped(root, idx) => Paired(s.caches, root, idx)
    case AddInitialized(root, idx) => Settled(s, root, idx)
    case SignTry(_, tries) => tries < WAIT_FOR_EVENT_RETRIES
    case SignLocked(_, tries) => tries < WAIT_FOR_EVENT_RETRIES
    case SignMissed(_, tries) => tries < WAIT_FOR_EVENT_RETRIES
    case SignFound(root, idx) => Settled(s, root, idx)
    case SignWaiting(root, idx, _) => Settled(s, root, idx)
    case CallPending(root, idx) => Settled(s, root, idx)
    case RespondStart(idx) => idx in s.initialized
    case RespondLocked(idx) => idx in s.initialized
    case RespondRead(idx, root) => Settled(s, root, idx)
    case RespondSending(idx, root, sends) => Settled(s, root, idx) && sends < MAX_SENT_TX_RETRIES
    case _ => true
  }

  function SendsBy(sent: seq<Sent>, t: ThreadId): nat {
    if sent == [] then 0
    else SendsBy(sent[..|sent| - 1], t) + if sent[|sent| - 1].t == t then 1 else 0
  }

  lemma SendsBySnoc(sent: seq<Sent>, x: Sent, t: ThreadId)
    ensures SendsBy(sent + [x], t) == SendsBy(sent, t) + if x.t == t then 1 else 0
  {
    assert (sent + [x])[..|sent|] == sent;
  }

  /** No response handler sends more than five times. */
  ghost predicate Counts(s: State) {
    forall t: ThreadId :: CountsFor(s, t)
  }

  /** A thread's sends are those its place in the code says. */
  predicate CountsFor(s: State, t: ThreadId) {
    && SendsBy(s.sent, t) <= MAX_SENT_TX_RETRIES
    && (if t in s.threads then
          var pc := s.threads[t].pc;
          && (pc.RespondStart? || pc.RespondLocked? || pc.RespondRead? ==> SendsBy(s.sent, t) == 0)
          && (pc.RespondSending? ==> SendsBy(s.sent, t) == pc.sends)
        else
          SendsBy(s.sent, t) == 0)
  }

  ghost predicate Sending(s: State) {
    Counts(s) && forall k :: 0 <= k < |s.sent| ==> Settled(s, s.sent[k].root, s.sent[k].idx)
  }

  ghost predicate Calling(s: State) {
    forall k :: 0 <= k < |s.calls| ==> Settled(s, s.calls[k].1, s.calls[k].0)
  }

  ghost predicate Inv(s: State) {
    && Locking(s) && Caching(s) && Sending(s) && Calling(s)
    && (forall t :: t in s.threads ==> Knows(s, s.threads[t].pc))
    && s.batches == Contract.Run(map[], s.txs)
  }

  /** Thread `t` moved between places that both hold the mutex, or neither, or has just started. */
  predicate Moves(s: State, u: State, t: ThreadId) {
    && u.mutex == s.mutex && t in u.threads && u.threads == s.threads[t := u.threads[t]]
    && (if t in s.threads then
          && (Holds(u.threads[t].pc) <==> Holds(s.threads[t].pc))
          && u.threads[t].acquired == s.threads[t].acquired && u.threads[t].released == s.threads[t].released
        else
          !Holds(u.threads[t].pc) && u.threads[t].acquired == u.threads[t].released)
  }

  lemma MovesKeepsLocking(s: State, u: State, t: ThreadId)
    requires Locking(s) && Moves(s, u, t)
    ensures Locking(u)
  {
  }

  lemma StepMoves(s: State, step: Step)
    requires Enabled(s, step) && !step.Lock? && !step.Unlock? && !step.Spawn? && !step.Anyone?
    ensures Moves(s, Apply(s, step), step.t)
  {
    assert step.t in s.threads ==> s.threads == s.threads[step.t := s.threads[step.t]];
  }

  lemma SpawnMovesTwo(s: State, step: Step) returns (mid: State)
    requires Enabled(s, step) && step.Spawn?
    ensures Moves(s, mid, step.t) && Moves(mid, Apply(s, step), step.callee)
  {
    mid := Goto(s, step.t, SignWaiting(s.threads[step.t].pc.root, s.threads[step.t].pc.idx, step.callee));
  }

  lemma LockKeepsLocking(s: State, step: Step)
    requires Locking(s) && Enabled(s, step) && (step.Lock? || step.Unlock?)
    ensures Locking(Apply(s, step))
  {
  }

  lemma LockingKept(s: State, step: Step)
    requires Locking(s) && Enabled(s, step)
    ensures Locking(Apply(s, step))
  {
    hide Enabled;
    if step.Lock? || step.Unlock? {
      LockKeepsLocking(s, step);
    } else if step.Spawn? {
      var mid := SpawnMovesTwo(s, step);
      MovesKeepsLocking(s, mid, step.t);
      MovesKeepsLocking(mid, Apply(s, step), step.callee);
    } else if !step.Anyone? {
      StepMoves(s, step);
      MovesKeepsLocking(s, Apply(s, step), step.t);
    }
  }

  /** Caches only grow: an assigned index keeps its root, a known root its index. */
  ghost predicate Grows(s: State, u: State) {
    && (forall i :: i in s.caches.rootByIdx ==>
          i in u.caches.rootByIdx && u.caches.rootByIdx[i] == s.caches.rootByIdx[i])
    && (forall r :: r in s.caches.idxByRoot ==>
          r in u.caches.idxByRoot && u.caches.idxByRoot[r] == s.caches.idxByRoot[r])
    && s.initialized <= u.initialized
  }

  lemma StepGrows(s: State, step: Step)
    requires Inv(s) && Enabled(s, step)
    ensures Grows(s, Apply(s, step))
  {
    OnlyHolderWrites(s, step);
    hide Enabled, Apply, Locking, Caching, Sending, Calling, Knows;
    if Writes(step) {
      WriteGrows(s, step);
    }
  }

  lemma WriteGrows(s: State, step: Step)
    requires Inv(s) && Enabled(s, step) && Writes(step)
    ensures Grows(s, Apply(s, step))
  {
    hide Locking, Caching, Sending, Calling;
    assert Knows(s, s.threads[step.t].pc);
  }

  lemma SettledGrows(s: State, u: State, root: Digest, idx: nat)
    requires Grows(s, u) && Settled(s, root, idx)
    ensures Settled(u, root, idx)
  {
  }

  /** The steps of `AddNewTask` that write: only the mutex's holder takes them. */
  predicate Writes(step: Step) {
    step.WriteIdx? || step.WriteRoot? || step.Bump? || step.Initialize?
  }

  lemma OnlyHolderWrites(s: State, step: Step)
    requires Locking(s) && Enabled(s, step)
    ensures Writes(step) ==> s.mutex == Some(step.t)
    ensures !Writes(step) ==> Apply(s, step).caches == s.caches && Apply(s, step).initialized == s.initialized
  {
  }

  /** A step that does not write leaves the addition under way, if any, where it is. */
  lemma AddingStays(s: State, step: Step, root: Digest, idx: nat)
    requires Locking(s) && Enabled(s, step) && !Writes(step) && Adding(s, root, idx)
    ensures Adding(Apply(s, step), root, idx)
  {
  }

  lemma CachingKept(s: State, step: Step)
    requires Inv(s) && Enabled(s, step)
    ensures Caching(Apply(s, step))
  {
    OnlyHolderWrites(s, step);
    var u := Apply(s, step);
    if Writes(step) {
      WriteKeepsCaching(s, step);
    } else {
      forall r | r in u.caches.idxByRoot
        ensures Settled(u, r, u.caches.idxByRoot[r]) || Adding(u, r, u.caches.idxByRoot[r])
      {
        if Adding(s, r, s.caches.idxByRoot[r]) {
          AddingStays(s, step, r, s.caches.idxByRoot[r]);
        }
      }
    }
  }

  lemma WriteKeepsCaching(s: State, step: Step)
    requires Inv(s) && Enabled(s, step) && Writes(step)
    ensures Caching(Apply(s, step))
  {
    hide Caching, Enabled, Apply;
    if step.WriteIdx? {
      WriteIdxKeepsCaching(s, step);
    } else if step.WriteRoot? {
      WriteRootKeepsCaching(s, step);
    } else {
      SettlingKeepsCaching(s, step);
    }
  }

  lemma WriteIdxKeepsCaching(s: State, step: Step)
    requires Inv(s) && Enabled(s, step) && step.WriteIdx?
    ensures Caching(Apply(s, step))
  {
    OnlyHolderWrites(s, step);
    assert Knows(s, s.threads[step.t].pc);
  }

  lemma WriteRootKeepsCaching(s: State, step: Step)
    requires Inv(s) && Enabled(s, step) && step.WriteRoot?
    ensures Caching(Apply(s, step))
  {
    OnlyHolderWrites(s, step);
    assert Knows(s, s.threads[step.t].pc);
  }

  lemma SettlingKeepsCaching(s: State, step: Step)
    requires Inv(s) && Enabled(s, step) && (step.Bump? || step.Initialize?)
    ensures Caching(Apply(s, step))
  {
    OnlyHolderWrites(s, step);
    assert Knows(s, s.threads[step.t].pc);
  }

  lemma OthersKnowledgeKept(s: State, step: Step, t: ThreadId)
    requires Inv(s) && Enabled(s, step) && t in s.threads && (step.Anyone? || t != step.t)
    ensures t in Apply(s, step).threads && Apply(s, step).threads[t].pc == s.threads[t].pc
    ensures Knows(Apply(s, step), s.threads[t].pc)
  {
    StepGrows(s, step);
    OnlyHolderWrites(s, step);
    assert Knows(s, s.threads[t].pc);
  }

  /** Under the mutex a signature handler sees only pairs that are settled. */
  lemma LookupSettles(s: State, t: ThreadId, root: Digest)
    requires Locking(s) && Caching(s) && t in s.threads && s.threads[t].pc.SignLocked? && root in s.caches.idxByRoot
    ensures Settled(s, root, s.caches.idxByRoot[root])
  {
    assert s.mutex == Some(t);
  }

  /** An initialised index reads as the root it was stored with, never as the zero default. */
  lemma ReadSettles(s: State, idx: nat)
    requires Caching(s) && idx in s.initialized
    ensures idx in s.caches.rootByIdx && Settled(s, RootAt(s.caches, idx), idx)
  {
  }

  lemma OwnKnowledgeAfterWrite(s: State, step: Step)
    requires Inv(s) && Enabled(s, step) && Writes(step)
    ensures step.t in Apply(s, step).threads && Knows(Apply(s, step), Apply(s, step).threads[step.t].pc)
  {
    assert Knows(s, s.threads[step.t].pc);
  }

  lemma OwnKnowledgeAfterLook(s: State, step: Step)
    requires Inv(s) && Enabled(s, step) && (step.Lookup? || step.Read?)
    ensures step.t in Apply(s, step).threads && Knows(Apply(s, step), Apply(s, step).threads[step.t].pc)
  {
    var pc := s.threads[step.t].pc;
    assert Knows(s, pc);
    if step.Read? {
      ReadSettles(s, pc.idx);
    } else if pc.root in s.caches.idxByRoot {
      LookupSettles(s, step.t, pc.root);
    }
  }

  lemma KnowledgeAfterSpawn(s: State, step: Step)
    requires Inv(s) && Enabled(s, step) && step.Spawn?
    ensures forall v :: v == step.t || v == step.callee ==>
              v in Apply(s, step).threads && Knows(Apply(s, step), Apply(s, step).threads[v].pc)
  {
    assert Knows(s, s.threads[step.t].pc);
  }

  lemma OwnKnowledgeKept(s: State, step: Step)
    requires Inv(s) && Enabled(s, step) && !step.Anyone? && !Writes(step)
    requires !step.Lookup? && !step.Read? && !step.Spawn?
    ensures step.t in Apply(s, step).threads && Knows(Apply(s, step), Apply(s, step).threads[step.t].pc)
  {
    hide Knows;
    if step.Lock? || step.Unlock? {
      KnowledgeAcrossLock(s, step);
    } else {
      KnowledgeOfOthers(s, step);
    }
  }

  lemma KnowledgeAcrossLock(s: State, step: Step)
    requires Inv(s) && Enabled(s, step) && (step.Lock? || step.Unlock?)
    ensures step.t in Apply(s, step).threads && Knows(Apply(s, step), Apply(s, step).threads[step.t].pc)
  {
    assert Knows(s, s.threads[step.t].pc);
  }

  /** The steps that start a handler, refuse an addition, call, see a call's end, or send. */
  lemma KnowledgeOfOthers(s: State, step: Step)
    requires Inv(s) && Enabled(s, step) && !step.Anyone? && !Writes(step) && !step.Lookup? && !step.Read?
    requires !step.Spawn? && !step.Lock? && !step.Unlock?
    ensures step.t in Apply(s, step).threads && Knows(Apply(s, step), Apply(s, step).threads[step.t].pc)
  {
    OnlyHolderWrites(s, step);
    if step.t in s.threads {
      assert Knows(s, s.threads[step.t].pc);
    }
  }

  /** What a thread knows at its place in the code stays true while others step. */
  lemma KnowledgeKept(s: State, step: Step, t: ThreadId)
    requires Inv(s) && Enabled(s, step) && t in Apply(s, step).threads
    ensures Knows(Apply(s, step), Apply(s, step).threads[t].pc)
  {
    if Writes(step) {
      OwnKnowledgeAfterWrite(s, step);
    } else if step.Lookup? || step.Read? {
      OwnKnowledgeAfterLook(s, step);
    } else if step.Spawn? {
      KnowledgeAfterSpawn(s, step);
    } else if !step.Anyone? {
      OwnKnowledgeKept(s, step);
    }
    if t in s.threads && (step.Anyone? || t != step.t) {
      OthersKnowledgeKept(s, step, t);
    }
  }

  lemma CallingKept(s: State, step: Step)
    requires Inv(s) && Enabled(s, step)
    ensures Calling(Apply(s, step))
  {
    StepGrows(s, step);
    var u := Apply(s, step);
    if step.Call? {
      assert Knows(s, s.threads[step.t].pc);
    }
    forall k | 0 <= k < |u.calls|
      ensures Settled(u, u.calls[k].1, u.calls[k].0)
    {
      if k < |s.calls| {
        SettledGrows(s, u, s.calls[k].1, s.calls[k].0);
      }
    }
  }

  lemma SendingKept(s: State, step: Step)
    requires Inv(s) && Enabled(s, step)
    ensures Sending(Apply(s, step))
  {
    if step.Send? {
      SendKept(s, step);
    } else {
      CountsKept(s, step);
      SentStaysSettled(s, step);
    }
  }

  lemma CountsKept(s: State, step: Step)
    requires Sending(s) && Enabled(s, step) && !step.Send?
    ensures Apply(s, step).sent == s.sent && Counts(Apply(s, step))
  {
    hide Enabled, Apply, CountsFor;
    CountKept(s, step, 0);
    forall t: ThreadId ensures CountsFor(Apply(s, step), t) {
      CountKept(s, step, t);
    }
  }

  lemma CountKept(s: State, step: Step, t: ThreadId)
    requires Counts(s) && Enabled(s, step) && !step.Send?
    ensures Apply(s, step).sent == s.sent && CountsFor(Apply(s, step), t)
  {
    assert CountsFor(s, t);
  }

  lemma SentStaysSettled(s: State, step: Step)
    requires Inv(s) && Enabled(s, step) && !step.Send?
    ensures forall k :: 0 <= k < |s.sent| ==> Settled(Apply(s, step), s.sent[k].root, s.sent[k].idx)
  {
    StepGrows(s, step);
    forall k | 0 <= k < |s.sent|
      ensures Settled(Apply(s, step), s.sent[k].root, s.sent[k].idx)
    {
      SettledGrows(s, Apply(s, step), s.sent[k].root, s.sent[k].idx);
    }
  }

  lemma SendKept(s: State, step: Step)
    requires Inv(s) && Enabled(s, step) && step.Send?
    ensures Sending(Apply(s, step))
  {
    hide Caching, Locking, Calling, CountsFor;
    var u, pc := Apply(s, step), s.threads[step.t].pc;
    assert Knows(s, pc);
    forall v: ThreadId ensures CountsFor(u, v) {
      SendCounted(s, step, v);
    }
    assert u.caches == s.caches && u.initialized == s.initialized;
  }

  lemma SendCounted(s: State, step: Step, v: ThreadId)
    requires Counts(s) && Enabled(s, step) && step.Send? && Knows(s, s.threads[step.t].pc)
    ensures CountsFor(Apply(s, step), v)
  {
    var pc := s.threads[step.t].pc;
    SendsBySnoc(s.sent, Sent(step.t, pc.idx, pc.root), v);
    assert CountsFor(s, v);
  }

  lemma ContractKept(s: State, step: Step)
    requires s.batches == Contract.Run(map[], s.txs) && Enabled(s, step)
    ensures Apply(s, step).batches == Contract.Run(map[], Apply(s, step).txs)
  {
    var u := Apply(s, step);
    if u.txs != s.txs {
      var tx := u.txs[|s.txs|];
      Contract.RunAppend(map[], s.txs, [tx]);
      assert Contract.Run(s.batches, [tx]) == Contract.Run(Contract.Apply(s.batches, tx), [tx][1..]);
    }
  }

  lemma StepKeepsInv(s: State, step: Step)
    requires Inv(s) && Enabled(s, step)
    ensures Inv(Apply(s, step))
  {
    LockingKept(s, step);
    CachingKept(s, step);
    SendingKept(s, step);
    CallingKept(s, step);
    ContractKept(s, step);
    forall t | t in Apply(s, step).threads
      ensures Knows(Apply(s, step), Apply(s, step).threads[t].pc)
    {
      KnowledgeKept(s, step, t);
    }
  }

  lemma {:induction false} RunKeepsInv(s: State, steps: seq<Step>)
    requires Inv(s) && Run(s, steps).Some?
    ensures Inv(Run(s, steps).value) && Grows(s, Run(s, steps).value)
    decreases |steps|
  {
    if steps != [] {
      StepKeepsInv(s, steps[0]);
      StepGrows(s, steps[0]);
      RunKeepsInv(Apply(s, steps[0]), steps[1..]);
    }
  }

  ghost predicate Reachable(s: State) {
    exists steps :: Run(INIT, steps) == Some(s)
  }

  lemma ReachableInv(s: State)
    requires Reachable(s)
    ensures Inv(s)
  {
    var steps :| Run(INIT, steps) == Some(s);
    RunKeepsInv(INIT, steps);
  }

  // ---------- results over every run ----------

  /**
   Initialise before sign: every call of the signature service was made with an index and a root that the
   maps agree on, for a task already initialised, even when the handler that spawned the call has timed out
   and let go of the mutex.
   */
  lemma CallsAreSettled(s: State, k: nat)
    requires Reachable(s) && k < |s.calls|
    ensures Settled(s, s.calls[k].1, s.calls[k].0)
  {
    ReachableInv(s);
  }

  /** The pair was settled already at the moment of the call. */
  lemma CallWasSettledWhenMade(s: State, t: ThreadId)
    requires Reachable(s) && Enabled(s, Call(t))
    ensures var call := Apply(s, Call(t)).calls[|s.calls|]; Settled(s, call.1, call.0)
  {
    ReachableInv(s);
    assert Knows(s, s.threads[t].pc);
  }

  /** The right root goes on chain: the one stored for the response's task, at most five times a response. */
  lemma RightRootIsSent(s: State, k: nat)
    requires Reachable(s) && k < |s.sent|
    ensures s.sent[k].idx in s.caches.rootByIdx && s.caches.rootByIdx[s.sent[k].idx] == s.sent[k].root
    ensures SendsBy(s.sent, s.sent[k].t) <= MAX_SENT_TX_RETRIES
  {
    ReachableInv(s);
    assert CountsFor(s, s.sent[k].t);
  }

  /** Between additions the maps are inverse bijections and everything in them is initialised. */
  lemma MapsAreInverse(s: State)
    requires Reachable(s)
    requires forall t :: t in s.threads ==> !Midway(s.threads[t].pc)
    ensures Inverse(s.caches) && forall i :: i in s.caches.rootByIdx <==> i in s.initialized
  {
    ReachableInv(s);
    forall i | i in s.caches.rootByIdx
      ensures i in s.initialized
    {
      var r := s.caches.rootByIdx[i];
      assert Paired(s.caches, r, i);
    }
  }

  /** Places between the first write of an addition and its initialisation. */
  predicate Midway(pc: Pc) {
    pc.AddWroteIdx? || pc.AddWroteRoot? || pc.AddBumped?
  }

  /** Over any continuation of a run no assigned index changes its root and no known root its index. */
  lemma NothingOverwritten(s: State, steps: seq<Step>)
    requires Reachable(s) && Run(s, steps).Some?
    ensures Grows(s, Run(s, steps).value)
  {
    ReachableInv(s);
    RunKeepsInv(s, steps);
  }

  /** A thread has unlocked as often as it has locked, but for the lock it holds where the code holds one. */
  lemma LocksBalance(s: State, t: ThreadId)
    requires Reachable(s) && t in s.threads
    ensures s.threads[t].acquired == s.threads[t].released + if s.mutex == Some(t) then 1 else 0
    ensures s.mutex == Some(t) <==> Holds(s.threads[t].pc)
    ensures Enabled(s, Unlock(t)) ==> s.mutex == Some(t)
    ensures s.threads[t].pc.SignTry? || s.threads[t].pc.Over? ==> s.threads[t].acquired == s.threads[t].released
  {
    ReachableInv(s);
  }

  /** The mutex's holder can always go on, unless the process has ended. */
  lemma HolderCanStep(s: State, callee: ThreadId) returns (step: Step)
    requires Reachable(s) && s.mutex.Some? && !s.halted && callee !in s.threads
    ensures Enabled(s, step) && !step.Anyone? && step.t == s.mutex.value
  {
    ReachableInv(s);
    var t := s.mutex.value;
    assert Knows(s, s.threads[t].pc);
    match s.threads[t].pc
    case AddLocked(_) => step := Check(t);
    case AddChecked(_, _) => step := WriteIdx(t);
    case AddWroteIdx(_, _) => step := WriteRoot(t);
    case AddWroteRoot(_, _) => step := Bump(t);
    case AddBumped(_, _) => step := Initialize(t, true);
    case SignLocked(_, _) => step := Lookup(t);
    case SignFound(_, _) => step := Spawn(t, callee);
    case SignWaiting(_, _, _) => step := Timeout(t);
    case RespondLocked(_) => step := Read(t);
    case _ => step := Unlock(t);
  }

  /**
   The contract under the aggregator's repeated sends and everyone else's transactions: a root is verified
   at most once, after its own `NewBatch`, with at least 67% of the stake signed.
   */
  lemma ContractIsSafe(s: State, root: Digest, i: nat)
    requires Reachable(s) && i < |s.txs| && Contract.EventAt(map[], s.txs, i) == Some(Contract.BatchVerified(root))
    ensures s.batches == Contract.Run(map[], s.txs)
    ensures forall j :: 0 <= j < |s.txs| && Contract.EventAt(map[], s.txs, j) == Some(Contract.BatchVerified(root)) ==>
              j == i
    ensures exists j :: 0 <= j < i && Contract.Announces(map[], s.txs, root, j)
    ensures s.txs[i].RespondToTask? && s.txs[i].check.Stakes?
    ensures 100 * s.txs[i].check.signed >= 67 * s.txs[i].check.total
  {
    ReachableInv(s);
    Contract.RunSafety(s.txs, root, i);
  }

  // ---------- every handler ends ----------

  /** Steps a handler still has at most. A signature handler's tries are three steps each, and the last one five. */
  function Rank(pc: Pc): nat {
    match pc
    case AddStart(_) => 7
    case AddLocked(_) => 6
    case AddChecked(_, _) => 5
    case AddWroteIdx(_, _) => 4
    case AddWroteRoot(_, _) => 3
    case AddBumped(_, _) => 2
    case AddInitialized(_, _) => 1
    case AddRefused(_) => 1
    case SignTry(_, tries) => TriesLeft(tries) + 2
    case SignLocked(_, tries) => TriesLeft(tries) + 1
    case SignMissed(_, tries) => TriesLeft(tries)
    case SignFound(_, _) => 3
    case SignWaiting(_, _, _) => 2
    case SignLeaving(_) => 1
    case CallPending(_, _) => 1
    case RespondStart(_) => MAX_SENT_TX_RETRIES + 3
    case RespondLocked(_) => MAX_SENT_TX_RETRIES + 2
    case RespondRead(_, _) => MAX_SENT_TX_RETRIES + 1
    case RespondSending(_, _, sends) => if sends < MAX_SENT_TX_RETRIES then MAX_SENT_TX_RETRIES - sends else 0
    case _ => 0
  }

  function TriesLeft(tries: nat): nat {
    if tries < WAIT_FOR_EVENT_RETRIES then 3 * (WAIT_FOR_EVENT_RETRIES - tries) else 0
  }

  /** What a thread has left: its start and a longest handler before it is there, nothing once the process is down. */
  function Left(s: State, t: ThreadId): nat {
    if s.halted then 0 else if t in s.threads then Rank(s.threads[t].pc) else 3 * WAIT_FOR_EVENT_RETRIES + 3
  }

  predicate By(step: Step, t: ThreadId) {
    !step.Anyone? && step.t == t
  }

  /** Every step of a thread uses up what it has left, and no one else's step adds to it. */
  lemma StepUsesUp(s: State, step: Step, t: ThreadId)
    requires Inv(s) && Enabled(s, step)
    ensures Left(Apply(s, step), t) + (if By(step, t) then 1 else 0) <= Left(s, t)
  {
    hide Enabled, Apply, Left;
    if !By(step, t) {
      OthersUseNothing(s, step, t);
    } else if step.Lock? || step.Unlock? {
      LockingUsesUp(s, step);
    } else {
      OwnStepUsesUp(s, step);
    }
  }

  lemma OthersUseNothing(s: State, step: Step, t: ThreadId)
    requires Enabled(s, step) && !By(step, t)
    ensures Left(Apply(s, step), t) <= Left(s, t)
  {
  }

  lemma LockingUsesUp(s: State, step: Step)
    requires Inv(s) && Enabled(s, step) && (step.Lock? || step.Unlock?)
    ensures Left(Apply(s, step), step.t) < Left(s, step.t)
  {
    hide Locking, Caching, Sending, Calling, Settled;
    assert Knows(s, s.threads[step.t].pc);
  }

  lemma OwnStepUsesUp(s: State, step: Step)
    requires Inv(s) && Enabled(s, step) && !step.Anyone? && !step.Lock? && !step.Unlock?
    ensures Left(Apply(s, step), step.t) < Left(s, step.t)
  {
    hide Enabled, Apply, Left, Inv;
    if step.Check? || Writes(step) {
      AddingUsesUp(s, step);
    } else if step.NewBatchLog? || step.Signature? || step.ServiceResponse? {
      StartUsesUp(s, step);
    } else if step.Lookup? || step.Read? || step.Send? {
      AnsweringUsesUp(s, step);
    } else {
      SigningUsesUp(s, step);
    }
  }

  lemma AddingUsesUp(s: State, step: Step)
    requires Enabled(s, step) && (step.Check? || Writes(step))
    ensures Left(Apply(s, step), step.t) < Left(s, step.t)
  {
  }

  lemma StartUsesUp(s: State, step: Step)
    requires Enabled(s, step) && (step.NewBatchLog? || step.Signature? || step.ServiceResponse?)
    ensures Left(Apply(s, step), step.t) < Left(s, step.t)
  {
  }

  lemma SigningUsesUp(s: State, step: Step)
    requires Enabled(s, step) && (step.Spawn? || step.Call? || step.SeeDone? || step.Timeout?)
    ensures Left(Apply(s, step), step.t) < Left(s, step.t)
  {
  }

  lemma AnsweringUsesUp(s: State, step: Step)
    requires Inv(s) && Enabled(s, step) && (step.Lookup? || step.Read? || step.Send?)
    ensures Left(Apply(s, step), step.t) < Left(s, step.t)
  {
    hide Locking, Caching, Sending, Calling, Settled;
    assert Knows(s, s.threads[step.t].pc);
  }

  function StepsBy(steps: seq<Step>, t: ThreadId): nat {
    if steps == [] then 0 else (if By(steps[0], t) then 1 else 0) + StepsBy(steps[1..], t)
  }

  lemma {:induction false} RunUsesUp(s: State, steps: seq<Step>, t: ThreadId)
    requires Inv(s) && Run(s, steps).Some?
    ensures Left(Run(s, steps).value, t) + StepsBy(steps, t) <= Left(s, t)
    decreases |steps|
  {
    hide Inv, Enabled, Apply, Left, By;
    if steps != [] {
      StepKeepsInv(s, steps[0]);
      StepUsesUp(s, steps[0], t);
      RunUsesUp(Apply(s, steps[0]), steps[1..], t);
    }
  }

  /**
   No handler goes on for ever: in every interleaving a thread takes at most its start and 152 steps, which is 49
   tries that miss and one that signs. And none is stuck: unless it has ended it can step, or waits for the mutex
   while the mutex's holder can.
   */
  lemma EveryHandlerEnds(steps: seq<Step>, s: State, t: ThreadId, callee: ThreadId) returns (step: Step)
    requires Run(INIT, steps) == Some(s) && callee !in s.threads
    ensures StepsBy(steps, t) <= 3 * WAIT_FOR_EVENT_RETRIES + 3
    ensures t in s.threads && Rank(s.threads[t].pc) > 0 && !s.halted ==> Enabled(s, step) && !step.Anyone?
    ensures t in s.threads && Rank(s.threads[t].pc) > 0 && !s.halted ==>
              step.t == if WantsLock(s.threads[t].pc) && s.mutex.Some? then s.mutex.value else t
  {
    NothingNumbered();
    RunUsesUp(INIT, steps, t);
    step := Lock(t);
    if t in s.threads && Rank(s.threads[t].pc) > 0 && !s.halted {
      ReachableInv(s);
      assert Knows(s, s.threads[t].pc);
      var pc := s.threads[t].pc;
      if Holds(pc) || (WantsLock(pc) && s.mutex.Some?) {
        step := HolderCanStep(s, callee);
      } else if pc.CallPending? {
        step := Call(t);
      } else if pc.RespondSending? {
        step := Send(t, None, false);
      }
    }
  }

  /** How often a handler has locked the mutex at each place: once, or once a try. */
  predicate Locked(thread: Thread) {
    match thread.pc
    case SignTry(_, tries) => thread.acquired == tries
    case SignLocked(_, tries) => thread.acquired == tries + 1
    case SignMissed(_, tries) => thread.acquired == tries + 1
    case AddStart(_) => thread.acquired == 0
    case RespondStart(_) => thread.acquired == 0
    case _ => thread.acquired <= WAIT_FOR_EVENT_RETRIES
  }

  lemma LockedKept(s: State, step: Step, t: ThreadId)
    requires Inv(s) && Enabled(s, step) && t in Apply(s, step).threads && (t in s.threads ==> Locked(s.threads[t]))
    ensures Locked(Apply(s, step).threads[t])
  {
    hide Locking, Caching, Sending, Calling, Settled;
    if t in s.threads {
      assert Knows(s, s.threads[t].pc);
    }
  }

  lemma {:induction false} RunKeepsLocked(s: State, steps: seq<Step>, t: ThreadId)
    requires Inv(s) && Run(s, steps).Some? && (t in s.threads ==> Locked(s.threads[t]))
    ensures t in Run(s, steps).value.threads ==> Locked(Run(s, steps).value.threads[t])
    decreases |steps|
  {
    hide Inv, Enabled, Apply, Locked;
    if steps != [] {
      StepKeepsInv(s, steps[0]);
      if t in Apply(s, steps[0]).threads {
        LockedKept(s, steps[0], t);
      }
      RunKeepsLocked(Apply(s, steps[0]), steps[1..], t);
    }
  }

  /** No handler locks the mutex more often than it may try. */
  lemma LocksAreBounded(s: State, t: ThreadId)
    requires Reachable(s) && t in s.threads
    ensures s.threads[t].released <= s.threads[t].acquired <= WAIT_FOR_EVENT_RETRIES
  {
    LocksBalance(s, t);
    NothingNumbered();
    var steps :| Run(INIT, steps) == Some(s);
    RunKeepsLocked(INIT, steps, t);
    ReachableInv(s);
    assert Knows(s, s.threads[t].pc);
  }

  // ---------- the indices in use ----------

  /** The holder of the mutex has written an index to the maps that the counter does not count yet. */
  ghost predicate AheadOfCounter(s: State) {
    s.mutex.Some? && s.mutex.value in s.threads && s.threads[s.mutex.value].pc.AddWroteRoot?
  }

  /** An addition between its check and its bump works on the counter's index. */
  ghost predicate UsesNext(s: State) {
    s.mutex.Some? && s.mutex.value in s.threads ==>
      var pc := s.threads[s.mutex.value].pc;
      (pc.AddChecked? || pc.AddWroteIdx? || pc.AddWroteRoot?) ==> pc.idx == s.caches.next
  }

  /** `count` additions have bumped the counter, and the indices in use are the first ones. */
  ghost predicate Numbered(s: State, count: nat) {
    && UsesNext(s) && s.caches.next == count % TWO_TO_THE_32
    && (if AheadOfCounter(s) then count < TWO_TO_THE_32 else count <= TWO_TO_THE_32)
    && (forall i :: i in s.caches.rootByIdx <==> 0 <= i < if AheadOfCounter(s) then count + 1 else count)
  }

  /** The steps that read or write what the numbering is about: only the mutex's holder takes them. */
  predicate Numbers(step: Step) {
    step.Check? || step.WriteIdx? || step.WriteRoot? || step.Bump?
  }

  lemma CheckAndWriteKeepNumbering(s: State, step: Step, count: nat)
    requires Inv(s) && Enabled(s, step) && Numbered(s, count) && Numbers(step) && !step.Bump?
    ensures Numbered(Apply(s, step), count)
  {
    assert Knows(s, s.threads[step.t].pc);
    assert s.mutex == Some(step.t);
  }

  lemma BumpNumbers(s: State, step: Step, count: nat)
    requires Inv(s) && Enabled(s, step) && Numbered(s, count) && step.Bump?
    ensures Numbered(Apply(s, step), count + 1)
  {
    assert s.mutex == Some(step.t);
  }

  lemma OthersKeepNumbering(s: State, step: Step, count: nat)
    requires Inv(s) && Enabled(s, step) && Numbered(s, count) && !Numbers(step)
    ensures Numbered(Apply(s, step), count)
  {
    hide Caching, Sending, Calling, Knows;
  }

  lemma {:induction false} RunNumbers(s: State, steps: seq<Step>, count: nat) returns (more: nat)
    requires Inv(s) && Numbered(s, count) && Run(s, steps).Some?
    ensures Numbered(Run(s, steps).value, more) && count <= more
    decreases |steps|
  {
    more := count;
    if steps != [] {
      hide Numbered, Inv, Apply, Enabled;
      StepKeepsInv(s, steps[0]);
      if steps[0].Bump? {
        BumpNumbers(s, steps[0], count);
        more := RunNumbers(Apply(s, steps[0]), steps[1..], count + 1);
      } else {
        if Numbers(steps[0]) {
          CheckAndWriteKeepNumbering(s, steps[0], count);
        } else {
          OthersKeepNumbering(s, steps[0], count);
        }
        more := RunNumbers(Apply(s, steps[0]), steps[1..], count);
      }
    }
  }

  lemma NothingNumbered()
    ensures Inv(INIT) && Numbered(INIT, 0)
  {
  }

  /**
   In every interleaving the indices in use are the first `count`, and an addition that gets to its checks is
   refused exactly when its root is known or all 2^32 indices are in use: then every new root is refused.
   */
  lemma RefusedIff(s: State, t: ThreadId) returns (count: nat)
    requires Reachable(s) && Enabled(s, Check(t))
    ensures count <= TWO_TO_THE_32 && forall i :: i in s.caches.rootByIdx <==> 0 <= i < count
    ensures var root := s.threads[t].pc.root;
            Apply(s, Check(t)).threads[t].pc.AddRefused? <==> root in s.caches.idxByRoot || count == TWO_TO_THE_32
  {
    hide Caching, Sending, Calling, Knows, Run;
    ReachableInv(s);
    var steps :| Run(INIT, steps) == Some(s);
    NothingNumbered();
    count := RunNumbers(INIT, steps, 0);
    assert s.mutex == Some(t);
  }

  // ---------- the critical section ----------

  /** The steps of one addition that is not refused, from its lock to its unlock. */
  function Addition(t: ThreadId): seq<Step> {
    [Lock(t), Check(t), WriteIdx(t), WriteRoot(t), Bump(t), Initialize(t, true), Unlock(t)]
  }

  lemma LockAndCheck(s: State, t: ThreadId) returns (u: State)
    requires !s.halted && s.mutex == None && t in s.threads && s.threads[t].pc.AddStart?
    requires !Refuses(s.caches, s.threads[t].pc.root)
    ensures Enabled(s, Lock(t)) && Enabled(Apply(s, Lock(t)), Check(t)) && u == Apply(Apply(s, Lock(t)), Check(t))
    ensures !u.halted && t in u.threads && u.threads[t].pc == AddChecked(s.threads[t].pc.root, s.caches.next)
    ensures u.caches == s.caches && u.initialized == s.initialized
  {
    u := Apply(Apply(s, Lock(t)), Check(t));
  }

  lemma WriteBoth(s: State, t: ThreadId, root: Digest, idx: nat) returns (u: State)
    requires !s.halted && t in s.threads && s.threads[t].pc == AddChecked(root, idx)
    ensures Enabled(s, WriteIdx(t)) && Enabled(Apply(s, WriteIdx(t)), WriteRoot(t))
    ensures u == Apply(Apply(s, WriteIdx(t)), WriteRoot(t))
    ensures !u.halted && t in u.threads && u.threads[t].pc == AddWroteRoot(root, idx) && u.initialized == s.initialized
    ensures u.caches == Caches(s.caches.rootByIdx[idx := root], s.caches.idxByRoot[root := idx], s.caches.next)
  {
    u := Apply(Apply(s, WriteIdx(t)), WriteRoot(t));
  }

  lemma BumpToUnlock(s: State, t: ThreadId, root: Digest, idx: nat) returns (u: State)
    requires !s.halted && t in s.threads && s.threads[t].pc == AddWroteRoot(root, idx)
    ensures Enabled(s, Bump(t)) && Enabled(Apply(s, Bump(t)), Initialize(t, true))
    ensures Enabled(Apply(Apply(s, Bump(t)), Initialize(t, true)), Unlock(t))
    ensures u == Apply(Apply(Apply(s, Bump(t)), Initialize(t, true)), Unlock(t)) && u.mutex == None
    ensures u.caches == Caches(s.caches.rootByIdx, s.caches.idxByRoot, (s.caches.next + 1) % TWO_TO_THE_32)
    ensures u.initialized == s.initialized + {idx}
  {
    u := Apply(Apply(Apply(s, Bump(t)), Initialize(t, true)), Unlock(t));
  }

  /** Taken together, the steps between lock and unlock are the one-step `AddTask`. */
  lemma AdditionIsAddTask(s: State, t: ThreadId)
    requires !s.halted && s.mutex == None && t in s.threads && s.threads[t].pc.AddStart?
    requires !Refuses(s.caches, s.threads[t].pc.root)
    ensures var u := Run(s, Addition(t));
            && u.Some? && u.value.caches == AddTask(s.caches, s.threads[t].pc.root)
            && u.value.initialized == s.initialized + {s.caches.next} && u.value.mutex == None
  {
    hide Run, Enabled, Apply;
    var steps, root, idx := Addition(t), s.threads[t].pc.root, s.caches.next;
    var s2 := LockAndCheck(s, t);
    var s4 := WriteBoth(s2, t, root, idx);
    var s7 := BumpToUnlock(s4, t, root, idx);
    RunTwo(s, steps);
    RunTwo(s2, steps[2..]);
    RunTwo(s4, steps[4..]);
    RunOne(Apply(Apply(s4, Bump(t)), Initialize(t, true)), steps[6..]);
    RunNone(s7);
    assert steps[7..] == [];
  }

  lemma RunTwo(s: State, steps: seq<Step>)
    requires |steps| >= 2 && Enabled(s, steps[0]) && Enabled(Apply(s, steps[0]), steps[1])
    ensures Run(s, steps) == Run(Apply(Apply(s, steps[0]), steps[1]), steps[2..])
  {
    hide Enabled, Apply;
    RunOne(s, steps);
    RunOne(Apply(s, steps[0]), steps[1..]);
    assert steps[1..][1..] == steps[2..];
  }

  lemma RunNone(s: State)
    ensures Run(s, []) == Some(s)
  {
  }

  lemma RunOne(s: State, steps: seq<Step>)
    requires steps != [] && Enabled(s, steps[0])
    ensures Run(s, steps) == Run(Apply(s, steps[0]), steps[1..])
  {
  }

  // ---------- the other handlers, run alone ----------

  /** Where handlers start, and what a failed initialisation does: the process ends, the task is not there. */
  lemma HandlersStart(s: State, t: ThreadId, root: Digest, idx: nat)
    requires t !in s.threads && !s.halted
    ensures Enabled(s, NewBatchLog(t, root)) && Enabled(s, Signature(t, root))
    ensures Apply(s, NewBatchLog(t, root)).threads == s.threads[t := Thread(AddStart(root), 0, 0)]
    ensures Apply(s, Signature(t, root)).threads == s.threads[t := Thread(SignTry(root, 0), 0, 0)]
    ensures Enabled(s, ServiceResponse(t, idx)) <==> idx in s.initialized
    ensures idx in s.initialized ==>
              Apply(s, ServiceResponse(t, idx)).threads == s.threads[t := Thread(RespondStart(idx), 0, 0)]
  {
  }

  lemma InitializationFails(s: State, t: ThreadId)
    requires t in s.threads && s.threads[t].pc.AddBumped? && !s.halted
    ensures Enabled(s, Initialize(t, false))
    ensures var u := Apply(s, Initialize(t, false)); u.halted && u.initialized == s.initialized && u.caches == s.caches
  {
  }

  /** A refused addition writes nothing and gives the mutex back. */
  lemma AdditionRefused(s: State, t: ThreadId)
    requires !s.halted && s.mutex == None && t in s.threads && s.threads[t].pc.AddStart?
    requires s.threads[t].pc.root in s.caches.idxByRoot || s.caches.next in s.caches.rootByIdx
    ensures var u := Run(s, [Lock(t), Check(t), Unlock(t)]);
            && u.Some? && u.value.mutex == None && t in u.value.threads && u.value.threads[t].pc.Over?
            && u.value.caches == s.caches && u.value.initialized == s.initialized
  {
    hide Run;
    var s1 := Apply(s, Lock(t));
    var s2 := Apply(s1, Check(t));
    var s3 := Apply(s2, Unlock(t));
    assert Enabled(s, Lock(t)) && Enabled(s1, Check(t)) && Enabled(s2, Unlock(t));
    RunThreeIs(s, s1, s2, s3, Lock(t), Check(t), Unlock(t));
  }

  /** A try that misses gives the mutex back and is followed by another, unless it was the fiftieth. */
  lemma TryMisses(s: State, t: ThreadId)
    requires !s.halted && s.mutex == None && t in s.threads && s.threads[t].pc.SignTry?
    requires s.threads[t].pc.root !in s.caches.idxByRoot
    ensures var u, pc := Run(s, [Lock(t), Lookup(t), Unlock(t)]), s.threads[t].pc;
            && u.Some? && u.value.mutex == None && t in u.value.threads
            && u.value.threads[t].pc == (if pc.tries < 49 then SignTry(pc.root, pc.tries + 1) else Over)
            && u.value.caches == s.caches && u.value.calls == s.calls
  {
    var s2 := LockAndMiss(s, t);
    var s3 := Apply(s2, Unlock(t));
    hide Run;
    RunThreeIs(s, Apply(s, Lock(t)), s2, s3, Lock(t), Lookup(t), Unlock(t));
  }

  lemma LockAndMiss(s: State, t: ThreadId) returns (u: State)
    requires !s.halted && s.mutex == None && t in s.threads && s.threads[t].pc.SignTry?
    requires s.threads[t].pc.root !in s.caches.idxByRoot
    ensures Enabled(s, Lock(t)) && Enabled(Apply(s, Lock(t)), Lookup(t)) && u == Apply(Apply(s, Lock(t)), Lookup(t))
    ensures var pc := s.threads[t].pc;
            && !u.halted && t in u.threads && u.threads[t].pc == SignMissed(pc.root, pc.tries)
            && u.caches == s.caches && u.calls == s.calls
  {
    u := Apply(Apply(s, Lock(t)), Lookup(t));
  }

  lemma RunThreeIs(s: State, s1: State, s2: State, s3: State, a: Step, b: Step, c: Step)
    requires Enabled(s, a) && s1 == Apply(s, a) && Enabled(s1, b) && s2 == Apply(s1, b)
    requires Enabled(s2, c) && s3 == Apply(s2, c)
    ensures Run(s, [a, b, c]) == Some(s3)
  {
    hide Enabled, Apply, Run;
    RunTwo(s, [a, b, c]);
    assert [a, b, c][2..] == [c];
    RunOne(s2, [c]);
    RunNone(s3);
    assert [c][1..] == [];
  }

  /**
   A try that finds the root spawns the call of the signature service with the index the maps give it, waits under
   the mutex for the call or the timeout, and replies 0 only for a call that ended.
   */
  lemma TryFinds(s: State, t: ThreadId, callee: ThreadId) returns (waiting: State, called: State)
    requires !s.halted && s.mutex == None && t in s.threads && s.threads[t].pc.SignTry? && callee !in s.threads
    requires s.threads[t].pc.root in s.caches.idxByRoot
    ensures Run(s, [Lock(t), Lookup(t), Spawn(t, callee)]) == Some(waiting) && waiting.mutex == Some(t)
    ensures Enabled(waiting, Call(callee)) && called == Apply(waiting, Call(callee))
    ensures var root := s.threads[t].pc.root; called.calls == s.calls + [(s.caches.idxByRoot[root], root)]
    ensures Enabled(called, SeeDone(t)) && t in Apply(called, SeeDone(t)).threads
    ensures Apply(called, SeeDone(t)).threads[t].pc == SignLeaving(0)
    ensures Enabled(waiting, Timeout(t)) && t in Apply(waiting, Timeout(t)).threads
    ensures Apply(waiting, Timeout(t)).threads[t].pc == SignLeaving(1)
  {
    var s2 := LockAndFind(s, t);
    waiting, called := SpawnAndCall(s2, t, callee);
    hide Enabled, Apply, Run;
    RunThreeIs(s, Apply(s, Lock(t)), s2, waiting, Lock(t), Lookup(t), Spawn(t, callee));
  }

  lemma LockAndFind(s: State, t: ThreadId) returns (u: State)
    requires !s.halted && s.mutex == None && t in s.threads && s.threads[t].pc.SignTry?
    requires s.threads[t].pc.root in s.caches.idxByRoot
    ensures Enabled(s, Lock(t)) && Enabled(Apply(s, Lock(t)), Lookup(t)) && u == Apply(Apply(s, Lock(t)), Lookup(t))
    ensures var root := s.threads[t].pc.root;
            && !u.halted && u.mutex == Some(t) && u.threads.Keys == s.threads.Keys && t in u.threads
            && u.threads[t].pc == SignFound(root, s.caches.idxByRoot[root]) && u.calls == s.calls
  {
    u := Apply(Apply(s, Lock(t)), Lookup(t));
  }

  lemma SpawnAndCall(s: State, t: ThreadId, callee: ThreadId) returns (waiting: State, called: State)
    requires !s.halted && t in s.threads && s.threads[t].pc.SignFound? && callee !in s.threads
    ensures Enabled(s, Spawn(t, callee)) && waiting == Apply(s, Spawn(t, callee)) && waiting.mutex == s.mutex
    ensures Enabled(waiting, Call(callee)) && called == Apply(waiting, Call(callee))
    ensures called.calls == s.calls + [(s.threads[t].pc.idx, s.threads[t].pc.root)]
    ensures Enabled(called, SeeDone(t)) && t in Apply(called, SeeDone(t)).threads
    ensures Apply(called, SeeDone(t)).threads[t].pc == SignLeaving(0)
    ensures Enabled(waiting, Timeout(t)) && t in Apply(waiting, Timeout(t)).threads
    ensures Apply(waiting, Timeout(t)).threads[t].pc == SignLeaving(1)
  {
    waiting := Apply(s, Spawn(t, callee));
    called := Apply(waiting, Call(callee));
  }

  /** The handler then gives the mutex back and ends. */
  lemma LeavingUnlocks(s: State, t: ThreadId)
    requires !s.halted && t in s.threads && s.threads[t].pc.SignLeaving?
    ensures Enabled(s, Unlock(t))
    ensures var u := Apply(s, Unlock(t)); u.mutex == None && t in u.threads && u.threads[t].pc.Over?
  {
  }

  /** A response handler reads the root stored for its index and lets go of the mutex before its first send. */
  lemma ResponseReads(s: State, t: ThreadId)
    requires !s.halted && s.mutex == None && t in s.threads && s.threads[t].pc.RespondStart?
    requires s.threads[t].pc.idx in s.caches.rootByIdx
    ensures var u, idx := Run(s, [Lock(t), Read(t), Unlock(t)]), s.threads[t].pc.idx;
            && u.Some? && u.value.mutex == None && t in u.value.threads
            && u.value.threads[t].pc == RespondSending(idx, s.caches.rootByIdx[idx], 0)
            && u.value.caches == s.caches && u.value.sent == s.sent
  {
    var s2 := LockAndRead(s, t);
    var s3 := Apply(s2, Unlock(t));
    hide Run;
    RunThreeIs(s, Apply(s, Lock(t)), s2, s3, Lock(t), Read(t), Unlock(t));
  }

  lemma LockAndRead(s: State, t: ThreadId) returns (u: State)
    requires !s.halted && s.mutex == None && t in s.threads && s.threads[t].pc.RespondStart?
    requires s.threads[t].pc.idx in s.caches.rootByIdx
    ensures Enabled(s, Lock(t)) && Enabled(Apply(s, Lock(t)), Read(t)) && u == Apply(Apply(s, Lock(t)), Read(t))
    ensures var idx := s.threads[t].pc.idx;
            && !u.halted && t in u.threads && u.threads[t].pc == RespondRead(idx, s.caches.rootByIdx[idx])
            && u.caches == s.caches && u.sent == s.sent
  {
    u := Apply(Apply(s, Lock(t)), Read(t));
  }

  /**
   A send: one of the handler's own root, mined or not. A failed one is followed by another unless it was the fifth,
   a successful one by none.
   */
  lemma SendIs(s: State, t: ThreadId, mined: Option<Contract.SignatureCheck>, ok: bool)
    requires Enabled(s, Send(t, mined, ok))
    ensures var u, pc := Apply(s, Send(t, mined, ok)), s.threads[t].pc;
            && t in u.threads
            && u.threads[t].pc == (if !ok && pc.sends != 4 then RespondSending(pc.idx, pc.root, pc.sends + 1) else Over)
            && u.sent == s.sent + [Sent(t, pc.idx, pc.root)]
            && (mined == None ==> u.txs == s.txs && u.batches == s.batches)
            && (mined.Some? ==>
                  && u.txs == s.txs + [Contract.RespondToTask(pc.root, mined.value)]
                  && u.batches == Contract.Apply(s.batches, Contract.RespondToTask(pc.root, mined.value)))
  {
  }

  /** Anyone else's transaction reaches the contract as it is. */
  lemma OthersReachContract(s: State, tx: Contract.Tx)
    ensures Enabled(s, Anyone(tx))
    ensures var u := Apply(s, Anyone(tx));
            u.txs == s.txs + [tx] && u.batches == Contract.Apply(s.batches, tx) && u.threads == s.threads
  {
  }
}
