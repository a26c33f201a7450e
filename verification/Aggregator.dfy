/** The aggregator's two caches and its handlers, run one at a time. */
module Aggregator {
  import opened ByteStrings
  import opened Commitment

  const WAIT_FOR_EVENT_RETRIES: nat := 50
  const MAX_SENT_TX_RETRIES: nat := 5

  datatype Caches = Caches(rootByIdx: map<nat, Digest>, idxByRoot: map<Digest, nat>, next: nat)

  const EMPTY: Caches := Caches(map[], map[], 0)

  /** The two checks of `AddNewTask`. */
  predicate Refuses(c: Caches, root: Digest) {
    root in c.idxByRoot || c.next in c.rootByIdx
  }

  /** `AddNewTask` on the caches; the counter is a 32-bit counter. */
  function AddTask(c: Caches, root: Digest): Caches {
    if Refuses(c, root) then c
    else Caches(c.rootByIdx[c.next := root], c.idxByRoot[root := c.next], (c.next + 1) % TWO_TO_THE_32)
  }

  /** A map read: a missing index reads as the zero root. */
  function RootAt(c: Caches, idx: nat): Digest {
    if idx in c.rootByIdx then c.rootByIdx[idx] else ZERO
  }

  function AddTasks(c: Caches, roots: seq<Digest>): Caches
    decreases |roots|
  {
    if roots == [] then c else AddTasks(AddTask(c, roots[0]), roots[1..])
  }

  ghost predicate Inverse(c: Caches) {
    && (forall i :: i in c.rootByIdx ==> c.rootByIdx[i] in c.idxByRoot && c.idxByRoot[c.rootByIdx[i]] == i)
    && (forall r :: r in c.idxByRoot ==> c.idxByRoot[r] in c.rootByIdx && c.rootByIdx[c.idxByRoot[r]] == r)
  }

  /** The indices in use are the first `count` ones. */
  ghost predicate Counted(c: Caches, count: nat) {
    && count <= TWO_TO_THE_32 && c.next == count % TWO_TO_THE_32
    && (forall i :: i in c.rootByIdx <==> 0 <= i < count)
  }

  /** Every task added keeps the caches inverse to each other and the indices an initial segment. */
  lemma {:induction false} CachesStayInverse(c: Caches, count: nat, roots: seq<Digest>) returns (more: nat)
    requires Inverse(c) && Counted(c, count)
    ensures Inverse(AddTasks(c, roots)) && Counted(AddTasks(c, roots), more) && count <= more
    decreases |roots|
  {
    if roots == [] {
      more := count;
    } else {
      more := CachesStayInverse(AddTask(c, roots[0]), if Refuses(c, roots[0]) then count else count + 1, roots[1..]);
    }
  }

  /** An assigned index keeps its root, and a known root its index, whatever is added later. */
  lemma {:induction false} NeverOverwritten(c: Caches, roots: seq<Digest>, i: nat)
    requires Inverse(c) && i in c.rootByIdx
    ensures i in AddTasks(c, roots).rootByIdx && AddTasks(c, roots).rootByIdx[i] == c.rootByIdx[i]
    ensures c.rootByIdx[i] in AddTasks(c, roots).idxByRoot && AddTasks(c, roots).idxByRoot[c.rootByIdx[i]] == i
    decreases |roots|
  {
    if roots != [] {
      NeverOverwritten(AddTask(c, roots[0]), roots[1..], i);
    }
  }

  /** A root is refused exactly when it is known or all 2^32 indices are in use, the counter having wrapped to 0. */
  lemma RefusedIff(roots: seq<Digest>, root: Digest) returns (count: nat)
    ensures var c := AddTasks(EMPTY, roots);
            Counted(c, count) && (AddTask(c, root) == c <==> root in c.idxByRoot || count == TWO_TO_THE_32)
  {
    count := CachesStayInverse(EMPTY, 0, roots);
    var c := AddTasks(EMPTY, roots);
    if !Refuses(c, root) {
      assert root in AddTask(c, root).idxByRoot;
    }
  }

  datatype AddResult = Added(idx: nat) | Refused | Fatal

  /** The root is not known at try `k`, when `between[..k]` has been added. */
  predicate Unknown(c: Caches, between: seq<seq<Digest>>, k: nat, root: Digest)
    requires k <= |between|
  {
    root !in AddTasks(c, Concat(between[..k])).idxByRoot
  }

  class Aggregator {
    var batchesRootByIdx: map<nat, Digest>
    var batchesIdxByRoot: map<Digest, nat>
    var nextBatchIndex: nat
    var initialized: set<nat>
    var taskMutexHeld: bool
    ghost var acquired: nat
    ghost var released: nat

    ghost function State(): Caches
      reads this
    {
      Caches(batchesRootByIdx, batchesIdxByRoot, nextBatchIndex)
    }

    ghost predicate Valid()
      reads this
    {
      && Inverse(State())
      && (forall i :: i in batchesRootByIdx <==> i in initialized)
      && acquired == released + if taskMutexHeld then 1 else 0
    }

    constructor ()
      ensures Valid() && State() == EMPTY && !taskMutexHeld
    {
      batchesRootByIdx, batchesIdxByRoot, nextBatchIndex := map[], map[], 0;
      initialized, taskMutexHeld, acquired, released := {}, false, 0, 0;
    }

    method Lock()
      requires !taskMutexHeld
      modifies this`taskMutexHeld, this`acquired
      ensures taskMutexHeld && acquired == old(acquired) + 1
    {
      taskMutexHeld, acquired := true, acquired + 1;
    }

    method Unlock()
      requires taskMutexHeld
      modifies this`taskMutexHeld, this`released
      ensures !taskMutexHeld && released == old(released) + 1
    {
      taskMutexHeld, released := false, released + 1;
    }

    /** `initializes`: whether the signature service accepts the new index; a refusal ends the process. */
    method AddNewTask(batchMerkleRoot: Digest, initializes: bool) returns (r: AddResult)
      requires Valid() && !taskMutexHeld
      modifies this
      ensures State() == AddTask(old(State()), batchMerkleRoot)
      ensures r.Refused? <==> Refuses(old(State()), batchMerkleRoot)
      ensures r == Fatal <==> !Refuses(old(State()), batchMerkleRoot) && !initializes
      ensures r.Added? ==> batchesIdxByRoot[batchMerkleRoot] == r.idx && initialized == old(initialized) + {r.idx}
      ensures !r.Fatal? ==> Valid() && !taskMutexHeld
    {
      Lock();
      var batchIndex := nextBatchIndex;
      if batchMerkleRoot in batchesIdxByRoot {
        Unlock();
        return Refused;
      }
      if batchIndex in batchesRootByIdx {
        Unlock();
        return Refused;
      }
      batchesIdxByRoot := batchesIdxByRoot[batchMerkleRoot := batchIndex];
      batchesRootByIdx := batchesRootByIdx[batchIndex := batchMerkleRoot];
      nextBatchIndex := (nextBatchIndex + 1) % TWO_TO_THE_32;
      if !initializes {
        return Fatal;
      }
      initialized := initialized + {batchIndex};
      Unlock();
      return Added(batchIndex);
    }

    /**
     The operator's signature. `between[i]` are the tasks added while the handler sleeps before its try `i`,
     and `inTime` says whether the signature service finishes within the handler's five seconds, with an
     error or without. The reply is 0 exactly when the task was found and the service finished in time.
     */
    method ProcessOperatorSignedTaskResponse(root: Digest, between: seq<seq<Digest>>, inTime: bool)
      returns (reply: nat, call: Option<(nat, Digest)>)
      requires Valid() && !taskMutexHeld && |between| == WAIT_FOR_EVENT_RETRIES
      modifies this
      ensures Valid() && !taskMutexHeld && WAIT_FOR_EVENT_RETRIES == 50
      ensures exists tries :: 1 <= tries <= WAIT_FOR_EVENT_RETRIES
                && State() == AddTasks(old(State()), Concat(between[..tries]))
                && (forall k :: 1 <= k < tries ==> Unknown(old(State()), between, k, root))
                && (call == None ==> tries == WAIT_FOR_EVENT_RETRIES)
      ensures call.Some? <==> root in batchesIdxByRoot
      ensures call.Some? ==> call.value == (batchesIdxByRoot[root], root) && call.value.0 in initialized
                             && batchesRootByIdx[call.value.0] == root
      ensures reply == if call.Some? && inTime then 0 else 1
    {
      hide AddTask, Refuses;
      var taskIndex, ok, i := 0, false, 0;
      while i < WAIT_FOR_EVENT_RETRIES
        invariant 0 <= i <= WAIT_FOR_EVENT_RETRIES && Valid()
        invariant State() == AddTasks(old(State()), Concat(between[..i]))
        invariant taskMutexHeld == ok == false
        invariant forall k :: 1 <= k <= i ==> Unknown(old(State()), between, k, root)
        invariant i > 0 ==> root !in batchesIdxByRoot
      {
        AddAll(between[i]);
        AddTasksConcat(old(State()), between, i);
        Lock();
        i := i + 1;
        ok := root in batchesIdxByRoot;
        if !ok {
          Unlock();
        } else {
          taskIndex := batchesIdxByRoot[root];
          break;
        }
      }
      if !ok {
        return 1, None;
      }
      call := Some((taskIndex, root));
      reply := if inTime then 0 else 1;
      Unlock();
    }

    method AddAll(roots: seq<Digest>)
      requires Valid() && !taskMutexHeld
      modifies this
      ensures Valid() && !taskMutexHeld
      ensures State() == AddTasks(old(State()), roots)
    {
      var j := 0;
      while j < |roots|
        invariant 0 <= j <= |roots| && Valid() && !taskMutexHeld
        invariant AddTasks(State(), roots[j..]) == AddTasks(old(State()), roots)
      {
        assert roots[j..][1..] == roots[j + 1..];
        var r := AddNewTask(roots[j], true);
        j := j + 1;
      }
    }

    /**
     The retry loop of `handleBlsAggServiceResponse`: sends until one send returns no error, at most five
     times, always the root stored for the task, or the zero root for a task that was never initialised.
     */
    method HandleBlsAggServiceResponse(taskIndex: nat, errors: seq<bool>) returns (sent: seq<Digest>)
      requires Valid() && !taskMutexHeld && |errors| == MAX_SENT_TX_RETRIES
      modifies this`taskMutexHeld, this`acquired, this`released
      ensures Valid() && !taskMutexHeld
      ensures 1 <= |sent| <= MAX_SENT_TX_RETRIES == 5
      ensures forall k :: 0 <= k < |sent| ==> sent[k] == RootAt(State(), taskIndex)
      ensures taskIndex in initialized ==>
                taskIndex in batchesRootByIdx
                && forall k :: 0 <= k < |sent| ==> sent[k] == batchesRootByIdx[taskIndex]
      ensures taskIndex !in initialized ==> forall k :: 0 <= k < |sent| ==> sent[k] == ZERO
      ensures forall k :: 0 <= k < |sent| - 1 ==> errors[k]
      ensures |sent| < MAX_SENT_TX_RETRIES ==> !errors[|sent| - 1]
    {
      Lock();
      var root: Digest := if taskIndex in batchesRootByIdx then batchesRootByIdx[taskIndex] else ZERO;
      Unlock();
      sent := [];
      var i := 0;
      while i < MAX_SENT_TX_RETRIES
        invariant 0 <= i == |sent| <= MAX_SENT_TX_RETRIES
        invariant forall k :: 0 <= k < i ==> sent[k] == root && errors[k]
      {
        sent := sent + [root];
        if !errors[i] {
          return;
        }
        i := i + 1;
      }
    }
  }

  function Concat(lists: seq<seq<Digest>>): seq<Digest> {
    if lists == [] then [] else Concat(lists[..|lists| - 1]) + lists[|lists| - 1]
  }

  lemma {:induction false} AddTasksAppend(c: Caches, a: seq<Digest>, b: seq<Digest>)
    ensures AddTasks(c, a + b) == AddTasks(AddTasks(c, a), b)
    decreases |a|
  {
    if a == [] {
      assert a + b == b;
    } else {
      assert (a + b)[1..] == a[1..] + b;
      AddTasksAppend(AddTask(c, a[0]), a[1..], b);
    }
  }

  lemma AddTasksConcat(c: Caches, lists: seq<seq<Digest>>, i: nat)
    requires i < |lists|
    ensures AddTasks(c, Concat(lists[..i + 1])) == AddTasks(AddTasks(c, Concat(lists[..i])), lists[i])
  {
    assert lists[..i + 1][..i] == lists[..i];
    AddTasksAppend(c, Concat(lists[..i]), lists[i]);
  }
}
