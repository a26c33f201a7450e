/**
 The operator's check of one batch, goroutine by goroutine: the main loop spawns a worker an item and then
 a closer, and reads verdicts from a buffered channel. A `WaitGroup` tells the closer when to close it.
 */
module ParallelVerify {

  /**
   What an item's verifier does; each is assumed to terminate. The Halo2 branches can panic on the Go side, which
   runs the worker's deferred calls, or behind the foreign call, which takes the process down at once.
   */
  datatype Verdict = Accepts | Rejects | Panics | Aborts

  /** Where a worker stands. `Unwinding` is a panic whose deferred `wg.Done` has still to run. */
  datatype Worker = NotStarted | Verifying | Sending(result: bool) | Sent | Finished | Unwinding | Dying

  datatype Main = Spawning(next: nat) | Reading | Returned(success: bool)

  /**
   `wg` is the counter of the `WaitGroup`, `buffer` the channel's contents. `sentBy` lists the workers in the
   order of their sends and `received` what main has read. `misused` records a send on a closed channel, a
   second close or a negative counter, each of which would be a panic of its own.
   */
  datatype State = State(
    main: Main,
    closing: bool,
    workers: seq<Worker>,
    wg: nat,
    buffer: seq<bool>,
    closed: bool,
    crashed: bool,
    misused: bool,
    sentBy: seq<nat>,
    received: seq<bool>)

  datatype Step =
    | SpawnWorker
    | SpawnCloser
    | Verify(w: nat)
    | Send(w: nat)
    | Done(w: nat)
    | Crash(w: nat)
    | Close
    | Receive
    | SeeClosed

  function Idle(n: nat): (ws: seq<Worker>)
    ensures |ws| == n && forall w :: 0 <= w < n ==> ws[w] == NotStarted
  {
    if n == 0 then [] else Idle(n - 1) + [NotStarted]
  }

  function Init(n: nat): State {
    State(Spawning(0), false, Idle(n), n, [], false, false, false, [], [])
  }

  predicate At(s: State, w: nat, pc: Worker) {
    w < |s.workers| && s.workers[w] == pc
  }

  /** The channel's capacity is the number of items; a send blocks on a full open channel. */
  predicate Enabled(s: State, step: Step) {
    !s.crashed &&
    match step
    case SpawnWorker => s.main.Spawning? && s.main.next < |s.workers|
    case SpawnCloser => s.main.Spawning? && s.main.next >= |s.workers|
    case Verify(w) => At(s, w, Verifying)
    case Send(w) => w < |s.workers| && s.workers[w].Sending? && (s.closed || |s.buffer| < |s.workers|)
    case Done(w) => At(s, w, Sent) || At(s, w, Unwinding)
    case Crash(w) => At(s, w, Dying)
    case Close => s.closing && s.wg == 0
    case Receive => s.main.Reading? && s.buffer != []
    case SeeClosed => s.main.Reading? && s.buffer == [] && s.closed
  }

  function Goto(s: State, w: nat, pc: Worker): State
    requires w < |s.workers|
  {
    s.(workers := s.workers[w := pc])
  }

  function AfterVerify(v: Verdict): Worker
    requires !v.Aborts?
  {
    match v
    case Accepts => Sending(true)
    case Rejects => Sending(false)
    case _ => Unwinding
  }

  function Apply(items: seq<Verdict>, s: State, step: Step): State
    requires Enabled(s, step) && |s.workers| == |items|
  {
    match step
    case SpawnWorker => Goto(s, s.main.next, Verifying).(main := Spawning(s.main.next + 1))
    case SpawnCloser => s.(main := Reading, closing := true)
    case Verify(w) => if items[w].Aborts? then s.(crashed := true) else Goto(s, w, AfterVerify(items[w]))
    case Send(w) =>
      if s.closed then s.(crashed := true, misused := true)
      else Goto(s, w, Sent).(buffer := s.buffer + [s.workers[w].result], sentBy := s.sentBy + [w])
    case Done(w) =>
      if s.wg == 0 then s.(crashed := true, misused := true)
      else Goto(s, w, if s.workers[w].Sent? then Finished else Dying).(wg := s.wg - 1)
    case Crash(w) => s.(crashed := true)
    case Close => s.(closing := false, closed := true, misused := s.misused || s.closed)
    case Receive =>
      s.(buffer := s.buffer[1..], received := s.received + [s.buffer[0]],
         main := if s.buffer[0] then Reading else Returned(false))
    case SeeClosed => s.(main := Returned(true))
  }

  function Run(items: seq<Verdict>, s: State, steps: seq<Step>): (u: (bool, State))
    requires |s.workers| == |items|
    ensures |u.1.workers| == |items|
    decreases |steps|
  {
    if steps == [] then (true, s)
    else if !Enabled(s, steps[0]) then (false, s)
    else Run(items, Apply(items, s, steps[0]), steps[1..])
  }

  // ---------- sums over the workers ----------

  function Total(f: Worker -> nat, ws: seq<Worker>): nat {
    if ws == [] then 0 else f(ws[0]) + Total(f, ws[1..])
  }

  lemma {:induction false} TotalUpdate(f: Worker -> nat, ws: seq<Worker>, w: nat, pc: Worker)
    requires w < |ws|
    ensures Total(f, ws[w := pc]) == Total(f, ws) - f(ws[w]) + f(pc)
    ensures f(ws[w]) <= Total(f, ws)
  {
    if w == 0 {
      assert ws[w := pc][1..] == ws[1..];
    } else {
      assert ws[w := pc][1..] == ws[1..][w - 1 := pc];
      TotalUpdate(f, ws[1..], w - 1, pc);
    }
  }

  /** A sum of terms of at most `k` is full only if every term is. */
  lemma {:induction false} TotalAtMost(f: Worker -> nat, ws: seq<Worker>, k: nat)
    requires forall pc :: f(pc) <= k
    ensures Total(f, ws) <= k * |ws|
    ensures Total(f, ws) == k * |ws| ==> forall w :: 0 <= w < |ws| ==> f(ws[w]) == k
  {
    if ws != [] {
      TotalAtMost(f, ws[1..], k);
    }
  }

  lemma {:induction false} TotalZero(f: Worker -> nat, ws: seq<Worker>)
    ensures Total(f, ws) == 0 <==> forall w :: 0 <= w < |ws| ==> f(ws[w]) == 0
  {
    if ws != [] {
      TotalZero(f, ws[1..]);
      assert forall w :: 1 <= w < |ws| ==> ws[w] == ws[1..][w - 1];
    }
  }

  lemma {:induction false} TotalIdle(f: Worker -> nat, n: nat)
    ensures Total(f, Idle(n)) == n * f(NotStarted)
  {
    if n > 0 {
      TotalIdle(f, n - 1);
      TotalSnoc(f, Idle(n - 1), NotStarted);
    }
  }

  lemma {:induction false} TotalSnoc(f: Worker -> nat, ws: seq<Worker>, pc: Worker)
    ensures Total(f, ws + [pc]) == Total(f, ws) + f(pc)
  {
    if ws != [] {
      assert (ws + [pc])[1..] == ws[1..] + [pc];
      TotalSnoc(f, ws[1..], pc);
    }
  }

  /** Not past `wg.Done`. */
  function Pending(pc: Worker): nat {
    if pc.Finished? || pc.Dying? then 0 else 1
  }

  function HasSent(pc: Worker): nat {
    if pc.Sent? || pc.Finished? then 1 else 0
  }

  /** Steps a worker can still cause, its verdict's reception among them. */
  function Rank(pc: Worker): nat {
    match pc
    case NotStarted => 5
    case Verifying => 4
    case Sending(_) => 3
    case Sent => 1
    case Finished => 0
    case Unwinding => 2
    case Dying => 1
  }

  // ---------- the invariant ----------

  /** A worker's place fits its item's verdict. */
  predicate Fits(v: Verdict, pc: Worker) {
    match pc
    case Sending(b) => if b then v.Accepts? else v.Rejects?
    case Sent => v.Accepts? || v.Rejects?
    case Finished => v.Accepts? || v.Rejects?
    case Unwinding => v.Panics?
    case Dying => v.Panics?
    case _ => true
  }

  ghost predicate Workers(items: seq<Verdict>, s: State) {
    && |s.workers| == |items|
    && (forall w :: 0 <= w < |items| ==> Fits(items[w], s.workers[w]))
    && (forall w :: 0 <= w < |items| ==> (s.workers[w].NotStarted? <==> s.main.Spawning? && s.main.next <= w))
    && (s.main.Spawning? ==> s.main.next <= |items|)
  }

  /** The `k`-th verdict through the channel is that of the `k`-th sender. */
  predicate Carries(items: seq<Verdict>, s: State, k: nat) {
    && |s.sentBy| == |s.received| + |s.buffer| && |s.workers| == |items|
    && (k < |s.sentBy| ==>
          && s.sentBy[k] < |items| && HasSent(s.workers[s.sentBy[k]]) == 1
          && (s.received + s.buffer)[k] == items[s.sentBy[k]].Accepts?)
  }

  /** Exactly the workers past their send are listed as senders, each once. */
  ghost predicate Senders(s: State) {
    && |s.sentBy| == Total(HasSent, s.workers)
    && (forall j, k :: 0 <= j < k < |s.sentBy| ==> s.sentBy[j] != s.sentBy[k])
    && (forall w :: 0 <= w < |s.workers| && HasSent(s.workers[w]) == 1 ==> w in s.sentBy)
  }

  ghost predicate Channel(items: seq<Verdict>, s: State) {
    && Senders(s)
    && |s.sentBy| == |s.received| + |s.buffer|
    && forall k :: 0 <= k < |s.sentBy| ==> Carries(items, s, k)
  }

  ghost predicate Control(s: State) {
    && s.wg == Total(Pending, s.workers)
    && !s.misused
    && (s.closing || s.closed ==> !s.main.Spawning?) && !(s.closing && s.closed)
    && (!s.main.Spawning? ==> s.closing || s.closed)
    && (s.closed ==> s.wg == 0)
  }

  ghost predicate Outcome(s: State) {
    && (s.main.Spawning? ==> s.received == [])
    && (s.main != Returned(false) ==> false !in s.received)
    && (s.main == Returned(false) ==> false in s.received)
    && (s.main == Returned(true) ==> s.closed && s.buffer == [])
  }

  /** The process is down only because some verifier brought it down. */
  ghost predicate Crashes(items: seq<Verdict>, s: State) {
    s.crashed ==> !NoneDown(items)
  }

  /** No verifier panics on either side of the foreign call. */
  predicate NoneDown(items: seq<Verdict>) {
    NonePanics(items) && NoneAborts(items)
  }

  predicate NonePanics(items: seq<Verdict>) {
    forall w :: 0 <= w < |items| ==> !items[w].Panics?
  }

  predicate NoneAborts(items: seq<Verdict>) {
    forall w :: 0 <= w < |items| ==> !items[w].Aborts?
  }

  ghost predicate Inv(items: seq<Verdict>, s: State) {
    Workers(items, s) && Channel(items, s) && Control(s) && Outcome(s) && Crashes(items, s)
  }

  lemma InitInv(items: seq<Verdict>)
    ensures Inv(items, Init(|items|))
  {
    TotalIdle(Pending, |items|);
    TotalIdle(HasSent, |items|);
  }

  /** A worker that has not sent leaves room in the channel; one not past `wg.Done` keeps it open. */
  lemma RoomToSend(items: seq<Verdict>, s: State, w: nat)
    requires Inv(items, s) && w < |s.workers|
    ensures HasSent(s.workers[w]) == 0 ==> |s.buffer| < |s.workers|
    ensures Pending(s.workers[w]) == 1 ==> !s.closed && s.wg > 0
  {
    TotalAtMost(HasSent, s.workers, 1);
    TotalZero(Pending, s.workers);
  }

  lemma WorkersKept(items: seq<Verdict>, s: State, step: Step)
    requires Inv(items, s) && Enabled(s, step)
    ensures Workers(items, Apply(items, s, step))
  {
  }

  /** A step moves one worker, or none. */
  lemma Moved(items: seq<Verdict>, s: State, step: Step) returns (w: nat, pc: Worker)
    requires Inv(items, s) && Enabled(s, step)
    ensures Apply(items, s, step).workers == s.workers || w < |s.workers|
    ensures w < |s.workers| ==> Apply(items, s, step).workers == s.workers[w := pc]
    ensures w < |s.workers| && !step.Send? ==> HasSent(pc) == HasSent(s.workers[w])
    ensures w < |s.workers| && !step.Done? ==> Pending(pc) == Pending(s.workers[w])
    ensures step.Send? ==> w == step.w && pc == Sent
    ensures step.Done? ==> w == step.w && pc == if s.workers[w].Sent? then Finished else Dying
    ensures step.SpawnWorker? ==> w < |s.workers| && s.workers[w] == NotStarted && pc == Verifying
    ensures step.Verify? && w < |s.workers| ==> w == step.w && !items[w].Aborts? && pc == AfterVerify(items[w])
    ensures step.Verify? && w >= |s.workers| ==> Apply(items, s, step).crashed
    ensures step.SpawnCloser? || step.Crash? || step.Close? || step.Receive? || step.SeeClosed? ==> w == |s.workers|
  {
    match step
    case SpawnWorker => w, pc := s.main.next, Verifying;
    case Verify(v) =>
      if items[v].Aborts? {
        w, pc := |s.workers|, NotStarted;
      } else {
        w, pc := v, AfterVerify(items[v]);
      }
    case Send(v) => w, pc := v, Sent; RoomToSend(items, s, v);
    case Done(v) => w, pc := v, if s.workers[v].Sent? then Finished else Dying; RoomToSend(items, s, v);
    case _ => w, pc := |s.workers|, NotStarted;
  }

  lemma SendersKept(items: seq<Verdict>, s: State, step: Step)
    requires Inv(items, s) && Enabled(s, step)
    ensures Senders(Apply(items, s, step))
  {
    var u := Apply(items, s, step);
    var w, pc := Moved(items, s, step);
    if w < |s.workers| {
      TotalUpdate(HasSent, s.workers, w, pc);
    }
    if step.Send? {
      RoomToSend(items, s, w);
      assert u.sentBy == s.sentBy + [w];
      forall k | 0 <= k < |s.sentBy| ensures s.sentBy[k] != w {
        assert Carries(items, s, k);
      }
      assert u.sentBy[|s.sentBy|] == w;
      assert forall v :: v in s.sentBy ==> v in u.sentBy;
    }
  }

  /** What went through the channel grows by a send's verdict and is otherwise only moved. */
  lemma Traffic(items: seq<Verdict>, s: State, step: Step)
    requires Inv(items, s) && Enabled(s, step)
    ensures var u := Apply(items, s, step);
            if step.Send? then
              && s.workers[step.w].Sending? && u.sentBy == s.sentBy + [step.w]
              && |u.received| + |u.buffer| == |s.received| + |s.buffer| + 1
              && u.received + u.buffer == s.received + s.buffer + [s.workers[step.w].result]
            else
              && u.sentBy == s.sentBy && |u.received| + |u.buffer| == |s.received| + |s.buffer|
              && u.received + u.buffer == s.received + s.buffer
  {
    if step.Send? {
      RoomToSend(items, s, step.w);
    }
  }

  lemma CarriesKept(items: seq<Verdict>, s: State, step: Step, k: nat)
    requires Inv(items, s) && Enabled(s, step) && k < |Apply(items, s, step).sentBy|
    ensures Carries(items, Apply(items, s, step), k)
  {
    Traffic(items, s, step);
    var w, _ := Moved(items, s, step);
    hide Enabled, Apply, Control, Outcome, Crashes, Senders;
    if k < |s.sentBy| {
      assert Carries(items, s, k);
    }
  }

  lemma ChannelKept(items: seq<Verdict>, s: State, step: Step)
    requires Inv(items, s) && Enabled(s, step)
    ensures Channel(items, Apply(items, s, step))
  {
    SendersKept(items, s, step);
    if step.Send? {
      RoomToSend(items, s, step.w);
    }
    forall k | 0 <= k < |Apply(items, s, step).sentBy| ensures Carries(items, Apply(items, s, step), k) {
      CarriesKept(items, s, step, k);
    }
  }

  lemma ControlKept(items: seq<Verdict>, s: State, step: Step)
    requires Inv(items, s) && Enabled(s, step)
    ensures Control(Apply(items, s, step))
  {
    var w, pc := Moved(items, s, step);
    if w < |s.workers| {
      TotalUpdate(Pending, s.workers, w, pc);
      RoomToSend(items, s, w);
    }
  }

  lemma OutcomeKept(items: seq<Verdict>, s: State, step: Step)
    requires Inv(items, s) && Enabled(s, step)
    ensures Outcome(Apply(items, s, step)) && Crashes(items, Apply(items, s, step))
  {
    if step.Send? || step.Done? {
      RoomToSend(items, s, step.w);
    } else if step.Crash? {
      assert Fits(items[step.w], s.workers[step.w]);
    }
  }

  lemma StepKeepsInv(items: seq<Verdict>, s: State, step: Step)
    requires Inv(items, s) && Enabled(s, step)
    ensures Inv(items, Apply(items, s, step))
  {
    WorkersKept(items, s, step);
    ChannelKept(items, s, step);
    ControlKept(items, s, step);
    OutcomeKept(items, s, step);
  }

  // ---------- termination ----------

  /** How many steps are left at most. */
  function Measure(s: State): nat {
    if s.crashed then 0 else
    Total(Rank, s.workers) + |s.buffer| + (if s.closed then 0 else 1)
    + (match s.main case Spawning(_) => 2 case Reading => 1 case Returned(_) => 0)
  }

  /** Every step of every goroutine uses up the measure, also after main has returned early. */
  lemma MeasureDecreases(items: seq<Verdict>, s: State, step: Step)
    requires Inv(items, s) && Enabled(s, step)
    ensures Measure(Apply(items, s, step)) < Measure(s)
  {
    var w, pc := Moved(items, s, step);
    if w < |s.workers| {
      TotalUpdate(Rank, s.workers, w, pc);
      RoomToSend(items, s, w);
    }
    if step.Crash? || step.Verify? {
      TotalUpdate(Rank, s.workers, step.w, s.workers[step.w]);
    }
  }

  // ---------- results over every schedule ----------

  /** `s` is reached by `steps`. */
  predicate Reaches(items: seq<Verdict>, steps: seq<Step>, s: State) {
    Run(items, Init(|items|), steps) == (true, s)
  }

  lemma {:induction false} RunKeepsInv(items: seq<Verdict>, s: State, steps: seq<Step>)
    requires Inv(items, s) && Run(items, s, steps).0
    ensures Inv(items, Run(items, s, steps).1)
    ensures |steps| + Measure(Run(items, s, steps).1) <= Measure(s)
    decreases |steps|
  {
    if steps != [] {
      StepKeepsInv(items, s, steps[0]);
      MeasureDecreases(items, s, steps[0]);
      RunKeepsInv(items, Apply(items, s, steps[0]), steps[1..]);
    }
  }

  lemma ReachesInv(items: seq<Verdict>, steps: seq<Step>, s: State)
    requires Reaches(items, steps, s)
    ensures Inv(items, s) && |steps| <= 5 * |items| + 3
  {
    InitInv(items);
    RunKeepsInv(items, Init(|items|), steps);
    TotalIdle(Rank, |items|);
  }

  /** Under every schedule all goroutines together take at most five steps an item and three more. */
  lemma EveryRunEnds(items: seq<Verdict>, steps: seq<Step>, s: State)
    requires Reaches(items, steps, s)
    ensures |steps| <= 5 * |items| + 3
  {
    ReachesInv(items, steps, s);
  }

  /** No send ever blocks or meets a closed channel, no counter goes negative, nothing is closed twice. */
  lemma ChannelIsUsedWell(items: seq<Verdict>, steps: seq<Step>, s: State)
    requires Reaches(items, steps, s)
    ensures !s.misused
    ensures forall w :: 0 <= w < |s.workers| && s.workers[w].Sending? && !s.crashed ==> Enabled(s, Send(w)) && !s.closed
    ensures forall w :: Enabled(s, Done(w)) ==> s.wg > 0
    ensures Enabled(s, Close) ==> !s.closed
  {
    ReachesInv(items, steps, s);
    forall w | 0 <= w < |s.workers| && Pending(s.workers[w]) == 1
      ensures !s.closed && s.wg > 0 && (HasSent(s.workers[w]) == 0 ==> |s.buffer| < |s.workers|)
    {
      RoomToSend(items, s, w);
    }
  }

  /** A worker sends at most once, its item's verdict, and has sent exactly when it is past its send. */
  lemma EachSendsOnce(items: seq<Verdict>, steps: seq<Step>, s: State, w: nat)
    requires Reaches(items, steps, s) && w < |items|
    ensures |s.workers| == |items| && |s.received| + |s.buffer| == |s.sentBy|
    ensures w in s.sentBy <==> s.workers[w].Sent? || s.workers[w].Finished?
    ensures forall j, k :: 0 <= j < k < |s.sentBy| ==> s.sentBy[j] != s.sentBy[k]
    ensures forall k :: 0 <= k < |s.sentBy| ==>
              s.sentBy[k] < |items| && (s.received + s.buffer)[k] == items[s.sentBy[k]].Accepts?
  {
    ReachesInv(items, steps, s);
    forall k | 0 <= k < |s.sentBy|
      ensures s.sentBy[k] < |items| && HasSent(s.workers[s.sentBy[k]]) == 1
      ensures (s.received + s.buffer)[k] == items[s.sentBy[k]].Accepts?
    {
      assert Carries(items, s, k);
    }
  }

  predicate Stopped(s: State) {
    && (forall w :: 0 <= w < |s.workers| ==> s.workers[w].Finished?)
    && s.main.Returned? && s.closed
  }

  predicate NoneRejected(items: seq<Verdict>) {
    forall w :: 0 <= w < |items| ==> !items[w].Rejects?
  }

  predicate AllVerify(items: seq<Verdict>) {
    forall w :: 0 <= w < |items| ==> items[w].Accepts?
  }

  /** Main can return on some schedule: nothing aborts, or a rejection can be read first. */
  predicate CanReturn(items: seq<Verdict>) {
    NoneAborts(items) || !NoneRejected(items)
  }

  /** The step takes the process down. */
  predicate TakesDown(items: seq<Verdict>, step: Step) {
    step.Crash? || (step.Verify? && step.w < |items| && items[step.w].Aborts?)
  }

  /** Until everything has stopped some goroutine can step, and before main has returned without going down. */
  lemma SomeoneCanStep(items: seq<Verdict>, s: State) returns (step: Step)
    requires Inv(items, s) && !s.crashed && !Stopped(s)
    ensures Enabled(s, step)
    ensures CanReturn(items) && !s.main.Returned? ==> !TakesDown(items, step)
  {
    if s.main.Spawning? {
      step := if s.main.next < |s.workers| then SpawnWorker else SpawnCloser;
    } else if w :| 0 <= w < |s.workers| && Pending(s.workers[w]) == 1
                   && !(s.workers[w].Verifying? && items[w].Aborts?) {
      RoomToSend(items, s, w);
      match s.workers[w]
      case Verifying => step := Verify(w);
      case Sending(_) => step := Send(w);
      case Sent => step := Done(w);
      case Unwinding => step := Done(w);
    } else if w :| 0 <= w < |s.workers| && Pending(s.workers[w]) == 1 {
      if s.main.Reading? && s.buffer != [] {
        step := Receive;
      } else {
        step := Verify(w);
        if s.main.Reading? {
          AllReadMeansReturned(items, s);
        }
      }
    } else {
      TotalZero(Pending, s.workers);
      if !s.closed {
        step := Close;
      } else if s.main.Reading? {
        step := if s.buffer == [] then SeeClosed else Receive;
      } else {
        var w :| 0 <= w < |s.workers| && s.workers[w].Dying?;
        step := Crash(w);
      }
    }
  }

  /** A sent rejection that is no longer in the channel has made main return. */
  lemma AllReadMeansReturned(items: seq<Verdict>, s: State)
    requires Inv(items, s) && s.buffer == []
    ensures forall w :: 0 <= w < |items| && items[w].Rejects? && HasSent(s.workers[w]) == 1 ==>
              s.main == Returned(false)
  {
    forall w | 0 <= w < |items| && items[w].Rejects? && HasSent(s.workers[w]) == 1
      ensures s.main == Returned(false)
    {
      var k :| 0 <= k < |s.sentBy| && s.sentBy[k] == w;
      assert Carries(items, s, k) && s.received[k] in s.received;
    }
  }

  /** Whatever the schedule, main returns success exactly when no item was rejected, and then nothing aborts. */
  lemma ReturnIsTheVerdict(items: seq<Verdict>, steps: seq<Step>, s: State)
    requires Reaches(items, steps, s) && s.main.Returned?
    ensures s.main.success <==> NoneRejected(items)
    ensures s.main.success ==> NoneAborts(items)
  {
    ReachesInv(items, steps, s);
    VerdictOf(items, s);
  }

  lemma VerdictOf(items: seq<Verdict>, s: State)
    requires Inv(items, s) && s.main.Returned?
    ensures s.main.success <==> NoneRejected(items)
    ensures s.main.success ==> NoneAborts(items)
  {
    if s.main.success {
      TotalZero(Pending, s.workers);
      AllReadMeansReturned(items, s);
      forall w | 0 <= w < |items| ensures !items[w].Rejects? && !items[w].Aborts? {
        assert Fits(items[w], s.workers[w]);
      }
    } else {
      var k :| 0 <= k < |s.received| && !s.received[k];
      assert Carries(items, s, k);
      assert Fits(items[s.sentBy[k]], s.workers[s.sentBy[k]]);
    }
  }

  /**
   A run that can go no further: if no verifier panics everything has stopped, also after an early return, and
   main has returned success exactly when every item verifies; otherwise the process is down.
   */
  lemma EveryRunStops(items: seq<Verdict>, steps: seq<Step>, s: State)
    requires Reaches(items, steps, s) && forall step :: !Enabled(s, step)
    ensures s.crashed <==> !NoneDown(items)
    ensures !s.crashed ==> Stopped(s)
    ensures !s.crashed ==> (s.main == Returned(true) <==> AllVerify(items))
  {
    ReachesInv(items, steps, s);
    if !s.crashed {
      if !Stopped(s) {
        var step := SomeoneCanStep(items, s);
        assert false;
      }
      VerdictOf(items, s);
      forall w | 0 <= w < |items| ensures !items[w].Panics? && !items[w].Aborts? {
        assert Fits(items[w], s.workers[w]);
      }
    }
  }

  /** From every state that is not down main can still return first, if it can return at all. */
  lemma {:induction false} MainCanReturn(items: seq<Verdict>, s: State) returns (steps: seq<Step>)
    requires Inv(items, s) && !s.crashed && CanReturn(items)
    ensures Run(items, s, steps).0 && Run(items, s, steps).1.main.Returned? && !Run(items, s, steps).1.crashed
    decreases Measure(s)
  {
    if s.main.Returned? {
      steps := [];
    } else {
      var step := SomeoneCanStep(items, s);
      StepKeepsInv(items, s, step);
      MeasureDecreases(items, s, step);
      StaysUp(items, s, step);
      var rest := MainCanReturn(items, Apply(items, s, step));
      steps := [step] + rest;
      assert steps[1..] == rest;
    }
  }

  lemma StaysUp(items: seq<Verdict>, s: State, step: Step)
    requires Inv(items, s) && Enabled(s, step) && !TakesDown(items, step)
    ensures !Apply(items, s, step).crashed
  {
    if step.Send? || step.Done? {
      RoomToSend(items, s, step.w);
    }
  }

  /**
   Some schedule makes main return exactly when nothing aborts or something is rejected, and return success
   exactly when nothing aborts and nothing is rejected.
   */
  lemma SuccessReachableIff(items: seq<Verdict>)
    ensures (exists steps, s :: Reaches(items, steps, s) && s.main.Returned?) <==> CanReturn(items)
    ensures (exists steps, s :: Reaches(items, steps, s) && s.main == Returned(true)) <==>
            NoneRejected(items) && NoneAborts(items)
  {
    forall steps, s | Reaches(items, steps, s) && s.main.Returned?
      ensures CanReturn(items) && (s.main.success <==> NoneRejected(items)) && (s.main.success ==> NoneAborts(items))
    {
      ReturnIsTheVerdict(items, steps, s);
    }
    if CanReturn(items) {
      InitInv(items);
      var steps := MainCanReturn(items, Init(|items|));
      var s := Run(items, Init(|items|), steps).1;
      assert Reaches(items, steps, s) && s.main.Returned?;
    }
  }

  /**
   Success means that every item verifies, on every schedule, exactly when no verifier panics on the Go side or
   some item is rejected or aborts. Otherwise a panicking worker counts as done before the process goes down,
   and main can return success in between; behind the foreign call no deferred call runs and there is no between.
   */
  lemma SuccessMeansVerifiedIff(items: seq<Verdict>)
    ensures (forall steps, s :: Reaches(items, steps, s) && s.main == Returned(true) ==> AllVerify(items))
       <==> NonePanics(items) || !NoneRejected(items) || !NoneAborts(items)
  {
    SuccessReachableIff(items);
  }
}
