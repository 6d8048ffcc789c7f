/** The pool with futures as a step protocol. The stop flag is an atomic set outside the
    mutex. Calls of commit() are numbered; the number names the task and its future. */
module FuturePool {
  import opened Accounts

  datatype Worker =
    | Checking              // about to read the stop flag
    | Acquiring             // wants the mutex, at first or after a wake-up
    | Testing               // holds the mutex, about to evaluate the wait condition
    | Blocking              // condition found false, mutex not yet released
    | Asleep
    | Took(task: nat)       // task popped, mutex held
    | Leaving(task: nat)    // mutex released, not yet counted as busy
    | Running(task: nat)    // counted as busy
    | Ran                   // the future is set, still counted as busy
    | Exited

  datatype Call = Wanting | Locked | Pushed | Notifying | Returned | Threw

  datatype Destructor = Alive | Stopped | Joining | Gone

  datatype Owner = Free | ByWorker(i: nat) | ByCall(j: nat)

  datatype State = State(
    workers: seq<Worker>, calls: seq<Call>, destructor: Destructor,
    queue: seq<nat>, stoped: bool, idle: int, owner: Owner,
    ready: multiset<nat>, broken: multiset<nat>,
    submitted: seq<nat>, popped: seq<nat>)

  datatype Step =
    | CallBegin | CallLock(j: nat) | CallPush(j: nat) | CallUnlock(j: nat) | CallNotify(j: nat, woken: nat)
    | Check(i: nat) | Lock(i: nat) | Test(i: nat) | Block(i: nat) | Unlock(i: nat)
    | Decrement(i: nat) | Finish(i: nat) | Increment(i: nat) | SpuriousWake(i: nat)
    | Stop | Broadcast | Join

  /** A pool always has at least one worker. */
  function PoolSize(size: nat): nat { if size < 1 then 1 else size }

  function Init(size: nat): State {
    var n := PoolSize(size);
    State(seq(n, _ => Checking), [], Alive, [], false, n, Free, multiset{}, multiset{}, [], [])
  }

  predicate WorkerAt(s: State, i: nat, w: Worker) { i < |s.workers| && s.workers[i] == w }

  predicate CallAt(s: State, j: nat, c: Call) { j < |s.calls| && s.calls[j] == c }

  predicate NoneAt(s: State, w: Worker) { forall i :: 0 <= i < |s.workers| ==> s.workers[i] != w }

  /** Every worker has returned and no call is under way. */
  predicate Over(s: State) {
    && (forall i :: 0 <= i < |s.workers| ==> s.workers[i] == Exited)
    && (forall j :: 0 <= j < |s.calls| ==> s.calls[j] == Returned || s.calls[j] == Threw)
  }

  predicate Enabled(s: State, step: Step) {
    match step
    case CallBegin => s.destructor != Gone
    case CallLock(j) => CallAt(s, j, Wanting) && s.owner == Free
    case CallPush(j) => CallAt(s, j, Locked)
    case CallUnlock(j) => CallAt(s, j, Pushed)
    case CallNotify(j, w) => CallAt(s, j, Notifying) && (WorkerAt(s, w, Asleep) || NoneAt(s, Asleep))
    case Check(i) => WorkerAt(s, i, Checking)
    case Lock(i) => WorkerAt(s, i, Acquiring) && s.owner == Free
    case Test(i) => WorkerAt(s, i, Testing)
    case Block(i) => WorkerAt(s, i, Blocking)
    case Unlock(i) => i < |s.workers| && s.workers[i].Took?
    case Decrement(i) => i < |s.workers| && s.workers[i].Leaving?
    case Finish(i) => i < |s.workers| && s.workers[i].Running?
    case Increment(i) => WorkerAt(s, i, Ran)
    case SpuriousWake(i) => WorkerAt(s, i, Asleep)
    case Stop => s.destructor == Alive
    case Broadcast => s.destructor == Stopped
    case Join => s.destructor == Joining && Over(s)
  }

  function SetWorker(s: State, i: nat, w: Worker): State
    requires i < |s.workers|
  {
    s.(workers := s.workers[i := w])
  }

  function SetCall(s: State, j: nat, c: Call): State
    requires j < |s.calls|
  {
    s.(calls := s.calls[j := c])
  }

  function WakeAll(ws: seq<Worker>): (r: seq<Worker>)
    ensures |r| == |ws|
  {
    Replaced(ws, Asleep, Acquiring)
  }

  function ApplyCall(s: State, step: Step): (r: State)
    requires Enabled(s, step) && IsCallStep(step)
    ensures |r.workers| == |s.workers|
  {
    match step
    case CallBegin => s.(calls := s.calls + [if s.stoped then Threw else Wanting])
    case CallLock(j) => SetCall(s, j, Locked).(owner := ByCall(j))
    case CallPush(j) => SetCall(s, j, Pushed).(queue := s.queue + [j], submitted := s.submitted + [j])
    case CallUnlock(j) => SetCall(s, j, Notifying).(owner := Free)
    case CallNotify(j, w) =>
      var s1 := SetCall(s, j, Returned);
      if WorkerAt(s, w, Asleep) then SetWorker(s1, w, Acquiring) else s1
  }

  function ApplyWorker(s: State, step: Step): (r: State)
    requires Enabled(s, step) && IsWorkerStep(step)
    ensures |r.workers| == |s.workers|
  {
    match step
    case Check(i) => SetWorker(s, i, if s.stoped then Exited else Acquiring)
    case Lock(i) => SetWorker(s, i, Testing).(owner := ByWorker(i))
    case Test(i) =>
      // Under the mutex the queue is stable and the flag only rises, so the condition, the
      // test for leaving and the pop are one step.
      if s.queue != [] then
        SetWorker(s, i, Took(s.queue[0])).(queue := s.queue[1..], popped := s.popped + [s.queue[0]])
      else if s.stoped then SetWorker(s, i, Exited).(owner := Free)
      else SetWorker(s, i, Blocking)
    case Block(i) => SetWorker(s, i, Asleep).(owner := Free)
    case Unlock(i) => SetWorker(s, i, Leaving(s.workers[i].task)).(owner := Free)
    case Decrement(i) => SetWorker(s, i, Running(s.workers[i].task)).(idle := s.idle - 1)
    case Finish(i) => SetWorker(s, i, Ran).(ready := s.ready + multiset{s.workers[i].task})
    case Increment(i) => SetWorker(s, i, Checking).(idle := s.idle + 1)
    case SpuriousWake(i) => SetWorker(s, i, Acquiring)
  }

  predicate IsCallStep(step: Step) {
    step.CallBegin? || step.CallLock? || step.CallPush? || step.CallUnlock? || step.CallNotify?
  }

  predicate IsWorkerStep(step: Step) {
    !IsCallStep(step) && !step.Stop? && !step.Broadcast? && !step.Join?
  }

  function Apply(s: State, step: Step): (r: State)
    requires Enabled(s, step)
    ensures |r.workers| == |s.workers|
  {
    if IsCallStep(step) then ApplyCall(s, step)
    else if IsWorkerStep(step) then ApplyWorker(s, step)
    else match step
      case Stop => s.(destructor := Stopped, stoped := true)
      case Broadcast => s.(destructor := Joining, workers := WakeAll(s.workers))
      case Join => s.(destructor := Gone, broken := multiset(s.queue))
  }

  predicate IsStep(s: State, step: Step, s': State) {
    Enabled(s, step) && s' == Apply(s, step)
  }

  ghost predicate Next(s: State, s': State) {
    exists step :: IsStep(s, step, s')
  }

  ghost predicate IsRun(run: seq<State>) {
    run != [] && forall k :: 0 < k < |run| ==> Next(run[k - 1], run[k])
  }

  ghost predicate RunTo(size: nat, run: seq<State>, s: State) {
    IsRun(run) && run[0] == Init(size) && run[|run| - 1] == s
  }

  ghost predicate Reachable(size: nat, s: State) {
    exists run :: RunTo(size, run, s)
  }

  // ------------------------------------------------------------------------- invariant

  predicate WorkerHolds(w: Worker) { w.Testing? || w.Blocking? || w.Took? }

  predicate CallHolds(c: Call) { c.Locked? || c.Pushed? }

  /** The mutex, and what its holder knows. */
  predicate MutexInv(s: State) {
    && (forall i :: 0 <= i < |s.workers| ==> (WorkerHolds(s.workers[i]) <==> s.owner == ByWorker(i)))
    && (forall j :: 0 <= j < |s.calls| ==> (CallHolds(s.calls[j]) <==> s.owner == ByCall(j)))
    && (s.owner.ByWorker? ==> s.owner.i < |s.workers|)
    && (s.owner.ByCall? ==> s.owner.j < |s.calls|)
    && (s.stoped <==> s.destructor != Alive)
  }

  predicate IsBusy(w: Worker) { w.Running? || w.Ran? }

  function BusyOne(w: Worker): nat { if IsBusy(w) then 1 else 0 }

  function Busy(ws: seq<Worker>): nat { Total(ws, BusyOne) }

  predicate Carries(w: Worker) { w.Took? || w.Leaving? || w.Running? }

  function Carried(w: Worker): multiset<nat> {
    if Carries(w) then multiset{w.task} else multiset{}
  }

  function InFlight(ws: seq<Worker>): multiset<nat> { Sum(ws, Carried) }

  predicate WasPushed(c: Call) { c.Pushed? || c.Notifying? || c.Returned? }

  /** Submissions are distinct and are exactly the calls past their push. */
  ghost predicate SubmittedInv(s: State) {
    && (forall k, m :: 0 <= k < m < |s.submitted| ==> s.submitted[k] != s.submitted[m])
    && (forall j :: j in s.submitted <==> 0 <= j < |s.calls| && WasPushed(s.calls[j]))
  }

  /** Every task taken is answered or in flight. */
  predicate Accounted(s: State) { multiset(s.popped) == s.ready + InFlight(s.workers) }

  predicate HistoryInv(s: State) {
    && s.popped + s.queue == s.submitted
    && Accounted(s)
    && (s.broken == if s.destructor == Gone then multiset(s.queue) else multiset{})
    && (s.destructor == Gone ==> Over(s))
  }

  /** A worker that will look at the queue again without being notified. */
  predicate WillLook(w: Worker) { w != Asleep && w != Blocking && w != Exited }

  predicate SomeoneLooks(s: State) { exists i :: 0 <= i < |s.workers| && WillLook(s.workers[i]) }

  predicate SomeoneNotifies(s: State) {
    exists j :: 0 <= j < |s.calls| && (s.calls[j] == Pushed || s.calls[j] == Notifying)
  }

  /** A worker about to sleep has seen an empty queue, nobody exits before the stop, and until
      then queued work has someone who will come for it. */
  predicate QueueInv(s: State) {
    && s.workers != []
    && (s.queue != [] ==> NoneAt(s, Blocking))
    && (!s.stoped ==> NoneAt(s, Exited))
    && (!s.stoped && s.queue != [] ==> SomeoneLooks(s) || SomeoneNotifies(s))
  }

  predicate IdleInv(s: State) { s.idle + Busy(s.workers) == |s.workers| }

  ghost predicate Inv(s: State) {
    MutexInv(s) && SubmittedInv(s) && HistoryInv(s) && QueueInv(s) && IdleInv(s)
  }

  lemma NothingCarried(ws: seq<Worker>)
    requires forall i :: 0 <= i < |ws| ==> !Carries(ws[i]) && !IsBusy(ws[i])
    ensures InFlight(ws) == multiset{} && Busy(ws) == 0
  {
    SumNone(ws, Carried);
    TotalAtMost(ws, BusyOne, 0);
  }

  lemma WorkerStepMutex(s: State, step: Step)
    requires MutexInv(s) && Enabled(s, step) && IsWorkerStep(step)
    ensures MutexInv(Apply(s, step))
  {
  }

  lemma CallStepMutex(s: State, step: Step)
    requires MutexInv(s) && Enabled(s, step) && IsCallStep(step)
    ensures MutexInv(Apply(s, step))
  {
  }

  lemma StepMutex(s: State, step: Step)
    requires MutexInv(s) && Enabled(s, step)
    ensures MutexInv(Apply(s, step))
  {
    if IsWorkerStep(step) {
      WorkerStepMutex(s, step);
    } else if IsCallStep(step) {
      CallStepMutex(s, step);
    }
  }

  lemma StepSubmitted(s: State, step: Step)
    requires SubmittedInv(s) && Enabled(s, step)
    ensures SubmittedInv(Apply(s, step))
  {
    if step.CallPush? {
      PushSubmitted(s, step.j);
    } else {
      SameSubmitted(s, step);
    }
  }

  lemma SameSubmitted(s: State, step: Step)
    requires Enabled(s, step) && !step.CallPush?
    ensures var s' := Apply(s, step);
            && s'.submitted == s.submitted && |s'.calls| >= |s.calls|
            && (forall j :: 0 <= j < |s.calls| ==> (WasPushed(s'.calls[j]) <==> WasPushed(s.calls[j])))
            && forall j :: |s.calls| <= j < |s'.calls| ==> !WasPushed(s'.calls[j])
  {
  }

  lemma PushSubmitted(s: State, j: nat)
    requires SubmittedInv(s) && CallAt(s, j, Locked)
    ensures SubmittedInv(SetCall(s, j, Pushed).(submitted := s.submitted + [j]))
  {
    assert j !in s.submitted;
    var sub := s.submitted + [j];
    assert forall k :: k in sub <==> k in s.submitted || k == j;
  }

  lemma StepQueue(s: State, step: Step)
    requires Enabled(s, step) && s.popped + s.queue == s.submitted
    ensures var s' := Apply(s, step); s'.popped + s'.queue == s'.submitted
  {
    if step.Test? && s.queue != [] {
      assert (s.popped + [s.queue[0]]) + s.queue[1..] == s.popped + s.queue;
    } else if step.CallPush? {
      assert s.popped + (s.queue + [step.j]) == (s.popped + s.queue) + [step.j];
    }
  }

  predicate IsTake(s: State, step: Step) { step.Test? && s.queue != [] }

  /** Worker steps other than a pop and a finish leave the account alone. */
  lemma WorkerCarries(s: State, step: Step, i: nat)
    requires Enabled(s, step) && IsWorkerStep(step) && step.i == i && !IsTake(s, step) && !step.Finish?
    ensures var s' := ApplyWorker(s, step);
            && s'.workers == s.workers[i := s'.workers[i]]
            && SameLoad(s'.workers[i], s.workers[i])
            && s'.popped == s.popped && s'.ready == s.ready
  {
  }

  predicate SameLoad(v: Worker, w: Worker) {
    (Carries(v) <==> Carries(w)) && (Carries(v) ==> v.task == w.task)
  }

  lemma WorkerInFlight(s: State, step: Step, i: nat)
    requires Enabled(s, step) && IsWorkerStep(step) && step.i == i
    requires Accounted(s)
    ensures Accounted(ApplyWorker(s, step))
  {
    if IsTake(s, step) {
      CarrierTakes(s.popped, s.ready, s.workers, i, Took(s.queue[0]), Carried, s.queue[0]);
    } else if step.Finish? {
      CarrierHandsIn(multiset(s.popped), s.ready, s.workers, i, Ran, Carried, s.workers[i].task);
    } else {
      WorkerCarries(s, step, i);
      CarrierChanges(multiset(s.popped), s.ready, s.workers, i, ApplyWorker(s, step).workers[i], Carried);
    }
  }

  lemma CallInFlight(s: State, step: Step)
    requires Enabled(s, step) && IsCallStep(step) && Accounted(s)
    ensures Accounted(ApplyCall(s, step))
  {
    if step.CallNotify? && WorkerAt(s, step.woken, Asleep) {
      CarrierChanges(multiset(s.popped), s.ready, s.workers, step.woken, Acquiring, Carried);
    }
    CallKeepsLoad(s, step);
  }

  /** Calls take no tasks and wake at most one sleeper. */
  lemma CallKeepsLoad(s: State, step: Step)
    requires Enabled(s, step) && IsCallStep(step)
    ensures var s' := ApplyCall(s, step);
            && s'.popped == s.popped && s'.ready == s.ready
            && s'.workers == if step.CallNotify? && WorkerAt(s, step.woken, Asleep)
                             then s.workers[step.woken := Acquiring] else s.workers
  {
  }

  lemma StepInFlight(s: State, step: Step)
    requires Enabled(s, step) && Accounted(s)
    ensures Accounted(Apply(s, step))
  {
    if IsWorkerStep(step) {
      WorkerInFlight(s, step, step.i);
    } else if IsCallStep(step) {
      CallInFlight(s, step);
    } else if step.Broadcast? {
      SumReplaced(s.workers, Asleep, Acquiring, Carried);
    }
  }

  /** A worker step moves the counter against its own share of the busy workers. */
  lemma WorkerIdle(s: State, step: Step, i: nat)
    requires Enabled(s, step) && IsWorkerStep(step) && step.i == i
    ensures var s' := ApplyWorker(s, step);
            && s'.workers == s.workers[i := s'.workers[i]]
            && s'.idle + BusyOne(s'.workers[i]) == s.idle + BusyOne(s.workers[i])
  {
  }

  lemma StepIdle(s: State, step: Step)
    requires Enabled(s, step) && IdleInv(s)
    ensures IdleInv(Apply(s, step))
  {
    if step.Broadcast? {
      TotalReplaced(s.workers, Asleep, Acquiring, BusyOne);
    } else if IsWorkerStep(step) {
      WorkerIdle(s, step, step.i);
      TotalSet(s.workers, step.i, ApplyWorker(s, step).workers[step.i], BusyOne);
    } else if step.CallNotify? && WorkerAt(s, step.woken, Asleep) {
      TotalSet(s.workers, step.woken, Acquiring, BusyOne);
    }
  }

  lemma GoneIsFinal(s: State, step: Step)
    requires s.destructor == Gone && Over(s)
    ensures !Enabled(s, step)
  {
  }

  lemma OnlyJoinEnds(s: State, step: Step)
    requires Enabled(s, step) && s.destructor != Gone
    ensures var s' := Apply(s, step);
            if step.Join? then s' == s.(destructor := Gone, broken := multiset(s.queue)) && Over(s)
            else s'.destructor != Gone && s'.broken == s.broken
  {
  }

  lemma StepBroken(s: State, step: Step)
    requires Enabled(s, step) && HistoryInv(s)
    ensures var s' := Apply(s, step);
            && (s'.broken == if s'.destructor == Gone then multiset(s'.queue) else multiset{})
            && (s'.destructor == Gone ==> Over(s'))
  {
    if s.destructor == Gone {
      GoneIsFinal(s, step);
    } else {
      OnlyJoinEnds(s, step);
    }
  }

  lemma WorkerStepLooks(s: State, step: Step)
    requires QueueInv(s) && Enabled(s, step) && IsWorkerStep(step)
    ensures QueueInv(ApplyWorker(s, step))
  {
    var w := ApplyWorker(s, step).workers[step.i];
    assert !s.stoped && s.queue != [] ==> WillLook(w);
  }

  lemma CallStepLooks(s: State, step: Step)
    requires QueueInv(s) && MutexInv(s) && Enabled(s, step) && IsCallStep(step)
    ensures QueueInv(ApplyCall(s, step))
  {
    var s' := ApplyCall(s, step);
    CallKeepsLoad(s, step);
    if !s.stoped && s'.queue != [] {
      if step.CallPush? || step.CallUnlock? {
        assert s'.calls[step.j] == Pushed || s'.calls[step.j] == Notifying;
      } else if step.CallNotify? {
        assert WillLook(s'.workers[if WorkerAt(s, step.woken, Asleep) then step.woken else 0]);
      } else {
        WitnessKept(s, s');
      }
    }
  }

  lemma WitnessKept(s: State, s': State)
    requires SomeoneLooks(s) || SomeoneNotifies(s)
    requires s'.workers == s.workers && |s.calls| <= |s'.calls|
    requires forall j :: 0 <= j < |s.calls| && s.calls[j] != s'.calls[j] ==> s.calls[j] == Wanting
    ensures SomeoneLooks(s') || SomeoneNotifies(s')
  {
    if SomeoneNotifies(s) {
      var j :| 0 <= j < |s.calls| && (s.calls[j] == Pushed || s.calls[j] == Notifying);
      assert s'.calls[j] == s.calls[j];
    }
  }

  lemma StepLooks(s: State, step: Step)
    requires QueueInv(s) && MutexInv(s) && Enabled(s, step)
    ensures QueueInv(Apply(s, step))
  {
    if IsWorkerStep(step) {
      WorkerStepLooks(s, step);
    } else if IsCallStep(step) {
      CallStepLooks(s, step);
    }
  }

  lemma StepKeepsInv(s: State, step: Step)
    requires Inv(s) && Enabled(s, step)
    ensures Inv(Apply(s, step))
  {
    StepMutex(s, step);
    StepSubmitted(s, step);
    StepQueue(s, step);
    StepInFlight(s, step);
    StepBroken(s, step);
    StepLooks(s, step);
    StepIdle(s, step);
  }

  lemma NextKeepsInv(s: State, s': State)
    requires Inv(s) && Next(s, s')
    ensures Inv(s')
  {
    var step :| IsStep(s, step, s');
    StepKeepsInv(s, step);
  }

  lemma NextKeepsSize(s: State, s': State)
    requires Next(s, s')
    ensures |s'.workers| == |s.workers|
  {
    var step :| IsStep(s, step, s');
  }

  lemma {:induction false} RunKeepsInv(run: seq<State>, k: nat)
    requires IsRun(run) && Inv(run[0]) && k < |run|
    ensures Inv(run[k]) && |run[k].workers| == |run[0].workers|
  {
    if k > 0 {
      RunKeepsInv(run, k - 1);
      NextKeepsInv(run[k - 1], run[k]);
      NextKeepsSize(run[k - 1], run[k]);
    }
  }

  lemma ReachableInv(size: nat, s: State)
    requires Reachable(size, s)
    ensures Inv(s) && |s.workers| == PoolSize(size)
  {
    var run :| RunTo(size, run, s);
    NothingCarried(Init(size).workers);
    RunKeepsInv(run, |run| - 1);
  }

  // ---------------------------------------------------------------------- main results

  /** Every commit that got past its push is queued, in flight or answered, exactly once,
      and tasks are taken in the order of submission. */
  lemma ExactlyOnceInOrder(size: nat, s: State)
    requires Reachable(size, s)
    ensures s.popped <= s.submitted && s.submitted[|s.popped|..] == s.queue
    ensures multiset(s.submitted) == s.ready + InFlight(s.workers) + multiset(s.queue)
    ensures forall j :: j in s.submitted <==> 0 <= j < |s.calls| && WasPushed(s.calls[j])
    ensures forall j :: multiset(s.submitted)[j] <= 1
  {
    ReachableInv(size, s);
    assert multiset(s.popped + s.queue) == multiset(s.popped) + multiset(s.queue);
    forall j ensures multiset(s.submitted)[j] <= 1 {
      DistinctCount(s.submitted, j);
    }
  }

  lemma {:induction false} DistinctCount(q: seq<nat>, j: nat)
    requires forall k, m :: 0 <= k < m < |q| ==> q[k] != q[m]
    ensures multiset(q)[j] == if j in q then 1 else 0
  {
    if q != [] {
      var n := |q| - 1;
      DistinctCount(q[..n], j);
      assert q == q[..n] + [q[n]];
    }
  }

  /** A future is ready exactly when its task was taken and no worker still has it, never
      twice; a future is broken exactly when the pool is gone and left its task queued. */
  lemma FutureStates(size: nat, s: State, j: nat)
    requires Reachable(size, s)
    ensures s.ready[j] <= 1
    ensures j in s.ready <==> j in s.popped && j !in InFlight(s.workers)
    ensures j in s.broken <==> s.destructor == Gone && j in s.queue
    ensures !(j in s.ready && j in s.queue)
    ensures s.destructor == Gone ==> (j in s.submitted <==> j in s.ready || j in s.broken)
  {
    ExactlyOnceInOrder(size, s);
    ReachableInv(size, s);
    Shares(s.submitted, s.popped, s.queue, s.ready, InFlight(s.workers), j);
    if s.destructor == Gone {
      NothingCarried(s.workers);
    }
  }

  /** How often one task occurs in each part of the account. */
  lemma Shares(submitted: seq<nat>, popped: seq<nat>, queue: seq<nat>, ready: multiset<nat>,
               flight: multiset<nat>, j: nat)
    requires popped + queue == submitted && multiset(popped) == ready + flight && multiset(submitted)[j] <= 1
    ensures ready[j] + flight[j] + multiset(queue)[j] <= 1
    ensures j in popped <==> ready[j] + flight[j] == 1
    ensures j in queue <==> multiset(queue)[j] == 1
    ensures j in submitted <==> ready[j] + flight[j] + multiset(queue)[j] == 1
  {
    assert multiset(submitted) == multiset(popped) + multiset(queue);
    assert multiset(popped)[j] == ready[j] + flight[j];
    assert j in popped <==> j in multiset(popped);
    assert j in queue <==> j in multiset(queue);
    assert j in submitted <==> j in multiset(submitted);
  }

  /** The idle counter counts the workers that are not between its two updates. */
  lemma IdleCount(size: nat, s: State)
    requires Reachable(size, s)
    ensures s.idle == PoolSize(size) - Busy(s.workers)
    ensures 0 <= s.idle <= PoolSize(size)
  {
    ReachableInv(size, s);
    TotalAtMost(s.workers, BusyOne, 1);
  }

  /** Before the stop no queued work is stranded: a worker will come for it, or a commit has
      yet to notify. */
  lemma NoStrandedWork(size: nat, s: State)
    requires Reachable(size, s) && !s.stoped && s.queue != []
    ensures SomeoneLooks(s) || SomeoneNotifies(s)
  {
    ReachableInv(size, s);
  }

  /** Nothing can happen but new commits, a spurious wake-up or the stop. */
  ghost predicate AtRest(s: State) {
    forall step :: Enabled(s, step) ==> step.CallBegin? || step.SpuriousWake? || step.Stop?
  }

  lemma OwnerCanMove(s: State) returns (step: Step)
    requires MutexInv(s) && s.owner != Free
    ensures Enabled(s, step)
    ensures !step.CallBegin? && !step.SpuriousWake? && !step.Stop? && !step.CallLock? && !step.Join?
  {
    match s.owner
    case ByCall(j) =>
      step := if s.calls[j] == Locked then CallPush(j) else CallUnlock(j);
    case ByWorker(i) =>
      var w := s.workers[i];
      step := if w == Testing then Test(i) else if w == Blocking then Block(i) else Unlock(i);
  }

  /** With the mutex free every worker that is awake and has not left can move. */
  lemma AwakeCanMove(s: State, i: nat) returns (step: Step)
    requires MutexInv(s) && s.owner == Free && i < |s.workers| && s.workers[i] != Asleep && s.workers[i] != Exited
    ensures Enabled(s, step) && IsWorkerStep(step) && !step.SpuriousWake?
  {
    var w := s.workers[i];
    step := if w == Checking then Check(i)
            else if w == Acquiring then Lock(i)
            else if w.Leaving? then Decrement(i)
            else if w.Running? then Finish(i)
            else Increment(i);
  }

  predicate UnderWay(c: Call) { c != Returned && c != Threw }

  /** With the mutex free every call under way can move. */
  lemma CallCanMove(s: State, j: nat) returns (step: Step)
    requires MutexInv(s) && s.owner == Free && j < |s.calls| && UnderWay(s.calls[j])
    ensures Enabled(s, step) && (step.CallLock? || step.CallNotify?)
  {
    if s.calls[j] == Wanting {
      step := CallLock(j);
    } else {
      step := CallNotify(j, 0);
      if !NoneAt(s, Asleep) {
        var w :| 0 <= w < |s.workers| && s.workers[w] == Asleep;
        step := CallNotify(j, w);
      }
    }
  }

  lemma RestShape(s: State)
    requires MutexInv(s) && AtRest(s)
    ensures s.owner == Free && s.destructor != Stopped
    ensures forall i :: 0 <= i < |s.workers| ==> s.workers[i] == Asleep || s.workers[i] == Exited
    ensures forall j :: 0 <= j < |s.calls| ==> !UnderWay(s.calls[j])
    ensures s.destructor == Joining ==> !NoneAt(s, Asleep)
  {
    if s.owner != Free {
      var step := OwnerCanMove(s);
      assert false;
    }
    forall i | 0 <= i < |s.workers|
      ensures s.workers[i] == Asleep || s.workers[i] == Exited
    {
      if s.workers[i] != Asleep && s.workers[i] != Exited {
        var step := AwakeCanMove(s, i);
        assert false;
      }
    }
    forall j | 0 <= j < |s.calls|
      ensures !UnderWay(s.calls[j])
    {
      if UnderWay(s.calls[j]) {
        var step := CallCanMove(s, j);
        assert false;
      }
    }
    assert !Enabled(s, Broadcast) && !Enabled(s, Join);
  }

  /** A pool at rest before its stop has answered every future. */
  lemma RestBeforeStop(size: nat, s: State)
    requires Reachable(size, s) && !s.stoped && AtRest(s)
    ensures s.queue == [] && s.ready == multiset(s.submitted)
  {
    ReachableInv(size, s);
    RestShape(s);
    NothingCarried(s.workers);
    assert s.queue == [];
    assert s.popped + [] == s.popped;
  }
}
