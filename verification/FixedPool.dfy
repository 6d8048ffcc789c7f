/** fixed_thread_pool as a step protocol: any number of workers and of concurrent
    execute() calls, one destructor, one mutex, one condition variable whose waits may
    also end spuriously. A task is a name; the same task may be submitted many times. */
module FixedPool {
  import opened Accounts

  type Task = nat

  datatype Worker =
    | Acquiring           // wants the mutex: at start, after a task, after a wait
    | Looping             // holds the mutex at the top of the loop
    | Popped(task: Task)  // holds the mutex and a task
    | Running(task: Task)
    | Asleep
    | Exited

  /** One call of execute(). */
  datatype Call =
    | Wanting(task: Task)
    | Locked(task: Task)
    | Pushed              // the task is queued, the mutex still held
    | Notifying           // the mutex is released, notify_one still to come
    | Returned

  datatype Destructor = Alive | Entered | FlagNext | FlagSet | Broadcasting | Finished

  datatype Owner = Free | ByWorker(i: nat) | ByCall(j: nat) | ByDestructor

  /** `submitted`, `popped` and `done` record the run: what was queued and taken, in
      order, and what has been run. */
  datatype State = State(
    workers: seq<Worker>, calls: seq<Call>, destructor: Destructor,
    queue: seq<Task>, shutdown: bool, owner: Owner,
    submitted: seq<Task>, popped: seq<Task>, done: multiset<Task>)

  datatype Step =
    | CallBegin(task: Task) | CallLock(j: nat) | CallPush(j: nat) | CallUnlock(j: nat)
    | CallNotify(j: nat, woken: nat)
    | Lock(i: nat) | PopTask(i: nat) | Unlock(i: nat) | Finish(i: nat) | Wait(i: nat) | Exit(i: nat)
    | SpuriousWake(i: nat)
    | DestructorBegin | DestructorLock | SetFlag | DestructorUnlock | Broadcast

  function Init(n: nat): State {
    State(seq(n, _ => Acquiring), [], Alive, [], false, Free, [], [], multiset{})
  }

  predicate WorkerAt(s: State, i: nat, w: Worker) { i < |s.workers| && s.workers[i] == w }

  predicate CallAt(s: State, j: nat, c: Call) { j < |s.calls| && s.calls[j] == c }

  predicate NoneAsleep(s: State) { forall i :: 0 <= i < |s.workers| ==> s.workers[i] != Asleep }

  predicate AllReturned(s: State) { forall j :: 0 <= j < |s.calls| ==> s.calls[j] == Returned }

  /** No call may be under way when the pool is destroyed. */
  predicate Enabled(s: State, step: Step) {
    match step
    case CallBegin(_) => s.destructor == Alive
    case CallLock(j) => j < |s.calls| && s.calls[j].Wanting? && s.owner == Free
    case CallPush(j) => j < |s.calls| && s.calls[j].Locked?
    case CallUnlock(j) => CallAt(s, j, Pushed)
    case CallNotify(j, w) => CallAt(s, j, Notifying) && (WorkerAt(s, w, Asleep) || NoneAsleep(s))
    case Lock(i) => WorkerAt(s, i, Acquiring) && s.owner == Free
    case PopTask(i) => WorkerAt(s, i, Looping) && s.queue != []
    case Unlock(i) => i < |s.workers| && s.workers[i].Popped?
    case Finish(i) => i < |s.workers| && s.workers[i].Running?
    case Wait(i) => WorkerAt(s, i, Looping) && s.queue == [] && !s.shutdown
    case Exit(i) => WorkerAt(s, i, Looping) && s.queue == [] && s.shutdown
    case SpuriousWake(i) => WorkerAt(s, i, Asleep)
    case DestructorBegin => s.destructor == Alive && AllReturned(s)
    case DestructorLock => s.destructor == Entered && s.owner == Free
    case SetFlag => s.destructor == FlagNext
    case DestructorUnlock => s.destructor == FlagSet
    case Broadcast => s.destructor == Broadcasting
  }

  function WakeAll(ws: seq<Worker>): seq<Worker> { Replaced(ws, Asleep, Acquiring) }

  function SetWorker(s: State, i: nat, w: Worker): State
    requires i < |s.workers|
  {
    s.(workers := s.workers[i := w])
  }

  function SetCall(s: State, j: nat, c: Call): State
    requires j < |s.calls|
  {
    s.(calls := s.calls[j := c])
  }

  function Apply(s: State, step: Step): State
    requires Enabled(s, step)
  {
    match step
    case CallBegin(t) => s.(calls := s.calls + [Wanting(t)])
    case CallLock(j) => SetCall(s, j, Locked(s.calls[j].task)).(owner := ByCall(j))
    case CallPush(j) =>
      var t := s.calls[j].task;
      SetCall(s, j, Pushed).(queue := s.queue + [t], submitted := s.submitted + [t])
    case CallUnlock(j) => SetCall(s, j, Notifying).(owner := Free)
    case CallNotify(j, w) =>
      var s1 := SetCall(s, j, Returned);
      if WorkerAt(s, w, Asleep) then SetWorker(s1, w, Acquiring) else s1
    case Lock(i) => SetWorker(s, i, Looping).(owner := ByWorker(i))
    case PopTask(i) =>
      SetWorker(s, i, Popped(s.queue[0])).(queue := s.queue[1..], popped := s.popped + [s.queue[0]])
    case Unlock(i) => SetWorker(s, i, Running(s.workers[i].task)).(owner := Free)
    case Finish(i) => SetWorker(s, i, Acquiring).(done := s.done + multiset{s.workers[i].task})
    case Wait(i) => SetWorker(s, i, Asleep).(owner := Free)
    case Exit(i) => SetWorker(s, i, Exited).(owner := Free)
    case SpuriousWake(i) => SetWorker(s, i, Acquiring)
    case DestructorBegin => s.(destructor := Entered)
    case DestructorLock => s.(destructor := FlagNext, owner := ByDestructor)
    case SetFlag => s.(destructor := FlagSet, shutdown := true)
    case DestructorUnlock => s.(destructor := Broadcasting, owner := Free)
    case Broadcast => s.(destructor := Finished, workers := WakeAll(s.workers))
  }

  // ----------------------------------------------------------------------------- runs

  predicate IsStep(s: State, step: Step, s': State) {
    Enabled(s, step) && s' == Apply(s, step)
  }

  ghost predicate Next(s: State, s': State) {
    exists step :: IsStep(s, step, s')
  }

  /** A run: consecutive states are one step apart. */
  ghost predicate IsRun(run: seq<State>) {
    run != [] && forall k :: 0 < k < |run| ==> Next(run[k - 1], run[k])
  }

  ghost predicate RunTo(n: nat, run: seq<State>, s: State) {
    IsRun(run) && run[0] == Init(n) && run[|run| - 1] == s
  }

  ghost predicate Reachable(n: nat, s: State) {
    exists run :: RunTo(n, run, s)
  }

  // ------------------------------------------------------------------------- invariant

  predicate WorkerHolds(w: Worker) { w.Looping? || w.Popped? }

  predicate CallHolds(c: Call) { c.Locked? || c.Pushed? }

  predicate MutexInv(s: State) {
    && (forall i :: 0 <= i < |s.workers| ==> (WorkerHolds(s.workers[i]) <==> s.owner == ByWorker(i)))
    && (forall j :: 0 <= j < |s.calls| ==> (CallHolds(s.calls[j]) <==> s.owner == ByCall(j)))
    && (s.owner.ByWorker? ==> s.owner.i < |s.workers|)
    && (s.owner.ByCall? ==> s.owner.j < |s.calls|)
    && (s.owner == ByDestructor <==> s.destructor == FlagNext || s.destructor == FlagSet)
  }

  predicate FlagInv(s: State) {
    && (s.shutdown <==> s.destructor == FlagSet || s.destructor == Broadcasting || s.destructor == Finished)
    && (s.destructor != Alive ==> AllReturned(s))
    && (forall i :: 0 <= i < |s.workers| && s.workers[i] == Exited ==> s.shutdown && s.queue == [])
    && (s.destructor == Finished ==> NoneAsleep(s))
  }

  /** A worker that will look at the queue again without being notified. */
  predicate WillLook(w: Worker) { w != Asleep && w != Exited }

  predicate SomeoneLooks(s: State) { exists i :: 0 <= i < |s.workers| && WillLook(s.workers[i]) }

  predicate SomeoneNotifies(s: State) {
    exists j :: 0 <= j < |s.calls| && (s.calls[j] == Pushed || s.calls[j] == Notifying)
  }

  predicate NotStranded(s: State) {
    s.workers != [] && s.queue != [] ==> SomeoneLooks(s) || SomeoneNotifies(s)
  }

  function Carried(w: Worker): multiset<Task> {
    if w.Popped? || w.Running? then multiset{w.task} else multiset{}
  }

  function InFlight(ws: seq<Worker>): multiset<Task> { Sum(ws, Carried) }

  /** Every task taken is done or in flight. */
  predicate Accounted(s: State) { multiset(s.popped) == s.done + InFlight(s.workers) }

  /** Nothing lost, nothing twice, and taken in the order of submission. */
  predicate HistoryInv(s: State) {
    && s.popped + s.queue == s.submitted
    && Accounted(s)
    && (s.workers == [] ==> s.popped == [])
  }

  predicate Inv(s: State) {
    MutexInv(s) && FlagInv(s) && NotStranded(s) && HistoryInv(s)
  }

  predicate IsWorkerStep(step: Step) {
    step.Lock? || step.PopTask? || step.Unlock? || step.Finish? || step.Wait? || step.Exit? || step.SpuriousWake?
  }

  predicate IsCallStep(step: Step) {
    step.CallLock? || step.CallPush? || step.CallUnlock? || step.CallNotify?
  }

  lemma WorkerStepMutex(s: State, step: Step)
    requires MutexInv(s) && Enabled(s, step) && IsWorkerStep(step)
    ensures MutexInv(Apply(s, step))
  {
  }

  lemma CallStepMutex(s: State, step: Step)
    requires MutexInv(s) && Enabled(s, step) && IsCallStep(step)
    ensures MutexInv(Apply(s, step))
  {
  }

  lemma StepMutex(s: State, step: Step)
    requires MutexInv(s) && Enabled(s, step)
    ensures MutexInv(Apply(s, step))
  {
    if IsWorkerStep(step) {
      WorkerStepMutex(s, step);
    } else if IsCallStep(step) {
      CallStepMutex(s, step);
    }
  }

  lemma StepFlag(s: State, step: Step)
    requires FlagInv(s) && MutexInv(s) && Enabled(s, step)
    ensures FlagInv(Apply(s, step))
  {
    if IsWorkerStep(step) {
      WorkerStepFlag(s, step);
    } else if IsCallStep(step) {
      CallStepFlag(s, step);
    }
  }

  lemma WorkerStepFlag(s: State, step: Step)
    requires FlagInv(s) && Enabled(s, step) && IsWorkerStep(step)
    ensures FlagInv(Apply(s, step))
  {
  }

  lemma CallStepFlag(s: State, step: Step)
    requires FlagInv(s) && Enabled(s, step) && IsCallStep(step)
    ensures FlagInv(Apply(s, step))
  {
  }

  lemma StepNotStranded(s: State, step: Step)
    requires NotStranded(s) && FlagInv(s) && Enabled(s, step)
    ensures NotStranded(Apply(s, step))
  {
    if IsWorkerStep(step) {
      WorkerStepNotStranded(s, step);
    } else if IsCallStep(step) {
      CallStepNotStranded(s, step);
    } else if s.workers != [] && s.queue != [] {
      if step.Broadcast? {
        assert WillLook(Apply(s, step).workers[0]);
      } else {
        KeepsWitness(s, Apply(s, step));
      }
    }
  }

  lemma WorkerStepNotStranded(s: State, step: Step)
    requires Enabled(s, step) && IsWorkerStep(step)
    ensures NotStranded(Apply(s, step))
  {
    var s' := Apply(s, step);
    if !step.Wait? && !step.Exit? {
      assert WillLook(s'.workers[step.i]);
    }
  }

  lemma CallStepNotStranded(s: State, step: Step)
    requires NotStranded(s) && FlagInv(s) && Enabled(s, step) && IsCallStep(step)
    ensures NotStranded(Apply(s, step))
  {
    var s' := Apply(s, step);
    if s'.workers != [] && s'.queue != [] {
      if step.CallPush? || step.CallUnlock? {
        assert s'.calls[step.j] == Pushed || s'.calls[step.j] == Notifying;
      } else if step.CallNotify? {
        assert WillLook(s'.workers[if WorkerAt(s, step.woken, Asleep) then step.woken else 0]);
      } else {
        KeepsWitness(s, s');
      }
    }
  }

  lemma KeepsWitness(s: State, s': State)
    requires SomeoneLooks(s) || SomeoneNotifies(s)
    requires s'.workers == s.workers && |s.calls| <= |s'.calls|
    requires forall j :: 0 <= j < |s.calls| && s.calls[j] != s'.calls[j] ==> s.calls[j].Wanting?
    ensures SomeoneLooks(s') || SomeoneNotifies(s')
  {
    if SomeoneNotifies(s) {
      var j :| 0 <= j < |s.calls| && (s.calls[j] == Pushed || s.calls[j] == Notifying);
      assert s'.calls[j] == s.calls[j];
    }
  }

  lemma StepQueue(s: State, step: Step)
    requires Enabled(s, step) && s.popped + s.queue == s.submitted
    ensures var s' := Apply(s, step); s'.popped + s'.queue == s'.submitted
  {
    if step.PopTask? {
      assert (s.popped + [s.queue[0]]) + s.queue[1..] == s.popped + s.queue;
    } else if step.CallPush? {
      var t := s.calls[step.j].task;
      assert s.popped + (s.queue + [t]) == (s.popped + s.queue) + [t];
    }
  }

  lemma StepInFlight(s: State, step: Step)
    requires Enabled(s, step) && Accounted(s)
    ensures Accounted(Apply(s, step))
  {
    if step.Broadcast? {
      SumReplaced(s.workers, Asleep, Acquiring, Carried);
    } else if IsWorkerStep(step) {
      WorkerInFlight(s, step, step.i);
    } else if step.CallNotify? && WorkerAt(s, step.woken, Asleep) {
      CarrierChanges(multiset(s.popped), s.done, s.workers, step.woken, Acquiring, Carried);
    }
  }

  lemma WorkerInFlight(s: State, step: Step, i: nat)
    requires Enabled(s, step) && IsWorkerStep(step) && step.i == i
    requires Accounted(s)
    ensures Accounted(Apply(s, step))
  {
    if step.PopTask? {
      CarrierTakes(s.popped, s.done, s.workers, i, Popped(s.queue[0]), Carried, s.queue[0]);
    } else if step.Finish? {
      CarrierHandsIn(multiset(s.popped), s.done, s.workers, i, Acquiring, Carried, s.workers[i].task);
    } else {
      PlainWorkerStep(s, step, i);
      CarrierChanges(multiset(s.popped), s.done, s.workers, i, Apply(s, step).workers[i], Carried);
    }
  }

  /** The other worker steps change nothing but the worker, which keeps its task. */
  lemma PlainWorkerStep(s: State, step: Step, i: nat)
    requires Enabled(s, step) && IsWorkerStep(step) && step.i == i && !step.PopTask? && !step.Finish?
    ensures var s' := Apply(s, step);
            && s'.popped == s.popped && s'.done == s.done
            && i < |s.workers| == |s'.workers| && s'.workers == s.workers[i := s'.workers[i]]
            && Carried(s'.workers[i]) == Carried(s.workers[i])
  {
  }

  lemma SameWorkers(s: State, step: Step)
    requires Enabled(s, step)
    ensures |Apply(s, step).workers| == |s.workers|
  {
  }

  lemma StepKeepsInv(s: State, step: Step)
    requires Inv(s) && Enabled(s, step)
    ensures Inv(Apply(s, step)) && |Apply(s, step).workers| == |s.workers|
  {
    SameWorkers(s, step);
    StepMutex(s, step);
    StepFlag(s, step);
    StepNotStranded(s, step);
    StepQueue(s, step);
    StepInFlight(s, step);
  }

  lemma {:induction false} RunKeepsInv(run: seq<State>, k: nat)
    requires IsRun(run) && Inv(run[0]) && k < |run|
    ensures Inv(run[k]) && |run[k].workers| == |run[0].workers|
  {
    if k > 0 {
      RunKeepsInv(run, k - 1);
      NextKeepsInv(run[k - 1], run[k]);
    }
  }

  lemma NextKeepsInv(s: State, s': State)
    requires Inv(s) && Next(s, s')
    ensures Inv(s') && |s'.workers| == |s.workers|
  {
    var step :| IsStep(s, step, s');
    StepKeepsInv(s, step);
  }

  lemma InitInv(n: nat)
    ensures Inv(Init(n))
  {
    SumNone(Init(n).workers, Carried);
  }

  lemma ReachableInv(n: nat, s: State)
    requires Reachable(n, s)
    ensures Inv(s) && |s.workers| == n
  {
    var run :| RunTo(n, run, s);
    InitInv(n);
    RunKeepsInv(run, |run| - 1);
  }

  // ---------------------------------------------------------------------- main results

  /** Queued work always has someone who will come for it or wake someone up. */
  lemma NoStrandedWork(n: nat, s: State)
    requires n > 0 && Reachable(n, s) && s.queue != []
    ensures SomeoneLooks(s) || SomeoneNotifies(s)
  {
    ReachableInv(n, s);
  }

  /** Every submission is queued, in flight or done, exactly once; tasks are taken in the
      order of submission. */
  lemma ExactlyOnceInOrder(n: nat, s: State)
    requires Reachable(n, s)
    ensures s.popped <= s.submitted && s.submitted[|s.popped|..] == s.queue
    ensures multiset(s.submitted) == s.done + InFlight(s.workers) + multiset(s.queue)
  {
    ReachableInv(n, s);
    assert multiset(s.popped + s.queue) == multiset(s.popped) + multiset(s.queue);
  }

  /** Nothing can happen but what the environment starts or a spurious wake-up. */
  ghost predicate Stuck(s: State) {
    forall step :: Enabled(s, step) ==> step.SpuriousWake? || step.CallBegin? || step.DestructorBegin?
  }

  /** Whoever holds the mutex can go on. */
  lemma OwnerCanMove(s: State) returns (step: Step)
    requires Inv(s) && s.owner != Free
    ensures Enabled(s, step) && !(step.SpuriousWake? || step.CallBegin? || step.DestructorBegin?)
  {
    match s.owner
    case ByWorker(i) =>
      step := if s.workers[i].Popped? then Unlock(i)
              else if s.queue != [] then PopTask(i)
              else if s.shutdown then Exit(i) else Wait(i);
    case ByCall(j) =>
      step := if s.calls[j] == Pushed then CallUnlock(j) else CallPush(j);
    case ByDestructor =>
      step := if s.destructor == FlagNext then SetFlag else DestructorUnlock;
  }

  lemma StuckMutexFree(s: State)
    requires Inv(s) && Stuck(s)
    ensures s.owner == Free
  {
    if s.owner != Free {
      var step := OwnerCanMove(s);
    }
  }

  lemma StuckWorkers(s: State)
    requires Inv(s) && Stuck(s)
    ensures forall i :: 0 <= i < |s.workers| ==> s.workers[i] == Asleep || s.workers[i] == Exited
  {
    StuckMutexFree(s);
    forall i | 0 <= i < |s.workers|
      ensures s.workers[i] == Asleep || s.workers[i] == Exited
    {
      assert !Enabled(s, Lock(i)) && !Enabled(s, Finish(i));
    }
  }

  lemma StuckCalls(s: State)
    requires Inv(s) && Stuck(s)
    ensures AllReturned(s)
  {
    StuckMutexFree(s);
    forall j | 0 <= j < |s.calls|
      ensures s.calls[j] == Returned
    {
      assert !Enabled(s, CallLock(j));
      if s.calls[j] == Notifying {
        if !NoneAsleep(s) {
          var w :| 0 <= w < |s.workers| && s.workers[w] == Asleep;
          assert Enabled(s, CallNotify(j, w));
        } else {
          assert Enabled(s, CallNotify(j, 0));
        }
      }
    }
  }

  /** When the pool comes to rest, every submitted task has been run, provided there is a
      worker at all or nothing was submitted; and only then. */
  lemma RestMeansDone(n: nat, s: State)
    requires Reachable(n, s) && Stuck(s)
    ensures s.done == multiset(s.submitted) <==> n > 0 || s.submitted == []
    ensures n > 0 ==> s.queue == []
    ensures s.destructor == Finished ==> forall i :: 0 <= i < |s.workers| ==> s.workers[i] == Exited
  {
    ReachableInv(n, s);
    StuckWorkers(s);
    StuckCalls(s);
    SumNone(s.workers, Carried);
    if n > 0 {
      assert s.queue == [];
      assert s.popped + [] == s.popped;
    } else {
      assert s.done == multiset{} && s.submitted == s.queue;
      if s.submitted != [] {
        assert s.submitted[0] in multiset(s.submitted);
      }
    }
  }

  function Weight(w: Worker): nat {
    match w
    case Popped(_) => 4
    case Running(_) => 3
    case Acquiring => 2
    case Looping => 1
    case Asleep => 0
    case Exited => 0
  }

  /** What is left to do before the last worker exits. */
  function Remaining(s: State): nat { Total(s.workers, Weight) + 4 * |s.queue| }

  /** The broadcast has gone out. */
  predicate Closing(s: State) { MutexInv(s) && FlagInv(s) && s.destructor == Finished }

  /** After the broadcast only workers move, none of them sleeps, and each step uses up work. */
  lemma StepAfterBroadcast(s: State, step: Step)
    requires Closing(s) && Enabled(s, step)
    ensures var s' := Apply(s, step);
            && s'.destructor == Finished && s'.submitted == s.submitted
            && NoneAsleep(s') && Remaining(s') < Remaining(s)
  {
    OnlyWorkersMove(s, step);
    StepFlag(s, step);
    LowersWeight(s, step, step.i);
  }

  lemma OnlyWorkersMove(s: State, step: Step)
    requires FlagInv(s) && s.destructor == Finished && Enabled(s, step)
    ensures IsWorkerStep(step) && !step.Wait? && !step.SpuriousWake?
  {
  }

  lemma LowersWeight(s: State, step: Step, i: nat)
    requires Enabled(s, step) && IsWorkerStep(step) && !step.Wait? && !step.SpuriousWake? && step.i == i
    ensures var s' := Apply(s, step);
            s'.destructor == s.destructor && s'.submitted == s.submitted && Remaining(s') < Remaining(s)
  {
    var w := Apply(s, step).workers[i];
    assert Apply(s, step).workers == s.workers[i := w];
    TotalSet(s.workers, i, w, Weight);
  }

  lemma NextAfterBroadcast(s: State, s': State)
    requires Closing(s) && Next(s, s')
    ensures Closing(s') && s'.submitted == s.submitted && Remaining(s') < Remaining(s)
  {
    var step :| IsStep(s, step, s');
    StepAfterBroadcast(s, step);
    StepMutex(s, step);
    StepFlag(s, step);
  }

  lemma {:induction false} RunAfterBroadcast(run: seq<State>, k: nat)
    requires IsRun(run) && Closing(run[0]) && k < |run|
    ensures Closing(run[k]) && run[k].submitted == run[0].submitted
    ensures k + Remaining(run[k]) <= Remaining(run[0])
  {
    if k > 0 {
      RunAfterBroadcast(run, k - 1);
      NextAfterBroadcast(run[k - 1], run[k]);
    }
  }

  lemma ReachableRun(n: nat, run: seq<State>)
    requires IsRun(run) && Reachable(n, run[0])
    ensures Reachable(n, run[|run| - 1])
  {
    var before :| RunTo(n, before, run[0]);
    var whole := before + run[1..];
    forall k | 0 < k < |whole|
      ensures Next(whole[k - 1], whole[k])
    {
      if k >= |before| {
        var m := k - |before| + 1;
        assert whole[k] == run[m] && whole[k - 1] == run[m - 1];
      }
    }
    assert RunTo(n, whole, run[|run| - 1]);
  }

  /** Shutdown drains: from the broadcast on, every run is bounded, and one that cannot go on
      has all workers gone and, if there were any workers, every submitted task done. */
  lemma ShutdownDrains(n: nat, run: seq<State>)
    requires IsRun(run) && Reachable(n, run[0]) && run[0].destructor == Finished
    ensures |run| - 1 <= Remaining(run[0])
    ensures var last := run[|run| - 1];
            Stuck(last) ==>
              && |last.workers| == n
              && (forall i :: 0 <= i < n ==> last.workers[i] == Exited)
              && (n > 0 ==> last.done == multiset(run[0].submitted))
  {
    ReachableInv(n, run[0]);
    RunAfterBroadcast(run, |run| - 1);
    ReachableRun(n, run);
    ReachableInv(n, run[|run| - 1]);
    if Stuck(run[|run| - 1]) {
      RestMeansDone(n, run[|run| - 1]);
    }
  }
}
