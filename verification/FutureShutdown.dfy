/** What the destructor of the pool with futures achieves. The stop flag is set outside the
    mutex and a worker that reads it leaves without looking at the queue, so neither the end
    of the shutdown nor the draining of the queue is certain; here is when they are. */
module FutureShutdown {
  import opened Accounts
  import opened FuturePool

  // ------------------------------------------------------------------------------- runs

  /** Some run goes from s to t. */
  ghost predicate Leads(s: State, t: State) {
    exists run :: IsRun(run) && run[0] == s && run[|run| - 1] == t
  }

  lemma LeadsNowhere(s: State)
    ensures Leads(s, s)
  {
    assert IsRun([s]);
  }

  lemma LeadsFrom(s: State, step: Step, t: State)
    requires Enabled(s, step) && Leads(Apply(s, step), t)
    ensures Leads(s, t)
  {
    var s' := Apply(s, step);
    var run :| IsRun(run) && run[0] == s' && run[|run| - 1] == t;
    assert IsStep(s, step, s');
    LongerRun(s, run);
    assert ([s] + run)[|run|] == t;
  }

  lemma LongerRun(s: State, run: seq<State>)
    requires IsRun(run) && Next(s, run[0])
    ensures IsRun([s] + run)
  {
    var whole := [s] + run;
    forall k | 0 < k < |whole|
      ensures Next(whole[k - 1], whole[k])
    {
      if k > 1 {
        assert whole[k - 1] == run[k - 2] && whole[k] == run[k - 1];
      }
    }
  }

  // ------------------------------------------------------- after the stop every run ends

  function Rank(w: Worker): nat {
    match w
    case Exited => 0
    case Checking => 1
    case Ran => 2
    case Running(_) => 3
    case Leaving(_) => 4
    case Took(_) => 5
    case Testing => 6
    case Acquiring => 7
    case Asleep => 8
    case Blocking => 9
  }

  function CallRank(c: Call): nat {
    match c
    case Returned => 0
    case Threw => 0
    case Notifying => 1
    case Pushed => 2
    case Locked => 3
    case Wanting => 4
  }

  function EndRank(d: Destructor): nat {
    match d
    case Gone => 0
    case Joining => 1
    case Stopped => 2
    case Alive => 3
  }

  /** What can still happen once the pool is stopped. */
  function Remaining(s: State): nat {
    Total(s.workers, Rank) + Total(s.calls, CallRank) + EndRank(s.destructor)
  }

  lemma WorkerLowers(s: State, step: Step, i: nat)
    requires s.stoped && Enabled(s, step) && IsWorkerStep(step) && step.i == i
    ensures var s' := ApplyWorker(s, step);
            && s'.workers == s.workers[i := s'.workers[i]] && Rank(s'.workers[i]) < Rank(s.workers[i])
            && s'.calls == s.calls && s'.destructor == s.destructor
  {
  }

  lemma CallLowers(s: State, step: Step)
    requires s.stoped && Enabled(s, step) && IsCallStep(step)
    ensures var s' := ApplyCall(s, step);
            && s'.destructor == s.destructor
            && if step.CallBegin? then s'.calls == s.calls + [Threw]
               else && s'.calls == s.calls[step.j := s'.calls[step.j]]
                    && CallRank(s'.calls[step.j]) < CallRank(s.calls[step.j])
  {
  }

  /** A step of a stopped pool either is a new commit, which throws, or uses up something:
      even spurious wake-ups do. */
  lemma StepLowers(s: State, step: Step)
    requires s.stoped && Enabled(s, step)
    ensures var s' := Apply(s, step);
            && s'.stoped
            && if step.CallBegin? then Remaining(s') == Remaining(s) && |s'.calls| == |s.calls| + 1
               else Remaining(s') < Remaining(s) && |s'.calls| == |s.calls|
  {
    var s' := Apply(s, step);
    if IsWorkerStep(step) {
      WorkerLowers(s, step, step.i);
      TotalSet(s.workers, step.i, s'.workers[step.i], Rank);
    } else if IsCallStep(step) {
      CallLowers(s, step);
      CallKeepsLoad(s, step);
      if step.CallBegin? {
        TotalAppend(s.calls, Threw, CallRank);
      } else {
        TotalSet(s.calls, step.j, s'.calls[step.j], CallRank);
      }
      if step.CallNotify? && WorkerAt(s, step.woken, Asleep) {
        TotalSet(s.workers, step.woken, Acquiring, Rank);
      }
    } else {
      TotalReplaced(s.workers, Asleep, Acquiring, Rank);
    }
  }

  /** After the stop every run is bounded, but for commits that throw. */
  lemma {:induction false} RunsEndAfterStop(run: seq<State>, k: nat)
    requires IsRun(run) && run[0].stoped && k < |run|
    ensures run[k].stoped
    ensures k + Remaining(run[k]) <= Remaining(run[0]) + (|run[k].calls| - |run[0].calls|)
  {
    if k > 0 {
      RunsEndAfterStop(run, k - 1);
      var step :| IsStep(run[k - 1], step, run[k]);
      StepLowers(run[k - 1], step);
    }
  }

  // -------------------------------------------------------------- what is left in the end

  predicate IsWaiting(w: Worker) { w.Acquiring? || w.Testing? || w.Blocking? || w.Asleep? }

  function WaitingOne(w: Worker): nat { if IsWaiting(w) then 1 else 0 }
  function WantingOne(c: Call): nat { if c == Wanting then 1 else 0 }
  function LockedOne(c: Call): nat { if c == Locked then 1 else 0 }

  /** Workers that will still look at the queue, once; the others leave without. */
  function Lookers(s: State): nat { Total(s.workers, WaitingOne) }

  /** Commits past their test of the flag that do not hold the mutex yet. */
  function Wanters(s: State): nat { Total(s.calls, WantingOne) }

  /** The queue with the task of a commit that holds the mutex and has yet to push. */
  function Load(s: State): nat { |s.queue| + Total(s.calls, LockedOne) }

  function AtLeastZero(n: int): nat { if n > 0 then n else 0 }

  /** The fewest and the most tasks that can be left behind. */
  function Fewest(s: State): nat { AtLeastZero(Load(s) + Wanters(s) - Lookers(s)) }
  function Most(s: State): nat { AtLeastZero(Load(s) - Lookers(s)) + Wanters(s) }

  lemma NoneLocked(s: State)
    requires MutexInv(s) && !s.owner.ByCall?
    ensures Total(s.calls, LockedOne) == 0
  {
    TotalAtMost(s.calls, LockedOne, 0);
  }

  lemma WorkerLeft(s: State, step: Step, i: nat)
    requires MutexInv(s) && s.stoped && Enabled(s, step) && IsWorkerStep(step) && step.i == i
    ensures var s' := ApplyWorker(s, step); Fewest(s) <= Fewest(s') && Most(s') <= Most(s)
  {
    var s' := ApplyWorker(s, step);
    WorkerLowers(s, step, i);
    TotalSet(s.workers, i, s'.workers[i], WaitingOne);
    if step.Test? {
      NoneLocked(s);
      TotalAtLeast(s.workers, WaitingOne, i);
    }
  }

  lemma CallLeft(s: State, step: Step)
    requires s.stoped && Enabled(s, step) && IsCallStep(step)
    ensures var s' := ApplyCall(s, step); Fewest(s) <= Fewest(s') && Most(s') <= Most(s)
  {
    CallLeftWorkers(s, step);
    if step.CallBegin? {
      TotalAppend(s.calls, Threw, WantingOne);
      TotalAppend(s.calls, Threw, LockedOne);
    } else {
      CallLeftCalls(s, step);
    }
  }

  lemma CallLeftWorkers(s: State, step: Step)
    requires s.stoped && Enabled(s, step) && IsCallStep(step)
    ensures Lookers(ApplyCall(s, step)) == Lookers(s)
    ensures |ApplyCall(s, step).queue| == |s.queue| + if step.CallPush? then 1 else 0
  {
    CallKeepsLoad(s, step);
    if step.CallNotify? && WorkerAt(s, step.woken, Asleep) {
      TotalSet(s.workers, step.woken, Acquiring, WaitingOne);
    }
  }

  /** The commit moves from wanting to locked to pushed. */
  lemma CallLeftCalls(s: State, step: Step)
    requires s.stoped && Enabled(s, step) && IsCallStep(step) && !step.CallBegin?
    ensures var s' := ApplyCall(s, step);
            && Wanters(s') == Wanters(s) - (if step.CallLock? then 1 else 0)
            && Total(s'.calls, LockedOne)
               == Total(s.calls, LockedOne) + (if step.CallLock? then 1 else 0) - (if step.CallPush? then 1 else 0)
  {
    var s' := ApplyCall(s, step);
    CallLowers(s, step);
    TotalSet(s.calls, step.j, s'.calls[step.j], WantingOne);
    TotalSet(s.calls, step.j, s'.calls[step.j], LockedOne);
  }

  /** No step of a stopped pool lowers the fewest or raises the most. */
  lemma StepLeft(s: State, step: Step)
    requires MutexInv(s) && s.stoped && Enabled(s, step)
    ensures var s' := Apply(s, step); Fewest(s) <= Fewest(s') && Most(s') <= Most(s)
  {
    if IsWorkerStep(step) {
      WorkerLeft(s, step, step.i);
    } else if IsCallStep(step) {
      CallLeft(s, step);
    } else {
      TotalReplaced(s.workers, Asleep, Acquiring, WaitingOne);
    }
  }

  lemma NextLeft(s: State, s': State)
    requires MutexInv(s) && s.stoped && Next(s, s')
    ensures MutexInv(s') && s'.stoped && Fewest(s) <= Fewest(s') && Most(s') <= Most(s)
  {
    var step :| IsStep(s, step, s');
    StepMutex(s, step);
    StepLeft(s, step);
    StepLowers(s, step);
  }

  lemma {:induction false} RunLeft(run: seq<State>, k: nat)
    requires IsRun(run) && MutexInv(run[0]) && run[0].stoped && k < |run|
    ensures MutexInv(run[k]) && run[k].stoped
    ensures Fewest(run[0]) <= Fewest(run[k]) && Most(run[k]) <= Most(run[0])
  {
    if k > 0 {
      RunLeft(run, k - 1);
      NextLeft(run[k - 1], run[k]);
    }
  }

  lemma GoneLeft(s: State)
    requires Inv(s) && s.destructor == Gone
    ensures Fewest(s) == Most(s) == |s.broken|
  {
    TotalAtMost(s.workers, WaitingOne, 0);
    TotalAtMost(s.calls, WantingOne, 0);
    TotalAtMost(s.calls, LockedOne, 0);
  }

  /** How many tasks the pool leaves behind, over every run from a stopped state to the end of
      the pool; with no commit between its test and the mutex the number is fixed. */
  lemma LeftBehind(s: State, t: State)
    requires Inv(s) && s.stoped && Leads(s, t) && t.destructor == Gone
    ensures Fewest(s) <= |t.broken| <= Most(s)
    ensures Wanters(s) == 0 ==> |t.broken| == AtLeastZero(Load(s) - Lookers(s))
  {
    var run :| IsRun(run) && run[0] == s && run[|run| - 1] == t;
    RunLeft(run, |run| - 1);
    RunKeepsInv(run, |run| - 1);
    GoneLeft(t);
  }

  // ------------------------------------------------------------------ how a pool can end

  predicate AllExited(s: State) { forall i :: 0 <= i < |s.workers| ==> s.workers[i] == Exited }

  /** A schedule to the end: workers first, so that a commit gets the mutex only when all
      workers have left. */
  lemma NextOnTheWay(s: State) returns (step: Step)
    requires MutexInv(s) && s.stoped && s.destructor != Gone
    ensures Enabled(s, step) && !step.CallBegin?
    ensures step.CallLock? || step.Join? ==> AllExited(s)
  {
    if s.owner != Free {
      step := OwnerCanMove(s);
    } else if s.destructor == Stopped {
      step := Broadcast;
    } else if !AllExited(s) {
      var i :| 0 <= i < |s.workers| && s.workers[i] != Exited;
      if s.workers[i] == Asleep {
        step := SpuriousWake(i);
      } else {
        step := AwakeCanMove(s, i);
      }
    } else if j :| 0 <= j < |s.calls| && UnderWay(s.calls[j]) {
      step := CallCanMove(s, j);
    } else {
      step := Join;
    }
  }

  lemma {:induction false} CanEnd(s: State) returns (t: State)
    requires Inv(s) && s.stoped
    ensures Leads(s, t) && t.destructor == Gone
    decreases Remaining(s)
  {
    if s.destructor == Gone {
      LeadsNowhere(s);
      t := s;
    } else {
      var step := NextOnTheWay(s);
      StepLowers(s, step);
      StepKeepsInv(s, step);
      t := CanEnd(Apply(s, step));
      LeadsFrom(s, step, t);
    }
  }

  lemma WantingStays(s: State, step: Step, j: nat)
    requires Enabled(s, step) && !step.CallLock? && CallAt(s, j, Wanting)
    ensures CallAt(Apply(s, step), j, Wanting)
  {
  }

  /** A commit that has passed its test of the flag can always come too late. */
  lemma {:induction false} CanComeTooLate(s: State, j: nat) returns (t: State)
    requires Inv(s) && s.stoped && CallAt(s, j, Wanting)
    ensures Leads(s, t) && t.destructor == Gone && t.broken != multiset{}
    decreases Remaining(s)
  {
    if AllExited(s) {
      TotalAtMost(s.workers, WaitingOne, 0);
      TotalAtLeast(s.calls, WantingOne, j);
      t := CanEnd(s);
      LeftBehind(s, t);
    } else {
      var step := NextOnTheWay(s);
      StepLowers(s, step);
      StepKeepsInv(s, step);
      WantingStays(s, step, j);
      t := CanComeTooLate(Apply(s, step), j);
      LeadsFrom(s, step, t);
    }
  }

  ghost predicate AlwaysDrains(s: State) {
    forall t :: Leads(s, t) && t.destructor == Gone ==> t.broken == multiset{}
  }

  lemma SomeWanter(s: State) returns (j: nat)
    requires Wanters(s) > 0
    ensures CallAt(s, j, Wanting)
  {
    if j0 :| 0 <= j0 < |s.calls| && s.calls[j0] == Wanting {
      j := j0;
    } else {
      TotalAtMost(s.calls, WantingOne, 0);
      assert false;
    }
  }

  /** A stopped pool runs every task before it is gone, whatever the schedule, if and only if
      no commit is between its test of the flag and the mutex and there are at least as many
      workers that will still look at the queue as tasks to come. */
  lemma DrainsExactly(size: nat, s: State)
    requires Reachable(size, s) && s.stoped
    ensures AlwaysDrains(s) <==> Wanters(s) == 0 && Load(s) <= Lookers(s)
  {
    ReachableInv(size, s);
    if Wanters(s) > 0 {
      var j := SomeWanter(s);
      var t := CanComeTooLate(s, j);
    } else {
      forall t | Leads(s, t) && t.destructor == Gone
        ensures t.broken == multiset{} <==> Load(s) <= Lookers(s)
      {
        LeftBehind(s, t);
      }
      var t := CanEnd(s);
    }
  }

  // ------------------------------------------------------ when the destructor comes back

  predicate Sleeps(w: Worker) { w == Blocking || w == Asleep }

  predicate SomeWanting(s: State) { exists j :: 0 <= j < |s.calls| && s.calls[j] == Wanting }

  predicate SomeUnderWay(s: State) { exists j :: 0 <= j < |s.calls| && UnderWay(s.calls[j]) }

  predicate OneSleeper(s: State) {
    forall i, k :: 0 <= i < k < |s.workers| ==> !Sleeps(s.workers[i]) || !Sleeps(s.workers[k])
  }

  /** At most one worker sleeps or is about to, and a commit will come that wakes it. */
  predicate Covered(s: State) {
    && (s.destructor == Joining || s.destructor == Gone) && s.stoped && OneSleeper(s)
    && (!NoneAt(s, Blocking) ==> SomeWanting(s))
    && (!NoneAt(s, Asleep) ==> SomeUnderWay(s))
  }

  lemma WorkerCovered(s: State, step: Step)
    requires Covered(s) && Enabled(s, step) && IsWorkerStep(step)
    ensures Covered(ApplyWorker(s, step))
  {
    var s', i := ApplyWorker(s, step), step.i;
    WorkerLowers(s, step, i);
    assert Sleeps(s'.workers[i]) ==> step.Block? && s.workers[i] == Blocking;
    if SomeWanting(s) {
      var j :| 0 <= j < |s.calls| && s.calls[j] == Wanting;
      assert SomeUnderWay(s');
    }
  }

  /** A call that holds the mutex excludes a worker about to sleep. */
  lemma HolderCovered(s: State, step: Step)
    requires Covered(s) && MutexInv(s) && Enabled(s, step)
    requires step.CallLock? || step.CallPush? || step.CallUnlock?
    ensures Covered(ApplyCall(s, step))
  {
    assert NoneAt(s, Blocking);
    assert UnderWay(ApplyCall(s, step).calls[step.j]);
  }

  lemma NotifyCovered(s: State, j: nat, w: nat)
    requires Covered(s) && Enabled(s, CallNotify(j, w))
    ensures Covered(ApplyCall(s, CallNotify(j, w)))
  {
    var s' := ApplyCall(s, CallNotify(j, w));
    assert NoneAt(s', Asleep);
    if SomeWanting(s) {
      var k :| 0 <= k < |s.calls| && s.calls[k] == Wanting;
      assert s'.calls[k] == Wanting;
    }
  }

  lemma BeginCovered(s: State)
    requires Covered(s) && Enabled(s, CallBegin)
    ensures Covered(ApplyCall(s, CallBegin))
  {
    var s' := ApplyCall(s, CallBegin);
    assert forall k :: 0 <= k < |s.calls| ==> s'.calls[k] == s.calls[k];
  }

  lemma StepCovered(s: State, step: Step)
    requires Covered(s) && MutexInv(s) && Enabled(s, step)
    ensures Covered(Apply(s, step))
  {
    if IsWorkerStep(step) {
      WorkerCovered(s, step);
    } else if step.CallBegin? {
      BeginCovered(s);
    } else if step.CallNotify? {
      NotifyCovered(s, step.j, step.woken);
    } else if IsCallStep(step) {
      HolderCovered(s, step);
    }
  }

  /** Before the broadcast only a worker about to sleep is in danger: the broadcast wakes the
      others. */
  predicate BeforeBroadcast(s: State) {
    s.destructor == Stopped && s.stoped && (NoneAt(s, Blocking) || SomeWanting(s))
  }

  lemma BroadcastCovers(s: State)
    requires MutexInv(s) && s.destructor == Stopped
    ensures var s' := Apply(s, Broadcast);
            NoneAt(s', Asleep) && s'.stoped && OneSleeper(s')
            && (forall i :: WorkerAt(s', i, Blocking) <==> WorkerAt(s, i, Blocking))
  {
  }

  lemma StepBeforeBroadcast(s: State, step: Step)
    requires BeforeBroadcast(s) && MutexInv(s) && Enabled(s, step) && !step.Broadcast?
    ensures BeforeBroadcast(Apply(s, step))
  {
    var s' := Apply(s, step);
    if IsWorkerStep(step) {
      WorkerLowers(s, step, step.i);
    } else {
      CallKeepsLoad(s, step);
      if SomeWanting(s) && !step.CallLock? {
        var j :| 0 <= j < |s.calls| && s.calls[j] == Wanting;
        WantingStays(s, step, j);
      }
    }
  }

  predicate OnTheWay(s: State) { MutexInv(s) && (BeforeBroadcast(s) || Covered(s)) }

  lemma StepOnTheWay(s: State, step: Step)
    requires OnTheWay(s) && Enabled(s, step)
    ensures OnTheWay(Apply(s, step))
  {
    StepMutex(s, step);
    if Covered(s) {
      StepCovered(s, step);
    } else if step.Broadcast? {
      BroadcastCovers(s);
    } else {
      StepBeforeBroadcast(s, step);
    }
  }

  lemma StaysOnTheWay(s: State, s': State)
    requires OnTheWay(s) && Next(s, s')
    ensures OnTheWay(s')
  {
    var step :| IsStep(s, step, s');
    StepOnTheWay(s, step);
  }

  lemma {:induction false} RunOnTheWay(run: seq<State>, k: nat)
    requires IsRun(run) && OnTheWay(run[0]) && k < |run|
    ensures OnTheWay(run[k])
  {
    if k > 0 {
      RunOnTheWay(run, k - 1);
      StaysOnTheWay(run[k - 1], run[k]);
    }
  }

  lemma OnTheWayEnds(s: State, t: State)
    requires OnTheWay(s) && Leads(s, t) && AtRest(t)
    ensures t.destructor == Gone
  {
    var run :| IsRun(run) && run[0] == s && run[|run| - 1] == t;
    RunOnTheWay(run, |run| - 1);
    RestShape(t);
  }

  // ---- after the broadcast there is never more than one sleeper

  predicate FewSleep(s: State) { s.destructor == Joining || s.destructor == Gone ==> s.stoped && OneSleeper(s) }

  lemma WorkerFewSleep(s: State, step: Step)
    requires FewSleep(s) && Enabled(s, step) && IsWorkerStep(step)
    ensures FewSleep(ApplyWorker(s, step))
  {
    if s.stoped {
      WorkerLowers(s, step, step.i);
    }
  }

  lemma CallFewSleep(s: State, step: Step)
    requires FewSleep(s) && Enabled(s, step) && IsCallStep(step)
    ensures FewSleep(ApplyCall(s, step))
  {
    CallKeepsLoad(s, step);
  }

  predicate SoundAndFew(s: State) { MutexInv(s) && FewSleep(s) }

  lemma StepFewSleep(s: State, step: Step)
    requires SoundAndFew(s) && Enabled(s, step)
    ensures SoundAndFew(Apply(s, step))
  {
    StepMutex(s, step);
    if IsWorkerStep(step) {
      WorkerFewSleep(s, step);
    } else if IsCallStep(step) {
      CallFewSleep(s, step);
    } else if step.Broadcast? {
      BroadcastCovers(s);
    }
  }

  lemma NextFewSleep(s: State, s': State)
    requires SoundAndFew(s) && Next(s, s')
    ensures SoundAndFew(s')
  {
    var step :| IsStep(s, step, s');
    StepFewSleep(s, step);
  }

  lemma {:induction false} RunFewSleep(run: seq<State>, k: nat)
    requires IsRun(run) && SoundAndFew(run[0]) && k < |run|
    ensures SoundAndFew(run[k])
  {
    if k > 0 {
      RunFewSleep(run, k - 1);
      NextFewSleep(run[k - 1], run[k]);
    }
  }

  lemma ReachableFewSleep(size: nat, s: State)
    requires Reachable(size, s)
    ensures FewSleep(s)
  {
    var run :| RunTo(size, run, s);
    RunFewSleep(run, |run| - 1);
  }

  /** Worker i sleeps and nobody is left who would wake it. */
  predicate SleepsOn(s: State, i: nat) {
    s.destructor == Joining && s.stoped && WorkerAt(s, i, Asleep) && !SomeUnderWay(s)
  }

  lemma StepSleepsOn(s: State, step: Step, i: nat)
    requires SleepsOn(s, i) && Enabled(s, step) && !step.CallBegin? && !step.SpuriousWake?
    ensures SleepsOn(Apply(s, step), i)
  {
    assert IsWorkerStep(step);
    WorkerLowers(s, step, step.i);
  }

  lemma {:induction false} CanSleepOn(s: State, i: nat) returns (t: State)
    requires SleepsOn(s, i)
    ensures Leads(s, t) && AtRest(t) && t.destructor == Joining
    decreases Remaining(s)
  {
    if AtRest(s) {
      LeadsNowhere(s);
      t := s;
    } else {
      var step :| Enabled(s, step) && !step.CallBegin? && !step.SpuriousWake? && !step.Stop?;
      StepSleepsOn(s, step, i);
      StepLowers(s, step);
      t := CanSleepOn(Apply(s, step), i);
      LeadsFrom(s, step, t);
    }
  }

  /** A worker between its test and its sleep, with commits left that can only notify: they
      may do so before it sleeps. */
  lemma {:induction false} CanMissAll(s: State, i: nat) returns (t: State)
    requires MutexInv(s) && s.destructor == Joining && WorkerAt(s, i, Blocking)
    requires NoneAt(s, Asleep) && !SomeWanting(s)
    ensures Leads(s, t) && AtRest(t) && t.destructor == Joining
    decreases Remaining(s)
  {
    if SomeUnderWay(s) {
      var j :| 0 <= j < |s.calls| && UnderWay(s.calls[j]);
      var step := CallNotify(j, i);
      assert s.owner == ByWorker(i) && s.calls[j] == Notifying;
      StepLowers(s, step);
      StepMutex(s, step);
      t := CanMissAll(Apply(s, step), i);
      LeadsFrom(s, step, t);
    } else {
      var step := Block(i);
      t := CanSleepOn(Apply(s, step), i);
      LeadsFrom(s, step, t);
    }
  }

  ghost predicate AlwaysEnds(s: State) {
    forall t :: Leads(s, t) && AtRest(t) ==> t.destructor == Gone
  }

  /** What saves the end of the shutdown: a worker between its test and its sleep needs a
      commit that has yet to get the mutex, and after the broadcast a sleeper needs a commit
      under way. */
  predicate SafeToEnd(s: State) {
    && (NoneAt(s, Blocking) || SomeWanting(s))
    && (s.destructor == Joining ==> NoneAt(s, Asleep) || SomeUnderWay(s))
  }

  lemma SafeIsOnTheWay(s: State)
    requires Inv(s) && FewSleep(s) && s.stoped && SafeToEnd(s)
    ensures OnTheWay(s)
  {
  }

  lemma UnsafeCanStick(s: State) returns (t: State)
    requires Inv(s) && FewSleep(s) && s.stoped && !SafeToEnd(s)
    ensures Leads(s, t) && AtRest(t) && t.destructor == Joining
  {
    if !NoneAt(s, Blocking) && !SomeWanting(s) {
      var i: nat :| i < |s.workers| && s.workers[i] == Blocking;
      if s.destructor == Stopped {
        BroadcastCovers(s);
        StepMutex(s, Broadcast);
        assert WorkerAt(Apply(s, Broadcast), i, Blocking);
        t := CanMissAll(Apply(s, Broadcast), i);
        LeadsFrom(s, Broadcast, t);
      } else {
        t := CanMissAll(s, i);
      }
    } else {
      var i: nat :| i < |s.workers| && s.workers[i] == Asleep;
      t := CanSleepOn(s, i);
    }
  }

  /** From any stopped state the destructor comes back, whatever the schedule, if and only if
      every worker in danger of sleeping for good has a commit that will still notify it. */
  lemma EndsExactly(size: nat, s: State)
    requires Reachable(size, s) && s.stoped
    ensures AlwaysEnds(s) <==> SafeToEnd(s)
  {
    ReachableInv(size, s);
    ReachableFewSleep(size, s);
    if SafeToEnd(s) {
      SafeIsOnTheWay(s);
      forall t | Leads(s, t) && AtRest(t)
        ensures t.destructor == Gone
      {
        OnTheWayEnds(s, t);
      }
    } else {
      var t := UnsafeCanStick(s);
    }
  }

  /** No worker sleeps or is about to. */
  predicate NoneSleeping(s: State) { NoneAt(s, Blocking) && NoneAt(s, Asleep) }

  lemma StepNoneSleeping(s: State, step: Step)
    requires s.stoped && NoneSleeping(s) && Enabled(s, step)
    ensures NoneSleeping(Apply(s, step))
  {
    if IsWorkerStep(step) {
      WorkerLowers(s, step, step.i);
    } else if IsCallStep(step) {
      CallKeepsLoad(s, step);
    }
  }

  lemma {:induction false} RunNoneSleeping(run: seq<State>, k: nat)
    requires IsRun(run) && run[0].stoped && NoneSleeping(run[0]) && k < |run|
    ensures run[k].stoped && NoneSleeping(run[k])
  {
    if k > 0 {
      RunNoneSleeping(run, k - 1);
      var step :| IsStep(run[k - 1], step, run[k]);
      StepNoneSleeping(run[k - 1], step);
      StepLowers(run[k - 1], step);
    }
  }

  /** From a stopped state on nobody ever sleeps, if and only if no worker sleeps or is between
      its test and its sleep. */
  lemma AwakeExactly(s: State)
    requires s.stoped
    ensures (forall t :: Leads(s, t) ==> NoneAt(t, Asleep)) <==> NoneSleeping(s)
  {
    if NoneSleeping(s) {
      forall t | Leads(s, t)
        ensures NoneAt(t, Asleep)
      {
        var run :| IsRun(run) && run[0] == s && run[|run| - 1] == t;
        RunNoneSleeping(run, |run| - 1);
      }
    } else if !NoneAt(s, Asleep) {
      LeadsNowhere(s);
    } else {
      var i: nat :| i < |s.workers| && s.workers[i] == Blocking;
      var t := Apply(s, Block(i));
      LeadsNowhere(t);
      LeadsFrom(s, Block(i), t);
      assert WorkerAt(t, i, Asleep);
    }
  }

  // -------------------------------------------------------------- both do fail, from Init

  lemma ReachInit(size: nat)
    ensures Reachable(size, Init(size))
  {
    assert RunTo(size, [Init(size)], Init(size));
  }

  lemma ReachStep(size: nat, s: State, step: Step, s': State)
    requires Reachable(size, s) && IsStep(s, step, s')
    ensures Reachable(size, s')
  {
    var run :| RunTo(size, run, s);
    assert Next(s, s');
    assert RunTo(size, run + [s'], s');
  }

  function OneWorker(w: Worker, d: Destructor, owner: Owner): State {
    State([w], [], d, [], d != Alive, 1, owner, multiset{}, multiset{}, [], [])
  }

  lemma ReachBlocking()
    ensures Reachable(1, OneWorker(Blocking, Alive, ByWorker(0)))
  {
    ReachInit(1);
    var s0 := OneWorker(Checking, Alive, Free);
    var s1 := OneWorker(Acquiring, Alive, Free);
    var s2 := OneWorker(Testing, Alive, ByWorker(0));
    assert Init(1) == s0;
    ReachStep(1, s0, Check(0), s1);
    ReachStep(1, s1, Lock(0), s2);
    ReachStep(1, s2, Test(0), OneWorker(Blocking, Alive, ByWorker(0)));
  }

  /** The stop flag is set outside the mutex: a worker between its test and its sleep misses
      the broadcast, and the destructor then waits for it in vain. */
  lemma LostWakeUp()
    ensures var s := OneWorker(Asleep, Joining, Free);
            Reachable(1, s) && forall step :: Enabled(s, step) ==> step.SpuriousWake? || step.CallBegin?
  {
    ReachBlocking();
    var s0 := OneWorker(Blocking, Alive, ByWorker(0));
    var s1 := OneWorker(Blocking, Stopped, ByWorker(0));
    var s2 := OneWorker(Blocking, Joining, ByWorker(0));
    ReachStep(1, s0, Stop, s1);
    assert WakeAll([Blocking]) == [Blocking];
    ReachStep(1, s1, Broadcast, s2);
    ReachStep(1, s2, Block(0), OneWorker(Asleep, Joining, Free));
    forall step | Enabled(OneWorker(Asleep, Joining, Free), step)
      ensures step.SpuriousWake? || step.CallBegin?
    {
      AsleepIsStuck(step);
    }
  }

  lemma AsleepIsStuck(step: Step)
    requires Enabled(OneWorker(Asleep, Joining, Free), step)
    ensures step.SpuriousWake? || step.CallBegin?
  {
    assert OneWorker(Asleep, Joining, Free).workers[0] == Asleep;
  }

  function OneCall(w: Worker, c: Call, d: Destructor, owner: Owner, q: seq<nat>): State {
    State([w], [c], d, q, d != Alive, 1, owner, multiset{}, multiset{}, q, [])
  }

  lemma ReachPushed()
    ensures Reachable(1, OneCall(Checking, Pushed, Alive, ByCall(0), [0]))
  {
    ReachInit(1);
    var s0 := OneCall(Checking, Wanting, Alive, Free, []);
    var s1 := OneCall(Checking, Locked, Alive, ByCall(0), []);
    ReachStep(1, Init(1), CallBegin, s0);
    ReachStep(1, s0, CallLock(0), s1);
    ReachStep(1, s1, CallPush(0), OneCall(Checking, Pushed, Alive, ByCall(0), [0]));
  }

  lemma ReachReturned()
    ensures Reachable(1, OneCall(Checking, Returned, Stopped, Free, [0]))
  {
    ReachPushed();
    var s0 := OneCall(Checking, Pushed, Alive, ByCall(0), [0]);
    var s1 := OneCall(Checking, Notifying, Alive, Free, [0]);
    var s2 := OneCall(Checking, Returned, Alive, Free, [0]);
    ReachStep(1, s0, CallUnlock(0), s1);
    ReachStep(1, s1, CallNotify(0, 0), s2);
    ReachStep(1, s2, Stop, OneCall(Checking, Returned, Stopped, Free, [0]));
  }

  /** The pool does not drain: a worker that reads the flag first leaves a queued task
      behind, and the task's future is broken. */
  lemma LeavesTasksBehind()
    ensures exists s :: Reachable(1, s) && s.destructor == Gone && 0 in s.broken
  {
    ReachReturned();
    var s0 := OneCall(Checking, Returned, Stopped, Free, [0]);
    var s1 := OneCall(Exited, Returned, Stopped, Free, [0]);
    var s2 := OneCall(Exited, Returned, Joining, Free, [0]);
    ReachStep(1, s0, Check(0), s1);
    assert WakeAll([Exited]) == [Exited];
    ReachStep(1, s1, Broadcast, s2);
    var s3 := s2.(destructor := Gone, broken := multiset([0]));
    ReachStep(1, s2, Join, s3);
    assert s3.broken[0] == 1;
  }
}
