/** The value slot of the shared future: what get returns, over every run. */
module FutureValues {
  import opened Options
  import opened RefFuture

  predicate SlotOk(x: Inner) {
    && (x.isSet <==> x.content != Unset)
    && (x.isSet <==> x.sets != [])
    && (x.content.Present? ==> x.sets != [] && x.content.value == x.sets[|x.sets| - 1])
    && (x.content.MovedOut? ==> x.taken > 0)
    && x.taken + (if x.content.Present? then 1 else 0) <= |x.sets|
  }

  predicate SlotsOk(s: State) { forall p :: 0 <= p < |s.inners| ==> SlotOk(s.inners[p]) }

  predicate ResultOk(x: Inner, r: Content) {
    && (r.Present? ==> r.value in x.sets)
    && (r.MovedOut? ==> x.taken > 0)
  }

  /** `calm` says that no wait of the run so far has ended spuriously. */
  predicate CallGood(s: State, c: nat, calm: bool)
    requires c < |s.calls|
  {
    match s.calls[c]
    case Asleep(h, _) => Usable(s, h) && !s.inners[s.handles[h].ptr.value].isSet
    case Woken(h, _) => Usable(s, h) && (calm ==> s.inners[s.handles[h].ptr.value].isSet)
    case Got(p, _, r) => p < |s.inners| && ResultOk(s.inners[p], r) && (calm ==> r != Unset)
    case _ => true
  }

  predicate CallsGood(s: State, calm: bool) { forall c :: 0 <= c < |s.calls| ==> CallGood(s, c, calm) }

  /** The slot of every inner object is as it was; there may be new objects. */
  predicate SameSlots(s: State, s': State) {
    && |s.inners| <= |s'.inners|
    && (forall p :: 0 <= p < |s.inners| ==>
          s'.inners[p] == s.inners[p].(count := s'.inners[p].count, deletes := s'.inners[p].deletes))
    && forall p :: |s.inners| <= p < |s'.inners| ==> s'.inners[p] == NewInner
  }

  lemma HandleStepFrame(s: State, step: Step)
    requires Owned(s) && Enabled(s, step) && !IsCallStep(step)
    ensures SameSlots(s, Apply(s, step)) && Apply(s, step).calls == s.calls
  {
  }

  lemma HandleStepCalled(s: State, step: Step, c: nat)
    requires Owned(s) && Enabled(s, step) && !IsCallStep(step)
    requires c < |s.calls| && Active(s.calls[c])
    ensures var h, s' := s.calls[c].handle, Apply(s, step);
            h < |s.handles| && h < |s'.handles| && s'.handles[h] == s.handles[h]
  {
    var h := s.calls[c].handle;
    assert CallOk(s, c) && Called(s, h);
    if step.MoveClear? {
      assert s.handles[step.h] == Taking(s.handles[step.h].source);
      assert Moved(s, s.handles[step.h].source);
    }
  }

  lemma HandleStepGood(s: State, step: Step, calm: bool)
    requires Owned(s) && SlotsOk(s) && CallsGood(s, calm) && Enabled(s, step) && !IsCallStep(step)
    ensures SlotsOk(Apply(s, step)) && CallsGood(Apply(s, step), calm)
  {
    var s' := Apply(s, step);
    HandleStepFrame(s, step);
    StepOwned(s, step);
    forall c | 0 <= c < |s'.calls|
      ensures CallGood(s', c, calm)
    {
      assert CallGood(s, c, calm) && CallOk(s', c);
      if Active(s.calls[c]) {
        HandleStepCalled(s, step, c);
      }
    }
  }

  /** What a call step does to the slots: only the slot it works on changes, and there the
      record of what was set and taken only grows. */
  predicate Grown(x: Inner, x': Inner) {
    && (x.isSet ==> x'.isSet) && x.taken <= x'.taken && |x.sets| <= |x'.sets|
    && forall k :: 0 <= k < |x.sets| ==> x'.sets[k] == x.sets[k]
  }

  lemma GrownResult(x: Inner, x': Inner, r: Content)
    requires Grown(x, x') && ResultOk(x, r)
    ensures ResultOk(x', r)
  {
    if r.Present? {
      var k :| 0 <= k < |x.sets| && x.sets[k] == r.value;
      assert x'.sets[k] == r.value;
    }
  }

  lemma CallStepSlots(s: State, step: Step)
    requires SlotsOk(s) && Enabled(s, step) && IsCallStep(step)
    ensures SlotsOk(Apply(s, step)) && |Apply(s, step).inners| == |s.inners|
    ensures forall p :: 0 <= p < |s.inners| ==> Grown(s.inners[p], Apply(s, step).inners[p])
    ensures !step.Store? ==> forall p :: 0 <= p < |s.inners| ==> Apply(s, step).inners[p].isSet == s.inners[p].isSet
  {
  }

  lemma StoreGood(s: State, c: nat, calm: bool)
    requires Owned(s) && SlotsOk(s) && CallsGood(s, calm) && Enabled(s, Store(c))
    ensures CallsGood(Apply(s, Store(c)), calm)
  {
    var s' := Apply(s, Store(c));
    CallStepSlots(s, Store(c));
    CallStepOwned(s, Store(c));
    forall d | 0 <= d < |s'.calls|
      ensures CallGood(s', d, calm)
    {
      assert CallGood(s, d, calm) && CallOk(s', d);
      if s.calls[d].Got? {
        GrownResult(s.inners[s.calls[d].from], s'.inners[s.calls[d].from], s.calls[d].result);
      }
    }
  }

  lemma FetchGood(s: State, c: nat, calm: bool)
    requires Owned(s) && SlotsOk(s) && InCall(s, c) && (s.calls[c].Getting? || s.calls[c].Woken?)
    requires calm ==> s.inners[Target(s, c)].isSet
    ensures CallGood(Fetch(s, c), c, calm)
  {
  }

  lemma OtherCallGood(s: State, step: Step, calm: bool)
    requires Owned(s) && SlotsOk(s) && CallsGood(s, calm) && Enabled(s, step) && IsCallStep(step)
    requires !step.Store? && (calm ==> !step.SpuriousWake?)
    ensures CallsGood(Apply(s, step), calm)
  {
    var s' := Apply(s, step);
    CallStepSlots(s, step);
    CallStepFrame(s, step);
    OneCallMoves(s, step);
    forall d | 0 <= d < |s'.calls|
      ensures CallGood(s', d, calm)
    {
      if d < |s.calls| && s'.calls[d] == s.calls[d] {
        UnmovedGood(s, s', d, calm);
      } else {
        MovedGood(s, step, d, calm);
      }
    }
  }

  /** A call step other than a store moves only the call it names. */
  lemma OneCallMoves(s: State, step: Step)
    requires Enabled(s, step) && IsCallStep(step) && !step.Store?
    ensures var s' := Apply(s, step);
            if step.BeginSet? || step.BeginGet? then s'.calls[..|s'.calls| - 1] == s.calls
            else |s'.calls| == |s.calls| && s'.calls == s.calls[step.c := s'.calls[step.c]]
    ensures |Apply(s, step).calls| > 0
  {
  }

  lemma UnmovedGood(s: State, s': State, d: nat, calm: bool)
    requires d < |s.calls| && d < |s'.calls| && s'.calls[d] == s.calls[d] && CallGood(s, d, calm)
    requires s'.handles == s.handles && |s'.inners| == |s.inners|
    requires forall p :: 0 <= p < |s.inners| ==>
               Grown(s.inners[p], s'.inners[p]) && s'.inners[p].isSet == s.inners[p].isSet
    ensures CallGood(s', d, calm)
  {
    var x := s.calls[d];
    if x.Got? {
      GrownResult(s.inners[x.from], s'.inners[x.from], x.result);
    } else if x.Asleep? || x.Woken? {
      assert Moved(s, x.handle) <==> Moved(s', x.handle);
    }
  }

  lemma MovedGood(s: State, step: Step, d: nat, calm: bool)
    requires Owned(s) && SlotsOk(s) && CallsGood(s, calm) && Enabled(s, step) && IsCallStep(step)
    requires !step.Store? && (calm ==> !step.SpuriousWake?)
    requires d < |Apply(s, step).calls| && (d < |s.calls| ==> Apply(s, step).calls[d] != s.calls[d])
    ensures CallGood(Apply(s, step), d, calm)
  {
    OneCallMoves(s, step);
    if step.Test? || step.Resume? || step.SpuriousWake? {
      assert step.c == d && CallGood(s, d, calm);
      if step.Resume? || (step.Test? && s.inners[Target(s, d)].isSet) {
        FetchGood(s, d, calm);
      } else {
        assert Moved(s, s.calls[d].handle) <==> Moved(Apply(s, step), s.calls[d].handle);
      }
    }
  }

  predicate Inv(s: State, calm: bool) { Owned(s) && SlotsOk(s) && CallsGood(s, calm) }

  lemma StepKeepsInv(s: State, step: Step, calm: bool)
    requires Inv(s, calm) && Enabled(s, step) && (calm ==> !step.SpuriousWake?)
    ensures Inv(Apply(s, step), calm)
  {
    StepOwned(s, step);
    if !IsCallStep(step) {
      HandleStepGood(s, step, calm);
    } else {
      CallStepSlots(s, step);
      if step.Store? {
        StoreGood(s, step.c, calm);
      } else {
        OtherCallGood(s, step, calm);
      }
    }
  }

  lemma {:induction false} RunKeepsInv(run: seq<State>, k: nat)
    requires IsRun(run) && k < |run|
    ensures Inv(run[k], false)
  {
    if k > 0 {
      RunKeepsInv(run, k - 1);
      var step :| IsStep(run[k - 1], step, run[k]);
      StepKeepsInv(run[k - 1], step, false);
    }
  }

  lemma {:induction false} CalmRunKeepsInv(run: seq<State>, k: nat)
    requires IsCalmRun(run) && k < |run|
    ensures Inv(run[k], true)
  {
    if k > 0 {
      CalmRunKeepsInv(run, k - 1);
      var step: Step :| !step.SpuriousWake? && IsStep(run[k - 1], step, run[k]);
      StepKeepsInv(run[k - 1], step, true);
    }
  }

  // --------------------------------------------------------------------- main results

  /** Whatever the wake-ups: a value that a get returns was set on that object, and an
      emptied slot is returned only after a value was moved out of it. */
  lemma ValuesComeFromSets(run: seq<State>, k: nat, c: nat)
    requires IsRun(run) && k < |run| && c < |run[k].calls| && run[k].calls[c].Got?
    ensures run[k].calls[c].from < |run[k].inners|
    ensures ResultOk(run[k].inners[run[k].calls[c].from], run[k].calls[c].result)
  {
    RunKeepsInv(run, k);
    assert CallGood(run[k], c, false);
  }

  /** No set value is moved out twice, and a value still in its slot is the last one set. */
  lemma MovedOutOnce(run: seq<State>, k: nat, p: nat)
    requires IsRun(run) && k < |run| && p < |run[k].inners|
    ensures var x := run[k].inners[p];
            && x.taken + (if x.content.Present? then 1 else 0) <= |x.sets|
            && (x.content.Present? ==> x.sets != [] && x.content.value == x.sets[|x.sets| - 1])
  {
    RunKeepsInv(run, k);
    assert SlotOk(run[k].inners[p]);
  }

  /** No wake-up is lost: no get sleeps on an object that has been set. */
  lemma NoneSleepsOnceSet(run: seq<State>, k: nat, c: nat)
    requires IsRun(run) && k < |run| && c < |run[k].calls| && run[k].calls[c].Asleep?
    ensures InCall(run[k], c) && run[k].inners[Target(run[k], c)].sets == []
  {
    RunKeepsInv(run, k);
    var s := run[k];
    assert CallGood(s, c, false) && CallOk(s, c);
    assert SlotOk(s.inners[Target(s, c)]);
  }

  /** Where only notify_all ends a wait, no get returns before a set. */
  lemma GetAfterSet(run: seq<State>, k: nat, c: nat)
    requires IsCalmRun(run) && k < |run| && c < |run[k].calls| && run[k].calls[c].Got?
    ensures run[k].calls[c].result != Unset
    ensures run[k].calls[c].from < |run[k].inners| && run[k].inners[run[k].calls[c].from].sets != []
  {
    CalmRunKeepsInv(run, k);
    var s := run[k];
    assert CallGood(s, c, true);
    assert SlotOk(s.inners[s.calls[c].from]);
  }

  // ---------------------------------------------------------- which gets cannot be early

  ghost predicate IsPath(path: seq<State>) {
    path != [] && forall k :: 0 < k < |path| ==> Next(path[k - 1], path[k])
  }

  /** Some run goes on from s to t. */
  ghost predicate Leads(s: State, t: State) {
    exists path :: IsPath(path) && path[0] == s && path[|path| - 1] == t
  }

  predicate IsGet(c: Call) { c.Getting? || c.Asleep? || c.Woken? }

  /** The get is under way on an object that has been set, or is over and returned a value. */
  predicate Safe(s: State, c: nat) {
    && c < |s.calls|
    && if s.calls[c].Got? then s.calls[c].result != Unset
       else IsGet(s.calls[c]) && InCall(s, c) && s.inners[Target(s, c)].isSet
  }

  lemma HandleStepSafe(s: State, step: Step, c: nat)
    requires Owned(s) && Safe(s, c) && Enabled(s, step) && !IsCallStep(step)
    ensures Safe(Apply(s, step), c)
  {
    HandleStepFrame(s, step);
    StepOwned(s, step);
    assert CallOk(Apply(s, step), c);
    if IsGet(s.calls[c]) {
      HandleStepCalled(s, step, c);
    }
  }

  lemma StoreSafe(s: State, d: nat, c: nat)
    requires Owned(s) && SlotsOk(s) && Safe(s, c) && Enabled(s, Store(d))
    ensures Safe(Apply(s, Store(d)), c)
  {
    CallStepSlots(s, Store(d));
    CallStepOwned(s, Store(d));
    assert CallOk(Apply(s, Store(d)), c);
  }

  lemma CallStepSafe(s: State, step: Step, c: nat)
    requires Owned(s) && SlotsOk(s) && Safe(s, c) && Enabled(s, step) && IsCallStep(step) && !step.Store?
    ensures Safe(Apply(s, step), c)
  {
    var s' := Apply(s, step);
    CallStepSlots(s, step);
    CallStepFrame(s, step);
    CallStepOwned(s, step);
    OneCallMoves(s, step);
    assert CallOk(s', c);
    if IsGet(s.calls[c]) {
      assert SlotOk(s.inners[Target(s, c)]);
    }
  }

  lemma StepSafe(s: State, step: Step, c: nat)
    requires Owned(s) && SlotsOk(s) && Safe(s, c) && Enabled(s, step)
    ensures Safe(Apply(s, step), c)
  {
    if !IsCallStep(step) {
      HandleStepSafe(s, step, c);
    } else if step.Store? {
      StoreSafe(s, step.c, c);
    } else {
      CallStepSafe(s, step, c);
    }
  }

  lemma NextSafe(s: State, s': State, c: nat)
    requires Inv(s, false) && Safe(s, c) && Next(s, s')
    ensures Inv(s', false) && Safe(s', c)
  {
    var step :| IsStep(s, step, s');
    StepSafe(s, step, c);
    StepKeepsInv(s, step, false);
  }

  lemma {:induction false} PathSafe(path: seq<State>, k: nat, c: nat)
    requires IsPath(path) && Inv(path[0], false) && Safe(path[0], c) && k < |path|
    ensures Inv(path[k], false) && Safe(path[k], c)
  {
    if k > 0 {
      PathSafe(path, k - 1, c);
      NextSafe(path[k - 1], path[k], c);
    }
  }

  lemma LeadsFrom(s: State, step: Step, t: State)
    requires Enabled(s, step) && Leads(Apply(s, step), t)
    ensures Leads(s, t)
  {
    var s' := Apply(s, step);
    var path :| IsPath(path) && path[0] == s' && path[|path| - 1] == t;
    assert IsStep(s, step, s');
    LongerPath(s, path);
    assert ([s] + path)[|path|] == t;
  }

  lemma LongerPath(s: State, path: seq<State>)
    requires IsPath(path) && Next(s, path[0])
    ensures IsPath([s] + path)
  {
    var whole := [s] + path;
    forall k | 0 < k < |whole|
      ensures Next(whole[k - 1], whole[k])
    {
      if k > 1 {
        assert whole[k - 1] == path[k - 2] && whole[k] == path[k - 1];
      }
    }
  }

  /** The schedule to an early return: test, a spurious wake-up, return. */
  lemma {:induction false} CanBeEarly(s: State, c: nat) returns (t: State)
    requires Inv(s, false) && c < |s.calls| && IsGet(s.calls[c]) && InCall(s, c) && !s.inners[Target(s, c)].isSet
    ensures Leads(s, t) && c < |t.calls| && t.calls[c] == Got(Target(s, c), s.calls[c].copy, Unset)
    decreases if s.calls[c].Getting? then 2 else if s.calls[c].Asleep? then 1 else 0
  {
    var step := if s.calls[c].Getting? then Test(c) else if s.calls[c].Asleep? then SpuriousWake(c) else Resume(c);
    var s' := Apply(s, step);
    assert SlotOk(s.inners[Target(s, c)]);
    if s.calls[c].Woken? {
      t := s';
      assert IsPath([t]);
    } else {
      StepKeepsInv(s, step, false);
      assert CallOk(s', c);
      t := CanBeEarly(s', c);
    }
    LeadsFrom(s, step, t);
  }

  ghost predicate NeverEarly(s: State, c: nat) {
    forall t :: Leads(s, t) && c < |t.calls| && t.calls[c].Got? ==> t.calls[c].result != Unset
  }

  /** A get under way cannot return before a set, whatever the schedule and the wake-ups, if
      and only if its object is set already: only the test at its beginning protects it. */
  lemma NeverEarlyExactly(run: seq<State>, k: nat, c: nat)
    requires IsRun(run) && k < |run| && c < |run[k].calls| && IsGet(run[k].calls[c])
    ensures InCall(run[k], c)
    ensures NeverEarly(run[k], c) <==> run[k].inners[Target(run[k], c)].isSet
  {
    var s := run[k];
    RunKeepsInv(run, k);
    assert CallOk(s, c);
    if s.inners[Target(s, c)].isSet {
      forall t | Leads(s, t) && c < |t.calls| && t.calls[c].Got?
        ensures t.calls[c].result != Unset
      {
        var path :| IsPath(path) && path[0] == s && path[|path| - 1] == t;
        PathSafe(path, |path| - 1, c);
      }
    } else {
      var t := CanBeEarly(s, c);
    }
  }

  /** One handle, one unset object, and one call. */
  function WithCall(c: Call): State { State([NewInner], [Live(Some(0))], [c]) }

  /** A spurious wake-up makes get return a value nobody has set: the wait is not a loop. */
  lemma EarlyGet()
    ensures exists run: seq<State> :: IsRun(run) && run[|run| - 1] == WithCall(Got(0, false, Unset))
  {
    EarlyGetBegins();
    EarlyGetEnds();
    var s1 := State([NewInner], [Live(Some(0))], []);
    var run := [Init, s1, WithCall(Getting(0, false)), WithCall(Asleep(0, false)), WithCall(Woken(0, false)),
                WithCall(Got(0, false, Unset))];
    assert IsRun(run);
  }

  lemma EarlyGetBegins()
    ensures var s1 := State([NewInner], [Live(Some(0))], []);
            Next(Init, s1) && Next(s1, WithCall(Getting(0, false)))
  {
    var s1 := State([NewInner], [Live(Some(0))], []);
    assert IsStep(Init, Create, s1);
    assert IsStep(s1, BeginGet(0, false), WithCall(Getting(0, false)));
  }

  lemma EarlyGetEnds()
    ensures Next(WithCall(Getting(0, false)), WithCall(Asleep(0, false)))
    ensures Next(WithCall(Asleep(0, false)), WithCall(Woken(0, false)))
    ensures Next(WithCall(Woken(0, false)), WithCall(Got(0, false, Unset)))
  {
    assert IsStep(WithCall(Getting(0, false)), Test(0), WithCall(Asleep(0, false)));
    assert IsStep(WithCall(Asleep(0, false)), SpuriousWake(0), WithCall(Woken(0, false)));
    assert IsStep(WithCall(Woken(0, false)), Resume(0), WithCall(Got(0, false, Unset)));
  }
}
