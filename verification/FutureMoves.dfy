/** The two ways to get: get(true) copies the value, get() moves it out of its slot. */
module FutureMoves {
  import opened Options
  import opened RefFuture
  import opened FutureValues

  // ------------------------------------------------------------ what happens to one slot

  /** In the step from s to s' the call c returns this from the object p. */
  predicate Returns(s: State, s': State, c: nat, p: nat, copied: bool, r: Content) {
    c < |s.calls| && !s.calls[c].Got? && c < |s'.calls| && s'.calls[c] == Got(p, copied, r)
  }

  /** A get returns what was in the slot, by copy exactly if that was asked for. A copy leaves
      every object as it was; a move of a value leaves its slot emptied. */
  lemma ReturnEffect(s: State, step: Step, c: nat, p: nat, copied: bool, r: Content)
    requires Enabled(s, step) && Returns(s, Apply(s, step), c, p, copied, r)
    ensures IsGet(s.calls[c]) && copied == s.calls[c].copy && p < |s.inners| && r == s.inners[p].content
    ensures copied || !r.Present? ==> Apply(s, step).inners == s.inners
    ensures !copied && r.Present? ==>
      Apply(s, step).inners == s.inners[p := s.inners[p].(content := MovedOut, taken := s.inners[p].taken + 1)]
  {
  }

  ghost predicate MovedBy(s: State, s': State, p: nat) {
    exists c, v :: Returns(s, s', c, p, false, Present(v))
  }

  /** A slot changes in no other way than by a store and by a move. */
  lemma SlotChanges(s: State, step: Step, p: nat)
    requires Enabled(s, step) && p < |s.inners| && p < |Apply(s, step).inners|
    requires Apply(s, step).inners[p].content != s.inners[p].content
    ensures || (step.Store? && Target(s, step.c) == p
                && Apply(s, step).inners[p].content == Present(s.calls[step.c].value))
            || (Apply(s, step).inners[p].content == MovedOut && MovedBy(s, Apply(s, step), p))
  {
    var s' := Apply(s, step);
    if step.Test? || step.Resume? {
      assert Returns(s, s', step.c, p, false, Present(s.inners[p].content.value));
    }
  }

  // ------------------------------------------------------------------- counting the moves

  function MoveOne(c: Call, p: nat): nat {
    if c.Got? && c.from == p && !c.copied && c.result.Present? then 1 else 0
  }

  /** How many gets without copy have returned a value from p. */
  function Moves(calls: seq<Call>, p: nat): nat {
    if calls == [] then 0 else Moves(calls[..|calls| - 1], p) + MoveOne(calls[|calls| - 1], p)
  }

  lemma {:induction false} MovesSet(calls: seq<Call>, c: nat, x: Call, p: nat)
    requires c < |calls|
    ensures Moves(calls[c := x], p) + MoveOne(calls[c], p) == Moves(calls, p) + MoveOne(x, p)
  {
    var n := |calls| - 1;
    if c < n {
      MovesSet(calls[..n], c, x, p);
      assert calls[c := x][..n] == calls[..n][c := x];
    } else {
      assert calls[c := x][..n] == calls[..n];
    }
  }

  lemma {:induction false} MovesSame(xs: seq<Call>, ys: seq<Call>, p: nat)
    requires |xs| == |ys| && forall i :: 0 <= i < |xs| ==> MoveOne(xs[i], p) == MoveOne(ys[i], p)
    ensures Moves(xs, p) == Moves(ys, p)
  {
    if xs != [] {
      MovesSame(xs[..|xs| - 1], ys[..|ys| - 1], p);
    }
  }

  lemma {:induction false} SomeMove(calls: seq<Call>, p: nat) returns (c: nat)
    requires Moves(calls, p) > 0
    ensures c < |calls| && MoveOne(calls[c], p) == 1
  {
    c := |calls| - 1;
    if MoveOne(calls[c], p) == 0 {
      c := SomeMove(calls[..c], p);
    }
  }

  predicate MovesOk(s: State) { forall p :: 0 <= p < |s.inners| ==> s.inners[p].taken == Moves(s.calls, p) }

  lemma NoMovesYet(s: State, p: nat)
    requires CallsGood(s, false) && p >= |s.inners|
    ensures Moves(s.calls, p) == 0
  {
    forall c | 0 <= c < |s.calls|
      ensures MoveOne(s.calls[c], p) == 0
    {
      assert CallGood(s, c, false);
    }
    if Moves(s.calls, p) > 0 {
      var c := SomeMove(s.calls, p);
      assert false;
    }
  }

  lemma HandleStepMoves(s: State, step: Step)
    requires Inv(s, false) && MovesOk(s) && Enabled(s, step) && !IsCallStep(step)
    ensures MovesOk(Apply(s, step))
  {
    HandleStepFrame(s, step);
    NoMovesYet(s, |s.inners|);
    var s' := Apply(s, step);
    forall p | 0 <= p < |s'.inners|
      ensures s'.inners[p].taken == Moves(s'.calls, p)
    {
      if p >= |s.inners| {
        NoMovesYet(s, p);
      }
    }
  }

  lemma StoreMoves(s: State, c: nat)
    requires MovesOk(s) && Enabled(s, Store(c))
    ensures MovesOk(Apply(s, Store(c)))
  {
    var s' := Apply(s, Store(c));
    forall p | 0 <= p < |s'.inners|
      ensures s'.inners[p].taken == Moves(s'.calls, p)
    {
      MovesSame(s.calls, s'.calls, p);
    }
  }

  lemma CallStepMoves(s: State, step: Step)
    requires MovesOk(s) && Enabled(s, step) && IsCallStep(step) && !step.Store?
    ensures MovesOk(Apply(s, step))
  {
    var s' := Apply(s, step);
    OneCallMoves(s, step);
    forall p | 0 <= p < |s'.inners|
      ensures s'.inners[p].taken == Moves(s'.calls, p)
    {
      if step.BeginSet? || step.BeginGet? {
        assert s'.calls[..|s'.calls| - 1] == s.calls;
      } else {
        MovesSet(s.calls, step.c, s'.calls[step.c], p);
      }
    }
  }

  lemma StepMoves(s: State, step: Step)
    requires Inv(s, false) && MovesOk(s) && Enabled(s, step)
    ensures MovesOk(Apply(s, step))
  {
    if !IsCallStep(step) {
      HandleStepMoves(s, step);
    } else if step.Store? {
      StoreMoves(s, step.c);
    } else {
      CallStepMoves(s, step);
    }
  }

  lemma NextMoves(s: State, s': State)
    requires Inv(s, false) && MovesOk(s) && Next(s, s')
    ensures Inv(s', false) && MovesOk(s')
  {
    var step :| IsStep(s, step, s');
    StepMoves(s, step);
    StepKeepsInv(s, step, false);
  }

  lemma {:induction false} RunMoves(run: seq<State>, k: nat)
    requires IsRun(run) && k < |run|
    ensures Inv(run[k], false) && MovesOk(run[k])
  {
    if k > 0 {
      RunMoves(run, k - 1);
      NextMoves(run[k - 1], run[k]);
    }
  }

  // --------------------------------------------------------------------- main results

  /** Over every run the values moved out of an object are exactly those that gets without
      copy returned. */
  lemma TakenIsMoves(run: seq<State>, k: nat, p: nat)
    requires IsRun(run) && k < |run| && p < |run[k].inners|
    ensures run[k].inners[p].taken == Moves(run[k].calls, p)
  {
    RunMoves(run, k);
  }

  /** Some get without copy has returned a value from p. */
  ghost predicate WasMoved(s: State, p: nat) {
    exists c :: 0 <= c < |s.calls| && MoveOne(s.calls[c], p) == 1
  }

  /** Where no get without copy has returned a value, the slot is not emptied and no get
      returns an emptied slot: copying alone never uses a value up. */
  lemma CopiesUseNothingUp(run: seq<State>, k: nat, p: nat)
    requires IsRun(run) && k < |run| && p < |run[k].inners| && !WasMoved(run[k], p)
    ensures run[k].inners[p].content != MovedOut
    ensures forall c :: 0 <= c < |run[k].calls| && run[k].calls[c].Got? && run[k].calls[c].from == p ==>
              run[k].calls[c].result != MovedOut
  {
    var s := run[k];
    RunMoves(run, k);
    if Moves(s.calls, p) > 0 {
      var c := SomeMove(s.calls, p);
      assert false;
    }
    assert SlotOk(s.inners[p]);
    forall c | 0 <= c < |s.calls| && s.calls[c].Got? && s.calls[c].from == p
      ensures s.calls[c].result != MovedOut
    {
      assert CallGood(s, c, false);
    }
  }
}
