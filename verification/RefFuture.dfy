/** MyFuture: handles sharing one reference-counted inner object with a value slot.

    Any number of handles, inner objects and calls, interleaved freely. A copy and a move
    are two steps each (read the pointer; then count or clear), a destruction is the
    decrement and then, at zero, the delete. The critical sections of set and get are one
    step each. As everywhere in C++, a handle must not be moved from or destroyed while it
    is being copied, moved from or called, and a moved-from handle is not called. */
module RefFuture {
  import opened Options

  type Value = string

  datatype Handle =
    | Live(ptr: Option<nat>)              // None: moved from
    | Copying(copied: nat, source: nat)   // has the pointer, the count is not yet raised
    | Taking(source: nat)                 // has the pointer, the source not yet cleared
    | Releasing(last: nat)                // has brought the count to zero
    | Gone

  datatype Content = Unset | Present(value: Value) | MovedOut

  /** `count`, `isSet` and `content` are the fields; `deletes`, `sets` and `taken` record
      how often the object was deleted, what was set, and how many values were moved out. */
  datatype Inner = Inner(count: int, isSet: bool, content: Content, deletes: nat, sets: seq<Value>, taken: nat)

  datatype Call =
    | Setting(handle: nat, value: Value)
    | Getting(handle: nat, copy: bool)
    | Asleep(handle: nat, copy: bool)
    | Woken(handle: nat, copy: bool)
    | Stored
    | Got(from: nat, copied: bool, result: Content)   // returned; how, is recorded

  datatype State = State(inners: seq<Inner>, handles: seq<Handle>, calls: seq<Call>)

  datatype Step =
    | Create | CopyRead(source: nat) | CopyCount(h: nat) | MoveRead(source: nat) | MoveClear(h: nat)
    | Drop(h: nat) | Delete(h: nat)
    | BeginSet(h: nat, value: Value) | Store(c: nat)
    | BeginGet(h: nat, copy: bool) | Test(c: nat) | Resume(c: nat)
    | SpuriousWake(c: nat)

  const Init := State([], [], [])

  const NewInner := Inner(1, false, Unset, 0, [], 0)

  // ------------------------------------------------------------------------ the steps

  predicate IsLive(s: State, h: nat) { h < |s.handles| && s.handles[h].Live? }

  predicate Active(c: Call) { c.Setting? || c.Getting? || c.Asleep? || c.Woken? }

  predicate Called(s: State, h: nat) {
    exists c :: 0 <= c < |s.calls| && Active(s.calls[c]) && s.calls[c].handle == h
  }

  predicate Copied(s: State, h: nat) {
    exists k :: 0 <= k < |s.handles| && s.handles[k].Copying? && s.handles[k].source == h
  }

  predicate Moved(s: State, h: nat) { exists k :: 0 <= k < |s.handles| && s.handles[k] == Taking(h) }

  /** The owner may move from or destroy the handle. */
  predicate Exclusive(s: State, h: nat) { IsLive(s, h) && !Called(s, h) && !Copied(s, h) && !Moved(s, h) }

  /** The handle points at an inner object and may be copied or called. */
  predicate Usable(s: State, h: nat) {
    && IsLive(s, h) && !Moved(s, h)
    && s.handles[h].ptr.Some? && s.handles[h].ptr.value < |s.inners|
  }

  predicate InCall(s: State, c: nat) {
    c < |s.calls| && Active(s.calls[c]) && Usable(s, s.calls[c].handle)
  }

  predicate Enabled(s: State, step: Step) {
    match step
    case Create => true
    case CopyRead(h) => Usable(s, h)
    case CopyCount(k) => k < |s.handles| && s.handles[k].Copying? && s.handles[k].copied < |s.inners|
    case MoveRead(h) => Exclusive(s, h)
    case MoveClear(k) => k < |s.handles| && s.handles[k].Taking? && IsLive(s, s.handles[k].source)
    case Drop(h) => Exclusive(s, h) && (s.handles[h].ptr.Some? ==> s.handles[h].ptr.value < |s.inners|)
    case Delete(h) => h < |s.handles| && s.handles[h].Releasing? && s.handles[h].last < |s.inners|
    case BeginSet(h, _) => Usable(s, h)
    case Store(c) => InCall(s, c) && s.calls[c].Setting?
    case BeginGet(h, _) => Usable(s, h)
    case Test(c) => InCall(s, c) && s.calls[c].Getting?
    case Resume(c) => InCall(s, c) && s.calls[c].Woken?
    case SpuriousWake(c) => InCall(s, c) && s.calls[c].Asleep?
  }

  function SetHandle(s: State, h: nat, x: Handle): State
    requires h < |s.handles|
  {
    s.(handles := s.handles[h := x])
  }

  function SetInner(s: State, p: nat, x: Inner): State
    requires p < |s.inners|
  {
    s.(inners := s.inners[p := x])
  }

  function SetCall(s: State, c: nat, x: Call): State
    requires c < |s.calls|
  {
    s.(calls := s.calls[c := x])
  }

  function AddHandle(s: State, x: Handle): State { s.(handles := s.handles + [x]) }

  function Target(s: State, c: nat): (p: nat)
    requires InCall(s, c)
    ensures p < |s.inners|
  {
    s.handles[s.calls[c].handle].ptr.value
  }

  predicate PointsAt(s: State, h: nat, p: nat) { h < |s.handles| && s.handles[h] == Live(Some(p)) }

  /** notify_all on the condition variable of inner object p. */
  function WakeAll(s: State, p: nat): State {
    s.(calls := seq(|s.calls|, c requires 0 <= c < |s.calls| =>
      var x := s.calls[c];
      if x.Asleep? && PointsAt(s, x.handle, p) then Woken(x.handle, x.copy) else x))
  }

  /** The end of get: the value is copied or moved out, whatever the slot holds. */
  function Fetch(s: State, c: nat): State
    requires InCall(s, c) && (s.calls[c].Getting? || s.calls[c].Woken?)
  {
    var p := Target(s, c);
    var x := s.inners[p];
    var s1 := SetCall(s, c, Got(p, s.calls[c].copy, x.content));
    if s.calls[c].copy || !x.content.Present? then s1
    else SetInner(s1, p, x.(content := MovedOut, taken := x.taken + 1))
  }

  function Apply(s: State, step: Step): State
    requires Enabled(s, step)
  {
    match step
    case Create => AddHandle(s, Live(Some(|s.inners|))).(inners := s.inners + [NewInner])
    case CopyRead(h) => AddHandle(s, Copying(s.handles[h].ptr.value, h))
    case CopyCount(k) =>
      var p := s.handles[k].copied;
      SetInner(SetHandle(s, k, Live(Some(p))), p, s.inners[p].(count := s.inners[p].count + 1))
    case MoveRead(h) => AddHandle(s, Taking(h))
    case MoveClear(k) =>
      var h := s.handles[k].source;
      SetHandle(SetHandle(s, k, s.handles[h]), h, Live(None))
    case Drop(h) =>
      if s.handles[h].ptr == None then SetHandle(s, h, Gone) else
        var p := s.handles[h].ptr.value;
        var x := s.inners[p].(count := s.inners[p].count - 1);
        SetInner(SetHandle(s, h, if x.count == 0 then Releasing(p) else Gone), p, x)
    case Delete(h) =>
      var p := s.handles[h].last;
      SetInner(SetHandle(s, h, Gone), p, s.inners[p].(deletes := s.inners[p].deletes + 1))
    case BeginSet(h, v) => s.(calls := s.calls + [Setting(h, v)])
    case Store(c) =>
      var p, v := Target(s, c), s.calls[c].value;
      var x := s.inners[p];
      WakeAll(SetInner(SetCall(s, c, Stored), p, x.(content := Present(v), isSet := true, sets := x.sets + [v])), p)
    case BeginGet(h, copy) => s.(calls := s.calls + [Getting(h, copy)])
    case Test(c) =>
      if s.inners[Target(s, c)].isSet then Fetch(s, c)
      else SetCall(s, c, Asleep(s.calls[c].handle, s.calls[c].copy))
    case Resume(c) => Fetch(s, c)
    case SpuriousWake(c) => SetCall(s, c, Woken(s.calls[c].handle, s.calls[c].copy))
  }

  predicate IsStep(s: State, step: Step, s': State) { Enabled(s, step) && s' == Apply(s, step) }

  ghost predicate Next(s: State, s': State) { exists step :: IsStep(s, step, s') }

  ghost predicate CalmNext(s: State, s': State) {
    exists step: Step :: !step.SpuriousWake? && IsStep(s, step, s')
  }

  ghost predicate IsRun(run: seq<State>) {
    && |run| > 0 && run[0] == Init
    && forall k :: 0 < k < |run| ==> Next(run[k - 1], run[k])
  }

  /** A run in which no wait ends spuriously. */
  ghost predicate IsCalmRun(run: seq<State>) {
    && |run| > 0 && run[0] == Init
    && forall k :: 0 < k < |run| ==> CalmNext(run[k - 1], run[k])
  }

  // ------------------------------------------------------------------------ ownership

  function Owners(s: State, p: nat): nat { multiset(s.handles)[Live(Some(p))] }

  function Releasers(s: State, p: nat): nat { multiset(s.handles)[Releasing(p)] }

  predicate InnerOk(s: State, p: nat)
    requires p < |s.inners|
  {
    var x := s.inners[p];
    x.count == Owners(s, p) && x.deletes + Releasers(s, p) == if Owners(s, p) == 0 then 1 else 0
  }

  predicate HandleOk(s: State, h: nat)
    requires h < |s.handles|
  {
    match s.handles[h]
    case Live(ptr) => ptr.Some? ==> ptr.value < |s.inners|
    case Copying(p, k) => p < |s.inners| && PointsAt(s, k, p) && !Moved(s, k)
    case Taking(k) =>
      && IsLive(s, k)
      && forall j :: 0 <= j < |s.handles| && s.handles[j] == Taking(k) ==> j == h
    case Releasing(p) => p < |s.inners|
    case Gone => true
  }

  predicate CallOk(s: State, c: nat)
    requires c < |s.calls|
  {
    Active(s.calls[c]) ==> Usable(s, s.calls[c].handle)
  }

  predicate HandlesOk(s: State) { forall h :: 0 <= h < |s.handles| ==> HandleOk(s, h) }

  predicate CallsOk(s: State) { forall c :: 0 <= c < |s.calls| ==> CallOk(s, c) }

  predicate InnersOk(s: State) { forall p :: 0 <= p < |s.inners| ==> InnerOk(s, p) }

  predicate Owned(s: State) { HandlesOk(s) && CallsOk(s) && InnersOk(s) }

  predicate IsCallStep(step: Step) {
    step.BeginSet? || step.Store? || step.BeginGet? || step.Test? || step.Resume? || step.SpuriousWake?
  }

  /** A call step leaves handles, counts and deletions alone, and calls usable handles. */
  lemma CallStepFrame(s: State, step: Step)
    requires CallsOk(s) && Enabled(s, step) && IsCallStep(step)
    ensures var s' := Apply(s, step);
            && s'.handles == s.handles && |s'.inners| == |s.inners|
            && (forall p :: 0 <= p < |s.inners| ==>
                  s'.inners[p].count == s.inners[p].count && s'.inners[p].deletes == s.inners[p].deletes)
            && forall c :: 0 <= c < |s'.calls| && Active(s'.calls[c]) ==> Usable(s, s'.calls[c].handle)
  {
    var s' := Apply(s, step);
    forall c | 0 <= c < |s'.calls| && Active(s'.calls[c])
      ensures Usable(s, s'.calls[c].handle)
    {
      assert c < |s.calls| ==> CallOk(s, c);
    }
  }

  lemma CallStepOwned(s: State, step: Step)
    requires Owned(s) && Enabled(s, step) && IsCallStep(step)
    ensures Owned(Apply(s, step))
  {
    CallStepFrame(s, step);
    var s' := Apply(s, step);
    forall h | 0 <= h < |s'.handles|
      ensures HandleOk(s', h)
    {
      assert HandleOk(s, h);
      assert forall k :: Moved(s', k) <==> Moved(s, k);
    }
    forall p | 0 <= p < |s'.inners|
      ensures InnerOk(s', p)
    {
      assert InnerOk(s, p);
    }
    forall c | 0 <= c < |s'.calls|
      ensures CallOk(s', c)
    {
      if Active(s'.calls[c]) {
        assert Usable(s, s'.calls[c].handle);
      }
    }
  }

  /** Growing a state by a handle that moves from none of the handles in use. */
  lemma AddOwned(s: State, x: Handle)
    requires HandlesOk(s) && CallsOk(s)
    requires match x
             case Live(ptr) => ptr.Some? ==> ptr.value < |s.inners|
             case Copying(p, k) => Usable(s, k) && s.handles[k].ptr == Some(p)
             case Taking(k) => Exclusive(s, k)
             case _ => false
    ensures HandlesOk(AddHandle(s, x)) && CallsOk(AddHandle(s, x))
  {
    var s' := AddHandle(s, x);
    forall k | Moved(s', k)
      ensures Moved(s, k) || x == Taking(k)
    {
      var j :| 0 <= j < |s'.handles| && s'.handles[j] == Taking(k);
      assert j < |s.handles| ==> s.handles[j] == Taking(k);
    }
    forall h | 0 <= h < |s'.handles|
      ensures HandleOk(s', h)
    {
      if h < |s.handles| {
        assert HandleOk(s, h);
      }
    }
    forall c | 0 <= c < |s'.calls|
      ensures CallOk(s', c)
    {
      assert CallOk(s, c);
    }
  }

  lemma AddCounts(s: State, x: Handle, p: nat)
    ensures Owners(AddHandle(s, x), p) == Owners(s, p) + if x == Live(Some(p)) then 1 else 0
    ensures Releasers(AddHandle(s, x), p) == Releasers(s, p) + if x == Releasing(p) then 1 else 0
  {
  }

  lemma SetCounts(s: State, h: nat, x: Handle, p: nat)
    requires h < |s.handles|
    ensures Owners(SetHandle(s, h, x), p)
         == Owners(s, p) - (if s.handles[h] == Live(Some(p)) then 1 else 0) + if x == Live(Some(p)) then 1 else 0
    ensures Releasers(SetHandle(s, h, x), p)
         == Releasers(s, p) - (if s.handles[h] == Releasing(p) then 1 else 0) + if x == Releasing(p) then 1 else 0
  {
    assert s.handles[h] in multiset(s.handles);
  }

  lemma CopyReadOwned(s: State, h: nat)
    requires Owned(s) && Usable(s, h)
    ensures Owned(Apply(s, CopyRead(h)))
  {
    var x := Copying(s.handles[h].ptr.value, h);
    AddOwned(s, x);
    forall p | 0 <= p < |s.inners|
      ensures InnerOk(AddHandle(s, x), p)
    {
      AddCounts(s, x, p);
      assert InnerOk(s, p);
    }
  }

  lemma MoveReadOwned(s: State, h: nat)
    requires Owned(s) && Exclusive(s, h)
    ensures Owned(Apply(s, MoveRead(h)))
  {
    AddOwned(s, Taking(h));
    forall p | 0 <= p < |s.inners|
      ensures InnerOk(AddHandle(s, Taking(h)), p)
    {
      AddCounts(s, Taking(h), p);
      assert InnerOk(s, p);
    }
  }

  lemma NoneAbove(s: State)
    requires HandlesOk(s)
    ensures Owners(s, |s.inners|) == 0 && Releasers(s, |s.inners|) == 0
  {
    var p := |s.inners|;
    forall h | 0 <= h < |s.handles|
      ensures s.handles[h] != Live(Some(p)) && s.handles[h] != Releasing(p)
    {
      assert HandleOk(s, h);
    }
    assert Live(Some(p)) !in s.handles && Releasing(p) !in s.handles;
  }

  lemma MoreInners(s: State, x: Inner)
    requires HandlesOk(s) && CallsOk(s)
    ensures HandlesOk(s.(inners := s.inners + [x])) && CallsOk(s.(inners := s.inners + [x]))
  {
    var s' := s.(inners := s.inners + [x]);
    assert forall k :: Moved(s', k) <==> Moved(s, k);
    forall h | 0 <= h < |s'.handles|
      ensures HandleOk(s', h)
    {
      assert HandleOk(s, h);
    }
    forall c | 0 <= c < |s'.calls|
      ensures CallOk(s', c)
    {
      assert CallOk(s, c);
    }
  }

  lemma CreateOwned(s: State)
    requires Owned(s)
    ensures Owned(Apply(s, Create))
  {
    var s1 := s.(inners := s.inners + [NewInner]);
    MoreInners(s, NewInner);
    var x := Live(Some(|s.inners|));
    AddOwned(s1, x);
    var s' := Apply(s, Create);
    assert s' == AddHandle(s1, x);
    NoneAbove(s);
    forall p | 0 <= p < |s'.inners|
      ensures InnerOk(s', p)
    {
      AddCounts(s1, x, p);
      assert p < |s.inners| ==> InnerOk(s, p);
    }
  }

  /** A handle that neither copies nor moves from another may change, if nobody uses it. */
  lemma ReplaceOwned(s: State, h: nat, x: Handle)
    requires HandlesOk(s) && CallsOk(s) && h < |s.handles|
    requires x.Gone? || (x.Live? && x.ptr.Some? && x.ptr.value < |s.inners|) || (x.Releasing? && x.last < |s.inners|)
    requires s.handles[h].Live? ==> Exclusive(s, h)
    requires !s.handles[h].Taking?
    ensures HandlesOk(SetHandle(s, h, x)) && CallsOk(SetHandle(s, h, x))
  {
    var s' := SetHandle(s, h, x);
    forall k | Moved(s', k)
      ensures Moved(s, k)
    {
      var j :| 0 <= j < |s'.handles| && s'.handles[j] == Taking(k);
      assert s.handles[j] == Taking(k);
    }
    forall j | 0 <= j < |s'.handles|
      ensures HandleOk(s', j)
    {
      assert HandleOk(s, j);
      if j != h && (s.handles[j].Copying? || s.handles[j].Taking?) {
        assert s.handles[j].source != h;
      }
    }
    forall c | 0 <= c < |s'.calls|
      ensures CallOk(s', c)
    {
      assert CallOk(s, c);
    }
  }

  /** Changing one inner object matters only for itself. */
  lemma InnerChanged(s: State, q: nat, x: Inner)
    requires HandlesOk(s) && CallsOk(s) && q < |s.inners|
    requires forall p :: 0 <= p < |s.inners| && p != q ==> InnerOk(s, p)
    requires x.count == Owners(s, q) && x.deletes + Releasers(s, q) == if Owners(s, q) == 0 then 1 else 0
    ensures Owned(SetInner(s, q, x))
  {
    var s' := SetInner(s, q, x);
    assert forall k :: Moved(s', k) <==> Moved(s, k);
    forall h | 0 <= h < |s'.handles|
      ensures HandleOk(s', h)
    {
      assert HandleOk(s, h);
    }
    forall c | 0 <= c < |s'.calls|
      ensures CallOk(s', c)
    {
      assert CallOk(s, c);
    }
    forall p | 0 <= p < |s'.inners|
      ensures InnerOk(s', p)
    {
      assert p != q ==> InnerOk(s, p);
    }
  }

  lemma CopyCountOwned(s: State, k: nat)
    requires Owned(s) && Enabled(s, CopyCount(k))
    ensures Owned(Apply(s, CopyCount(k)))
  {
    var q := s.handles[k].copied;
    var x := Live(Some(q));
    assert HandleOk(s, k);
    ReplaceOwned(s, k, x);
    var s1 := SetHandle(s, k, x);
    forall p | 0 <= p < |s.inners|
      ensures Owners(s1, p) == Owners(s, p) + (if p == q then 1 else 0) && Releasers(s1, p) == Releasers(s, p)
      ensures p != q ==> InnerOk(s1, p)
    {
      SetCounts(s, k, x, p);
      assert InnerOk(s, p);
    }
    assert s.handles[s.handles[k].source] in multiset(s.handles);
    assert InnerOk(s, q);
    InnerChanged(s1, q, s.inners[q].(count := s.inners[q].count + 1));
  }

  lemma DropOwned(s: State, h: nat)
    requires Owned(s) && Enabled(s, Drop(h)) && s.handles[h].ptr.Some?
    ensures Owned(Apply(s, Drop(h)))
  {
    var q := s.handles[h].ptr.value;
    var y := s.inners[q].(count := s.inners[q].count - 1);
    var x := if y.count == 0 then Releasing(q) else Gone;
    ReplaceOwned(s, h, x);
    var s1 := SetHandle(s, h, x);
    forall p | 0 <= p < |s.inners|
      ensures Owners(s1, p) == Owners(s, p) - (if p == q then 1 else 0)
      ensures Releasers(s1, p) == Releasers(s, p) + (if p == q && y.count == 0 then 1 else 0)
      ensures p != q ==> InnerOk(s1, p)
    {
      SetCounts(s, h, x, p);
      assert InnerOk(s, p);
    }
    assert InnerOk(s, q);
    InnerChanged(s1, q, y);
  }

  lemma DropEmptyOwned(s: State, h: nat)
    requires Owned(s) && Enabled(s, Drop(h)) && s.handles[h].ptr == None
    ensures Owned(Apply(s, Drop(h)))
  {
    ReplaceOwned(s, h, Gone);
    forall p | 0 <= p < |s.inners|
      ensures InnerOk(SetHandle(s, h, Gone), p)
    {
      SetCounts(s, h, Gone, p);
      assert InnerOk(s, p);
    }
  }

  lemma DeleteOwned(s: State, h: nat)
    requires Owned(s) && Enabled(s, Delete(h))
    ensures Owned(Apply(s, Delete(h)))
  {
    var q := s.handles[h].last;
    ReplaceOwned(s, h, Gone);
    var s1 := SetHandle(s, h, Gone);
    forall p | 0 <= p < |s.inners|
      ensures Owners(s1, p) == Owners(s, p)
      ensures Releasers(s1, p) == Releasers(s, p) - (if p == q then 1 else 0)
      ensures p != q ==> InnerOk(s1, p)
    {
      SetCounts(s, h, Gone, p);
      assert InnerOk(s, p);
    }
    assert InnerOk(s, q);
    InnerChanged(s1, q, s.inners[q].(deletes := s.inners[q].deletes + 1));
  }

  lemma MoveClearHandles(s: State, k: nat)
    requires HandlesOk(s) && CallsOk(s) && Enabled(s, MoveClear(k))
    ensures HandlesOk(Apply(s, MoveClear(k))) && CallsOk(Apply(s, MoveClear(k)))
  {
    var s' := Apply(s, MoveClear(k));
    var h := s.handles[k].source;
    assert Moved(s, h) && HandleOk(s, k) && HandleOk(s, h);
    forall i | Moved(s', i)
      ensures Moved(s, i)
    {
      var j :| 0 <= j < |s'.handles| && s'.handles[j] == Taking(i);
      assert s.handles[j] == Taking(i);
    }
    forall j | 0 <= j < |s'.handles|
      ensures HandleOk(s', j)
    {
      assert HandleOk(s, j);
    }
    forall c | 0 <= c < |s'.calls|
      ensures CallOk(s', c)
    {
      assert CallOk(s, c);
    }
  }

  lemma MoveClearOwned(s: State, k: nat)
    requires Owned(s) && Enabled(s, MoveClear(k))
    ensures Owned(Apply(s, MoveClear(k)))
  {
    MoveClearHandles(s, k);
    var h := s.handles[k].source;
    var s1 := SetHandle(s, k, s.handles[h]);
    forall p | 0 <= p < |s.inners|
      ensures InnerOk(Apply(s, MoveClear(k)), p)
    {
      SetCounts(s, k, s.handles[h], p);
      SetCounts(s1, h, Live(None), p);
      assert InnerOk(s, p);
    }
  }

  lemma StepOwned(s: State, step: Step)
    requires Owned(s) && Enabled(s, step)
    ensures Owned(Apply(s, step))
  {
    match step
    case Create => CreateOwned(s);
    case CopyRead(h) => CopyReadOwned(s, h);
    case CopyCount(h) => CopyCountOwned(s, h);
    case MoveRead(h) => MoveReadOwned(s, h);
    case MoveClear(h) => MoveClearOwned(s, h);
    case Drop(h) => if s.handles[h].ptr.Some? { DropOwned(s, h); } else { DropEmptyOwned(s, h); }
    case Delete(h) => DeleteOwned(s, h);
    case _ => CallStepOwned(s, step);
  }

  lemma {:induction false} RunOwned(run: seq<State>, k: nat)
    requires IsRun(run) && k < |run|
    ensures Owned(run[k])
  {
    if k > 0 {
      RunOwned(run, k - 1);
      var step :| IsStep(run[k - 1], step, run[k]);
      StepOwned(run[k - 1], step);
    }
  }

  // --------------------------------------------------------------------- main results

  /** The inner object a step reads or writes. */
  function Touched(s: State, step: Step): Option<nat>
    requires Enabled(s, step)
  {
    match step
    case CopyCount(k) => Some(s.handles[k].copied)
    case Drop(h) => s.handles[h].ptr
    case Delete(h) => Some(s.handles[h].last)
    case Store(c) => Some(Target(s, c))
    case Test(c) => Some(Target(s, c))
    case Resume(c) => Some(Target(s, c))
    case SpuriousWake(c) => Some(Target(s, c))
    case _ => None
  }

  /** In every interleaving the count is the number of handles pointing at the object, the
      object is deleted at most once, and no handle points at a deleted one. */
  lemma CountIsOwners(run: seq<State>, k: nat, p: nat)
    requires IsRun(run) && k < |run| && p < |run[k].inners|
    ensures run[k].inners[p].count == Owners(run[k], p)
    ensures run[k].inners[p].deletes <= 1
    ensures forall h: nat :: PointsAt(run[k], h, p) ==> run[k].inners[p].deletes == 0
  {
    RunOwned(run, k);
    assert InnerOk(run[k], p);
    forall h: nat | PointsAt(run[k], h, p)
      ensures run[k].inners[p].deletes == 0
    {
      assert run[k].handles[h] in multiset(run[k].handles);
    }
  }

  /** No step touches a deleted object. */
  lemma NoUseAfterFree(run: seq<State>, k: nat, step: Step)
    requires IsRun(run) && k < |run| && Enabled(run[k], step) && Touched(run[k], step).Some?
    ensures var p := Touched(run[k], step).value;
            p < |run[k].inners| && run[k].inners[p].deletes == 0
  {
    var s, p := run[k], Touched(run[k], step).value;
    RunOwned(run, k);
    assert InnerOk(s, p);
    if step.CopyCount? {
      assert HandleOk(s, step.h);
      assert s.handles[s.handles[step.h].source] in multiset(s.handles);
    } else if step.Drop? || step.Delete? {
      assert s.handles[step.h] in multiset(s.handles);
    } else {
      assert s.handles[s.calls[step.c].handle] in multiset(s.handles);
    }
  }

  /** Nothing is left of any handle but emptied ones. */
  predicate AllDestroyed(s: State) {
    forall h :: 0 <= h < |s.handles| ==> s.handles[h] == Gone || s.handles[h] == Live(None)
  }

  /** No leak: when the handles are gone every inner object has been deleted, once. */
  lemma DeletedExactlyOnce(run: seq<State>, k: nat, p: nat)
    requires IsRun(run) && k < |run| && p < |run[k].inners| && AllDestroyed(run[k])
    ensures run[k].inners[p].deletes == 1
  {
    var s := run[k];
    RunOwned(run, k);
    assert InnerOk(s, p);
    assert Live(Some(p)) !in s.handles && Releasing(p) !in s.handles;
  }
}
