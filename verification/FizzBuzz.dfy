/** The four-thread FizzBuzz monitor: one mutex, one condition variable, one counter. Each
    role waits for its guard, prints, increments, notifies all and leaves once the counter
    is above n. Waits may also end spuriously. */
module FizzBuzz {

  // ---------------------------------------------------------------------- the guards

  predicate Is3x(x: int) { x % 3 == 0 }
  predicate Is5x(x: int) { x % 5 == 0 }
  predicate Is15x(x: int) { x % 15 == 0 }
  predicate IsSimple(x: int) { !(Is3x(x) || Is5x(x)) }

  datatype Role = Fizz | Buzz | FizzBuzz | Number

  predicate Guard(r: Role, x: int) {
    match r
    case Fizz => !Is15x(x) && Is3x(x)
    case Buzz => !Is15x(x) && Is5x(x)
    case FizzBuzz => Is15x(x)
    case Number => IsSimple(x)
  }

  datatype Output = Word(text: string) | Numeral(x: int)

  function Printed(r: Role, x: int): Output {
    match r
    case Fizz => Word("Fizz")
    case Buzz => Word("Buzz")
    case FizzBuzz => Word("FizzBuzz")
    case Number => Numeral(x)
  }

  /** The rules of the game: "Fizz" for 3, "Buzz" for 5, joined for both. */
  function Expected(x: int): Output {
    var w := (if x % 3 == 0 then "Fizz" else "") + (if x % 5 == 0 then "Buzz" else "");
    if w == "" then Numeral(x) else Word(w)
  }

  function ExpectedUpTo(k: nat): (r: seq<Output>)
    ensures |r| == k
  {
    seq(k, i => Expected(i + 1))
  }

  /** The role whose turn it is. */
  function RoleOf(x: int): (r: Role)
    ensures Guard(r, x)
  {
    if Is15x(x) then FizzBuzz else if Is3x(x) then Fizz else if Is5x(x) then Buzz else Number
  }

  /** Exactly one guard holds for every counter value, and its role prints what is due. */
  lemma ExactlyOneGuard(r: Role, x: int)
    ensures Guard(r, x) <==> r == RoleOf(x)
    ensures Guard(r, x) ==> Printed(r, x) == Expected(x)
  {
    Fifteen(x);
    var fizz: string, buzz: string := "Fizz", "Buzz";
    assert fizz + buzz == "FizzBuzz" && fizz + "" == fizz && "" + buzz == buzz;
    assert fizz[0] == 'F' && buzz[0] == 'B';
  }

  lemma Fifteen(x: int)
    ensures Is15x(x) <==> Is3x(x) && Is5x(x)
  {
  }

  // --------------------------------------------------------------------- the protocol

  datatype Pc =
    | Ready               // wants the mutex: at the top of the loop or after a wait
    | Testing             // holds it and is about to evaluate its guard
    | Asleep
    | Printing            // holds it, the guard was true
    | Incrementing        // has printed
    | Notifying(goOn: bool)
    | Unlocking(goOn: bool)
    | Done

  datatype Threads = Threads(fizz: Pc, buzz: Pc, fizzbuzz: Pc, number: Pc) {
    function At(r: Role): Pc {
      match r
      case Fizz => fizz
      case Buzz => buzz
      case FizzBuzz => fizzbuzz
      case Number => number
    }

    function With(r: Role, p: Pc): (t: Threads)
      ensures forall q :: t.At(q) == if q == r then p else At(q)
    {
      match r
      case Fizz => this.(fizz := p)
      case Buzz => this.(buzz := p)
      case FizzBuzz => this.(fizzbuzz := p)
      case Number => this.(number := p)
    }

    function Roused(): (t: Threads)
      ensures forall q :: t.At(q) == Rouse(At(q))
    {
      Threads(Rouse(fizz), Rouse(buzz), Rouse(fizzbuzz), Rouse(number))
    }
  }

  function Rouse(p: Pc): Pc { if p == Asleep then Ready else p }

  datatype Owner = Free | By(role: Role)

  datatype State = State(threads: Threads, owner: Owner, current: int, log: seq<Output>)

  datatype Action = Lock | Test | Print | Increment | NotifyAll | Unlock | SpuriousWake

  const Init := State(Threads(Ready, Ready, Ready, Ready), Free, 1, [])

  predicate Enabled(s: State, r: Role, a: Action) {
    var p := s.threads.At(r);
    match a
    case Lock => p == Ready && s.owner == Free
    case Test => p == Testing
    case Print => p == Printing
    case Increment => p == Incrementing
    case NotifyAll => p.Notifying?
    case Unlock => p.Unlocking?
    case SpuriousWake => p == Asleep
  }

  function Go(s: State, r: Role, p: Pc): State { s.(threads := s.threads.With(r, p)) }

  function Apply(n: int, s: State, r: Role, a: Action): State
    requires Enabled(s, r, a)
  {
    match a
    case Lock => Go(s, r, Testing).(owner := By(r))
    case Test => if Guard(r, s.current) then Go(s, r, Printing) else Go(s, r, Asleep).(owner := Free)
    case Print => Go(s, r, Incrementing).(log := s.log + [Printed(r, s.current)])
    case Increment => Go(s, r, Notifying(!(s.current + 1 > n))).(current := s.current + 1)
    case NotifyAll =>
      var s1 := Go(s, r, Unlocking(s.threads.At(r).goOn));
      s1.(threads := s1.threads.Roused())
    case Unlock => Go(s, r, if s.threads.At(r).goOn then Ready else Done).(owner := Free)
    case SpuriousWake => Go(s, r, Ready)
  }

  predicate IsStep(n: int, s: State, r: Role, a: Action, s': State) {
    Enabled(s, r, a) && s' == Apply(n, s, r, a)
  }

  ghost predicate Next(n: int, s: State, s': State) { exists r, a :: IsStep(n, s, r, a, s') }

  ghost predicate Working(n: int, s: State, s': State) {
    exists r, a :: a != SpuriousWake && IsStep(n, s, r, a, s')
  }

  ghost predicate IsRun(n: int, run: seq<State>) {
    && |run| > 0 && run[0] == Init
    && forall k :: 0 < k < |run| ==> Next(n, run[k - 1], run[k])
  }

  // ------------------------------------------------------------------- where it stops

  /** The first value whose printer is certain to leave. */
  function Limit(n: int): (l: int)
    ensures l >= 1 && l >= n
  {
    if n > 1 then n else 1
  }

  /** Some value from `l` up to before `x` belongs to `r`. */
  predicate Served(l: int, x: int, r: Role) { exists v | l <= v < x :: RoleOf(v) == r }

  /** The values from `l` up to before `x` belong to different roles. */
  predicate Distinct(l: int, x: int) {
    forall u, v | l <= u < v < x :: RoleOf(u) != RoleOf(v)
  }

  /** The first value above Limit(n) whose role has already served since Limit(n). */
  function Stop(n: int): (x: int)
    ensures Limit(n) < x
  {
    var l := Limit(n);
    if RoleOf(l + 1) == RoleOf(l) then l + 1
    else if RoleOf(l + 2) == RoleOf(l) || RoleOf(l + 2) == RoleOf(l + 1) then l + 2
    else l + 3
  }

  /** No four consecutive integers need four different roles. */
  lemma FourConsecutive(l: int)
    requires RoleOf(l + 1) != RoleOf(l)
    requires RoleOf(l + 2) != RoleOf(l) && RoleOf(l + 2) != RoleOf(l + 1)
    ensures RoleOf(l + 3) == RoleOf(l) || RoleOf(l + 3) == RoleOf(l + 1) || RoleOf(l + 3) == RoleOf(l + 2)
  {
    RoleRepeats(l, 0);
    RoleRepeats(l, 1);
    RoleRepeats(l, 2);
    RoleRepeats(l, 3);
  }

  lemma RoleRepeats(l: int, k: int)
    ensures RoleOf(l + k) == RoleOf(l % 15 + k)
  {
    assert l == 15 * (l / 15) + l % 15;
    Shift(l / 15, l % 15 + k);
  }

  lemma Shift(q: int, y: int)
    ensures (15 * q + y) % 3 == y % 3 && (15 * q + y) % 5 == y % 5 && (15 * q + y) % 15 == y % 15
  {
    Remainder3(15 * q + y, 5 * q + y / 3, y % 3);
    Remainder5(15 * q + y, 3 * q + y / 5, y % 5);
    Remainder15(15 * q + y, q + y / 15, y % 15);
  }

  lemma Remainder3(x: int, q: int, r: int)
    requires x == 3 * q + r && 0 <= r < 3
    ensures x % 3 == r
  {
  }

  lemma Remainder5(x: int, q: int, r: int)
    requires x == 5 * q + r && 0 <= r < 5
    ensures x % 5 == r
  {
  }

  lemma Remainder15(x: int, q: int, r: int)
    requires x == 15 * q + r && 0 <= r < 15
    ensures x % 15 == r
  {
  }

  lemma StopIsFirstRepeat(n: int)
    ensures Limit(n) < Stop(n) <= Limit(n) + 3
    ensures Served(Limit(n), Stop(n), RoleOf(Stop(n)))
    ensures Distinct(Limit(n), Stop(n))
  {
    var l := Limit(n);
    if Stop(n) == l + 3 {
      FourConsecutive(l);
    }
  }

  // -------------------------------------------------------------------- the invariant

  predicate Holds(p: Pc) { p.Testing? || p.Printing? || p.Incrementing? || p.Notifying? || p.Unlocking? }

  predicate Leaving(p: Pc) { p == Notifying(false) || p == Unlocking(false) || p == Done }

  predicate MutexInv(s: State) {
    forall r {:trigger s.threads.At(r)} :: Holds(s.threads.At(r)) <==> s.owner == By(r)
  }

  predicate TurnInv(s: State) {
    forall r {:trigger s.threads.At(r)} ::
      && (s.threads.At(r).Printing? || s.threads.At(r).Incrementing? ==> r == RoleOf(s.current))
      && (s.threads.At(r) == Asleep && r == RoleOf(s.current) ==>
            s.owner.By? && s.threads.At(s.owner.role).Notifying?)
  }

  predicate HasPrinted(s: State) { s.owner.By? && s.threads.At(s.owner.role) == Incrementing }

  predicate LogInv(s: State) {
    && s.current >= 1
    && s.log == ExpectedUpTo(if HasPrinted(s) then s.current else s.current - 1)
  }

  predicate LeavingInv(n: int, s: State) {
    && Distinct(Limit(n), s.current)
    && forall r {:trigger s.threads.At(r)} :: Leaving(s.threads.At(r)) <==> Served(Limit(n), s.current, r)
  }

  predicate Inv(n: int, s: State) { MutexInv(s) && TurnInv(s) && LogInv(s) && LeavingInv(n, s) }

  lemma StepMutexTurn(n: int, s: State, r: Role, a: Action)
    requires MutexInv(s) && TurnInv(s) && Enabled(s, r, a)
    ensures MutexInv(Apply(n, s, r, a))
    ensures TurnInv(Apply(n, s, r, a))
  {
    ExactlyOneGuard(r, s.current);
  }

  lemma StepLog(n: int, s: State, r: Role, a: Action)
    requires MutexInv(s) && TurnInv(s) && LogInv(s) && Enabled(s, r, a)
    ensures LogInv(Apply(n, s, r, a))
  {
    if a == Print {
      LogGrows(r, s.current);
      assert s.owner == By(r);
    } else {
      SameLog(n, s, r, a);
    }
  }

  /** Printing in turn makes the sequence one longer. */
  lemma LogGrows(r: Role, x: nat)
    requires x >= 1 && (r == RoleOf(x) || Guard(r, x))
    ensures ExpectedUpTo(x - 1) + [Printed(r, x)] == ExpectedUpTo(x)
  {
    ExactlyOneGuard(r, x);
  }

  lemma SameLog(n: int, s: State, r: Role, a: Action)
    requires MutexInv(s) && Enabled(s, r, a) && a != Print
    ensures var s' := Apply(n, s, r, a);
            && s'.log == s.log
            && s'.current == s.current + (if a == Increment then 1 else 0)
            && HasPrinted(s) == (HasPrinted(s') || a == Increment)
            && (HasPrinted(s') ==> a != Increment)
  {
    assert s.owner.By? ==> Holds(s.threads.At(s.owner.role));
  }

  lemma StepLeaving(n: int, s: State, r: Role, a: Action)
    requires MutexInv(s) && TurnInv(s) && s.current >= 1 && LeavingInv(n, s) && Enabled(s, r, a)
    ensures LeavingInv(n, Apply(n, s, r, a))
  {
    if a == Increment {
      IncrementLeaving(n, s, r);
    } else {
      SameLeaving(n, s, r, a);
    }
  }

  lemma SameLeaving(n: int, s: State, r: Role, a: Action)
    requires Enabled(s, r, a) && a != Increment
    ensures Apply(n, s, r, a).current == s.current
    ensures forall q :: Leaving(Apply(n, s, r, a).threads.At(q)) <==> Leaving(s.threads.At(q))
  {
  }

  lemma IncrementLeaving(n: int, s: State, r: Role)
    requires TurnInv(s) && s.current >= 1 && LeavingInv(n, s) && s.threads.At(r) == Incrementing
    ensures LeavingInv(n, Apply(n, s, r, Increment))
  {
    assert r == RoleOf(s.current) && !Served(Limit(n), s.current, r);
    ServedGrows(n, s.current);
    DistinctGrows(Limit(n), s.current);
    var s' := Apply(n, s, r, Increment);
    forall q
      ensures Leaving(s'.threads.At(q)) <==> Served(Limit(n), s'.current, q)
    {
      assert q != r ==> s'.threads.At(q) == s.threads.At(q);
    }
  }

  lemma DistinctGrows(l: int, x: int)
    requires Distinct(l, x) && !Served(l, x, RoleOf(x))
    ensures Distinct(l, x + 1)
  {
  }

  lemma ServedGrows(n: int, x: int)
    ensures forall q :: Served(Limit(n), x + 1, q) <==> Served(Limit(n), x, q) || (x >= Limit(n) && q == RoleOf(x))
    ensures x < Limit(n) ==> forall q :: !Served(Limit(n), x, q)
  {
  }

  lemma StepKeepsInv(n: int, s: State, r: Role, a: Action)
    requires Inv(n, s) && Enabled(s, r, a)
    ensures Inv(n, Apply(n, s, r, a))
  {
    StepMutexTurn(n, s, r, a);
    StepLog(n, s, r, a);
    StepLeaving(n, s, r, a);
  }

  lemma NextKeepsInv(n: int, s: State, s': State)
    requires Inv(n, s) && Next(n, s, s')
    ensures Inv(n, s')
  {
    var r, a :| IsStep(n, s, r, a, s');
    StepKeepsInv(n, s, r, a);
  }

  lemma {:induction false} RunKeepsInv(n: int, run: seq<State>, k: nat)
    requires IsRun(n, run) && k < |run|
    ensures Inv(n, run[k])
  {
    if k > 0 {
      RunKeepsInv(n, run, k - 1);
      NextKeepsInv(n, run[k - 1], run[k]);
    }
  }

  // --------------------------------------------------------------------- main results

  lemma CurrentBound(n: int, s: State)
    requires LeavingInv(n, s)
    ensures s.current <= Stop(n)
  {
    StopIsFirstRepeat(n);
  }

  /** Safety, in every interleaving: the log is the FizzBuzz sequence up to the counter, at
      most one role is past its guard, and the counter stays within Limit(n) + 3. */
  lemma SafeAndBounded(n: int, run: seq<State>, k: nat)
    requires IsRun(n, run) && k < |run|
    ensures run[k].log == ExpectedUpTo(|run[k].log|)
    ensures |run[k].log| == run[k].current - 1
         || (|run[k].log| == run[k].current && HasPrinted(run[k]))
    ensures run[k].current <= Stop(n) <= Limit(n) + 3
  {
    RunKeepsInv(n, run, k);
    CurrentBound(n, run[k]);
    StopIsFirstRepeat(n);
  }

  /** Some role never leaves: the four joins never all return. */
  lemma NotAllLeave(n: int, run: seq<State>, k: nat)
    requires IsRun(n, run) && k < |run|
    ensures exists r :: !Leaving(run[k].threads.At(r))
  {
    var s, l := run[k], Limit(n);
    RunKeepsInv(n, run, k);
    CurrentBound(n, s);
    StopIsFirstRepeat(n);
    var u, v, w := RoleOf(l), RoleOf(l + 1), RoleOf(l + 2);
    var r :| r in {Fizz, Buzz, FizzBuzz, Number} && r != u && r != v && r != w;
    assert !Served(l, s.current, r);
    assert !Leaving(s.threads.At(r));
  }

  ghost predicate Stuck(n: int, s: State) { forall s' :: !Working(n, s, s') }

  /** Every role sleeps or has left. */
  predicate AtRest(s: State) { forall r :: s.threads.At(r) == Asleep || s.threads.At(r) == Done }

  lemma CanWork(n: int, s: State) returns (r: Role, a: Action)
    requires Inv(n, s) && !AtRest(s)
    ensures a != SpuriousWake && Enabled(s, r, a)
  {
    if s.owner.By? {
      r := s.owner.role;
      var p := s.threads.At(r);
      a := match p
        case Testing => Test
        case Printing => Print
        case Incrementing => Increment
        case Notifying(_) => NotifyAll
        case _ => Unlock;
    } else {
      r :| s.threads.At(r) != Asleep && s.threads.At(r) != Done;
      a := Lock;
    }
  }

  /** No deadlock before the end: a run rests exactly at the counter Stop(n), having
      printed everything below it. */
  lemma RestsAtStop(n: int, run: seq<State>)
    requires IsRun(n, run)
    requires Stuck(n, run[|run| - 1])
    ensures AtRest(run[|run| - 1])
    ensures run[|run| - 1].current == Stop(n)
    ensures run[|run| - 1].log == ExpectedUpTo(Stop(n) - 1)
  {
    var s := run[|run| - 1];
    RunKeepsInv(n, run, |run| - 1);
    if !AtRest(s) {
      var r, a := CanWork(n, s);
      assert IsStep(n, s, r, a, Apply(n, s, r, a));
      assert Working(n, s, Apply(n, s, r, a));
      assert false;
    }
    RestIsStop(n, s);
  }

  lemma RestIsStop(n: int, s: State)
    requires Inv(n, s) && AtRest(s)
    ensures s.current == Stop(n) && s.owner == Free
  {
    CurrentBound(n, s);
    StopIsFirstRepeat(n);
    var r := RoleOf(s.current);
    assert s.owner.By? ==> Holds(s.threads.At(s.owner.role));
    assert s.threads.At(r) == Done;
    assert Served(Limit(n), s.current, r);
    var v :| Limit(n) <= v < s.current && RoleOf(v) == r;
  }

  /** What a role can still do before the counter moves. */
  function Weight(p: Pc): nat {
    match p
    case Asleep => 0
    case Done => 0
    case Incrementing => 1
    case Printing => 2
    case Testing => 3
    case Ready => 4
    case Unlocking(_) => 5
    case Notifying(_) => 18
  }

  function Remaining(stop: int, s: State): int {
    100 * (stop - s.current) + TotalWeight(s.threads)
  }

  function TotalWeight(t: Threads): nat {
    Weight(t.fizz) + Weight(t.buzz) + Weight(t.fizzbuzz) + Weight(t.number)
  }

  lemma WorkLowers(n: int, stop: int, s: State, s': State)
    requires Working(n, s, s')
    ensures Remaining(stop, s') < Remaining(stop, s)
  {
    var r, a :| a != SpuriousWake && IsStep(n, s, r, a, s');
    if a == NotifyAll {
      NotifyLowers(n, stop, s, r);
    } else {
      OtherLowers(n, stop, s, r, a);
    }
  }

  lemma NotifyLowers(n: int, stop: int, s: State, r: Role)
    requires Enabled(s, r, NotifyAll)
    ensures Remaining(stop, Apply(n, s, r, NotifyAll)) < Remaining(stop, s)
  {
    var t := s.threads.With(r, Unlocking(s.threads.At(r).goOn));
    WithWeight(s.threads, r, t.At(r));
    RousedWeight(t, r);
  }

  lemma OtherLowers(n: int, stop: int, s: State, r: Role, a: Action)
    requires Enabled(s, r, a) && a != SpuriousWake && a != NotifyAll
    ensures Remaining(stop, Apply(n, s, r, a)) < Remaining(stop, s)
  {
    var s' := Apply(n, s, r, a);
    assert s'.threads == s.threads.With(r, s'.threads.At(r));
    WithWeight(s.threads, r, s'.threads.At(r));
    OwnWeight(n, s, r, a);
  }

  lemma OwnWeight(n: int, s: State, r: Role, a: Action)
    requires Enabled(s, r, a) && a != SpuriousWake && a != NotifyAll
    ensures var s' := Apply(n, s, r, a);
            Weight(s'.threads.At(r)) - Weight(s.threads.At(r)) < 100 * (s'.current - s.current)
  {
  }

  lemma WithWeight(t: Threads, r: Role, p: Pc)
    ensures TotalWeight(t.With(r, p)) == TotalWeight(t) - Weight(t.At(r)) + Weight(p)
  {
  }

  lemma RousedWeight(t: Threads, r: Role)
    requires t.At(r).Unlocking?
    ensures TotalWeight(t.Roused()) <= TotalWeight(t) + 12
  {
  }

  /** Without spurious wake-ups every run is finite; with RestsAtStop, every run that goes
      on as long as it can prints the sequence up to before Stop(n) and nothing else. */
  lemma {:induction false} RunsEnd(n: int, run: seq<State>, k: nat)
    requires IsRun(n, run) && k < |run|
    requires forall j :: 0 < j <= k ==> Working(n, run[j - 1], run[j])
    ensures k <= Remaining(Stop(n), Init) - Remaining(Stop(n), run[k])
    ensures Remaining(Stop(n), run[k]) >= 0
  {
    if k > 0 {
      RunsEnd(n, run, k - 1);
      WorkLowers(n, Stop(n), run[k - 1], run[k]);
    }
    RunKeepsInv(n, run, k);
    CurrentBound(n, run[k]);
  }

  /** The code stops exactly at n only when n + 1 falls to the role that printed n. */
  lemma StopsAtN(n: int)
    requires n >= 1
    ensures Stop(n) == n + 1 <==> RoleOf(n + 1) == RoleOf(n)
    ensures Stop(n) == n + 1 <==> n % 15 in {1, 7, 13}
  {
    RoleRepeats(n, 0);
    RoleRepeats(n, 1);
    RepeatsInTable(n % 15);
  }

  lemma RepeatsInTable(m: int)
    requires 0 <= m < 15
    ensures RoleOf(m + 1) == RoleOf(m) <==> m in {1, 7, 13}
  {
  }

  /** An instance of StopsAtN: for the 23 of main() the program also prints 24 and 25. */
  lemma OverrunsAt23()
    ensures Stop(23) == 26
  {
  }
}
