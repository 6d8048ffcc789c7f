/** The slot table of the poll server: slot 0 holds the listening descriptor, the other
    slots hold a client's descriptor or a negative number. `maxi` is the highest slot ever
    used; poll() watches slots 0 to maxi. What poll, accept and read return are inputs. */
module PollTable {

  const OPEN_MAX := 1000

  // ---------------------------------------------------------------- the table as a value

  /** `open` and `peak` record the run: the clients now open, and the most there ever were. */
  datatype World =
    | Serving(table: seq<int>, maxi: nat, open: set<int>, peak: nat)
    | Exited(clients: nat)

  datatype Event =
    | Accepted(fd: int)            // accept() returned this descriptor
    | Ended(slots: set<nat>)       // read() returned 0 for the clients in these slots

  /** The first free slot at or after `i`. */
  function FirstFree(t: seq<int>, i: nat): (r: nat)
    requires i <= |t|
    ensures i <= r <= |t|
    ensures r < |t| ==> t[r] < 0
    ensures forall k :: i <= k < r ==> t[k] >= 0
    decreases |t| - i
  {
    if i == |t| || t[i] < 0 then i else FirstFree(t, i + 1)
  }

  function Max(a: nat, b: nat): nat { if a > b then a else b }

  /** The table with the clients in `slots` removed. */
  function Cleared(t: seq<int>, slots: set<nat>): (r: seq<int>)
    ensures |r| == |t|
    ensures forall i :: 0 <= i < |t| ==> r[i] == if 0 < i && i in slots && t[i] >= 0 then -1 else t[i]
  {
    seq(|t|, i requires 0 <= i < |t| => if 0 < i && i in slots && t[i] >= 0 then -1 else t[i])
  }

  /** The descriptors in slots 1 to k. */
  function Clients(t: seq<int>, k: nat): set<int>
    requires k < |t|
  {
    set i: nat | 1 <= i <= k && t[i] >= 0 :: t[i]
  }

  function Start(listenfd: int): World {
    Serving([listenfd] + seq(OPEN_MAX - 1, _ => -1), 0, {}, 0)
  }

  predicate Shaped(w: World) { w.Serving? ==> |w.table| == OPEN_MAX && w.maxi < OPEN_MAX }

  function After(w: World, e: Event): (w': World)
    requires Shaped(w)
    ensures Shaped(w')
  {
    if w.Exited? then w else
      match e
      case Accepted(fd) =>
        var i := FirstFree(w.table, 1);
        if i == OPEN_MAX then Exited(|w.open|)
        else Serving(w.table[i := fd], Max(i, w.maxi), w.open + {fd}, Max(w.peak, |w.open + {fd}|))
      case Ended(slots) =>
        var gone := set i | i in slots && 0 < i < OPEN_MAX && w.table[i] >= 0 :: w.table[i];
        Serving(Cleared(w.table, slots), w.maxi, w.open - gone, w.peak)
  }

  /** A descriptor from accept() is not one that is already open. */
  predicate Legal(w: World, listenfd: int, e: Event) {
    w.Serving? && e.Accepted? ==> e.fd >= 0 && e.fd != listenfd && e.fd !in w.open
  }

  ghost predicate IsRun(listenfd: int, run: seq<World>, events: seq<Event>) {
    && |run| == |events| + 1 && run[0] == Start(listenfd)
    && forall k :: 0 <= k < |events| ==> IsStep(listenfd, run[k], events[k], run[k + 1])
  }

  predicate IsStep(listenfd: int, w: World, e: Event, w': World) {
    && Shaped(w) && Legal(w, listenfd, e) && w' == After(w, e)
  }

  // -------------------------------------------------------------------- the invariant

  /** Different slots hold different clients. */
  predicate Distinct(t: seq<int>) {
    forall i, j :: 0 < i < j < |t| && t[i] >= 0 ==> t[i] != t[j]
  }

  predicate Inv(w: World, listenfd: int) {
    match w
    case Exited(clients) => clients == OPEN_MAX - 1
    case Serving(t, maxi, open, peak) =>
      && |t| == OPEN_MAX && maxi < OPEN_MAX && t[0] == listenfd
      && (forall i :: maxi < i < OPEN_MAX ==> t[i] < 0)
      && Distinct(t)
      && open == Clients(t, maxi)
      && maxi == peak
  }

  lemma {:induction false} ClientsBound(t: seq<int>, k: nat)
    requires k < |t|
    ensures |Clients(t, k)| <= k
  {
    if k == 0 {
      assert Clients(t, 0) == {};
    } else {
      ClientsBound(t, k - 1);
      ClientsStep(t, k);
    }
  }

  lemma ClientsStep(t: seq<int>, k: nat)
    requires 0 < k < |t|
    ensures Clients(t, k) == Clients(t, k - 1) + if t[k] >= 0 then {t[k]} else {}
  {
  }

  lemma {:induction false} FullClients(t: seq<int>, k: nat)
    requires k < |t| && Distinct(t) && forall i :: 1 <= i <= k ==> t[i] >= 0
    ensures |Clients(t, k)| == k
  {
    if k == 0 {
      assert Clients(t, 0) == {};
    } else {
      FullClients(t, k - 1);
      ClientsStep(t, k);
      assert t[k] !in Clients(t, k - 1);
    }
  }

  lemma {:induction false} GapClients(t: seq<int>, j: nat, k: nat)
    requires 1 <= j <= k < |t| && t[j] < 0
    ensures |Clients(t, k)| < k
  {
    ClientsStep(t, k);
    if j < k {
      GapClients(t, j, k - 1);
    } else {
      ClientsBound(t, k - 1);
    }
  }

  /** Where the first free slot is says how many clients there are. */
  lemma SlotMeansCount(t: seq<int>, maxi: nat, i: nat)
    requires |t| == OPEN_MAX && maxi < OPEN_MAX && Distinct(t)
    requires (forall k :: maxi < k < OPEN_MAX ==> t[k] < 0) && i == FirstFree(t, 1)
    ensures if i <= maxi then |Clients(t, maxi)| < maxi else i == maxi + 1 && |Clients(t, maxi)| == maxi
  {
    if i <= maxi {
      GapClients(t, i, maxi);
    } else {
      assert maxi + 1 < OPEN_MAX ==> t[maxi + 1] < 0;
      FullClients(t, maxi);
    }
  }

  lemma AcceptedInv(w: World, listenfd: int, fd: int)
    requires w.Serving? && Inv(w, listenfd) && Legal(w, listenfd, Accepted(fd))
    ensures Inv(After(w, Accepted(fd)), listenfd)
    ensures After(w, Accepted(fd)).Exited? <==> |w.open| == OPEN_MAX - 1
  {
    var i := FirstFree(w.table, 1);
    SlotMeansCount(w.table, w.maxi, i);
    if i < OPEN_MAX {
      AddedClient(w.table, w.maxi, i, fd);
      NewPeak(w.open, fd, w.maxi, i);
    }
  }

  lemma AcceptedSlot(w: World, fd: int)
    requires w.Serving? && Shaped(w)
    ensures var i, w' := FirstFree(w.table, 1), After(w, Accepted(fd));
            if i == OPEN_MAX then w'.Exited?
            else w'.Serving? && w'.table == w.table[i := fd] && w'.maxi == Max(i, w.maxi)
  {
  }

  lemma NewPeak(open: set<int>, fd: int, maxi: nat, i: nat)
    requires fd !in open && if i <= maxi then |open| < maxi else i == maxi + 1 && |open| == maxi
    ensures Max(maxi, |open + {fd}|) == Max(i, maxi)
  {
  }

  lemma AddedClient(t: seq<int>, maxi: nat, i: nat, fd: int)
    requires |t| == OPEN_MAX && maxi < OPEN_MAX && 1 <= i < OPEN_MAX && t[i] < 0 && fd >= 0
    requires i <= maxi + 1 && Distinct(t) && fd !in Clients(t, maxi)
    requires forall k :: maxi < k < OPEN_MAX ==> t[k] < 0
    ensures Distinct(t[i := fd])
    ensures Clients(t[i := fd], Max(i, maxi)) == Clients(t, maxi) + {fd}
  {
    var t', m := t[i := fd], Max(i, maxi);
    assert forall k :: 1 <= k <= maxi && t[k] >= 0 ==> t[k] in Clients(t, maxi);
    assert t'[i] in Clients(t', m);
    forall x | x in Clients(t, maxi)
      ensures x in Clients(t', m)
    {
      var k: nat :| 1 <= k <= maxi && t[k] >= 0 && t[k] == x;
      assert t'[k] == x;
    }
  }

  lemma EndedInv(w: World, listenfd: int, slots: set<nat>)
    requires w.Serving? && Inv(w, listenfd)
    ensures Inv(After(w, Ended(slots)), listenfd)
  {
    var t, t' := w.table, Cleared(w.table, slots);
    var gone := set i | i in slots && 0 < i < OPEN_MAX && t[i] >= 0 :: t[i];
    forall x
      ensures x in Clients(t', w.maxi) <==> x in Clients(t, w.maxi) - gone
    {
      if x in Clients(t, w.maxi) {
        var k: nat :| 1 <= k <= w.maxi && t[k] >= 0 && t[k] == x;
        assert x in gone <==> k in slots;
      }
    }
  }

  lemma {:induction false} RunKeepsInv(listenfd: int, run: seq<World>, events: seq<Event>, k: nat)
    requires listenfd >= 0 && IsRun(listenfd, run, events) && k < |run|
    ensures Inv(run[k], listenfd)
  {
    if k == 0 {
      assert Clients(Start(listenfd).table, 0) == {};
    } else {
      RunKeepsInv(listenfd, run, events, k - 1);
      var w, e := run[k - 1], events[k - 1];
      assert IsStep(listenfd, w, e, run[k - 1 + 1]);
      if w.Serving? {
        match e
        case Accepted(fd) => AcceptedInv(w, listenfd, fd);
        case Ended(slots) => EndedInv(w, listenfd, slots);
      }
    }
  }

  // --------------------------------------------------------------------- main results

  /** Over every run of accepts and closes slot 0 stays the listener, the open clients are
      exactly the occupied slots among 1 to maxi, each in one slot, and nothing lies above. */
  lemma EveryClientWatched(listenfd: int, run: seq<World>, events: seq<Event>, k: nat)
    requires listenfd >= 0 && IsRun(listenfd, run, events) && k < |run| && run[k].Serving?
    ensures |run[k].table| == OPEN_MAX && run[k].maxi < OPEN_MAX && run[k].table[0] == listenfd
    ensures forall fd :: fd in run[k].open <==> exists i :: 1 <= i <= run[k].maxi && fd == run[k].table[i] >= 0
    ensures forall i, j :: 0 < i < j < OPEN_MAX && run[k].table[i] >= 0 ==> run[k].table[i] != run[k].table[j]
    ensures forall i :: run[k].maxi < i < OPEN_MAX ==> run[k].table[i] < 0
  {
    RunKeepsInv(listenfd, run, events, k);
  }

  /** maxi is the largest number of clients open at once so far: never exceeded, and reached. */
  lemma {:induction false} MaxiIsLargest(listenfd: int, run: seq<World>, events: seq<Event>, k: nat)
    requires listenfd >= 0 && IsRun(listenfd, run, events) && k < |run| && run[k].Serving?
    ensures forall j :: 0 <= j <= k ==> run[j].Serving? && |run[j].open| <= run[k].maxi
    ensures exists j :: 0 <= j <= k && run[j].Serving? && |run[j].open| == run[k].maxi
  {
    forall j | 0 <= j <= k
      ensures run[j].Serving? && |run[j].open| <= run[k].maxi
    {
      MaxiBounds(listenfd, run, events, k, j);
    }
    var j := MaxiReached(listenfd, run, events, k);
    assert run[j].Serving? && |run[j].open| == run[k].maxi;
  }

  lemma OneStep(listenfd: int, run: seq<World>, events: seq<Event>, k: nat)
    requires listenfd >= 0 && IsRun(listenfd, run, events) && 0 < k < |run| && run[k].Serving?
    ensures run[k - 1].Serving? && run[k - 1].maxi <= run[k].maxi
    ensures run[k].maxi == run[k - 1].maxi || run[k].maxi == |run[k].open|
  {
    assert IsStep(listenfd, run[k - 1], events[k - 1], run[k - 1 + 1]);
    RunKeepsInv(listenfd, run, events, k);
    RunKeepsInv(listenfd, run, events, k - 1);
  }

  lemma {:induction false} MaxiBounds(listenfd: int, run: seq<World>, events: seq<Event>, k: nat, j: nat)
    requires listenfd >= 0 && IsRun(listenfd, run, events) && j <= k < |run| && run[k].Serving?
    ensures run[j].Serving? && |run[j].open| <= run[k].maxi
  {
    if j == k {
      RunKeepsInv(listenfd, run, events, k);
      ClientsBound(run[k].table, run[k].maxi);
    } else {
      OneStep(listenfd, run, events, k);
      MaxiBounds(listenfd, run, events, k - 1, j);
    }
  }

  lemma {:induction false} MaxiReached(listenfd: int, run: seq<World>, events: seq<Event>, k: nat) returns (j: nat)
    requires listenfd >= 0 && IsRun(listenfd, run, events) && k < |run| && run[k].Serving?
    ensures j <= k && run[j].Serving? && |run[j].open| == run[k].maxi
  {
    j := k;
    if k > 0 {
      OneStep(listenfd, run, events, k);
      if |run[k].open| != run[k].maxi {
        j := MaxiReached(listenfd, run, events, k - 1);
      }
    }
  }

  /** The server gives up exactly when a client arrives and 999 are open. */
  lemma ExitsExactlyWhenFull(listenfd: int, run: seq<World>, events: seq<Event>, k: nat)
    requires listenfd >= 0 && IsRun(listenfd, run, events) && k < |events| && run[k].Serving?
    ensures run[k + 1].Exited? <==> events[k].Accepted? && |run[k].open| == OPEN_MAX - 1
  {
    RunKeepsInv(listenfd, run, events, k);
    assert IsStep(listenfd, run[k], events[k], run[k + 1]);
    if events[k].Accepted? {
      AcceptedInv(run[k], listenfd, events[k].fd);
    }
  }

  // ------------------------------------------------------------- one pass of the loop

  /** What accept() returned, if poll() reported the listener. */
  datatype Arrival = Connected(fd: int) | Interrupted | Failed

  /** Whether the server goes on, the table, and the slots that were read. */
  datatype Pass = Pass(alive: bool, world: World, served: set<nat>)

  /** What poll() reports of the watched slots; it ignores negative descriptors. */
  function Reported(w: World, ready: seq<bool>): set<nat>
    requires w.Serving? && Shaped(w) && |ready| == OPEN_MAX
  {
    set i: nat | 0 <= i <= w.maxi && w.table[i] >= 0 && ready[i]
  }

  /** POLLIN in the events of each slot after poll(); slots above maxi keep theirs. */
  function Marks(w: World, stale: seq<bool>, ready: seq<bool>): (r: seq<bool>)
    requires w.Serving? && Shaped(w) && |ready| == OPEN_MAX && |stale| == OPEN_MAX
    ensures |r| == OPEN_MAX
  {
    seq(OPEN_MAX, i requires 0 <= i < OPEN_MAX => if i <= w.maxi then w.table[i] >= 0 && ready[i] else stale[i])
  }

  function Marked(w: World, marks: seq<bool>): set<nat>
    requires w.Serving? && Shaped(w) && |marks| == OPEN_MAX
  {
    set i: nat | 1 <= i <= w.maxi && w.table[i] >= 0 && marks[i]
  }

  function Served(w: World, marks: seq<bool>, eof: set<nat>): Pass
    requires w.Serving? && Shaped(w) && |marks| == OPEN_MAX
  {
    Pass(true, After(w, Ended(Marked(w, marks) * eof)), Marked(w, marks))
  }

  /** `eof` holds the slots whose read would return 0. */
  function PassOf(w: World, stale: seq<bool>, ready: seq<bool>, nready: int, arrival: Arrival, eof: set<nat>): Pass
    requires w.Serving? && Shaped(w) && |ready| == OPEN_MAX && |stale| == OPEN_MAX
  {
    var marks := Marks(w, stale, ready);
    if !marks[0] then Served(w, marks, eof)
    else
      match arrival
      case Interrupted => Pass(true, w, {})
      case Failed => Pass(false, w, {})
      case Connected(fd) =>
        var w1 := After(w, Accepted(fd));
        if w1.Exited? then Pass(false, w1, {})
        else if nready - 1 <= 0 then Pass(true, w1, {})
        else Served(w1, marks, eof)
  }

  /** In a pass after which the server goes on, every reported client is served, although the
      pass stops early once the count of reports is used up, if and only if accept() was not
      interrupted or there was nobody to serve. The count may include reports of errors. */
  lemma ReportedAreServed(w: World, listenfd: int, stale: seq<bool>, ready: seq<bool>, nready: int,
                          arrival: Arrival, eof: set<nat>)
    requires w.Serving? && Inv(w, listenfd) && listenfd >= 0 && |ready| == OPEN_MAX && |stale| == OPEN_MAX
    requires nready >= |Reported(w, ready)|
    requires PassOf(w, stale, ready, nready, arrival, eof).alive
    ensures Reported(w, ready) - {0} <= PassOf(w, stale, ready, nready, arrival, eof).served
       <==> !(ready[0] && arrival.Interrupted?) || Reported(w, ready) - {0} == {}
  {
    if ready[0] && nready <= 1 {
      OnlyListener(Reported(w, ready));
    }
  }

  lemma OnlyListener(reported: set<nat>)
    requires 0 in reported && |reported| <= 1
    ensures reported == {0}
  {
    assert |reported - {0}| == 0;
  }

  /** Nobody else is served, except a client just entered in a slot that was never polled
      before, if the events of that slot happened to start out set. */
  lemma OthersServedExactly(w: World, listenfd: int, stale: seq<bool>, ready: seq<bool>, nready: int,
                            arrival: Arrival, eof: set<nat>, i: nat)
    requires w.Serving? && Inv(w, listenfd) && listenfd >= 0 && |ready| == OPEN_MAX && |stale| == OPEN_MAX
    requires (arrival.Connected? ==> arrival.fd >= 0) && i !in Reported(w, ready)
    ensures i in PassOf(w, stale, ready, nready, arrival, eof).served
       <==> && ready[0] && arrival.Connected? && nready > 1
            && FirstFree(w.table, 1) == w.maxi + 1 == i < OPEN_MAX && stale[i]
  {
    var marks := Marks(w, stale, ready);
    if marks[0] && arrival.Connected? {
      var slot := FirstFree(w.table, 1);
      SlotMeansCount(w.table, w.maxi, slot);
      AcceptedSlot(w, arrival.fd);
      if slot < OPEN_MAX {
        MarkedAfter(w, stale, ready, slot, arrival.fd, i);
      }
    }
  }

  lemma MarkedAfter(w: World, stale: seq<bool>, ready: seq<bool>, slot: nat, fd: int, i: nat)
    requires w.Serving? && Shaped(w) && |ready| == OPEN_MAX && |stale| == OPEN_MAX && fd >= 0
    requires 1 <= slot < OPEN_MAX && slot <= w.maxi + 1 && w.table[slot] < 0
    requires i !in Reported(w, ready)
    ensures var w1 := After(w, Accepted(fd));
            w1.Serving? && w1.table == w.table[slot := fd] && w1.maxi == Max(slot, w.maxi) ==>
              (i in Marked(w1, Marks(w, stale, ready)) <==> slot == w.maxi + 1 == i && stale[i])
  {
  }

  /** One client, with descriptor 5, beside the listener 3. */
  function OneClient(): (w: World)
    ensures w.Serving? && Shaped(w)
  {
    After(Start(3), Accepted(5))
  }

  lemma OneClientReached()
    ensures IsRun(3, [Start(3), OneClient()], [Accepted(5)])
    ensures OneClient().maxi == 1 && FirstFree(OneClient().table, 1) == 2 && OneClient().table[1] == 5
  {
    assert FirstFree(Start(3).table, 1) == 1;
    assert IsStep(3, Start(3), Accepted(5), OneClient());
    AcceptedSlot(Start(3), 5);
    assert OneClient().table[2] < 0;
  }

  /** It happens: with one client and reports for the listener and that client, a second one
      enters slot 2, whose events poll() has never written, and is read unreported. */
  lemma UnreportedIsRead()
    ensures IsRun(3, [Start(3), OneClient()], [Accepted(5)])
    ensures var ready, stale := seq(OPEN_MAX, i => i <= 1), seq(OPEN_MAX, i => i == 2);
            && |Reported(OneClient(), ready)| == 2 && 2 !in Reported(OneClient(), ready)
            && 2 in PassOf(OneClient(), stale, ready, 2, Connected(6), {}).served
  {
    var ready, stale := seq(OPEN_MAX, i => i <= 1), seq(OPEN_MAX, i => i == 2);
    OneClientReached();
    RunKeepsInv(3, [Start(3), OneClient()], [Accepted(5)], 1);
    assert Reported(OneClient(), ready) == {0, 1};
    OthersServedExactly(OneClient(), 3, stale, ready, 2, Connected(6), {}, 2);
  }

  /** A pass keeps the table as every run keeps it. */
  lemma PassKeepsInv(w: World, listenfd: int, stale: seq<bool>, ready: seq<bool>, nready: int,
                     arrival: Arrival, eof: set<nat>)
    requires w.Serving? && Inv(w, listenfd) && |ready| == OPEN_MAX && |stale| == OPEN_MAX
    requires arrival.Connected? ==> Legal(w, listenfd, Accepted(arrival.fd))
    ensures Inv(PassOf(w, stale, ready, nready, arrival, eof).world, listenfd)
  {
    var marks := Marks(w, stale, ready);
    if !marks[0] {
      EndedInv(w, listenfd, Marked(w, marks) * eof);
    } else if arrival.Connected? {
      AcceptedInv(w, listenfd, arrival.fd);
      var w1 := After(w, Accepted(arrival.fd));
      if w1.Serving? {
        EndedInv(w1, listenfd, Marked(w1, marks) * eof);
      }
    }
  }

  /** The new client of a pass, if there is one, enters the lowest free slot. */
  predicate Enters(w: World, ready: seq<bool>, arrival: Arrival, i: nat)
    requires w.Serving? && Shaped(w) && |ready| == OPEN_MAX && i < OPEN_MAX
  {
    ready[0] && arrival.Connected? && w.table[i] < 0 && forall k :: 1 <= k < i ==> w.table[k] >= 0
  }

  lemma ServedCloses(w: World, marks: seq<bool>, eof: set<nat>, i: nat)
    requires w.Serving? && Shaped(w) && |marks| == OPEN_MAX && i < OPEN_MAX
    ensures var p := Served(w, marks, eof);
            && p.world.Serving? && |p.world.table| == OPEN_MAX && p.world.table[0] == w.table[0]
            && (i > 0 && i in p.served && i in eof ==> p.world.table[i] == -1)
            && (!(i in p.served && i in eof) ==> p.world.table[i] == w.table[i])
  {
  }

  lemma EntersIsFirstFree(w: World, ready: seq<bool>, arrival: Arrival, i: nat)
    requires w.Serving? && Shaped(w) && |ready| == OPEN_MAX && 0 < i < OPEN_MAX
    requires ready[0] && arrival.Connected?
    ensures Enters(w, ready, arrival, i) <==> i == FirstFree(w.table, 1)
  {
  }

  /** Who leaves, who stays and who enters in a pass after which the server goes on: a client
      leaves if and only if it was read and its read returned 0, the others keep their
      descriptors, and of the free slots only the lowest can be filled, by the new client. */
  lemma PassMovesExactly(w: World, listenfd: int, stale: seq<bool>, ready: seq<bool>, nready: int,
                         arrival: Arrival, eof: set<nat>, i: nat)
    requires w.Serving? && Inv(w, listenfd) && listenfd >= 0 && |ready| == OPEN_MAX && |stale| == OPEN_MAX
    requires (arrival.Connected? ==> arrival.fd >= 0) && 0 < i < OPEN_MAX
    requires PassOf(w, stale, ready, nready, arrival, eof).alive
    ensures var p := PassOf(w, stale, ready, nready, arrival, eof);
            && p.world.Serving? && |p.world.table| == OPEN_MAX && p.world.table[0] == listenfd
            && var fd := p.world.table[i];
               if w.table[i] >= 0 then
                 (fd < 0 <==> i in p.served && i in eof) && (fd >= 0 ==> fd == w.table[i])
               else if Enters(w, ready, arrival, i) then
                 if i in p.served && i in eof then fd < 0 else fd == arrival.fd
               else fd < 0
  {
    var marks := Marks(w, stale, ready);
    if !marks[0] {
      ServedCloses(w, marks, eof, i);
    } else if arrival.Connected? {
      EntersIsFirstFree(w, ready, arrival, i);
      AcceptedSlot(w, arrival.fd);
      var w1 := After(w, Accepted(arrival.fd));
      if w1.Serving? {
        ServedCloses(w1, marks, eof, i);
      }
    }
  }

  /** The server exits in a pass if and only if accept() fails, or a client arrives while 999
      are open. */
  lemma PassGoesOnExactly(w: World, listenfd: int, stale: seq<bool>, ready: seq<bool>, nready: int,
                          arrival: Arrival, eof: set<nat>)
    requires w.Serving? && Inv(w, listenfd) && listenfd >= 0 && |ready| == OPEN_MAX && |stale| == OPEN_MAX
    requires arrival.Connected? ==> Legal(w, listenfd, Accepted(arrival.fd))
    ensures PassOf(w, stale, ready, nready, arrival, eof).alive
       <==> !(ready[0] && (arrival.Failed? || (arrival.Connected? && |w.open| == OPEN_MAX - 1)))
  {
    if arrival.Connected? {
      AcceptedInv(w, listenfd, arrival.fd);
    }
  }

  // ----------------------------------------------------------------------- the server

  class Server {
    const listenfd: int
    const fds: array<int>
    const readable: array<bool>    // POLLIN in revents
    var maxi: int
    ghost var open: set<int>
    ghost var peak: nat

    ghost predicate Valid()
      reads this, fds
    {
      && fds.Length == OPEN_MAX && readable.Length == OPEN_MAX && maxi >= 0 && listenfd >= 0
      && Inv(World(), listenfd)
    }

    ghost function World(): World
      reads this, fds
    {
      Serving(fds[..], if maxi >= 0 then maxi else 0, open, peak)
    }

    /** The events of the table start out as whatever the stack holds. */
    constructor (listenfd: int, garbage: seq<bool>)
      requires listenfd >= 0 && |garbage| == OPEN_MAX
      ensures Valid() && fresh(fds) && fresh(readable) && this.listenfd == listenfd
      ensures World() == Start(listenfd) && readable[..] == garbage
    {
      this.listenfd := listenfd;
      fds := new int[OPEN_MAX];
      readable := new bool[OPEN_MAX];
      maxi, open, peak := 0, {}, 0;
      new;
      fds[0] := listenfd;
      for i := 1 to OPEN_MAX
        invariant fds[0] == listenfd && forall k :: 1 <= k < i ==> fds[k] == -1
        invariant maxi == 0 && open == {} && peak == 0
      {
        fds[i] := -1;
      }
      forall i | 0 <= i < OPEN_MAX {
        readable[i] := garbage[i];
      }
      assert fds[..] == Start(listenfd).table;
      assert Clients(fds[..], 0) == {};
    }

    /** The first free slot; OPEN_MAX if there is none. */
    method FindSlot() returns (i: nat)
      requires fds.Length == OPEN_MAX
      ensures i == FirstFree(fds[..], 1)
    {
      i := 1;
      while i < OPEN_MAX && fds[i] >= 0
        invariant 1 <= i <= OPEN_MAX
        invariant FirstFree(fds[..], i) == FirstFree(fds[..], 1)
      {
        i := i + 1;
      }
    }

    /** Enters a new client; false if the server exits because the table is full. */
    method AddClient(connfd: int) returns (ok: bool)
      requires Valid() && Legal(World(), listenfd, Accepted(connfd))
      modifies this, fds
      ensures ok <==> After(old(World()), Accepted(connfd)).Serving?
      ensures if ok then Valid() && World() == After(old(World()), Accepted(connfd))
              else World() == old(World())
    {
      ghost var w, w' := World(), After(World(), Accepted(connfd));
      AcceptedInv(w, listenfd, connfd);
      AcceptedSlot(w, connfd);
      var i := FindSlot();
      if i == OPEN_MAX {
        return false;
      }
      fds[i] := connfd;
      maxi := if i > maxi then i else maxi;
      open, peak := w'.open, w'.peak;
      assert fds[..] == w.table[i := connfd];
      assert World() == w';
      ok := true;
    }

    /** Reads from every marked client and closes those at end of input. */
    method HandleConnections(num: int, eof: set<nat>) returns (ghost served: set<nat>)
      requires Valid() && num == maxi
      modifies this`open, fds
      ensures Valid() && Pass(true, World(), served) == Served(old(World()), readable[..], eof)
      ensures forall i :: 0 < i < OPEN_MAX && old(fds[i]) >= 0 ==>
                (fds[i] < 0 <==> i in served && i in eof) && (fds[i] >= 0 ==> fds[i] == old(fds[i]))
    {
      served := Marked(World(), readable[..]);
      ghost var slots := served * eof;
      EndedInv(World(), listenfd, slots);
      ghost var before := fds[..];
      for i := 1 to num + 1
        invariant forall k :: 0 <= k < OPEN_MAX ==>
                    fds[k] == if 0 < k < i && k in slots && before[k] >= 0 then -1 else before[k]
      {
        if fds[i] >= 0 && readable[i] {
          if i in eof {
            fds[i] := -1;
          }
        }
      }
      assert fds[..] == Cleared(before, slots);
      open := After(old(World()), Ended(slots)).open;
    }

    /** poll() stores its report. */
    method Poll(ready: seq<bool>)
      requires Valid() && |ready| == OPEN_MAX
      modifies readable
      ensures readable[..] == Marks(World(), old(readable[..]), ready)
    {
      forall i | 0 <= i <= maxi {
        readable[i] := fds[i] >= 0 && ready[i];
      }
    }

    /** One pass of the server loop in which poll() succeeds; false if the server exits. */
    method Round(ready: seq<bool>, nready: int, arrival: Arrival, eof: set<nat>)
      returns (alive: bool, ghost served: set<nat>)
      requires Valid() && |ready| == OPEN_MAX
      requires arrival.Connected? ==> Legal(World(), listenfd, Accepted(arrival.fd))
      modifies this, fds, readable
      ensures var pass := PassOf(old(World()), old(readable[..]), ready, nready, arrival, eof);
              alive == pass.alive && served == pass.served && (alive ==> Valid() && World() == pass.world)
    {
      served := {};
      Poll(ready);
      if readable[0] {
        match arrival
        case Interrupted => return true, served;
        case Failed => return false, served;
        case Connected(fd) =>
          var ok := AddClient(fd);
          if !ok {
            return false, served;
          }
          if nready - 1 <= 0 {
            return true, served;
          }
      }
      served := HandleConnections(maxi, eof);
      alive := true;
    }
  }
}
