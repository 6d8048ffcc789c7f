/** The stack machine behind both bracket matchers.

    Certain brackets are matched; an `Angle` entry is only tentative and is dropped by
    the next closer or semicolon. The decisions that depend on look-behind (shift
    operators, arrows, `operator<`) are made once per character, when the text is
    turned into tokens. A stack entry records the kind of a pending bracket; the forward
    matcher writes it as the opener, the backward matcher as the closer. */
module TentativeScan {
  import opened BracketGrammar

  datatype Kind = Round | Square | Curly | Angle

  /** The kind of a certain bracket, opener or closer. */
  function KindOf(c: char): (k: Kind)
    requires IsBracket(c)
    ensures k != Angle
  {
    if c == '(' || c == ')' then Round else if c == '[' || c == ']' then Square else Curly
  }

  function OpenerOf(k: Kind): (c: char)
    ensures k != Angle ==> IsOpener(c) && KindOf(c) == k
  {
    match k
    case Round => '('
    case Square => '['
    case Curly => '{'
    case Angle => '<'
  }

  function CloserOf(k: Kind): char { Flip(OpenerOf(k)) }

  datatype Tok =
    | Open(kind: Kind)        // push a certain bracket
    | Close(kind: Kind)       // must meet a pending bracket of this kind
    | Semi                    // ends a statement
    | Mark                    // push a tentative bracket
    | Unmark(accepts: bool)   // pop one tentative bracket; may end the scan
    | Skip

  datatype Outcome = Done(n: nat) | Fail | More(stack: seq<Kind>)

  function Last(st: seq<Kind>): Kind
    requires st != []
  {
    st[|st| - 1]
  }

  function Pop(st: seq<Kind>): seq<Kind>
    requires st != []
  {
    st[..|st| - 1]
  }

  function DropMarks(st: seq<Kind>): seq<Kind> {
    if st != [] && Last(st) == Angle then DropMarks(Pop(st)) else st
  }

  function Step(t: Tok, st: seq<Kind>): Outcome {
    match t
    case Open(k) => More(st + [k])
    case Mark => More(st + [Angle])
    case Skip => More(st)
    case Unmark(accepts) =>
      if st == [] || Last(st) != Angle then More(st)
      else if |st| > 1 then More(Pop(st))
      else if accepts then Done(1) else Fail
    case Semi =>
      var s := DropMarks(st);
      if s == [] then Fail else More(s)
    case Close(k) =>
      var s := DropMarks(st);
      if s == [] || Last(s) != k then Fail
      else if |s| > 1 then More(Pop(s)) else Done(1)
  }

  function Shift(r: Outcome, k: nat): Outcome {
    if r.Done? then Done(r.n + k) else r
  }

  /** `Done(n)`: the scan ended with the n-th token. `More`: the tokens ran out. */
  function Scan(ts: seq<Tok>, st: seq<Kind>): (r: Outcome)
    ensures r.Done? ==> 1 <= r.n <= |ts|
  {
    if ts == [] then More(st) else
      match Step(ts[0], st)
      case Done(_) => Done(1)
      case Fail => Fail
      case More(s) => Shift(Scan(ts[1..], s), 1)
  }

  lemma {:induction false} ScanConcat(a: seq<Tok>, b: seq<Tok>, st: seq<Kind>)
    ensures var r := Scan(a, st);
            Scan(a + b, st) == if r.More? then Shift(Scan(b, r.stack), |a|) else r
  {
    if a == [] {
      assert a + b == b;
    } else {
      assert (a + b)[1..] == a[1..] + b;
      var r := Step(a[0], st);
      if r.More? {
        ScanConcat(a[1..], b, r.stack);
      }
    }
  }

  // ------------------------------------------------------- the certain part of a stack

  function Erase(st: seq<Kind>): seq<Kind> {
    if st == [] then [] else
      var r := Erase(Pop(st));
      if Last(st) == Angle then r else r + [Last(st)]
  }

  lemma ErasePush(st: seq<Kind>, k: Kind)
    ensures Erase(st + [k]) == if k == Angle then Erase(st) else Erase(st) + [k]
  {
    assert Pop(st + [k]) == st;
  }

  lemma {:induction false} DropMarksErase(st: seq<Kind>)
    ensures var s := DropMarks(st);
            && s <= st
            && Erase(s) == Erase(st)
            && (s != [] ==> Last(s) != Angle && Erase(st) == Erase(Pop(s)) + [Last(s)])
  {
    if st != [] && Last(st) == Angle {
      DropMarksErase(Pop(st));
    }
  }

  /** A stack whose bottom entry is certain keeps a certain part. */
  lemma {:induction false} BottomCertain(st: seq<Kind>)
    requires st != [] && st[0] != Angle
    ensures Erase(st) != [] && DropMarks(st) != []
  {
    DropMarksErase(st);
    if |st| > 1 {
      BottomCertain(Pop(st));
    }
  }

  lemma Unsnoc(a: seq<Kind>, x: Kind, b: seq<Kind>, y: Kind)
    requires a + [x] == b + [y]
    ensures a == b && x == y
  {
    assert (a + [x])[..|a|] == a && (b + [y])[..|b|] == b;
    assert Last(a + [x]) == x && Last(b + [y]) == y;
  }

  // ------------------------------------------------- tokens against the text they read

  predicate Agree(t: Tok, c: char) {
    if IsOpener(c) then t == Open(KindOf(c))
    else if IsCloser(c) then t == Close(KindOf(c))
    else if c == ';' then t == Semi
    else t.Mark? || t.Unmark? || t.Skip?
  }

  predicate Reads(ts: seq<Tok>, w: string) {
    |ts| == |w| && forall i :: 0 <= i < |ts| ==> Agree(ts[i], w[i])
  }

  ghost predicate CutAt(st: seq<Kind>, u: string, tail: bool, i: nat)
    decreases |st|, 0
  {
    && st != []
    && i < |u|
    && Balanced(u[..i], true)
    && u[i] == CloserOf(Last(st))
    && Completes(Pop(st), u[i + 1..], tail)
  }

  /** `u` closes every entry of `st`, top first, with balanced text before each closer.
      With `tail` a further semicolon-free balanced text and one final character follow. */
  ghost predicate Completes(st: seq<Kind>, u: string, tail: bool)
    decreases |st|
  {
    if st == [] then
      if tail then u != "" && Balanced(u[..|u| - 1], false) else u == ""
    else
      exists i: nat :: CutAt(st, u, tail, i)
  }

  lemma CompletesLeaf(c: char, st: seq<Kind>, u: string, tail: bool)
    requires Completes(st, u, tail) && !IsBracket(c)
    requires st == [] ==> tail && c != ';'
    ensures Completes(st, [c] + u, tail)
  {
    var v := [c] + u;
    if st == [] {
      BalancedLeaf(c, u[..|u| - 1], false);
      assert v[..|v| - 1] == [c] + u[..|u| - 1];
    } else {
      var i: nat :| CutAt(st, u, tail, i);
      BalancedLeaf(c, u[..i], true);
      assert v[..i + 1] == [c] + u[..i];
      assert v[i + 2..] == u[i + 1..];
      assert CutAt(st, v, tail, i + 1);
    }
  }

  lemma CompletesOpen(c: char, st: seq<Kind>, u: string, tail: bool)
    requires IsOpener(c) && Completes(st + [KindOf(c)], u, tail)
    requires st == [] ==> tail
    ensures Completes(st, [c] + u, tail)
  {
    var i: nat :| CutAt(st + [KindOf(c)], u, tail, i);
    assert Pop(st + [KindOf(c)]) == st;
    assert u == u[..i] + [Flip(c)] + u[i + 1..];
    CompletesGroup(c, u[..i], st, u[i + 1..], tail);
    assert [c] + u == [c] + u[..i] + [Flip(c)] + u[i + 1..];
  }

  lemma CompletesGroup(c: char, a: string, st: seq<Kind>, u: string, tail: bool)
    requires IsOpener(c) && Balanced(a, true) && Completes(st, u, tail)
    requires st == [] ==> tail
    ensures Completes(st, [c] + a + [Flip(c)] + u, tail)
  {
    var v := [c] + a + [Flip(c)] + u;
    if st == [] {
      BalancedGroup(c, a, u[..|u| - 1], false);
      assert v[..|v| - 1] == [c] + a + [Flip(c)] + u[..|u| - 1];
    } else {
      var j: nat :| CutAt(st, u, tail, j);
      BalancedGroup(c, a, u[..j], true);
      var k := |a| + j + 2;
      assert v[..k] == [c] + a + [Flip(c)] + u[..j];
      assert v[k + 1..] == u[j + 1..];
      assert CutAt(st, v, tail, k);
    }
  }

  lemma CompletesClose(c: char, st: seq<Kind>, u: string, tail: bool)
    requires IsCloser(c) && Completes(st, u, tail)
    ensures Completes(st + [KindOf(c)], [c] + u, tail)
  {
    var v := [c] + u;
    BalancedNil(true);
    assert v[..0] == "" && v[1..] == u;
    assert Pop(st + [KindOf(c)]) == st;
    assert CutAt(st + [KindOf(c)], v, tail, 0);
  }

  // ------------------------------------------------------------------------ soundness

  /** Tentative brackets never decide where a certain bracket closes, and a scan whose
      bottom entry is tentative ends at an accepting pop with everything else balanced. */
  lemma {:induction false} ScanSound(ts: seq<Tok>, w: string, st: seq<Kind>)
    requires Reads(ts, w) && st != [] && Scan(ts, st).Done?
    ensures var n := Scan(ts, st).n;
            && Completes(Erase(st), w[..n], st[0] == Angle)
            && (st[0] == Angle ==> ts[n - 1] == Unmark(true))
  {
    var r := Step(ts[0], st);
    if r.Done? {
      FirstTokenEnds(ts[0], w[0], st);
      assert w[..1] == [w[0]];
    } else {
      var s := r.stack;
      StepKeepsRoot(ts[0], st);
      ScanSound(ts[1..], w[1..], s);
      var m := Scan(ts[1..], s).n;
      assert w[..m + 1] == [w[0]] + w[1..][..m];
      assert ts[1..][m - 1] == ts[m];
      StepExtends(ts[0], w[0], st, w[1..][..m]);
    }
  }

  lemma FirstTokenEnds(t: Tok, c: char, st: seq<Kind>)
    requires Agree(t, c) && st != [] && Step(t, st).Done?
    ensures Completes(Erase(st), [c], st[0] == Angle)
    ensures st[0] == Angle ==> t == Unmark(true)
  {
    if t.Unmark? {
      assert Pop(st) == [];
      BalancedNil(false);
      assert [c][..0] == "";
    } else {
      DropMarksErase(st);
      assert Pop(DropMarks(st)) == [] && Erase(st) == [] + [t.kind];
      CompletesClose(c, [], "", false);
      assert [c] == [c] + "";
    }
  }

  lemma StepKeepsRoot(t: Tok, st: seq<Kind>)
    requires st != [] && Step(t, st).More?
    ensures var s := Step(t, st).stack; s != [] && s[0] == st[0]
  {
    DropMarksErase(st);
  }

  lemma StepExtends(t: Tok, c: char, st: seq<Kind>, u: string)
    requires Agree(t, c) && st != [] && Step(t, st).More?
    requires Completes(Erase(Step(t, st).stack), u, st[0] == Angle)
    ensures Completes(Erase(st), [c] + u, st[0] == Angle)
  {
    var s := Step(t, st).stack;
    var tail := st[0] == Angle;
    DropMarksErase(st);
    if !tail {
      BottomCertain(st);
    }
    match t
    case Open(k) =>
      ErasePush(st, k);
      CompletesOpen(c, Erase(st), u, tail);
    case Close(_) =>
      CompletesClose(c, Erase(s), u, tail);
    case Semi =>
      CompletesLeaf(c, Erase(st), u, tail);
    case Mark =>
      ErasePush(st, Angle);
      CompletesLeaf(c, Erase(st), u, tail);
    case Unmark(_) =>
      CompletesLeaf(c, Erase(st), u, tail);
    case Skip =>
      CompletesLeaf(c, Erase(st), u, tail);
  }

  // ------------------------------------------------- completeness for certain bottoms

  /** Balanced text moves a scan only by tentative entries. */
  lemma {:induction false} ScanForest(ts: seq<Tok>, f: Forest, st: seq<Kind>)
    requires WellFormed(f) && Reads(ts, Yield(f)) && st != [] && st[0] != Angle
    ensures var r := Scan(ts, st);
            && r.More? && r.stack != [] && r.stack[0] == st[0]
            && Erase(r.stack) == Erase(st)
  {
    match f
    case Nil =>
    case Leaf(c, rest) =>
      LeafKeepsErase(ts[0], c, st);
      StepKeepsRoot(ts[0], st);
      ScanForest(ts[1..], rest, Step(ts[0], st).stack);
    case Group(o, inner, rest) =>
      var m := 1 + |Yield(inner)|;
      GroupTokens(ts, o, inner, rest);
      ErasePush(st, KindOf(o));
      ScanForest(ts[1..m], inner, st + [KindOf(o)]);
      var s1 := Scan(ts[1..m], st + [KindOf(o)]).stack;
      CloseReturns(KindOf(o), s1, st);
      StepKeepsRoot(ts[m], s1);
      ScanForest(ts[m + 1..], rest, Step(ts[m], s1).stack);
      ScanThree(ts, m, st);
  }

  lemma GroupTokens(ts: seq<Tok>, o: char, inner: Forest, rest: Forest)
    requires IsOpener(o) && Reads(ts, Yield(Group(o, inner, rest)))
    ensures var m := 1 + |Yield(inner)|;
            && m < |ts| && ts[0] == Open(KindOf(o)) && ts[m] == Close(KindOf(o))
            && Reads(ts[1..m], Yield(inner)) && Reads(ts[m + 1..], Yield(rest))
  {
    var m := 1 + |Yield(inner)|;
    var y := Yield(Group(o, inner, rest));
    assert y[1..m] == Yield(inner) && y[m] == Flip(o) && y[m + 1..] == Yield(rest);
    assert Agree(ts[0], y[0]) && Agree(ts[m], y[m]);
  }

  lemma LeafKeepsErase(t: Tok, c: char, st: seq<Kind>)
    requires Agree(t, c) && !IsBracket(c) && st != [] && st[0] != Angle
    ensures Step(t, st).More? && Erase(Step(t, st).stack) == Erase(st)
  {
    BottomCertain(st);
    DropMarksErase(st);
    ErasePush(st, Angle);
  }

  lemma CloseReturns(k: Kind, s1: seq<Kind>, st: seq<Kind>)
    requires k != Angle && st != [] && st[0] != Angle
    requires Erase(s1) == Erase(st) + [k]
    ensures var r := Step(Close(k), s1); r.More? && Erase(r.stack) == Erase(st)
  {
    DropMarksErase(s1);
    var s := DropMarks(s1);
    assert s != [];
    Unsnoc(Erase(Pop(s)), Last(s), Erase(st), k);
    BottomCertain(st);
    assert Pop(s) != [] by { assert Erase([]) == []; }
  }

  /** Scanning a token, a middle part, a token and the rest is scanning them in turn. */
  lemma ScanThree(ts: seq<Tok>, m: nat, st: seq<Kind>)
    requires 1 <= m < |ts|
    requires Step(ts[0], st).More? && Scan(ts[1..m], Step(ts[0], st).stack).More?
    requires Step(ts[m], Scan(ts[1..m], Step(ts[0], st).stack).stack).More?
    ensures var s1 := Scan(ts[1..m], Step(ts[0], st).stack).stack;
            Scan(ts, st) == Shift(Scan(ts[m + 1..], Step(ts[m], s1).stack), m + 1)
  {
    var s0 := Step(ts[0], st).stack;
    assert ts[1..] == ts[1..m] + ts[m..];
    ScanConcat(ts[1..m], ts[m..], s0);
    assert ts[m..][1..] == ts[m + 1..] && ts[m..][0] == ts[m];
  }

  /** A scan at a closer whose opener is on top. */
  lemma ScanCloser(ts: seq<Tok>, st: seq<Kind>, k: Kind, e: seq<Kind>)
    requires ts != [] && ts[0] == Close(k) && Erase(st) == e + [k]
    ensures var s := DropMarks(st);
            && s != [] && s <= st && Erase(Pop(s)) == e
            && Scan(ts, st) == if |s| == 1 then Done(1) else Shift(Scan(ts[1..], Pop(s)), 1)
  {
    DropMarksErase(st);
    var s := DropMarks(st);
    assert s != [];
    Unsnoc(Erase(Pop(s)), Last(s), e, k);
  }

  lemma {:induction false} ScanComplete(ts: seq<Tok>, w: string, st: seq<Kind>, u: string)
    requires Reads(ts, w) && st != [] && st[0] != Angle
    requires u <= w && Completes(Erase(st), u, false)
    ensures Scan(ts, st) == Done(|u|)
    decreases |Erase(st)|
  {
    BottomCertain(st);
    var e := Erase(st);
    var i := FirstCut(e, u);
    var s := CutScan(ts, w, st, u, i);
    CompletesRest(s, e, u, i);
    if |s| > 1 {
      RestReads(ts, w, u, i + 1);
      ScanComplete(ts[i + 1..], w[i + 1..], Pop(s), u[i + 1..]);
    }
  }

  lemma RestReads(ts: seq<Tok>, w: string, u: string, i: nat)
    requires Reads(ts, w) && u <= w && i <= |u|
    ensures Reads(ts[i..], w[i..]) && u[i..] <= w[i..]
  {
  }

  lemma CompletesRest(s: seq<Kind>, e: seq<Kind>, u: string, i: nat)
    requires s != [] && e != [] && Erase(Pop(s)) == Pop(e) && CutAt(e, u, false, i)
    ensures Completes(Erase(Pop(s)), u[i + 1..], false)
    ensures |s| == 1 ==> |u| == i + 1
  {
    if |s| == 1 {
      assert Pop(s) == [] && Erase([]) == [];
    }
  }

  /** The scan reaches the closer of a cut with nothing certain added or lost. */
  lemma ReachCloser(ts: seq<Tok>, w: string, st: seq<Kind>, u: string, i: nat) returns (s: seq<Kind>)
    requires Reads(ts, w) && st != [] && st[0] != Angle && u <= w && i < |u| && Balanced(u[..i], true)
    ensures s != [] && s[0] == st[0] && Erase(s) == Erase(st)
    ensures Scan(ts, st) == Shift(Scan(ts[i..], s), i)
  {
    var f :| IsTree(u[..i], true, f);
    ReadsPrefix(ts, w, u, i);
    ScanForest(ts[..i], f, st);
    s := Scan(ts[..i], st).stack;
    assert ts == ts[..i] + ts[i..];
    ScanConcat(ts[..i], ts[i..], st);
  }

  /** One cut of `Completes`: the scan reaches the closer with its opener on top. */
  lemma CutScan(ts: seq<Tok>, w: string, st: seq<Kind>, u: string, i: nat) returns (s: seq<Kind>)
    requires Reads(ts, w) && st != [] && st[0] != Angle && u <= w && CutAt(Erase(st), u, false, i)
    ensures s != [] && s[0] == st[0] && Erase(Pop(s)) == Pop(Erase(st))
    ensures Scan(ts, st) == if |s| == 1 then Done(i + 1) else Shift(Scan(ts[i + 1..], Pop(s)), i + 1)
  {
    var e := Erase(st);
    var s1 := ReachCloser(ts, w, st, u, i);
    ReadsPrefix(ts, w, u, i);
    LastErased(st);
    assert ts[i] == Close(Last(e));
    assert e == Pop(e) + [Last(e)];
    ScanCloser(ts[i..], s1, Last(e), Pop(e));
    s := DropMarks(s1);
    assert ts[i..][1..] == ts[i + 1..];
  }

  lemma ReadsPrefix(ts: seq<Tok>, w: string, u: string, i: nat)
    requires Reads(ts, w) && u <= w && i < |u|
    ensures Reads(ts[..i], u[..i]) && Agree(ts[i], u[i])
  {
    assert u[..i] == w[..i] && u[i] == w[i];
  }

  lemma {:induction false} LastErased(st: seq<Kind>)
    requires Erase(st) != []
    ensures Last(Erase(st)) != Angle
  {
    if st != [] && Last(st) == Angle {
      LastErased(Pop(st));
    }
  }

  /** The whole story for a scan that holds one certain opener: it ends exactly where the
      text closes that opener, whatever the tentative tokens are. */
  lemma ScanIff(ts: seq<Tok>, w: string, o: char, n: nat)
    requires Reads(ts, w) && IsOpener(o) && n <= |w|
    ensures Scan(ts, [KindOf(o)]) == Done(n) <==> Enclosed([o] + w[..n])
  {
    var st := [KindOf(o)];
    ErasePush([], KindOf(o));
    assert st == [] + st && Erase(st) == st && Pop(st) == [];
    if Scan(ts, st) == Done(n) {
      ScanSound(ts, w, st);
      CompletesOne(o, w[..n]);
    }
    if Enclosed([o] + w[..n]) {
      CompletesOne(o, w[..n]);
      ScanComplete(ts, w, st, w[..n]);
    }
  }

  lemma FirstCut(st: seq<Kind>, u: string) returns (i: nat)
    requires st != [] && Completes(st, u, false)
    ensures CutAt(st, u, false, i)
  {
    i :| CutAt(st, u, false, i);
  }

  lemma CompletesOne(o: char, u: string)
    requires IsOpener(o)
    ensures Completes([KindOf(o)], u, false) <==> Enclosed([o] + u)
  {
    var st := [KindOf(o)];
    var v := [o] + u;
    assert Pop(st) == [];
    if Completes(st, u, false) {
      var i := FirstCut(st, u);
      assert Completes([], u[i + 1..], false);
      assert |u| == i + 1;
      assert v[1..|v| - 1] == u[..i];
    }
    if Enclosed(v) {
      var n := |u| - 1;
      assert v[1..|v| - 1] == u[..n];
      assert u[n + 1..] == "";
      assert CutAt(st, u, false, n);
    }
  }

  /** The tokens read the text, and a scan may be accepted only at the character c. */
  predicate Accepts(ts: seq<Tok>, w: string, c: char) {
    Reads(ts, w) && forall i :: 0 <= i < |ts| && ts[i] == Unmark(true) ==> w[i] == c
  }

  lemma AcceptsConcat(a: seq<Tok>, b: seq<Tok>, v: string, w: string, c: char)
    requires Accepts(a, v, c) && Accepts(b, w, c)
    ensures Accepts(a + b, v + w, c)
  {
  }

  /** A scan that starts from one tentative bracket. */
  lemma AngleScan(ts: seq<Tok>, w: string, u: string, c: char)
    requires Accepts(ts, w, c) && u <= w && Scan(ts, [Angle]) == Done(|u|)
    ensures u != "" && u[|u| - 1] == c && Balanced(u[..|u| - 1], false)
  {
    ScanSound(ts, w, [Angle]);
    ErasePush([], Angle);
    assert [Angle] == [] + [Angle] && Erase([Angle]) == [];
    assert w[..|u|] == u;
  }

  lemma AngleScanText(ts: seq<Tok>, w: string, u: string)
    requires Accepts(ts, w, '>') && u <= w && Scan(ts, [Angle]) == Done(|u|)
    ensures AngleText(['<'] + u)
  {
    AngleScan(ts, w, u, '>');
    var v := ['<'] + u;
    assert v[1..|v| - 1] == u[..|u| - 1];
  }

  /** `ScanIff` and `AngleScan` for a scan that runs over mirrored text. */
  lemma MirroredScanIff(ts: seq<Tok>, w: string, u: string, o: char)
    requires Reads(ts, w) && Mirror(u) <= w && IsOpener(o)
    ensures Scan(ts, [KindOf(o)]) == Done(|u|) <==> Enclosed(u + [Flip(o)])
  {
    assert w[..|u|] == Mirror(u);
    ScanIff(ts, w, o, |u|);
    MirrorConcat(u, [Flip(o)]);
    assert Mirror([Flip(o)]) == [o];
    MirrorEnclosed(u + [Flip(o)]);
  }

  lemma MirroredAngleScan(ts: seq<Tok>, w: string, u: string)
    requires Accepts(ts, w, '<') && Mirror(u) <= w && Scan(ts, [Angle]) == Done(|u|)
    ensures AngleText(u + ['>'])
  {
    AngleScan(ts, w, Mirror(u), '<');
    assert Mirror(u)[..|u| - 1] == Mirror(u[1..]);
    MirrorBalanced(u[1..], false);
    var v := u + ['>'];
    assert v[1..|v| - 1] == u[1..];
    assert Mirror(u)[|u| - 1] == Flip(u[0]);
  }
}
