/** What the search from a tentative bracket computes, without a stack: a depth counter that
    steps over whole groups of certain brackets. */
module AngleCounter {
  import opened Options
  import opened BracketGrammar
  import opened TentativeScan
  import opened Matchers
  import opened Spans

  // --------------------------------------------------------------------- the reference

  /** Counting from depth `d`, the n-th token brings the depth to zero and is accepted. A
      certain opener is stepped over together with the group it starts; outside the groups
      a semicolon or a closer ends the count in vain. */
  ghost predicate EndsAfter(ts: seq<Tok>, w: string, d: nat, n: nat)
    requires |ts| == |w|
    decreases |ts|
  {
    && 1 <= n <= |ts|
    && match ts[0]
       case Skip => EndsAfter(ts[1..], w[1..], d, n - 1)
       case Mark => EndsAfter(ts[1..], w[1..], d + 1, n - 1)
       case Unmark(accepts) => if d == 1 then accepts && n == 1 else d > 1 && EndsAfter(ts[1..], w[1..], d - 1, n - 1)
       case Open(_) => exists i: nat :: GroupThen(ts, w, d, n, i)
       case Semi => false
       case Close(_) => false
  }

  ghost predicate GroupThen(ts: seq<Tok>, w: string, d: nat, n: nat, i: nat)
    requires |ts| == |w| && n <= |ts|
    decreases |ts|, 0
  {
    0 < i < n && Enclosed(w[..i + 1]) && EndsAfter(ts[i + 1..], w[i + 1..], d, n - i - 1)
  }

  // ------------------------------------------------- what lies below a certain bracket

  lemma {:induction false} DropMarksAbove(p: seq<Kind>, s: seq<Kind>)
    requires s != [] && s[0] != Angle
    ensures DropMarks(s) != [] && DropMarks(s)[0] == s[0]
    ensures DropMarks(p + s) == p + DropMarks(s)
  {
    if Last(s) == Angle {
      assert Pop(p + s) == p + Pop(s);
      DropMarksAbove(p, Pop(s));
    }
  }

  lemma StepAbove(t: Tok, p: seq<Kind>, s: seq<Kind>)
    requires s != [] && s[0] != Angle
    ensures match Step(t, s)
            case More(s') => s' != [] && s'[0] == s[0] && Step(t, p + s) == More(p + s')
            case Fail => Step(t, p + s) == Fail
            case Done(_) => Step(t, p + s) == if p == [] then Done(1) else More(p)
  {
    DropMarksAbove(p, s);
    var m := DropMarks(s);
    assert Pop(p + s) == p + Pop(s) && Pop(p + m) == p + Pop(m);
    assert p + s + [Angle] == p + (s + [Angle]);
    if t.Open? {
      assert p + s + [t.kind] == p + (s + [t.kind]);
    }
  }

  /** A scan above a certain bracket never touches what lies below before it closes. */
  lemma {:induction false} ScanAbove(ts: seq<Tok>, p: seq<Kind>, s: seq<Kind>)
    requires s != [] && s[0] != Angle && p != []
    ensures match Scan(ts, s)
            case Done(m) => Scan(ts, p + s) == Shift(Scan(ts[m..], p), m)
            case More(s') => s' != [] && s'[0] == s[0] && Scan(ts, p + s) == More(p + s')
            case Fail => Scan(ts, p + s) == Fail
  {
    if ts != [] {
      StepAbove(ts[0], p, s);
      var r := Step(ts[0], s);
      if r.More? {
        ScanAbove(ts[1..], p, r.stack);
        var rest := Scan(ts[1..], r.stack);
        if rest.Done? {
          assert ts[1..][rest.n..] == ts[rest.n + 1..];
        }
      }
    }
  }

  function Marks(d: nat): (st: seq<Kind>)
    ensures |st| == d
  {
    seq(d, _ => Angle)
  }

  lemma {:induction false} DropAllMarks(d: nat)
    ensures DropMarks(Marks(d)) == []
  {
    if d > 0 {
      assert Pop(Marks(d)) == Marks(d - 1);
      DropAllMarks(d - 1);
    }
  }

  lemma StepMarks(t: Tok, d: nat)
    requires d > 0 && !t.Open?
    ensures Step(t, Marks(d)) == match t
                                 case Skip => More(Marks(d))
                                 case Mark => More(Marks(d + 1))
                                 case Unmark(accepts) =>
                                   if d > 1 then More(Marks(d - 1)) else if accepts then Done(1) else Fail
                                 case Semi => Fail
                                 case Close(_) => Fail
                                 case Open(_) => Fail
  {
    DropAllMarks(d);
    assert Pop(Marks(d)) == Marks(d - 1);
    assert Marks(d) + [Angle] == Marks(d + 1);
  }

  lemma ReadsRest(ts: seq<Tok>, w: string, i: nat)
    requires Reads(ts, w) && i <= |ts|
    ensures Reads(ts[i..], w[i..])
  {
  }

  /** The scan over a group of certain brackets and on. */
  lemma GroupScan(ts: seq<Tok>, w: string, d: nat, i: nat)
    requires Reads(ts, w) && ts != [] && ts[0].Open? && d > 0 && 0 < i < |ts|
    ensures Scan(ts[1..], [ts[0].kind]) == Done(i) <==> Enclosed(w[..i + 1])
    ensures Enclosed(w[..i + 1]) ==> Scan(ts, Marks(d)) == Shift(Scan(ts[i + 1..], Marks(d)), i + 1)
  {
    var k := ts[0].kind;
    assert Agree(ts[0], w[0]);
    ReadsRest(ts, w, 1);
    ScanIff(ts[1..], w[1..], w[0], i);
    assert [w[0]] + w[1..][..i] == w[..i + 1];
    if Enclosed(w[..i + 1]) {
      ScanAbove(ts[1..], Marks(d), [k]);
      assert ts[1..][i..] == ts[i + 1..];
    }
  }

  lemma OpenNeedsGroup(ts: seq<Tok>, w: string, d: nat) returns (i: nat)
    requires Reads(ts, w) && ts != [] && ts[0].Open? && d > 0 && Scan(ts, Marks(d)).Done?
    ensures 0 < i < |ts| && Enclosed(w[..i + 1])
  {
    var k := ts[0].kind;
    assert Agree(ts[0], w[0]);
    ScanAbove(ts[1..], Marks(d), [k]);
    i := Scan(ts[1..], [k]).n;
    GroupScan(ts, w, d, i);
  }

  /** From d tentative brackets the stack machine ends exactly where the counter does. */
  lemma {:induction false} ScanIsCount(ts: seq<Tok>, w: string, d: nat, n: nat)
    requires Reads(ts, w) && d > 0
    ensures Scan(ts, Marks(d)) == Done(n) <==> EndsAfter(ts, w, d, n)
    decreases |ts|, 2
  {
    if ts == [] {
    } else if ts[0].Open? {
      OpenIsCount(ts, w, d, n);
    } else {
      StepMarks(ts[0], d);
      ReadsRest(ts, w, 1);
      var d' := if ts[0].Mark? then d + 1 else if ts[0].Unmark? then d - 1 else d;
      if d' > 0 && n > 0 {
        ScanIsCount(ts[1..], w[1..], d', n - 1);
      }
    }
  }

  lemma FirstGroup(ts: seq<Tok>, w: string, d: nat, n: nat) returns (i: nat)
    requires |ts| == |w| && EndsAfter(ts, w, d, n) && ts[0].Open?
    ensures GroupThen(ts, w, d, n, i)
  {
    i :| GroupThen(ts, w, d, n, i);
  }

  lemma {:induction false} OpenIsCount(ts: seq<Tok>, w: string, d: nat, n: nat)
    requires Reads(ts, w) && d > 0 && ts != [] && ts[0].Open?
    ensures Scan(ts, Marks(d)) == Done(n) <==> EndsAfter(ts, w, d, n)
    decreases |ts|, 1
  {
    if Scan(ts, Marks(d)) == Done(n) {
      var i := ScanIsGroupThen(ts, w, d, n);
    }
    if EndsAfter(ts, w, d, n) {
      CountIsScan(ts, w, d, n);
    }
  }

  lemma {:induction false} ScanIsGroupThen(ts: seq<Tok>, w: string, d: nat, n: nat) returns (i: nat)
    requires Reads(ts, w) && d > 0 && ts != [] && ts[0].Open? && Scan(ts, Marks(d)) == Done(n)
    ensures GroupThen(ts, w, d, n, i)
    decreases |ts|, 0
  {
    i := OpenNeedsGroup(ts, w, d);
    GroupScan(ts, w, d, i);
    ReadsRest(ts, w, i + 1);
    ScanIsCount(ts[i + 1..], w[i + 1..], d, n - i - 1);
  }

  lemma {:induction false} CountIsScan(ts: seq<Tok>, w: string, d: nat, n: nat)
    requires Reads(ts, w) && d > 0 && ts != [] && ts[0].Open? && EndsAfter(ts, w, d, n)
    ensures Scan(ts, Marks(d)) == Done(n)
    decreases |ts|, 0
  {
    var i := FirstGroup(ts, w, d, n);
    GroupScan(ts, w, d, i);
    ReadsRest(ts, w, i + 1);
    ScanIsCount(ts[i + 1..], w[i + 1..], d, n - i - 1);
  }

  // -------------------------------------------------------------------- in whole files

  /** A `<` that CloseExpression looks at is pushed. */
  predicate StartsList(line: string, p: nat)
    requires p < |line|
  {
    ForwardTok(line, p) == Mark && !(p + 1 < |line| && (line[p + 1] == '<' || line[p + 1] == '='))
  }

  /** Counted from depth 1 at (l, p), angle brackets outside groups of certain brackets first
      return to depth zero with the character before (l2, e). */
  ghost predicate DepthReturns(lines: seq<string>, l: nat, p: nat, l2: nat, e: nat)
    requires l <= l2 < |lines| && p <= |lines[l]| && 0 < e <= |lines[l2]| && (l == l2 ==> p <= e)
  {
    FileReads(lines, l, p);
    EndsAfter(FileToks(lines, l, p), FileText(lines, l, p), 1, |Between(lines, l, p, l2, e)|)
  }

  lemma CloseFromCount(lines: seq<string>, l: nat, p: nat, l2: nat, e: nat)
    requires l <= l2 < |lines| && p <= |lines[l]| && 0 < e <= |lines[l2]| && (l == l2 ==> p <= e)
    ensures CloseFrom(lines, l, p, [Angle]) == Some((l2, e)) <==> DepthReturns(lines, l, p, l2, e)
  {
    FileReads(lines, l, p);
    CloseFromScan(lines, l, p, [Angle], l2, e);
    assert Marks(1) == [Angle];
    ScanIsCount(FileToks(lines, l, p), FileText(lines, l, p), 1, |Between(lines, l, p, l2, e)|);
  }

  lemma CloseFromMark(lines: seq<string>, l: nat, p: nat)
    requires l < |lines| && p < |lines[l]| && StartsList(lines[l], p)
    ensures CloseAt(lines, l, p) == CloseFrom(lines, l, p + 1, [Angle])
    ensures var r := CloseAt(lines, l, p); r.Some? ==> IsRegion(lines, l, p, r.value.0, r.value.1)
  {
    assert Step(Mark, []) == More([] + [Angle]);
    CloseFromPushed(lines, l, p, Angle);
    CloseFromLater(lines, l, p, []);
  }

  /** From a pushed `<` the forward search ends exactly where the depth of angle brackets,
      counted outside groups of certain brackets, first returns to zero at a `>`. */
  lemma CloseAngleExactly(lines: seq<string>, l: nat, p: nat, l2: nat, e: nat)
    requires l < |lines| && p < |lines[l]| && StartsList(lines[l], p)
    ensures CloseAt(lines, l, p) == Some((l2, e))
       <==> IsRegion(lines, l, p, l2, e) && DepthReturns(lines, l, p + 1, l2, e)
  {
    CloseFromMark(lines, l, p);
    if IsRegion(lines, l, p, l2, e) {
      CloseFromCount(lines, l, p + 1, l2, e);
    }
  }

  /** The same depth, counted backward from (l, p) to the character at (l1, p1). */
  ghost predicate DepthReturnsBack(lines: seq<string>, l: nat, p: int, l1: nat, p1: nat)
    requires l1 <= l < |lines| && -1 <= p < |lines[l]| && p1 < |lines[l1]| && (l1 == l ==> p1 <= p + 1)
  {
    BackReads(lines, l, p);
    EndsAfter(BackToks(lines, l, p), BackText(lines, l, p), 1, |Between(lines, l1, p1, l, p + 1)|)
  }

  lemma OpenFromCount(lines: seq<string>, l: nat, p: int, l1: nat, p1: nat)
    requires l1 <= l < |lines| && -1 <= p < |lines[l]| && p1 < |lines[l1]| && (l1 == l ==> p1 <= p + 1)
    ensures OpenFrom(lines, l, p, [Angle]) == Some((l1, p1)) <==> DepthReturnsBack(lines, l, p, l1, p1)
  {
    BackReads(lines, l, p);
    OpenFromScan(lines, l, p, [Angle], l1, p1);
    assert Marks(1) == [Angle];
    ScanIsCount(BackToks(lines, l, p), BackText(lines, l, p), 1, |Between(lines, l1, p1, l, p + 1)|);
  }

  lemma OpenFromMark(lines: seq<string>, l: nat, p: nat)
    requires l < |lines| && p < |lines[l]| && BackwardTok(lines[l], p) == Mark
    ensures OpenAt(lines, l, p) == OpenFrom(lines, l, p - 1, [Angle])
    ensures var r := OpenAt(lines, l, p); r.Some? ==> IsRegion(lines, r.value.0, r.value.1, l, p + 1)
  {
    assert Step(Mark, []) == More([] + [Angle]);
    OpenFromPushed(lines, l, p, Angle);
    OpenFromEarlier(lines, l, p, []);
  }

  /** The same backward from a pushed `>`: the text before it is read mirrored. */
  lemma OpenAngleExactly(lines: seq<string>, l: nat, p: nat, l1: nat, p1: nat)
    requires l < |lines| && p < |lines[l]| && BackwardTok(lines[l], p) == Mark
    ensures OpenAt(lines, l, p) == Some((l1, p1))
       <==> IsRegion(lines, l1, p1, l, p + 1) && DepthReturnsBack(lines, l, p - 1, l1, p1)
  {
    OpenFromMark(lines, l, p);
    if IsRegion(lines, l1, p1, l, p + 1) {
      OpenFromCount(lines, l, p - 1, l1, p1);
    }
  }
}
