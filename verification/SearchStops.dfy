/** Where the two searches stop: exactly at the first line that settles them, whatever the
    lines beyond it say. */
module SearchStops {
  import opened Options
  import opened BracketGrammar
  import opened TentativeScan
  import opened Matchers
  import opened Spans

  // --------------------------------------------------------------- text that ends a search

  /** Lines of one character each that end a forward search with this stack. */
  function Endings(st: seq<Kind>): (r: seq<string>)
    decreases |st|
  {
    if st == [] then [] else [if Last(st) == Angle then ">" else [CloserOf(Last(st))]] + Endings(Pop(st))
  }

  lemma EndingStep(line: string, st: seq<Kind>)
    requires st != [] && line == if Last(st) == Angle then ">" else [CloserOf(Last(st))]
    ensures Scan(ForwardToks(line, 0), st) == if |st| == 1 then Done(1) else More(Pop(st))
  {
    ForwardUnfold(line, 0, st);
  }

  lemma {:induction false} EndingsEnd(lines: seq<string>, l: nat, st: seq<Kind>)
    requires st != [] && l < |lines| && lines[l..] == Endings(st)
    ensures CloseFrom(lines, l, 0, st).Some?
    decreases |st|
  {
    assert lines[l] == lines[l..][0];
    EndingStep(lines[l], st);
    if |st| > 1 {
      assert lines[l + 1..] == lines[l..][1..] == Endings(Pop(st));
      assert Endings(Pop(st)) != [];
      EndingsEnd(lines, l + 1, Pop(st));
    }
  }

  // ------------------------------------------------------------------------------- forward

  /** Before the line where it stops a search is open: further lines could still end it. */
  lemma {:induction false} CloseIsOpen(lines: seq<string>, l: nat, p: nat, st: seq<Kind>, m: nat)
    returns (more: seq<string>)
    requires l < |lines| && p <= |lines[l]| && l <= m < CloseStops(lines, l, p, st)
    ensures CloseFrom(lines[..m + 1] + more, l, p, st).Some?
    decreases m - l
  {
    var s := Scan(ForwardToks(lines[l], p), st).stack;
    if m == l {
      more := Endings(s);
      var file := lines[..m + 1] + more;
      assert file[l + 1..] == more && file[l] == lines[l];
      EndingsEnd(file, l + 1, s);
    } else {
      more := CloseIsOpen(lines, l + 1, 0, s, m);
      assert (lines[..m + 1] + more)[l] == lines[l];
    }
  }

  /** At the line where it stops it is settled, unless that is the last line. */
  lemma {:induction false} CloseIsSettled(lines: seq<string>, lines': seq<string>, l: nat, p: nat, st: seq<Kind>)
    requires l < |lines| && p <= |lines[l]|
    requires var r := CloseStops(lines, l, p, st);
             && r < |lines'| && (r + 1 < |lines| || CloseFrom(lines, l, p, st).Some?)
             && forall k :: l <= k <= r ==> lines'[k] == lines[k]
    ensures CloseFrom(lines', l, p, st) == CloseFrom(lines, l, p, st)
    decreases |lines| - l
  {
    var r := Scan(ForwardToks(lines[l], p), st);
    if r.More? && r.stack != [] && l + 1 < |lines| {
      CloseIsSettled(lines, lines', l + 1, 0, r.stack);
    }
  }

  /** With these lines in place of all after m the search from (l, p) succeeds. */
  predicate ClosesWith(lines: seq<string>, l: nat, p: nat, m: nat, more: seq<string>) {
    l <= m < |lines| && p <= |lines[l]| && CloseFrom(lines[..m + 1] + more, l, p, []).Some?
  }

  /** CloseExpression stops at line r if and only if its answer is settled there and before it
      is not, or the file ends there. */
  lemma CloseStopsExactly(lines: seq<string>, l: nat, p: nat, lines': seq<string>, m: nat)
    requires l < |lines| && p < |lines[l]|
    requires var r := CloseStops(lines, l, p, []);
             r < |lines'| && l <= m && forall k :: l <= k <= r ==> lines'[k] == lines[k]
    ensures var r := CloseStops(lines, l, p, []);
            && (CloseFrom(lines, l, p, []).Some? ==> CloseFrom(lines, l, p, []).value.0 == r)
            && (r + 1 < |lines| ==> CloseFrom(lines', l, p, []) == CloseFrom(lines, l, p, []))
            && (m < r ==> exists more :: ClosesWith(lines, l, p, m, more))
  {
    if CloseFrom(lines, l, p, []).Some? {
      CloseStopsFound(lines, l, p, []);
    }
    if CloseStops(lines, l, p, []) + 1 < |lines| {
      CloseIsSettled(lines, lines', l, p, []);
    }
    if m < CloseStops(lines, l, p, []) {
      var more := CloseIsOpen(lines, l, p, [], m);
      assert ClosesWith(lines, l, p, m, more);
    }
  }

  lemma {:induction false} CloseStopsFound(lines: seq<string>, l: nat, p: nat, st: seq<Kind>)
    requires l < |lines| && p <= |lines[l]| && CloseFrom(lines, l, p, st).Some?
    ensures CloseFrom(lines, l, p, st).value.0 == CloseStops(lines, l, p, st)
    decreases |lines| - l
  {
    var r := Scan(ForwardToks(lines[l], p), st);
    if r.More? {
      CloseStopsFound(lines, l + 1, 0, r.stack);
    }
  }

  // ------------------------------------------------------------------------------ backward

  /** Lines of one character each that, read backward, end a backward search with this stack. */
  function Beginnings(st: seq<Kind>): seq<string>
    decreases |st|
  {
    if st == [] then [] else Beginnings(Pop(st)) + [[OpenerOf(Last(st))]]
  }

  lemma BeginningStep(line: string, st: seq<Kind>)
    requires st != [] && line == [OpenerOf(Last(st))]
    ensures Scan(BackwardToks(line, 0), st) == if |st| == 1 then Done(1) else More(Pop(st))
  {
    BackwardUnfold(line, 0, st);
  }

  lemma {:induction false} BeginningsEnd(lines: seq<string>, l: nat, st: seq<Kind>)
    requires st != [] && l < |lines| && lines[..l + 1] == Beginnings(st)
    ensures |lines[l]| == 1 && OpenFrom(lines, l, 0, st).Some?
    decreases |st|
  {
    assert lines[l] == lines[..l + 1][l];
    BeginningStep(lines[l], st);
    if |st| > 1 {
      assert Beginnings(Pop(st)) != [];
      assert lines[..l] == lines[..l + 1][..l] == Beginnings(Pop(st));
      BeginningsEnd(lines, l - 1, Pop(st));
    }
  }

  /** Past the line where it stops a backward search is open: other lines there could end it. */
  lemma {:induction false} OpenIsOpen(lines: seq<string>, l: nat, p: int, st: seq<Kind>, m: nat)
    returns (more: seq<string>)
    requires l < |lines| && -1 <= p < |lines[l]| && OpenStops(lines, l, p, st) < m <= l
    ensures OpenFrom(more + lines[m..], |more| + l - m, p, st).Some?
    decreases l
  {
    var s := Scan(BackwardToks(lines[l], p), st).stack;
    if m == l {
      more := Beginnings(s);
      var file := more + lines[m..];
      assert file[..|more|] == more && file[|more|] == lines[l] && more != [];
      BeginningsEnd(file, |more| - 1, s);
    } else {
      more := OpenIsOpen(lines, l - 1, |lines[l - 1]| - 1, s, m);
      var file := more + lines[m..];
      assert file[|more| + l - m] == lines[l] && file[|more| + l - 1 - m] == lines[l - 1];
    }
  }

  /** The same place d lines further down. */
  predicate Moved(a: Place, b: Place, d: int) {
    && (a.Some? <==> b.Some?)
    && (a.Some? ==> b.value.0 == a.value.0 + d && b.value.1 == a.value.1)
  }

  lemma {:induction false} OpenIsSettled(lines: seq<string>, lines': seq<string>, l: nat, d: int, p: int, st: seq<Kind>)
    requires l < |lines| && -1 <= p < |lines[l]|
    requires var r := OpenStops(lines, l, p, st);
             && 0 <= r + d && l + d < |lines'| && (r > 0 || OpenFrom(lines, l, p, st).Some?)
             && forall k :: r <= k <= l ==> lines'[k + d] == lines[k]
    ensures Moved(OpenFrom(lines, l, p, st), OpenFrom(lines', l + d, p, st), d)
    decreases l
  {
    assert lines'[l + d] == lines[l];
    var r := Scan(BackwardToks(lines[l], p), st);
    if r.More? && r.stack != [] && l > 0 {
      assert lines'[l - 1 + d] == lines[l - 1];
      OpenIsSettled(lines, lines', l - 1, d, |lines[l - 1]| - 1, r.stack);
    }
  }

  lemma {:induction false} OpenStopsFound(lines: seq<string>, l: nat, p: int, st: seq<Kind>)
    requires l < |lines| && -1 <= p < |lines[l]| && OpenFrom(lines, l, p, st).Some?
    ensures OpenFrom(lines, l, p, st).value.0 == OpenStops(lines, l, p, st)
    decreases l
  {
    var r := Scan(BackwardToks(lines[l], p), st);
    if r.More? {
      OpenStopsFound(lines, l - 1, |lines[l - 1]| - 1, r.stack);
    }
  }

  /** With these lines in place of all before m the search from (l, p) succeeds. */
  predicate OpensWith(lines: seq<string>, l: nat, p: nat, m: nat, more: seq<string>) {
    && m <= l < |lines| && p < |lines[l]| && (more + lines[m..])[|more| + l - m] == lines[l]
    && OpenFrom(more + lines[m..], |more| + l - m, p, []).Some?
  }

  /** The same for ReverseCloseExpression. */
  lemma OpenStopsExactly(lines: seq<string>, l: nat, p: nat, lines': seq<string>, d: int, m: nat)
    requires l < |lines| && p < |lines[l]|
    requires var r := OpenStops(lines, l, p, []);
             0 <= r + d && l + d < |lines'| && m <= l && forall k :: r <= k <= l ==> lines'[k + d] == lines[k]
    ensures var r := OpenStops(lines, l, p, []);
            && (OpenFrom(lines, l, p, []).Some? ==> OpenFrom(lines, l, p, []).value.0 == r)
            && |lines'[l + d]| == |lines[l]|
            && (r > 0 ==> Moved(OpenFrom(lines, l, p, []), OpenFrom(lines', l + d, p, []), d))
            && (r < m ==> exists more :: OpensWith(lines, l, p, m, more))
  {
    assert lines'[l + d] == lines[l];
    if OpenFrom(lines, l, p, []).Some? {
      OpenStopsFound(lines, l, p, []);
    }
    if OpenStops(lines, l, p, []) > 0 {
      OpenIsSettled(lines, lines', l, d, p, []);
    }
    if OpenStops(lines, l, p, []) < m {
      var more := OpenIsOpen(lines, l, p, [], m);
      assert OpensWith(lines, l, p, m, more);
    }
  }
}
