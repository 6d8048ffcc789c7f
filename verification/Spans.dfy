/** The two bracket matchers over a whole file, and what they have in common: both find
    exactly the bracket groups of the text. */
module Spans {
  import opened Options
  import opened BracketGrammar
  import opened TentativeScan
  import opened Matchers

  type Place = Option<(nat, nat)>

  // ------------------------------------------------------------------- text of a region

  /** The text from (l1, p1) up to but not including (l2, e), line ends left out. */
  function Between(lines: seq<string>, l1: nat, p1: nat, l2: nat, e: nat): (w: string)
    requires l1 <= l2 < |lines| && p1 <= |lines[l1]| && e <= |lines[l2]| && (l1 == l2 ==> p1 <= e)
    ensures |w| >= if l1 == l2 then e - p1 else |lines[l1]| - p1 + e
    decreases l2 - l1
  {
    if l1 == l2 then lines[l1][p1..e] else lines[l1][p1..] + Between(lines, l1 + 1, 0, l2, e)
  }

  lemma {:induction false} BetweenFromBack(lines: seq<string>, l1: nat, p1: nat, l2: nat, e: nat)
    requires l1 < l2 < |lines| && p1 <= |lines[l1]| && e <= |lines[l2]|
    ensures Between(lines, l1, p1, l2, e)
         == Between(lines, l1, p1, l2 - 1, |lines[l2 - 1]|) + lines[l2][..e]
    decreases l2 - l1
  {
    var head := lines[l1][p1..];
    var tail := lines[l2][..e];
    if l1 + 1 < l2 {
      BetweenFromBack(lines, l1 + 1, 0, l2, e);
      var mid := Between(lines, l1 + 1, 0, l2 - 1, |lines[l2 - 1]|);
      assert head + (mid + tail) == (head + mid) + tail;
    } else {
      assert lines[l1][p1..|lines[l1]|] == head && lines[l2][0..e] == tail;
    }
  }

  /** (l1, p1) holds a character and (l2, e) is the place just after one. */
  predicate IsRegion(lines: seq<string>, l1: nat, p1: nat, l2: nat, e: nat) {
    l1 <= l2 < |lines| && p1 < |lines[l1]| && 0 < e <= |lines[l2]| && (l1 == l2 ==> p1 < e)
  }

  /** A bracket group of the file. */
  ghost predicate BracketSpan(lines: seq<string>, l1: nat, p1: nat, l2: nat, e: nat) {
    IsRegion(lines, l1, p1, l2, e) && Enclosed(Between(lines, l1, p1, l2, e))
  }

  /** A candidate template argument list: certain brackets inside are balanced and every
      semicolon inside belongs to one of their groups. */
  ghost predicate AngleSpan(lines: seq<string>, l1: nat, p1: nat, l2: nat, e: nat) {
    IsRegion(lines, l1, p1, l2, e) && AngleText(Between(lines, l1, p1, l2, e))
  }

  // ------------------------------------------------------------------- forward matcher

  function CloseFrom(lines: seq<string>, l: nat, p: nat, st: seq<Kind>): Place
    requires l < |lines| && p <= |lines[l]|
    decreases |lines| - l
  {
    match Scan(ForwardToks(lines[l], p), st)
    case Done(n) => Some((l, p + n))
    case Fail => None
    case More(s) => if s == [] || l + 1 == |lines| then None else CloseFrom(lines, l + 1, 0, s)
  }

  /** The place just past the bracket that closes the one at (l, p). */
  function CloseAt(lines: seq<string>, l: nat, p: nat): Place
    requires l < |lines| && p < |lines[l]|
  {
    if Searches(lines[l], p) then CloseFrom(lines, l, p, []) else None
  }

  /** The line where a search stops, with or without success. */
  function CloseStops(lines: seq<string>, l: nat, p: nat, st: seq<Kind>): (r: nat)
    requires l < |lines| && p <= |lines[l]|
    ensures l <= r < |lines|
    decreases |lines| - l
  {
    match Scan(ForwardToks(lines[l], p), st)
    case More(s) => if s == [] || l + 1 == |lines| then l else CloseStops(lines, l + 1, 0, s)
    case _ => l
  }

  /** CloseExpression looks for the end of the bracket at (l, p). */
  predicate Searches(line: string, p: nat)
    requires p < |line|
  {
    && (IsOpener(line[p]) || line[p] == '<')
    && !(line[p] == '<' && p + 1 < |line| && (line[p + 1] == '<' || line[p + 1] == '='))
  }

  /** What the report of the search in one line means for the whole search. */
  lemma CloseFromReport(lines: seq<string>, l: nat, p: nat, st: seq<Kind>, end: int, rest: Option<seq<Kind>>)
    requires l < |lines| && p <= |lines[l]|
    requires var r := Scan(ForwardToks(lines[l], p), st); Reports(r, if r.Done? then p + r.n else -1, end, rest)
    ensures CloseFrom(lines, l, p, st)
         == if end > -1 then Some((l, end))
            else if rest.None? || rest.value == [] || l + 1 == |lines| then None
            else CloseFrom(lines, l + 1, 0, rest.value)
    ensures CloseStops(lines, l, p, st)
         == if end > -1 || rest.None? || rest.value == [] || l + 1 == |lines| then l
            else CloseStops(lines, l + 1, 0, rest.value)
  {
  }

  method CloseExpression(lines: seq<string>, linenum: nat, pos: nat)
    returns (line: string, endLine: nat, endPos: int)
    requires linenum < |lines| && pos < |lines[linenum]|
    ensures match CloseAt(lines, linenum, pos)
            case Some((l, e)) => endLine == l && endPos == e && l < |lines| && line == lines[l]
            case None => endLine == |lines| && endPos == -1
    ensures line == lines[if Searches(lines[linenum], pos) then CloseStops(lines, linenum, pos, []) else linenum]
  {
    line := lines[linenum];
    if !(IsOpener(line[pos]) || line[pos] == '<')
       || (line[pos] == '<' && pos + 1 < |line| && (line[pos + 1] == '<' || line[pos + 1] == '='))
    {
      return line, |lines|, -1;
    }
    var end, stack := FindEndOfExpressionInLine(line, pos, []);
    CloseFromReport(lines, linenum, pos, [], end, stack);
    if end > -1 {
      return line, linenum, end;
    }
    var l := linenum;
    while stack.Some? && stack.value != [] && l < |lines| - 1
      invariant linenum <= l < |lines|
      invariant CloseAt(lines, linenum, pos)
             == if stack.None? || stack.value == [] || l + 1 == |lines| then None
                else CloseFrom(lines, l + 1, 0, stack.value)
      invariant line == lines[l]
      invariant CloseStops(lines, linenum, pos, [])
             == if stack.None? || stack.value == [] || l + 1 == |lines| then l
                else CloseStops(lines, l + 1, 0, stack.value)
      decreases |lines| - l
    {
      l := l + 1;
      line := lines[l];
      ghost var before := stack.value;
      end, stack := FindEndOfExpressionInLine(line, 0, stack.value);
      CloseFromReport(lines, l, 0, before, end, stack);
      if end > -1 {
        return line, l, end;
      }
    }
    return line, |lines|, -1;
  }

  function FileToks(lines: seq<string>, l: nat, p: nat): seq<Tok>
    requires l < |lines| && p <= |lines[l]|
    decreases |lines| - l
  {
    ForwardToks(lines[l], p) + if l + 1 < |lines| then FileToks(lines, l + 1, 0) else []
  }

  function FileText(lines: seq<string>, l: nat, p: nat): string
    requires l < |lines| && p <= |lines[l]|
    decreases |lines| - l
  {
    lines[l][p..] + if l + 1 < |lines| then FileText(lines, l + 1, 0) else ""
  }

  lemma {:induction false} FileReads(lines: seq<string>, l: nat, p: nat)
    requires l < |lines| && p <= |lines[l]|
    ensures Accepts(FileToks(lines, l, p), FileText(lines, l, p), '>')
    decreases |lines| - l
  {
    ForwardReads(lines[l], p);
    if l + 1 < |lines| {
      FileReads(lines, l + 1, 0);
      AcceptsConcat(ForwardToks(lines[l], p), FileToks(lines, l + 1, 0),
                    lines[l][p..], FileText(lines, l + 1, 0), '>');
    }
  }

  lemma {:induction false} BetweenIsPrefix(lines: seq<string>, l: nat, p: nat, l2: nat, e: nat)
    requires l <= l2 < |lines| && p <= |lines[l]| && e <= |lines[l2]| && (l == l2 ==> p <= e)
    ensures Between(lines, l, p, l2, e) <= FileText(lines, l, p)
    decreases |lines| - l
  {
    if l < l2 {
      BetweenIsPrefix(lines, l + 1, 0, l2, e);
    } else {
      assert lines[l][p..e] <= lines[l][p..];
    }
  }

  lemma {:induction false} ScanKeepsRoot(ts: seq<Tok>, st: seq<Kind>)
    requires st != [] && Scan(ts, st).More?
    ensures var s := Scan(ts, st).stack; s != [] && s[0] == st[0]
  {
    if ts != [] {
      StepKeepsRoot(ts[0], st);
      ScanKeepsRoot(ts[1..], Step(ts[0], st).stack);
    }
  }

  /** One line of the scan over the rest of the file. */
  lemma LineScan(lines: seq<string>, l: nat, p: nat, st: seq<Kind>)
    requires l < |lines| && p <= |lines[l]|
    ensures var r := Scan(ForwardToks(lines[l], p), st);
            Scan(FileToks(lines, l, p), st)
            == if r.More? && l + 1 < |lines|
               then Shift(Scan(FileToks(lines, l + 1, 0), r.stack), |lines[l]| - p) else r
  {
    var here := ForwardToks(lines[l], p);
    var rest := if l + 1 < |lines| then FileToks(lines, l + 1, 0) else [];
    ScanConcat(here, rest, st);
    assert FileToks(lines, l, p) == here + rest;
  }

  /** Going on line by line is one scan over the rest of the file. */
  lemma {:induction false} CloseFromScan(lines: seq<string>, l: nat, p: nat, st: seq<Kind>, l2: nat, e: nat)
    requires st != [] && l <= l2 < |lines| && p <= |lines[l]| && 0 < e <= |lines[l2]| && (l == l2 ==> p <= e)
    ensures CloseFrom(lines, l, p, st) == Some((l2, e))
       <==> Scan(FileToks(lines, l, p), st) == Done(|Between(lines, l, p, l2, e)|)
    decreases |lines| - l
  {
    var r := Scan(ForwardToks(lines[l], p), st);
    if r.More? {
      ScanKeepsRoot(ForwardToks(lines[l], p), st);
      if l < l2 {
        CloseFromScan(lines, l + 1, 0, r.stack, l2, e);
        CloseGoesOn(lines, l, p, st, r.stack, l2, e);
      } else {
        ClosesLater(lines, l, p, st, r.stack, e);
      }
    } else {
      LineScan(lines, l, p, st);
    }
  }

  lemma CloseGoesOn(lines: seq<string>, l: nat, p: nat, st: seq<Kind>, s: seq<Kind>, l2: nat, e: nat)
    requires l < l2 < |lines| && p <= |lines[l]| && 0 < e <= |lines[l2]| && s != []
    requires Scan(ForwardToks(lines[l], p), st) == More(s)
    requires CloseFrom(lines, l + 1, 0, s) == Some((l2, e))
        <==> Scan(FileToks(lines, l + 1, 0), s) == Done(|Between(lines, l + 1, 0, l2, e)|)
    ensures CloseFrom(lines, l, p, st) == Some((l2, e))
       <==> Scan(FileToks(lines, l, p), st) == Done(|Between(lines, l, p, l2, e)|)
  {
    LineScan(lines, l, p, st);
  }

  lemma ClosesLater(lines: seq<string>, l: nat, p: nat, st: seq<Kind>, s: seq<Kind>, e: nat)
    requires l < |lines| && p <= e <= |lines[l]| && 0 < e
    requires Scan(ForwardToks(lines[l], p), st) == More(s)
    ensures CloseFrom(lines, l, p, st) != Some((l, e))
    ensures Scan(FileToks(lines, l, p), st) != Done(e - p)
  {
    LineScan(lines, l, p, st);
    if l + 1 < |lines| {
      CloseFromLater(lines, l + 1, 0, s);
    }
  }

  lemma {:induction false} CloseFromLater(lines: seq<string>, l: nat, p: nat, st: seq<Kind>)
    requires l < |lines| && p <= |lines[l]|
    ensures var r := CloseFrom(lines, l, p, st);
            r.Some? ==> l <= r.value.0 < |lines| && 0 < r.value.1 <= |lines[r.value.0]|
                        && (l == r.value.0 ==> p < r.value.1)
    decreases |lines| - l
  {
    var r := Scan(ForwardToks(lines[l], p), st);
    if r.More? && r.stack != [] && l + 1 < |lines| {
      CloseFromLater(lines, l + 1, 0, r.stack);
    }
  }

  /** The first step of a search that really pushes its bracket. */
  lemma CloseFromPushed(lines: seq<string>, l: nat, p: nat, k: Kind)
    requires l < |lines| && p < |lines[l]|
    requires Step(ForwardTok(lines[l], p), []) == More([k])
    ensures CloseFrom(lines, l, p, []) == CloseFrom(lines, l, p + 1, [k])
  {
    ForwardUnfold(lines[l], p, []);
  }

  lemma BetweenHead(lines: seq<string>, l: nat, p: nat, l2: nat, e: nat)
    requires IsRegion(lines, l, p, l2, e)
    ensures Between(lines, l, p, l2, e) == [lines[l][p]] + Between(lines, l, p + 1, l2, e)
  {
    var line := lines[l];
    if l == l2 {
      assert line[p..e] == [line[p]] + line[p + 1..e];
    } else {
      var rest := Between(lines, l + 1, 0, l2, e);
      assert line[p..] == [line[p]] + line[p + 1..];
      assert ([line[p]] + line[p + 1..]) + rest == [line[p]] + (line[p + 1..] + rest);
    }
  }

  /** The scan over the rest of the file, told by the text of a region. */
  lemma RegionIff(lines: seq<string>, l: nat, p: nat, o: char, l2: nat, e: nat)
    requires l <= l2 < |lines| && p <= |lines[l]| && e <= |lines[l2]| && (l == l2 ==> p <= e) && IsOpener(o)
    ensures var u := Between(lines, l, p, l2, e);
            Scan(FileToks(lines, l, p), [KindOf(o)]) == Done(|u|) <==> Enclosed([o] + u)
  {
    var u := Between(lines, l, p, l2, e);
    var w := FileText(lines, l, p);
    FileReads(lines, l, p);
    BetweenIsPrefix(lines, l, p, l2, e);
    assert w[..|u|] == u;
    ScanIff(FileToks(lines, l, p), w, o, |u|);
  }

  lemma RegionAngle(lines: seq<string>, l: nat, p: nat, l2: nat, e: nat)
    requires l <= l2 < |lines| && p <= |lines[l]| && e <= |lines[l2]| && (l == l2 ==> p <= e)
    requires Scan(FileToks(lines, l, p), [Angle]) == Done(|Between(lines, l, p, l2, e)|)
    ensures AngleText(['<'] + Between(lines, l, p, l2, e))
  {
    FileReads(lines, l, p);
    BetweenIsPrefix(lines, l, p, l2, e);
    AngleScanText(FileToks(lines, l, p), FileText(lines, l, p), Between(lines, l, p, l2, e));
  }

  lemma CloseFromOpener(lines: seq<string>, l: nat, p: nat)
    requires l < |lines| && p < |lines[l]| && IsOpener(lines[l][p])
    ensures CloseAt(lines, l, p) == CloseFrom(lines, l, p + 1, [KindOf(lines[l][p])])
    ensures var r := CloseAt(lines, l, p); r.Some? ==> IsRegion(lines, l, p, r.value.0, r.value.1)
  {
    var k := KindOf(lines[l][p]);
    assert Step(ForwardTok(lines[l], p), []) == More([] + [k]);
    CloseFromPushed(lines, l, p, k);
    CloseFromLater(lines, l, p, []);
  }

  /** CloseExpression finds exactly the bracket group that starts at the given opener. */
  lemma CloseFindsSpan(lines: seq<string>, l: nat, p: nat, l2: nat, e: nat)
    requires l < |lines| && p < |lines[l]| && IsOpener(lines[l][p])
    ensures CloseAt(lines, l, p) == Some((l2, e)) <==> BracketSpan(lines, l, p, l2, e)
  {
    var o := lines[l][p];
    CloseFromOpener(lines, l, p);
    if IsRegion(lines, l, p, l2, e) {
      CloseFromScan(lines, l, p + 1, [KindOf(o)], l2, e);
      RegionIff(lines, l, p + 1, o, l2, e);
      BetweenHead(lines, l, p, l2, e);
    }
  }

  /** A match from a `<` that was really pushed is a candidate template argument list. */
  lemma CloseAngle(lines: seq<string>, l: nat, p: nat, l2: nat, e: nat)
    requires l < |lines| && p < |lines[l]| && ForwardTok(lines[l], p) == Mark
    requires CloseAt(lines, l, p) == Some((l2, e))
    ensures AngleSpan(lines, l, p, l2, e)
  {
    assert Step(Mark, []) == More([] + [Angle]);
    CloseFromPushed(lines, l, p, Angle);
    CloseFromLater(lines, l, p, []);
    CloseFromScan(lines, l, p + 1, [Angle], l2, e);
    RegionAngle(lines, l, p + 1, l2, e);
    BetweenHead(lines, l, p, l2, e);
  }

  // ------------------------------------------------------------------ backward matcher

  function OpenFrom(lines: seq<string>, l: nat, p: int, st: seq<Kind>): Place
    requires l < |lines| && -1 <= p < |lines[l]|
  {
    match Scan(BackwardToks(lines[l], p), st)
    case Done(n) => Some((l, p - n + 1))
    case Fail => None
    case More(s) => if s == [] || l == 0 then None else OpenFrom(lines, l - 1, |lines[l - 1]| - 1, s)
  }

  /** The place of the bracket that opens the one at (l, p). */
  function OpenAt(lines: seq<string>, l: nat, p: nat): Place
    requires l < |lines| && p < |lines[l]|
  {
    if IsCloser(lines[l][p]) || lines[l][p] == '>' then OpenFrom(lines, l, p, []) else None
  }

  /** The line where a backward search stops, with or without success. */
  function OpenStops(lines: seq<string>, l: nat, p: int, st: seq<Kind>): (r: nat)
    requires l < |lines| && -1 <= p < |lines[l]|
    ensures r <= l
  {
    match Scan(BackwardToks(lines[l], p), st)
    case More(s) => if s == [] || l == 0 then l else OpenStops(lines, l - 1, |lines[l - 1]| - 1, s)
    case _ => l
  }

  lemma OpenFromReport(lines: seq<string>, l: nat, p: int, st: seq<Kind>, start: int, rest: Option<seq<Kind>>)
    requires l < |lines| && -1 <= p < |lines[l]|
    requires var r := Scan(BackwardToks(lines[l], p), st);
             Reports(r, if r.Done? then p - r.n + 1 else -1, start, rest)
    ensures OpenFrom(lines, l, p, st)
         == if start > -1 then Some((l, start))
            else if rest.None? || rest.value == [] || l == 0 then None
            else OpenFrom(lines, l - 1, |lines[l - 1]| - 1, rest.value)
    ensures OpenStops(lines, l, p, st)
         == if start > -1 || rest.None? || rest.value == [] || l == 0 then l
            else OpenStops(lines, l - 1, |lines[l - 1]| - 1, rest.value)
  {
  }

  /** What a backward search that has come to the start of line `l` with this stack finds, and
      where it stops. */
  function OpenRest(lines: seq<string>, l: nat, rest: Option<seq<Kind>>): (Place, nat)
    requires l < |lines|
  {
    if rest.None? || rest.value == [] || l == 0 then (None, l)
    else OpenSearch(lines, l - 1, |lines[l - 1]| - 1, rest.value)
  }

  function OpenSearch(lines: seq<string>, l: nat, p: int, st: seq<Kind>): (Place, nat)
    requires l < |lines| && -1 <= p < |lines[l]|
  {
    (OpenFrom(lines, l, p, st), OpenStops(lines, l, p, st))
  }

  method OpenInLine(lines: seq<string>, l: nat, p: int, st: seq<Kind>) returns (start: int, rest: Option<seq<Kind>>)
    requires l < |lines| && -1 <= p < |lines[l]|
    ensures start >= -1
    ensures OpenSearch(lines, l, p, st) == if start > -1 then (Some((l, start)), l) else OpenRest(lines, l, rest)
  {
    start, rest := FindStartOfExpressionInLine(lines[l], p, st);
    OpenFromReport(lines, l, p, st, start, rest);
  }

  method ReverseCloseExpression(lines: seq<string>, linenum: nat, pos: nat)
    returns (line: string, startLine: nat, startPos: int)
    requires linenum < |lines| && pos < |lines[linenum]|
    ensures match OpenAt(lines, linenum, pos)
            case Some((l, s)) => startLine == l && startPos == s && l < |lines| && line == lines[l]
            case None => startLine == 0 && startPos == -1
    ensures var searches := IsCloser(lines[linenum][pos]) || lines[linenum][pos] == '>';
            line == lines[if searches then OpenStops(lines, linenum, pos, []) else linenum]
  {
    line := lines[linenum];
    if !(IsCloser(line[pos]) || line[pos] == '>') {
      return line, 0, -1;
    }
    var start, stack := OpenInLine(lines, linenum, pos, []);
    if start > -1 {
      return line, linenum, start;
    }
    var l := linenum;
    while stack.Some? && stack.value != [] && l > 0
      invariant 0 <= l <= linenum && line == lines[l]
      invariant OpenSearch(lines, linenum, pos, []) == OpenRest(lines, l, stack)
      decreases l
    {
      l := l - 1;
      line := lines[l];
      start, stack := OpenInLine(lines, l, |line| - 1, stack.value);
      if start > -1 {
        return line, l, start;
      }
    }
    return line, 0, -1;
  }

  function BackToks(lines: seq<string>, l: nat, p: int): seq<Tok>
    requires l < |lines| && -1 <= p < |lines[l]|
  {
    BackwardToks(lines[l], p) + if l > 0 then BackToks(lines, l - 1, |lines[l - 1]| - 1) else []
  }

  function BackText(lines: seq<string>, l: nat, p: int): string
    requires l < |lines| && -1 <= p < |lines[l]|
  {
    Mirror(lines[l][..p + 1]) + if l > 0 then BackText(lines, l - 1, |lines[l - 1]| - 1) else ""
  }

  lemma LineBackReads(line: string, p: int)
    requires -1 <= p < |line|
    ensures Accepts(BackwardToks(line, p), Mirror(line[..p + 1]), '<')
  {
    BackwardReads(line, p);
  }

  lemma {:induction false} BackReads(lines: seq<string>, l: nat, p: int)
    requires l < |lines| && -1 <= p < |lines[l]|
    ensures Accepts(BackToks(lines, l, p), BackText(lines, l, p), '<')
  {
    LineBackReads(lines[l], p);
    if l > 0 {
      BackReads(lines, l - 1, |lines[l - 1]| - 1);
      BackReadsGoesOn(lines, l, p);
    }
  }

  lemma BackReadsGoesOn(lines: seq<string>, l: nat, p: int)
    requires 0 < l < |lines| && -1 <= p < |lines[l]|
    requires Accepts(BackwardToks(lines[l], p), Mirror(lines[l][..p + 1]), '<')
    requires var q := |lines[l - 1]| - 1; Accepts(BackToks(lines, l - 1, q), BackText(lines, l - 1, q), '<')
    ensures Accepts(BackToks(lines, l, p), BackText(lines, l, p), '<')
  {
    var q := |lines[l - 1]| - 1;
    AcceptsConcat(BackwardToks(lines[l], p), BackToks(lines, l - 1, q),
                  Mirror(lines[l][..p + 1]), BackText(lines, l - 1, q), '<');
  }

  /** What a backward search reads before it comes to (l1, p1). */
  function BackBefore(lines: seq<string>, l1: nat, p1: nat): string
    requires l1 < |lines| && p1 <= |lines[l1]|
  {
    Mirror(lines[l1][..p1]) + if l1 > 0 then BackText(lines, l1 - 1, |lines[l1 - 1]| - 1) else ""
  }

  lemma {:induction false} BackTextSplits(lines: seq<string>, l1: nat, p1: nat, l: nat, p: int)
    requires l1 <= l < |lines| && -1 <= p < |lines[l]| && p1 <= |lines[l1]| && (l1 == l ==> p1 <= p + 1)
    ensures BackText(lines, l, p) == Mirror(Between(lines, l1, p1, l, p + 1)) + BackBefore(lines, l1, p1)
  {
    if l1 < l {
      var full := |lines[l - 1]|;
      BackTextSplits(lines, l1, p1, l - 1, full - 1);
      BetweenFromBack(lines, l1, p1, l, p + 1);
      MirrorOnto(Between(lines, l1, p1, l - 1, full), lines[l][..p + 1], BackBefore(lines, l1, p1),
                 BackText(lines, l - 1, full - 1));
    } else {
      BackTextHere(lines, l, p1, p);
    }
  }

  lemma BackTextHere(lines: seq<string>, l: nat, p1: nat, p: int)
    requires l < |lines| && -1 <= p < |lines[l]| && p1 <= p + 1
    ensures BackText(lines, l, p) == Mirror(lines[l][p1..p + 1]) + BackBefore(lines, l, p1)
  {
    MirrorOfTail(lines[l], p1, p + 1, if l > 0 then BackText(lines, l - 1, |lines[l - 1]| - 1) else "");
  }

  lemma MirrorOnto(a: string, b: string, rest: string, back: string)
    requires back == Mirror(a) + rest
    ensures Mirror(b) + back == Mirror(a + b) + rest
  {
    MirrorConcat(a, b);
  }

  lemma MirrorOfTail(line: string, i: nat, e: nat, rest: string)
    requires i <= e <= |line|
    ensures Mirror(line[..e]) + rest == Mirror(line[i..e]) + (Mirror(line[..i]) + rest)
  {
    assert line[..e] == line[..i] + line[i..e];
    MirrorConcat(line[..i], line[i..e]);
  }

  lemma BetweenIsBackPrefix(lines: seq<string>, l1: nat, p1: nat, l: nat, p: int)
    requires l1 <= l < |lines| && -1 <= p < |lines[l]| && p1 <= |lines[l1]| && (l1 == l ==> p1 <= p + 1)
    ensures Mirror(Between(lines, l1, p1, l, p + 1)) <= BackText(lines, l, p)
  {
    BackTextSplits(lines, l1, p1, l, p);
  }

  /** One line of the scan over the rest of the file. */
  lemma BackLineScan(lines: seq<string>, l: nat, p: int, st: seq<Kind>)
    requires l < |lines| && -1 <= p < |lines[l]|
    ensures var r := Scan(BackwardToks(lines[l], p), st);
            Scan(BackToks(lines, l, p), st)
            == if r.More? && l > 0 then Shift(Scan(BackToks(lines, l - 1, |lines[l - 1]| - 1), r.stack), p + 1) else r
  {
    var here := BackwardToks(lines[l], p);
    var rest := if l > 0 then BackToks(lines, l - 1, |lines[l - 1]| - 1) else [];
    ScanConcat(here, rest, st);
    assert BackToks(lines, l, p) == here + rest;
  }

  lemma BackLineLength(lines: seq<string>, l1: nat, p1: nat, l: nat, p: int)
    requires l1 <= l < |lines| && -1 <= p < |lines[l]| && p1 < |lines[l1]| && (l1 == l ==> p1 <= p + 1)
    ensures var n := |Between(lines, l1, p1, l, p + 1)|;
            if l1 == l then n == p + 1 - p1
            else n == p + 1 + |Between(lines, l1, p1, l - 1, |lines[l - 1]|)| && n > p + 1
  {
    if l1 < l {
      BetweenFromBack(lines, l1, p1, l, p + 1);
    }
  }

  lemma {:induction false} OpenFromScan(lines: seq<string>, l: nat, p: int, st: seq<Kind>, l1: nat, p1: nat)
    requires st != [] && l1 <= l < |lines| && -1 <= p < |lines[l]| && p1 < |lines[l1]| && (l1 == l ==> p1 <= p + 1)
    ensures OpenFrom(lines, l, p, st) == Some((l1, p1))
       <==> Scan(BackToks(lines, l, p), st) == Done(|Between(lines, l1, p1, l, p + 1)|)
  {
    var r := Scan(BackwardToks(lines[l], p), st);
    if r.More? {
      ScanKeepsRoot(BackwardToks(lines[l], p), st);
      if l1 < l {
        OpenFromScan(lines, l - 1, |lines[l - 1]| - 1, r.stack, l1, p1);
        OpenGoesOn(lines, l, p, st, r.stack, l1, p1);
      } else {
        OpensEarlier(lines, l, p, st, r.stack, p1);
      }
    } else {
      BackLineScan(lines, l, p, st);
      BackLineLength(lines, l1, p1, l, p);
    }
  }

  lemma OpenGoesOn(lines: seq<string>, l: nat, p: int, st: seq<Kind>, s: seq<Kind>, l1: nat, p1: nat)
    requires l1 < l < |lines| && -1 <= p < |lines[l]| && p1 < |lines[l1]| && s != []
    requires Scan(BackwardToks(lines[l], p), st) == More(s)
    requires OpenFrom(lines, l - 1, |lines[l - 1]| - 1, s) == Some((l1, p1))
        <==> Scan(BackToks(lines, l - 1, |lines[l - 1]| - 1), s)
             == Done(|Between(lines, l1, p1, l - 1, |lines[l - 1]|)|)
    ensures OpenFrom(lines, l, p, st) == Some((l1, p1))
       <==> Scan(BackToks(lines, l, p), st) == Done(|Between(lines, l1, p1, l, p + 1)|)
  {
    BackLineScan(lines, l, p, st);
    BackLineLength(lines, l1, p1, l, p);
  }

  lemma OpensEarlier(lines: seq<string>, l: nat, p: int, st: seq<Kind>, s: seq<Kind>, p1: nat)
    requires l < |lines| && -1 <= p < |lines[l]| && p1 <= p + 1
    requires Scan(BackwardToks(lines[l], p), st) == More(s)
    ensures OpenFrom(lines, l, p, st) != Some((l, p1))
    ensures Scan(BackToks(lines, l, p), st) != Done(p + 1 - p1)
  {
    BackLineScan(lines, l, p, st);
    if l > 0 {
      OpenFromEarlier(lines, l - 1, |lines[l - 1]| - 1, s);
    }
  }

  lemma {:induction false} OpenFromEarlier(lines: seq<string>, l: nat, p: int, st: seq<Kind>)
    requires l < |lines| && -1 <= p < |lines[l]|
    ensures var r := OpenFrom(lines, l, p, st);
            r.Some? ==> r.value.0 <= l && r.value.1 < |lines[r.value.0]|
                        && (l == r.value.0 ==> r.value.1 <= p)
  {
    var r := Scan(BackwardToks(lines[l], p), st);
    if r.More? && r.stack != [] && l > 0 {
      OpenFromEarlier(lines, l - 1, |lines[l - 1]| - 1, r.stack);
    }
  }

  lemma OpenFromPushed(lines: seq<string>, l: nat, p: nat, k: Kind)
    requires l < |lines| && p < |lines[l]| && !StepsOverTwo(lines[l], p)
    requires Step(BackwardTok(lines[l], p), []) == More([k])
    ensures OpenFrom(lines, l, p, []) == OpenFrom(lines, l, p - 1, [k])
  {
    BackwardUnfold(lines[l], p, []);
    OpenFromShifted(lines, l, p, [], p - 1, [k]);
  }

  lemma OpenFromShifted(lines: seq<string>, l: nat, p: int, st: seq<Kind>, q: int, st': seq<Kind>)
    requires l < |lines| && -1 <= q <= p < |lines[l]|
    requires Scan(BackwardToks(lines[l], p), st) == Shift(Scan(BackwardToks(lines[l], q), st'), p - q)
    ensures OpenFrom(lines, l, p, st) == OpenFrom(lines, l, q, st')
  {
  }

  lemma BetweenLast(lines: seq<string>, l1: nat, p1: nat, l: nat, p: nat)
    requires IsRegion(lines, l1, p1, l, p + 1)
    ensures Between(lines, l1, p1, l, p + 1) == Between(lines, l1, p1, l, p) + [lines[l][p]]
  {
    var line := lines[l];
    if l1 == l {
      assert line[p1..p + 1] == line[p1..p] + [line[p]];
    } else {
      BetweenFromBack(lines, l1, p1, l, p + 1);
      BetweenFromBack(lines, l1, p1, l, p);
      var rest := Between(lines, l1, p1, l - 1, |lines[l - 1]|);
      assert line[..p + 1] == line[..p] + [line[p]];
      assert rest + (line[..p] + [line[p]]) == (rest + line[..p]) + [line[p]];
    }
  }

  lemma BackRegionIff(lines: seq<string>, l1: nat, p1: nat, l: nat, p: int, o: char)
    requires l1 <= l < |lines| && -1 <= p < |lines[l]| && p1 <= |lines[l1]| && (l1 == l ==> p1 <= p + 1)
    requires IsOpener(o)
    ensures var u := Between(lines, l1, p1, l, p + 1);
            Scan(BackToks(lines, l, p), [KindOf(o)]) == Done(|u|) <==> Enclosed(u + [Flip(o)])
  {
    BackReads(lines, l, p);
    BetweenIsBackPrefix(lines, l1, p1, l, p);
    MirroredScanIff(BackToks(lines, l, p), BackText(lines, l, p), Between(lines, l1, p1, l, p + 1), o);
  }

  lemma BackRegionAngle(lines: seq<string>, l1: nat, p1: nat, l: nat, p: int)
    requires l1 <= l < |lines| && -1 <= p < |lines[l]| && p1 <= |lines[l1]| && (l1 == l ==> p1 <= p + 1)
    requires Scan(BackToks(lines, l, p), [Angle]) == Done(|Between(lines, l1, p1, l, p + 1)|)
    ensures AngleText(Between(lines, l1, p1, l, p + 1) + ['>'])
  {
    BackReads(lines, l, p);
    BetweenIsBackPrefix(lines, l1, p1, l, p);
    MirroredAngleScan(BackToks(lines, l, p), BackText(lines, l, p), Between(lines, l1, p1, l, p + 1));
  }

  lemma OpenFromCloser(lines: seq<string>, l: nat, p: nat)
    requires l < |lines| && p < |lines[l]| && IsCloser(lines[l][p])
    ensures OpenAt(lines, l, p) == OpenFrom(lines, l, p - 1, [KindOf(lines[l][p])])
    ensures var r := OpenAt(lines, l, p); r.Some? ==> IsRegion(lines, r.value.0, r.value.1, l, p + 1)
  {
    var k := KindOf(lines[l][p]);
    assert Step(BackwardTok(lines[l], p), []) == More([] + [k]);
    OpenFromPushed(lines, l, p, k);
    OpenFromEarlier(lines, l, p, []);
  }

  /** ReverseCloseExpression finds exactly the bracket group that ends at the given closer. */
  lemma OpenFindsSpan(lines: seq<string>, l: nat, p: nat, l1: nat, p1: nat)
    requires l < |lines| && p < |lines[l]| && IsCloser(lines[l][p])
    ensures OpenAt(lines, l, p) == Some((l1, p1)) <==> BracketSpan(lines, l1, p1, l, p + 1)
  {
    var c := lines[l][p];
    OpenFromCloser(lines, l, p);
    if IsRegion(lines, l1, p1, l, p + 1) {
      OpenFromScan(lines, l, p - 1, [KindOf(c)], l1, p1);
      BackRegionIff(lines, l1, p1, l, p - 1, Flip(c));
      BetweenLast(lines, l1, p1, l, p);
    }
  }

  lemma OpenAngle(lines: seq<string>, l: nat, p: nat, l1: nat, p1: nat)
    requires l < |lines| && p < |lines[l]| && BackwardTok(lines[l], p) == Mark
    requires OpenAt(lines, l, p) == Some((l1, p1))
    ensures AngleSpan(lines, l1, p1, l, p + 1)
  {
    assert Step(Mark, []) == More([] + [Angle]);
    OpenFromPushed(lines, l, p, Angle);
    OpenFromEarlier(lines, l, p, []);
    OpenFromScan(lines, l, p - 1, [Angle], l1, p1);
    BackRegionAngle(lines, l1, p1, l, p - 1);
    BetweenLast(lines, l1, p1, l, p);
  }

  // ------------------------------------------------------------ the two matchers together

  /** From an opener forward and back again, and from a closer back and forward again. */
  lemma MatchersUndoEachOther(lines: seq<string>, l1: nat, p1: nat, l2: nat, e: nat)
    requires l1 < |lines| && p1 < |lines[l1]| && l2 < |lines| && 0 < e <= |lines[l2]|
    ensures IsOpener(lines[l1][p1]) && CloseAt(lines, l1, p1) == Some((l2, e))
       <==> IsCloser(lines[l2][e - 1]) && OpenAt(lines, l2, e - 1) == Some((l1, p1))
  {
    if BracketSpan(lines, l1, p1, l2, e) {
      BetweenHead(lines, l1, p1, l2, e);
      BetweenLast(lines, l1, p1, l2, e - 1);
    }
    if IsOpener(lines[l1][p1]) {
      CloseFindsSpan(lines, l1, p1, l2, e);
    }
    if IsCloser(lines[l2][e - 1]) {
      OpenFindsSpan(lines, l2, e - 1, l1, p1);
    }
  }

  /** A search gives up exactly when no bracket group starts (ends) at its bracket. */
  lemma CloseGivesUp(lines: seq<string>, l: nat, p: nat)
    requires l < |lines| && p < |lines[l]| && IsOpener(lines[l][p])
    ensures CloseAt(lines, l, p) == None <==> forall l2: nat, e: nat :: !BracketSpan(lines, l, p, l2, e)
  {
    match CloseAt(lines, l, p)
    case Some((l2, e)) =>
      CloseFindsSpan(lines, l, p, l2, e);
    case None =>
      forall l2: nat, e: nat
        ensures !BracketSpan(lines, l, p, l2, e)
      {
        CloseFindsSpan(lines, l, p, l2, e);
      }
  }

  lemma OpenGivesUp(lines: seq<string>, l: nat, e: nat)
    requires l < |lines| && 0 < e <= |lines[l]| && IsCloser(lines[l][e - 1])
    ensures OpenAt(lines, l, e - 1) == None <==> forall l1: nat, p1: nat :: !BracketSpan(lines, l1, p1, l, e)
  {
    match OpenAt(lines, l, e - 1)
    case Some((l1, p1)) =>
      OpenFindsSpan(lines, l, e - 1, l1, p1);
    case None =>
      forall l1: nat, p1: nat
        ensures !BracketSpan(lines, l1, p1, l, e)
      {
        OpenFindsSpan(lines, l, e - 1, l1, p1);
      }
  }
}
