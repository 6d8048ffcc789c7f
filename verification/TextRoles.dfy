/** What the searches for angle brackets find, read off the characters: which `<` and `>`
    count, and where the depth they make returns to zero. */
module TextRoles {
  import opened Options
  import opened TextClasses
  import opened BracketGrammar
  import opened TentativeScan
  import opened Matchers
  import opened Spans
  import opened AngleCounter

  // -------------------------------------------------------------------- after `operator`

  /** The word `operator` ends at m, and only white space lies between there and k. */
  predicate OperatorEnds(line: string, m: nat, k: nat) {
    && 8 <= m <= k <= |line| && line[m - 8..m] == "operator"
    && (m == 8 || !IsWord(line[m - 9]))
    && forall j :: m <= j < k ==> IsSpace(line[j])
  }

  ghost predicate OperatorBefore(line: string, k: nat) { exists m: nat :: OperatorEnds(line, m, k) }

  lemma {:induction false} TrimmedAt(s: string) returns (m: nat)
    ensures m <= |s| && RTrim(s) == s[..m] && (m > 0 ==> !IsSpace(s[m - 1]))
    ensures forall j :: m <= j < |s| ==> IsSpace(s[j])
  {
    m := |s|;
    if s != [] && IsSpace(s[|s| - 1]) {
      m := TrimmedAt(s[..|s| - 1]);
    } else {
      assert s[..m] == s;
    }
  }

  lemma OperatorFound(line: string, k: nat)
    requires k <= |line| && EndsWithOperator(line[..k])
    ensures OperatorBefore(line, k)
  {
    var m := TrimmedAt(line[..k]);
    var t := RTrim(line[..k]);
    assert t == line[..m] && |t| == m && m >= 8;
    assert line[m - 8..m] == t[m - 8..];
    assert m > 8 ==> line[m - 9] == t[m - 9];
    forall j | m <= j < k
      ensures IsSpace(line[j])
    {
      assert line[j] == line[..k][j];
    }
    assert OperatorEnds(line, m, k);
  }

  lemma OperatorRecognised(line: string, n: nat, k: nat)
    requires OperatorEnds(line, n, k)
    ensures EndsWithOperator(line[..k])
  {
    var s := line[..k];
    var m := TrimmedAt(s);
    LastLetter(line, n);
    assert s[n - 1] == line[n - 1];
    assert m > 0 ==> s[m - 1] == line[m - 1];
    assert n <= m <= n;
    OperatorInside(line, n, k);
  }

  lemma LastLetter(line: string, n: nat)
    requires 8 <= n <= |line| && line[n - 8..n] == "operator"
    ensures line[n - 1] == 'r'
  {
    assert line[n - 1] == line[n - 8..n][7];
  }

  lemma OperatorInside(line: string, n: nat, k: nat)
    requires OperatorEnds(line, n, k) && RTrim(line[..k]) == line[..k][..n]
    ensures EndsWithOperator(line[..k])
  {
    var t := RTrim(line[..k]);
    assert t == line[..n];
    assert t[n - 8..] == line[n - 8..n];
  }

  lemma OperatorExactly(line: string, k: nat)
    requires k <= |line|
    ensures EndsWithOperator(line[..k]) <==> OperatorBefore(line, k)
  {
    if EndsWithOperator(line[..k]) {
      OperatorFound(line, k);
    }
    if OperatorBefore(line, k) {
      var n: nat :| OperatorEnds(line, n, k);
      OperatorRecognised(line, n, k);
    }
  }

  // --------------------------------------------------------------- which characters count

  /** The `<` at i opens a tentative list: it is not the second of a shift operator and does
      not follow `operator`. */
  ghost predicate OpensAngle(line: string, i: nat) {
    i < |line| && line[i] == '<' && !(i > 0 && line[i - 1] == '<') && !OperatorBefore(line, i)
  }

  /** The `<` at i is the second of a shift operator and takes the first back. */
  predicate TakesBack(line: string, i: nat) { 0 < i < |line| && line[i] == '<' && line[i - 1] == '<' }

  /** The `>` at i may close a list: it ends no arrow and does not come one character after
      `operator`. */
  ghost predicate ClosesAngle(line: string, i: nat) {
    i < |line| && line[i] == '>' && !(i > 0 && (line[i - 1] == '-' || OperatorBefore(line, i - 1)))
  }

  /** The forward search takes exactly these characters for brackets. */
  lemma ForwardRoles(line: string, i: nat)
    requires i < |line|
    ensures ForwardTok(line, i) == Mark <==> OpensAngle(line, i)
    ensures ForwardTok(line, i) == Unmark(false) <==> TakesBack(line, i)
    ensures ForwardTok(line, i) == Unmark(true) <==> ClosesAngle(line, i)
    ensures ForwardTok(line, i) == Semi <==> line[i] == ';'
    ensures ForwardTok(line, i).Open? <==> IsOpener(line[i])
    ensures ForwardTok(line, i).Close? <==> IsCloser(line[i])
  {
    if line[i] == '<' {
      LessRole(line, i);
    } else if line[i] == '>' {
      GreaterRole(line, i);
    }
  }

  lemma LessRole(line: string, i: nat)
    requires i < |line| && line[i] == '<'
    ensures ForwardTok(line, i)
         == if TakesBack(line, i) then Unmark(false) else if OpensAngle(line, i) then Mark else Skip
  {
    OperatorExactly(line, i);
    if i == 0 {
      NoOperatorAtStart(line);
    }
  }

  lemma NoOperatorAtStart(line: string)
    ensures !OperatorBefore(line, 0)
  {
  }

  lemma GreaterRole(line: string, i: nat)
    requires i < |line| && line[i] == '>'
    ensures ForwardTok(line, i) == if ClosesAngle(line, i) then Unmark(true) else Skip
  {
    if i > 0 {
      OperatorExactly(line, i - 1);
    }
  }

  // ---------------------------------------------------------------- forward, by character

  /** Counted by characters from depth d at (l, p), the depth of angle brackets first returns
      to zero with the character before (l2, e): groups of certain brackets are passed whole,
      and outside them a closing bracket or a semicolon ends the count in vain. */
  ghost predicate AngleEnds(lines: seq<string>, l: nat, p: nat, d: nat, l2: nat, e: nat)
    requires l < |lines| && p <= |lines[l]|
    decreases |lines| - l, |lines[l]| - p
  {
    var line := lines[l];
    if p == |line| then l + 1 < |lines| && AngleEnds(lines, l + 1, 0, d, l2, e)
    else if IsOpener(line[p]) then
      exists l3: nat, e3: nat :: BracketSpan(lines, l, p, l3, e3) && AngleEnds(lines, l3, e3, d, l2, e)
    else if IsCloser(line[p]) || line[p] == ';' then false
    else if OpensAngle(line, p) then AngleEnds(lines, l, p + 1, d + 1, l2, e)
    else if TakesBack(line, p) then d > 1 && AngleEnds(lines, l, p + 1, d - 1, l2, e)
    else if ClosesAngle(line, p) then
      if d == 1 then l2 == l && e == p + 1 else d > 1 && AngleEnds(lines, l, p + 1, d - 1, l2, e)
    else AngleEnds(lines, l, p + 1, d, l2, e)
  }

  /** One character of the search. */
  lemma CloseFromStep(lines: seq<string>, l: nat, p: nat, st: seq<Kind>)
    requires l < |lines| && p < |lines[l]|
    ensures var next := Step(ForwardTok(lines[l], p), st);
            CloseFrom(lines, l, p, st) == match next
                                          case More(s) => CloseFrom(lines, l, p + 1, s)
                                          case Done(_) => Some((l, p + 1))
                                          case Fail => None
  {
    ForwardUnfold(lines[l], p, st);
  }

  lemma CloseFromLineEnd(lines: seq<string>, l: nat, st: seq<Kind>)
    requires l < |lines| && st != []
    ensures CloseFrom(lines, l, |lines[l]|, st) == if l + 1 == |lines| then None else CloseFrom(lines, l + 1, 0, st)
  {
  }

  lemma ToksFrom(line: string, p: nat, m: nat)
    requires p + m <= |line|
    ensures ForwardToks(line, p)[m..] == ForwardToks(line, p + m)
  {
  }

  /** The search from one place above a certain bracket has led to r: the search with more
      below goes on from there. */
  predicate GoesOn(lines: seq<string>, whole: Place, r: Place, base: seq<Kind>) {
    if r == None then whole == None
    else && r.value.0 < |lines| && r.value.1 <= |lines[r.value.0]|
         && whole == CloseFrom(lines, r.value.0, r.value.1, base)
  }

  lemma AboveInLine(line: string, p: nat, base: seq<Kind>, s: seq<Kind>, m: nat)
    requires p <= |line| && base != [] && s != [] && s[0] != Angle && Scan(ForwardToks(line, p), s) == Done(m)
    ensures p + m <= |line|
    ensures Scan(ForwardToks(line, p), base + s) == Shift(Scan(ForwardToks(line, p + m), base), m)
  {
    ScanAbove(ForwardToks(line, p), base, s);
    ToksFrom(line, p, m);
  }

  lemma ClosesHere(lines: seq<string>, l: nat, p: nat, s: seq<Kind>, m: nat)
    requires l < |lines| && p <= |lines[l]| && Scan(ForwardToks(lines[l], p), s) == Done(m)
    ensures CloseFrom(lines, l, p, s) == Some((l, p + m))
  {
  }

  lemma OpenInLine(lines: seq<string>, l: nat, p: nat, base: seq<Kind>, s: seq<Kind>, s': seq<Kind>)
    requires l < |lines| && p <= |lines[l]| && base != [] && s != [] && s[0] != Angle
    requires Scan(ForwardToks(lines[l], p), s) == More(s')
    ensures s' != [] && s'[0] == s[0]
    ensures CloseFrom(lines, l, p, s) == if l + 1 == |lines| then None else CloseFrom(lines, l + 1, 0, s')
    ensures CloseFrom(lines, l, p, base + s)
         == if l + 1 == |lines| then None else CloseFrom(lines, l + 1, 0, base + s')
  {
    ScanAbove(ForwardToks(lines[l], p), base, s);
  }

  lemma StuckInLine(lines: seq<string>, l: nat, p: nat, base: seq<Kind>, s: seq<Kind>)
    requires l < |lines| && p <= |lines[l]| && base != [] && s != [] && s[0] != Angle
    requires Scan(ForwardToks(lines[l], p), s) == Fail
    ensures CloseFrom(lines, l, p, s) == None && CloseFrom(lines, l, p, base + s) == None
  {
    ScanAbove(ForwardToks(lines[l], p), base, s);
  }

  /** A search above a certain bracket is the search from that bracket and then the rest. */
  lemma {:induction false} CloseFromAbove(lines: seq<string>, l: nat, p: nat, base: seq<Kind>, s: seq<Kind>)
    requires l < |lines| && p <= |lines[l]| && base != [] && s != [] && s[0] != Angle
    ensures GoesOn(lines, CloseFrom(lines, l, p, base + s), CloseFrom(lines, l, p, s), base)
    decreases |lines| - l
  {
    match Scan(ForwardToks(lines[l], p), s)
    case Done(m) =>
      AboveInLine(lines[l], p, base, s, m);
      CloseFromShifted(lines, l, p, base + s, p + m, base);
      ClosesHere(lines, l, p, s, m);
    case Fail => StuckInLine(lines, l, p, base, s);
    case More(s') =>
      OpenInLine(lines, l, p, base, s, s');
      if l + 1 < |lines| {
        CloseFromAbove(lines, l + 1, 0, base, s');
      }
  }

  lemma CloseFromShifted(lines: seq<string>, l: nat, p: nat, st: seq<Kind>, q: nat, st': seq<Kind>)
    requires l < |lines| && p <= q <= |lines[l]|
    requires Scan(ForwardToks(lines[l], p), st) == Shift(Scan(ForwardToks(lines[l], q), st'), q - p)
    ensures CloseFrom(lines, l, p, st) == CloseFrom(lines, l, q, st')
  {
  }

  lemma GroupPassed(lines: seq<string>, l: nat, p: nat, d: nat)
    requires l < |lines| && p < |lines[l]| && IsOpener(lines[l][p]) && d > 0
    ensures var r := CloseAt(lines, l, p);
            && (r.Some? ==> BracketSpan(lines, l, p, r.value.0, r.value.1))
            && CloseFrom(lines, l, p, Marks(d))
               == if r.Some? then CloseFrom(lines, r.value.0, r.value.1, Marks(d)) else None
  {
    var k := KindOf(lines[l][p]);
    CloseFromStep(lines, l, p, Marks(d));
    CloseFromOpener(lines, l, p);
    CloseFromAbove(lines, l, p + 1, Marks(d), [k]);
    var r := CloseAt(lines, l, p);
    if r.Some? {
      CloseFindsSpan(lines, l, p, r.value.0, r.value.1);
    }
  }

  lemma GroupIsUnique(lines: seq<string>, l: nat, p: nat, l3: nat, e3: nat)
    requires l < |lines| && p < |lines[l]| && IsOpener(lines[l][p]) && BracketSpan(lines, l, p, l3, e3)
    ensures CloseAt(lines, l, p) == Some((l3, e3))
  {
    CloseFindsSpan(lines, l, p, l3, e3);
  }

  /** The stack machine from d tentative brackets finds exactly the end of the count. */
  lemma {:induction false} CloseFromIsCount(lines: seq<string>, l: nat, p: nat, d: nat, l2: nat, e: nat)
    requires l < |lines| && p <= |lines[l]| && d > 0
    ensures CloseFrom(lines, l, p, Marks(d)) == Some((l2, e)) <==> AngleEnds(lines, l, p, d, l2, e)
    decreases |lines| - l, |lines[l]| - p, 1
  {
    var line := lines[l];
    if p == |line| {
      CloseFromLineEnd(lines, l, Marks(d));
      if l + 1 < |lines| {
        CloseFromIsCount(lines, l + 1, 0, d, l2, e);
      }
    } else if IsOpener(line[p]) {
      GroupIsCount(lines, l, p, d, l2, e);
    } else {
      ForwardRoles(line, p);
      CloseFromStep(lines, l, p, Marks(d));
      StepMarks(ForwardTok(line, p), d);
      var t := ForwardTok(line, p);
      if t == Mark {
        CloseFromIsCount(lines, l, p + 1, d + 1, l2, e);
      } else if t.Unmark? && d > 1 {
        CloseFromIsCount(lines, l, p + 1, d - 1, l2, e);
      } else if t == Skip {
        CloseFromIsCount(lines, l, p + 1, d, l2, e);
      }
    }
  }

  lemma {:induction false} GroupIsCount(lines: seq<string>, l: nat, p: nat, d: nat, l2: nat, e: nat)
    requires l < |lines| && p < |lines[l]| && IsOpener(lines[l][p]) && d > 0
    ensures CloseFrom(lines, l, p, Marks(d)) == Some((l2, e)) <==> AngleEnds(lines, l, p, d, l2, e)
    decreases |lines| - l, |lines[l]| - p, 0
  {
    GroupPassed(lines, l, p, d);
    var r := CloseAt(lines, l, p);
    if r.Some? {
      var (l3, e3) := r.value;
      CloseFromIsCount(lines, l3, e3, d, l2, e);
      if AngleEnds(lines, l3, e3, d, l2, e) {
        assert BracketSpan(lines, l, p, l3, e3);
      }
    }
    if AngleEnds(lines, l, p, d, l2, e) {
      var l3: nat, e3: nat :| BracketSpan(lines, l, p, l3, e3) && AngleEnds(lines, l3, e3, d, l2, e);
      GroupIsUnique(lines, l, p, l3, e3);
    }
  }

  /** From a `<` that opens a list CloseExpression finds exactly the end of the count. */
  lemma CloseAngleOnText(lines: seq<string>, l: nat, p: nat, l2: nat, e: nat)
    requires l < |lines| && OpensAngle(lines[l], p)
    requires !(p + 1 < |lines[l]| && (lines[l][p + 1] == '<' || lines[l][p + 1] == '='))
    ensures CloseAt(lines, l, p) == Some((l2, e)) <==> AngleEnds(lines, l, p + 1, 1, l2, e)
  {
    ForwardRoles(lines[l], p);
    CloseFromMark(lines, l, p);
    assert Marks(1) == [Angle];
    CloseFromIsCount(lines, l, p + 1, 1, l2, e);
  }

  /** Before another `<` or a `=` a `<` is not searched from, and nothing else is but brackets. */
  lemma NoSearch(lines: seq<string>, l: nat, p: nat)
    requires l < |lines| && p < |lines[l]|
    requires || (lines[l][p] == '<' && p + 1 < |lines[l]| && (lines[l][p + 1] == '<' || lines[l][p + 1] == '='))
             || !(IsOpener(lines[l][p]) || lines[l][p] == '<')
    ensures CloseAt(lines, l, p) == None
  {
  }

  // --------------------------------------------------------------- backward, by character

  /** The `>` or `<` at i and the character before it are passed together: an arrow, a spaced
      `>=`, a `>` after `operator`, a shift operator. */
  ghost predicate PassedByTwo(line: string, i: nat) {
    && 0 < i < |line|
    && (|| (line[i] == '>' && (|| line[i - 1] == '-'
                               || (i + 2 < |line| && IsSpace(line[i - 1]) && line[i + 1] == '=' && IsSpace(line[i + 2]))
                               || OperatorBefore(line, i)))
        || (line[i] == '<' && line[i - 1] == '<'))
  }

  lemma BackwardRoles(line: string, i: nat)
    requires i < |line|
    ensures StepsOverTwo(line, i) <==> PassedByTwo(line, i)
    ensures !PassedByTwo(line, i) ==>
      && (BackwardTok(line, i) == Mark <==> line[i] == '>')
      && (BackwardTok(line, i) == Unmark(true) <==> line[i] == '<')
      && (BackwardTok(line, i) == Semi <==> line[i] == ';')
      && (BackwardTok(line, i).Open? <==> IsCloser(line[i]))
      && (BackwardTok(line, i).Close? <==> IsOpener(line[i]))
      && BackwardTok(line, i) != Unmark(false)
  {
    if i > 0 && line[i] == '>' {
      OperatorExactly(line, i);
    }
  }

  /** A group of certain brackets from (l3, p3) to (l, p), both included. */
  ghost predicate GroupEndsAt(lines: seq<string>, l3: nat, p3: nat, l: nat, p: nat) {
    BracketSpan(lines, l3, p3, l, p + 1)
  }

  /** Counted backward by characters from depth d at (l, p), the depth of angle brackets first
      returns to zero with the character at (l1, p1). */
  ghost predicate BackEnds(lines: seq<string>, l: nat, p: int, d: nat, l1: nat, p1: nat)
    requires l < |lines| && -1 <= p < |lines[l]|
    decreases l, p + 1
  {
    var line := lines[l];
    if p == -1 then l > 0 && BackEnds(lines, l - 1, |lines[l - 1]| - 1, d, l1, p1)
    else if IsCloser(line[p]) then
      exists l3: nat, p3: nat :: GroupEndsAt(lines, l3, p3, l, p) && BackEnds(lines, l3, p3 - 1, d, l1, p1)
    else if IsOpener(line[p]) || line[p] == ';' then false
    else if PassedByTwo(line, p) then BackEnds(lines, l, p - 2, d, l1, p1)
    else if line[p] == '>' then BackEnds(lines, l, p - 1, d + 1, l1, p1)
    else if line[p] == '<' then
      if d == 1 then l1 == l && p1 == p else d > 1 && BackEnds(lines, l, p - 1, d - 1, l1, p1)
    else BackEnds(lines, l, p - 1, d, l1, p1)
  }

  lemma OpenFromStep(lines: seq<string>, l: nat, p: nat, st: seq<Kind>)
    requires l < |lines| && p < |lines[l]|
    ensures var next := Step(BackwardTok(lines[l], p), st);
            OpenFrom(lines, l, p, st) == if StepsOverTwo(lines[l], p) then OpenFrom(lines, l, p - 2, st) else
                                         match next
                                         case More(s) => OpenFrom(lines, l, p - 1, s)
                                         case Done(_) => Some((l, p))
                                         case Fail => None
  {
    BackwardUnfold(lines[l], p, st);
    if StepsOverTwo(lines[l], p) {
      OpenFromShifted(lines, l, p, st, p - 2, st);
    } else if Step(BackwardTok(lines[l], p), st).More? {
      OpenFromShifted(lines, l, p, st, p - 1, Step(BackwardTok(lines[l], p), st).stack);
    }
  }

  lemma OpenFromLineStart(lines: seq<string>, l: nat, st: seq<Kind>)
    requires l < |lines| && st != []
    ensures OpenFrom(lines, l, -1, st) == if l == 0 then None else OpenFrom(lines, l - 1, |lines[l - 1]| - 1, st)
  {
  }

  /** Backward, too, nothing below a certain bracket is touched before that bracket opens. */
  ghost predicate AboveBack(line: string, p: int, base: seq<Kind>, s: seq<Kind>)
    requires -1 <= p < |line| && s != []
  {
    var whole := Scan(BackwardToks(line, p), base + s);
    match Scan(BackwardToks(line, p), s)
    case Done(m) => m <= p + 1 && whole == Shift(Scan(BackwardToks(line, p - m), base), m)
    case More(s') => s' != [] && s'[0] == s[0] && whole == More(base + s')
    case Fail => whole == Fail
  }

  lemma {:induction false} AboveInLineBack(line: string, p: int, base: seq<Kind>, s: seq<Kind>)
    requires -1 <= p < |line| && base != [] && s != [] && s[0] != Angle
    ensures AboveBack(line, p, base, s)
    decreases p + 1
  {
    if p >= 0 {
      BackwardUnfold(line, p, s);
      BackwardUnfold(line, p, base + s);
      if StepsOverTwo(line, p) {
        AboveInLineBack(line, p - 2, base, s);
      } else {
        StepAbove(BackwardTok(line, p), base, s);
        var next := Step(BackwardTok(line, p), s);
        if next.More? {
          AboveInLineBack(line, p - 1, base, next.stack);
        }
      }
    }
  }

  predicate GoesBack(lines: seq<string>, whole: Place, r: Place, base: seq<Kind>) {
    if r == None then whole == None
    else && r.value.0 < |lines| && r.value.1 < |lines[r.value.0]|
         && whole == OpenFrom(lines, r.value.0, r.value.1 - 1, base)
  }

  lemma OpenedInLine(lines: seq<string>, l: nat, p: int, base: seq<Kind>, s: seq<Kind>, m: nat)
    requires l < |lines| && -1 <= p < |lines[l]| && base != [] && s != [] && s[0] != Angle
    requires Scan(BackwardToks(lines[l], p), s) == Done(m)
    ensures 0 < m <= p + 1 && OpenFrom(lines, l, p, base + s) == OpenFrom(lines, l, p - m, base)
  {
    AboveInLineBack(lines[l], p, base, s);
    OpenFromShifted(lines, l, p, base + s, p - m, base);
  }

  lemma OpensHere(lines: seq<string>, l: nat, p: int, s: seq<Kind>, m: nat)
    requires l < |lines| && -1 <= p < |lines[l]| && Scan(BackwardToks(lines[l], p), s) == Done(m) && m <= p + 1
    ensures OpenFrom(lines, l, p, s) == Some((l, p - m + 1))
  {
  }

  lemma ClosedOnLine(lines: seq<string>, l: nat, p: int, base: seq<Kind>, s: seq<Kind>, s': seq<Kind>)
    requires l < |lines| && -1 <= p < |lines[l]| && base != [] && s != [] && s[0] != Angle
    requires Scan(BackwardToks(lines[l], p), s) == More(s')
    ensures s' != [] && s'[0] == s[0]
    ensures OpenFrom(lines, l, p, s) == if l == 0 then None else OpenFrom(lines, l - 1, |lines[l - 1]| - 1, s')
    ensures OpenFrom(lines, l, p, base + s)
         == if l == 0 then None else OpenFrom(lines, l - 1, |lines[l - 1]| - 1, base + s')
  {
    AboveInLineBack(lines[l], p, base, s);
  }

  lemma StuckOnLine(lines: seq<string>, l: nat, p: int, base: seq<Kind>, s: seq<Kind>)
    requires l < |lines| && -1 <= p < |lines[l]| && base != [] && s != [] && s[0] != Angle
    requires Scan(BackwardToks(lines[l], p), s) == Fail
    ensures OpenFrom(lines, l, p, s) == None && OpenFrom(lines, l, p, base + s) == None
  {
    AboveInLineBack(lines[l], p, base, s);
  }

  lemma {:induction false} OpenFromAbove(lines: seq<string>, l: nat, p: int, base: seq<Kind>, s: seq<Kind>)
    requires l < |lines| && -1 <= p < |lines[l]| && base != [] && s != [] && s[0] != Angle
    ensures GoesBack(lines, OpenFrom(lines, l, p, base + s), OpenFrom(lines, l, p, s), base)
    decreases l
  {
    match Scan(BackwardToks(lines[l], p), s)
    case Done(m) =>
      OpenedInLine(lines, l, p, base, s, m);
      OpensHere(lines, l, p, s, m);
    case Fail => StuckOnLine(lines, l, p, base, s);
    case More(s') =>
      ClosedOnLine(lines, l, p, base, s, s');
      if l > 0 {
        OpenFromAbove(lines, l - 1, |lines[l - 1]| - 1, base, s');
      }
  }

  lemma GroupPassedBack(lines: seq<string>, l: nat, p: nat, d: nat)
    requires l < |lines| && p < |lines[l]| && IsCloser(lines[l][p]) && d > 0
    ensures var r := OpenAt(lines, l, p);
            && (r.Some? ==> BracketSpan(lines, r.value.0, r.value.1, l, p + 1))
            && OpenFrom(lines, l, p, Marks(d))
               == if r.Some? then OpenFrom(lines, r.value.0, r.value.1 - 1, Marks(d)) else None
  {
    var k := KindOf(lines[l][p]);
    OpenFromStep(lines, l, p, Marks(d));
    OpenFromCloser(lines, l, p);
    OpenFromAbove(lines, l, p - 1, Marks(d), [k]);
    var r := OpenAt(lines, l, p);
    if r.Some? {
      OpenFindsSpan(lines, l, p, r.value.0, r.value.1);
    }
  }

  lemma {:induction false} OpenFromIsCount(lines: seq<string>, l: nat, p: int, d: nat, l1: nat, p1: nat)
    requires l < |lines| && -1 <= p < |lines[l]| && d > 0
    ensures OpenFrom(lines, l, p, Marks(d)) == Some((l1, p1)) <==> BackEnds(lines, l, p, d, l1, p1)
    decreases l, p + 1, 1
  {
    var line := lines[l];
    if p == -1 {
      OpenFromLineStart(lines, l, Marks(d));
      if l > 0 {
        OpenFromIsCount(lines, l - 1, |lines[l - 1]| - 1, d, l1, p1);
      }
    } else if IsCloser(line[p]) {
      GroupIsCountBack(lines, l, p, d, l1, p1);
    } else {
      BackwardRoles(line, p);
      OpenFromStep(lines, l, p, Marks(d));
      StepMarks(BackwardTok(line, p), d);
      var t := BackwardTok(line, p);
      if PassedByTwo(line, p) {
        OpenFromIsCount(lines, l, p - 2, d, l1, p1);
      } else if t == Mark {
        OpenFromIsCount(lines, l, p - 1, d + 1, l1, p1);
      } else if t.Unmark? && d > 1 {
        OpenFromIsCount(lines, l, p - 1, d - 1, l1, p1);
      } else if t == Skip {
        OpenFromIsCount(lines, l, p - 1, d, l1, p1);
      }
    }
  }

  lemma {:induction false} GroupIsCountBack(lines: seq<string>, l: nat, p: nat, d: nat, l1: nat, p1: nat)
    requires l < |lines| && p < |lines[l]| && IsCloser(lines[l][p]) && d > 0
    ensures OpenFrom(lines, l, p, Marks(d)) == Some((l1, p1)) <==> BackEnds(lines, l, p, d, l1, p1)
    decreases l, p + 1, 0
  {
    GroupPassedBack(lines, l, p, d);
    var r := OpenAt(lines, l, p);
    if r.Some? {
      var l3, before := r.value.0, r.value.1 as int - 1;
      OpenFromIsCount(lines, l3, before, d, l1, p1);
      if BackEnds(lines, l3, before, d, l1, p1) {
        assert GroupEndsAt(lines, l3, r.value.1, l, p);
      }
    }
    if BackEnds(lines, l, p, d, l1, p1) {
      var l3: nat, p3: nat :| GroupEndsAt(lines, l3, p3, l, p) && BackEnds(lines, l3, p3 - 1, d, l1, p1);
      OpenFindsSpan(lines, l, p, l3, p3);
    }
  }

  /** From a `>` that is passed by no pair ReverseCloseExpression finds exactly the end of the
      backward count. */
  lemma OpenAngleOnText(lines: seq<string>, l: nat, p: nat, l1: nat, p1: nat)
    requires l < |lines| && p < |lines[l]| && lines[l][p] == '>' && !PassedByTwo(lines[l], p)
    ensures OpenAt(lines, l, p) == Some((l1, p1)) <==> BackEnds(lines, l, p - 1, 1, l1, p1)
  {
    BackwardRoles(lines[l], p);
    OpenFromMark(lines, l, p);
    assert Marks(1) == [Angle];
    OpenFromIsCount(lines, l, p - 1, 1, l1, p1);
  }
}
