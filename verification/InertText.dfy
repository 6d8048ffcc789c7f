/** Operators that are no brackets: writing other punctuation in their place changes no
    answer of the two searches. */
module InertText {
  import opened Options
  import opened TextClasses
  import opened BracketGrammar
  import opened TentativeScan
  import opened Matchers
  import opened Spans
  import opened AngleCounter
  import opened TextRoles

  /** Punctuation that means nothing to either search. */
  predicate Inert(c: char) { !IsWord(c) && !IsSpace(c) && c !in "()[]{}<>;-=" }

  /** The n characters from i on replaced by inert ones; they were operator characters. */
  predicate Replaced(line: string, line': string, i: nat, n: nat) {
    && |line| == |line'| && i + n <= |line|
    && (forall k :: 0 <= k < |line| && !(i <= k < i + n) ==> line'[k] == line[k])
    && forall k :: i <= k < i + n ==> Inert(line'[k]) && line[k] in "<>-"
  }

  lemma PunctuationIsNoWord(c: char)
    requires Inert(c) || c in "<>-"
    ensures !IsWord(c) && !IsSpace(c) && c != '=' && c != ';' && !IsOpener(c) && !IsCloser(c)
  {
  }

  // -------------------------------------------------------- what `operator` comes before

  lemma OperatorStays(line: string, line': string, i: nat, n: nat, m: nat, k: nat)
    requires Replaced(line, line', i, n) && OperatorEnds(line, m, k)
    ensures OperatorEnds(line', m, k)
  {
    forall j | m - 8 <= j < k
      ensures line'[j] == line[j]
    {
      if i <= j < i + n {
        PunctuationIsNoWord(line[j]);
        OperatorLetter(line, m, j);
      }
    }
    assert line'[m - 8..m] == line[m - 8..m];
    if m > 8 && i <= m - 9 < i + n {
      PunctuationIsNoWord(line'[m - 9]);
    }
  }

  lemma OperatorLetter(line: string, m: nat, j: nat)
    requires 8 <= m <= |line| && line[m - 8..m] == "operator" && m - 8 <= j
    ensures j < m ==> IsWord(line[j])
  {
    if j < m {
      assert line[j] == line[m - 8..m][j - (m - 8)] == "operator"[j - (m - 8)];
    }
  }

  lemma OperatorComesBack(line: string, line': string, i: nat, n: nat, m: nat, k: nat)
    requires Replaced(line, line', i, n) && OperatorEnds(line', m, k)
    ensures OperatorEnds(line, m, k)
  {
    forall j | m - 8 <= j < k
      ensures line'[j] == line[j]
    {
      if i <= j < i + n {
        PunctuationIsNoWord(line'[j]);
        OperatorLetter(line', m, j);
      }
    }
    assert line'[m - 8..m] == line[m - 8..m];
    if m > 8 && i <= m - 9 < i + n {
      PunctuationIsNoWord(line[m - 9]);
    }
  }

  lemma SameOperator(line: string, line': string, i: nat, n: nat, k: nat)
    requires Replaced(line, line', i, n)
    ensures OperatorBefore(line', k) <==> OperatorBefore(line, k)
  {
    if OperatorBefore(line, k) {
      var m: nat :| OperatorEnds(line, m, k);
      OperatorStays(line, line', i, n, m, k);
    }
    if OperatorBefore(line', k) {
      var m: nat :| OperatorEnds(line', m, k);
      OperatorComesBack(line, line', i, n, m, k);
    }
  }

  // ------------------------------------------------------------------------ forward tokens

  /** What follows the replaced characters does not depend on them. */
  predicate FreeAfter(line: string, i: nat, n: nat)
    requires 0 < n && i + n <= |line|
  {
    i + n < |line| ==>
      && !(line[i + n - 1] == '<' && line[i + n] == '<')
      && !(line[i + n - 1] == '-' && line[i + n] == '>')
  }

  /** The arguments of a replacement and a character it leaves. */
  predicate Left(line: string, line': string, i: nat, n: nat, k: nat) {
    Replaced(line, line', i, n) && 0 < n && FreeAfter(line, i, n) && k < |line| && !(i <= k < i + n)
  }

  lemma SameLess(line: string, line': string, i: nat, n: nat, k: nat)
    requires Left(line, line', i, n, k) && line[k] == '<'
    ensures ForwardTok(line', k) == ForwardTok(line, k)
  {
    LessRole(line, k);
    LessRole(line', k);
    SameOperator(line, line', i, n, k);
    if k > 0 && i <= k - 1 < i + n {
      assert k == i + n && Inert(line'[k - 1]);
    }
    assert TakesBack(line', k) <==> TakesBack(line, k);
  }

  lemma SameGreater(line: string, line': string, i: nat, n: nat, k: nat)
    requires Left(line, line', i, n, k) && line[k] == '>'
    ensures ForwardTok(line', k) == ForwardTok(line, k)
  {
    GreaterRole(line, k);
    GreaterRole(line', k);
    if k > 0 {
      SameOperator(line, line', i, n, k - 1);
      if i <= k - 1 < i + n {
        assert k == i + n && Inert(line'[k - 1]);
      }
    }
    assert ClosesAngle(line', k) <==> ClosesAngle(line, k);
  }

  lemma SameToken(line: string, line': string, i: nat, n: nat, k: nat)
    requires Left(line, line', i, n, k)
    ensures ForwardTok(line', k) == ForwardTok(line, k)
  {
    if line[k] == '<' {
      SameLess(line, line', i, n, k);
    } else if line[k] == '>' {
      SameGreater(line, line', i, n, k);
    }
  }

  lemma InertToken(line: string, i: nat)
    requires i < |line| && Inert(line[i])
    ensures ForwardTok(line, i) == Skip && BackwardTok(line, i) == Skip && !StepsOverTwo(line, i)
    ensures !Searches(line, i)
  {
    PunctuationIsNoWord(line[i]);
  }

  /** The replaced characters said nothing. */
  predicate SaidNothing(line: string, i: nat, n: nat)
    requires i + n <= |line|
  {
    forall k :: i <= k < i + n ==> ForwardTok(line, k) == Skip
  }

  lemma SameTokens(line: string, line': string, i: nat, n: nat)
    requires Replaced(line, line', i, n) && 0 < n && FreeAfter(line, i, n) && SaidNothing(line, i, n)
    ensures forall p :: 0 <= p <= |line| ==> ForwardToks(line', p) == ForwardToks(line, p)
  {
    forall k | 0 <= k < |line|
      ensures ForwardTok(line', k) == ForwardTok(line, k)
    {
      if i <= k < i + n {
        InertToken(line', k);
      } else {
        SameToken(line, line', i, n, k);
      }
    }
  }

  /** The same lines, but for one, which reads as the same tokens. */
  predicate OneLine(lines: seq<string>, lines': seq<string>, l: nat) {
    && |lines'| == |lines| && l < |lines| && |lines'[l]| == |lines[l]|
    && forall m :: 0 <= m < |lines| && m != l ==> lines'[m] == lines[m]
  }

  lemma {:induction false} SameCloseFrom(lines: seq<string>, lines': seq<string>, l: nat, m: nat, p: nat, st: seq<Kind>)
    requires OneLine(lines, lines', l) && m < |lines| && p <= |lines[m]|
    requires forall q :: 0 <= q <= |lines[l]| ==> ForwardToks(lines'[l], q) == ForwardToks(lines[l], q)
    ensures CloseFrom(lines', m, p, st) == CloseFrom(lines, m, p, st)
    decreases |lines| - m
  {
    assert ForwardToks(lines'[m], p) == ForwardToks(lines[m], p);
    var r := Scan(ForwardToks(lines[m], p), st);
    if r.More? && r.stack != [] && m + 1 < |lines| {
      SameCloseFrom(lines, lines', l, m + 1, 0, r.stack);
    }
  }

  /** An operator that says nothing can be written in inert characters: every answer of
      CloseExpression stays, but from the replaced characters themselves. */
  lemma CloseIgnores(lines: seq<string>, lines': seq<string>, l: nat, i: nat, n: nat, m: nat, p: nat)
    requires OneLine(lines, lines', l) && Replaced(lines[l], lines'[l], i, n) && 0 < n
    requires FreeAfter(lines[l], i, n) && SaidNothing(lines[l], i, n)
    requires m < |lines| && p < |lines[m]| && !(m == l && i <= p < i + n)
    requires m == l && p + 1 == i ==> lines[l][i] != '<'
    ensures CloseAt(lines', m, p) == CloseAt(lines, m, p)
  {
    SameTokens(lines[l], lines'[l], i, n);
    SameCloseFrom(lines, lines', l, m, p, []);
    if m == l && p + 1 < |lines[l]| && i <= p + 1 < i + n {
      PunctuationIsNoWord(lines'[l][p + 1]);
      PunctuationIsNoWord(lines[l][p + 1]);
    }
  }

  // ---------------------------------------------------------------------- the operators

  /** An arrow. */
  predicate ArrowAt(line: string, i: nat) { i + 1 < |line| && line[i] == '-' && line[i + 1] == '>' }

  /** Writing anything inert in place of an arrow changes no answer of CloseExpression. */
  lemma ArrowIsNothing(lines: seq<string>, lines': seq<string>, l: nat, i: nat, m: nat, p: nat)
    requires OneLine(lines, lines', l) && ArrowAt(lines[l], i) && Replaced(lines[l], lines'[l], i, 2)
    requires m < |lines| && p < |lines[m]|
    ensures CloseAt(lines', m, p) == CloseAt(lines, m, p)
  {
    if m == l && i <= p < i + 2 {
      InertToken(lines'[l], p);
    } else {
      CloseIgnores(lines, lines', l, i, 2, m, p);
    }
  }

  /** The character before a `<` that follows `operator` is searched from in neither file. */
  lemma NoSearchBefore(lines: seq<string>, l: nat, p: nat)
    requires l < |lines| && p < |lines[l]| && (IsSpace(lines[l][p]) || lines[l][p] == 'r')
    ensures CloseAt(lines, l, p) == None
  {
    SpaceIsNoBracket(lines[l][p]);
    NoSearch(lines, l, p);
  }

  /** Nor does it for a `<` that follows `operator`, but from that `<` itself. */
  lemma OperatorLessIsNothing(lines: seq<string>, lines': seq<string>, l: nat, i: nat, m: nat, p: nat)
    requires OneLine(lines, lines', l) && Replaced(lines[l], lines'[l], i, 1)
    requires lines[l][i] == '<' && OperatorBefore(lines[l], i)
    requires !(i + 1 < |lines[l]| && lines[l][i + 1] == '<')
    requires m < |lines| && p < |lines[m]| && !(m == l && p == i)
    ensures CloseAt(lines', m, p) == CloseAt(lines, m, p)
  {
    OperatorIsNoBracket(lines[l], i);
    if m == l && p + 1 == i {
      NoSearchBefore(lines, l, p);
      NoSearchBefore(lines', l, p);
    } else {
      LessSaysNothing(lines[l], i);
      CloseIgnores(lines, lines', l, i, 1, m, p);
    }
  }

  lemma LessSaysNothing(line: string, i: nat)
    requires i < |line| && line[i] == '<' && OperatorBefore(line, i)
    ensures SaidNothing(line, i, 1)
  {
    LessIsSkipped(line, i);
    forall k | i <= k < i + 1
      ensures ForwardTok(line, k) == Skip
    {
      assert k == i;
    }
  }

  lemma LessIsSkipped(line: string, i: nat)
    requires i < |line| && line[i] == '<' && OperatorBefore(line, i)
    ensures ForwardTok(line, i) == Skip
  {
    OperatorIsNoBracket(line, i);
    SpaceIsNoBracket(line[i - 1]);
    assert !TakesBack(line, i) && !OpensAngle(line, i);
    LessRole(line, i);
  }

  lemma OperatorLast(line: string, m: nat, k: nat)
    requires OperatorEnds(line, m, k)
    ensures IsSpace(line[k - 1]) || line[k - 1] == 'r'
  {
    if m == k {
      assert line[k - 1] == line[k - 8..k][7];
    }
  }

  lemma SpaceIsNoBracket(c: char)
    requires IsSpace(c) || c == 'r'
    ensures !IsOpener(c) && !IsCloser(c) && c != '<' && c != '>' && c != ';'
  {
  }

  /** `operator` and white space end in no bracket. */
  lemma OperatorIsNoBracket(line: string, i: nat)
    requires i <= |line| && OperatorBefore(line, i)
    ensures i > 0 && (IsSpace(line[i - 1]) || line[i - 1] == 'r')
  {
    var m: nat :| OperatorEnds(line, m, i);
    OperatorLast(line, m, i);
  }

  /** Nor for a `>` one character after `operator`. */
  lemma OperatorGreaterIsNothing(lines: seq<string>, lines': seq<string>, l: nat, i: nat, m: nat, p: nat)
    requires OneLine(lines, lines', l) && Replaced(lines[l], lines'[l], i, 1)
    requires lines[l][i] == '>' && i > 0 && OperatorBefore(lines[l], i - 1)
    requires m < |lines| && p < |lines[m]|
    ensures CloseAt(lines', m, p) == CloseAt(lines, m, p)
  {
    GreaterRole(lines[l], i);
    if m == l && p == i {
      InertToken(lines'[l], p);
    } else {
      CloseIgnores(lines, lines', l, i, 1, m, p);
    }
  }

  // ------------------------------------------------------------------ the shift operator

  /** A `<<` of which the first was pushed, and no third `<`. */
  ghost predicate ShiftAt(line: string, i: nat) {
    && i + 1 < |line| && OpensAngle(line, i) && line[i + 1] == '<'
    && !(i + 2 < |line| && line[i + 2] == '<')
  }

  lemma {:induction false} StaysPending(t: Tok, st: seq<Kind>)
    requires st != [] && Step(t, st).More?
    ensures Step(t, st).stack != []
  {
  }

  lemma ShiftPair(line: string, line': string, i: nat)
    requires Replaced(line, line', i, 2) && ShiftAt(line, i)
    ensures ForwardTok(line, i) == Mark && ForwardTok(line, i + 1) == Unmark(false)
    ensures ForwardTok(line', i) == Skip && ForwardTok(line', i + 1) == Skip
  {
    ForwardRoles(line, i);
    ForwardRoles(line, i + 1);
    InertToken(line', i);
    InertToken(line', i + 1);
  }

  /** A mark taken back at once leaves a search with something pending as it was. */
  lemma MarkTakenBack(lines: seq<string>, l: nat, i: nat, st: seq<Kind>)
    requires l < |lines| && i + 1 < |lines[l]| && st != []
    requires ForwardTok(lines[l], i) == Mark && ForwardTok(lines[l], i + 1) == Unmark(false)
    ensures CloseFrom(lines, l, i, st) == CloseFrom(lines, l, i + 2, st)
  {
    CloseFromStep(lines, l, i, st);
    CloseFromStep(lines, l, i + 1, st + [Angle]);
    assert Pop(st + [Angle]) == st;
  }

  lemma TwoSkipped(lines: seq<string>, l: nat, i: nat, st: seq<Kind>)
    requires l < |lines| && i + 1 < |lines[l]|
    requires ForwardTok(lines[l], i) == Skip && ForwardTok(lines[l], i + 1) == Skip
    ensures CloseFrom(lines, l, i, st) == CloseFrom(lines, l, i + 2, st)
  {
    CloseFromStep(lines, l, i, st);
    CloseFromStep(lines, l, i + 1, st);
  }

  lemma ShiftPassed(lines: seq<string>, lines': seq<string>, l: nat, i: nat, st: seq<Kind>)
    requires OneLine(lines, lines', l) && Replaced(lines[l], lines'[l], i, 2) && ShiftAt(lines[l], i) && st != []
    ensures CloseFrom(lines, l, i, st) == CloseFrom(lines, l, i + 2, st)
    ensures CloseFrom(lines', l, i, st) == CloseFrom(lines', l, i + 2, st)
  {
    ShiftPair(lines[l], lines'[l], i);
    MarkTakenBack(lines, l, i, st);
    TwoSkipped(lines', l, i, st);
  }

  /** One character elsewhere. */
  lemma ShiftElsewhere(lines: seq<string>, lines': seq<string>, l: nat, i: nat, m: nat, p: nat)
    requires OneLine(lines, lines', l) && Replaced(lines[l], lines'[l], i, 2) && ShiftAt(lines[l], i)
    requires m < |lines| && p < |lines[m]| && !(m == l && i <= p < i + 2)
    ensures |lines'[m]| == |lines[m]| && ForwardTok(lines'[m], p) == ForwardTok(lines[m], p)
  {
    if m == l {
      SameToken(lines[l], lines'[l], i, 2, p);
    }
  }

  lemma {:induction false} ShiftCloseFrom(lines: seq<string>, lines': seq<string>, l: nat, i: nat, m: nat, p: nat,
                                          st: seq<Kind>)
    requires OneLine(lines, lines', l) && Replaced(lines[l], lines'[l], i, 2) && ShiftAt(lines[l], i)
    requires m < |lines| && p <= |lines[m]| && st != [] && !(m == l && p == i + 1)
    ensures CloseFrom(lines', m, p, st) == CloseFrom(lines, m, p, st)
    decreases |lines| - m, |lines[m]| - p
  {
    if p == |lines[m]| {
      CloseFromLineEnd(lines, m, st);
      CloseFromLineEnd(lines', m, st);
      if m + 1 < |lines| {
        ShiftCloseFrom(lines, lines', l, i, m + 1, 0, st);
      }
    } else if m == l && p == i {
      ShiftPassed(lines, lines', l, i, st);
      ShiftCloseFrom(lines, lines', l, i, l, i + 2, st);
    } else {
      var next := ShiftStep(lines, lines', l, i, m, p, st);
      if next.More? {
        ShiftCloseFrom(lines, lines', l, i, m, p + 1, next.stack);
      }
    }
  }

  lemma ShiftStep(lines: seq<string>, lines': seq<string>, l: nat, i: nat, m: nat, p: nat, st: seq<Kind>)
    returns (next: Outcome)
    requires OneLine(lines, lines', l) && Replaced(lines[l], lines'[l], i, 2) && ShiftAt(lines[l], i)
    requires m < |lines| && p < |lines[m]| && st != [] && !(m == l && i <= p < i + 2)
    ensures |lines'[m]| == |lines[m]| && (next.More? ==> next.stack != [])
    ensures CloseFrom(lines, m, p, st) == match next
                                          case More(s) => CloseFrom(lines, m, p + 1, s)
                                          case Done(_) => Some((m, p + 1))
                                          case Fail => None
    ensures CloseFrom(lines', m, p, st) == match next
                                           case More(s) => CloseFrom(lines', m, p + 1, s)
                                           case Done(_) => Some((m, p + 1))
                                           case Fail => None
  {
    next := Step(ForwardTok(lines[m], p), st);
    ShiftElsewhere(lines, lines', l, i, m, p);
    CloseFromStep(lines, m, p, st);
    CloseFromStep(lines', m, p, st);
    if next.More? {
      StaysPending(ForwardTok(lines[m], p), st);
    }
  }

  /** Writing anything inert in place of a shift operator changes no answer of CloseExpression
      from a bracket or a `<` that opens a list, but from the operator itself. */
  lemma ShiftIsNothing(lines: seq<string>, lines': seq<string>, l: nat, i: nat, m: nat, p: nat)
    requires OneLine(lines, lines', l) && Replaced(lines[l], lines'[l], i, 2) && ShiftAt(lines[l], i)
    requires m < |lines| && p < |lines[m]| && !(m == l && i <= p < i + 2)
    requires IsOpener(lines[m][p]) || OpensAngle(lines[m], p)
    ensures CloseAt(lines', m, p) == CloseAt(lines, m, p)
  {
    ForwardRoles(lines[m], p);
    ShiftElsewhere(lines, lines', l, i, m, p);
    var k := if IsOpener(lines[m][p]) then KindOf(lines[m][p]) else Angle;
    assert Step(ForwardTok(lines[m], p), []) == More([] + [k]) == More([k]);
    CloseFromPushed(lines, m, p, k);
    CloseFromPushed(lines', m, p, k);
    ShiftCloseFrom(lines, lines', l, i, m, p + 1, [k]);
  }

  // --------------------------------------------------------------- where no search can end

  /** A search ends just after a closing bracket, or after a `>` that ends no arrow and does not
      come one character after `operator`. */
  lemma {:induction false} CloseFromEndsAt(lines: seq<string>, l: nat, p: nat, st: seq<Kind>)
    requires l < |lines| && p <= |lines[l]|
    ensures var r := CloseFrom(lines, l, p, st);
            r.Some? ==>
              var (l2, e) := r.value;
              l2 < |lines| && 0 < e <= |lines[l2]| && (IsCloser(lines[l2][e - 1]) || ClosesAngle(lines[l2], e - 1))
    decreases |lines| - l, |lines[l]| - p
  {
    if p == |lines[l]| {
      if st != [] {
        CloseFromLineEnd(lines, l, st);
        if l + 1 < |lines| {
          CloseFromEndsAt(lines, l + 1, 0, st);
        }
      }
    } else {
      CloseFromStep(lines, l, p, st);
      ForwardRoles(lines[l], p);
      var next := Step(ForwardTok(lines[l], p), st);
      if next.More? {
        CloseFromEndsAt(lines, l, p + 1, next.stack);
      }
    }
  }

  lemma NeverEndsAtOperator(lines: seq<string>, l: nat, p: nat)
    requires l < |lines| && p < |lines[l]| && CloseAt(lines, l, p).Some?
    ensures var (l2, e) := CloseAt(lines, l, p).value;
            && l2 < |lines| && 0 < e <= |lines[l2]|
            && !(e >= 2 && ArrowAt(lines[l2], e - 2))
            && (lines[l2][e - 1] == '>' && e >= 2 ==> !OperatorBefore(lines[l2], e - 2))
  {
    CloseFromEndsAt(lines, l, p, []);
  }

  lemma OperatorThenSpace(line: string, m: nat, i: nat)
    requires i < |line| && line[i] == '>' && OperatorEnds(line, m, i) && m < i
    ensures IsSpace(line[i - 1]) && !ClosesAngle(line, i)
  {
    assert OperatorEnds(line, m, i - 1);
  }

  lemma OperatorThenGreater(line: string, i: nat)
    requires i < |line| && line[i] == '>' && OperatorEnds(line, i, i)
    ensures !IsSpace(line[i - 1]) && ClosesAngle(line, i)
  {
    assert line[i - 1] == line[i - 8..i][7] && line[i - 2] == line[i - 8..i][6];
    if OperatorBefore(line, i - 1) {
      OperatorIsNoBracket(line, i - 1);
    }
  }

  lemma OperatorThen(line: string, m: nat, i: nat)
    requires i < |line| && line[i] == '>' && OperatorEnds(line, m, i)
    ensures i > 0 && (ClosesAngle(line, i) <==> !IsSpace(line[i - 1]))
  {
    if m < i {
      OperatorThenSpace(line, m, i);
    } else {
      OperatorThenGreater(line, i);
    }
  }

  lemma OperatorWord(line: string, i: nat) returns (m: nat)
    requires OperatorBefore(line, i)
    ensures OperatorEnds(line, m, i)
  {
    m :| OperatorEnds(line, m, i);
  }

  /** A `>` after `operator` is kept from closing a list exactly by white space between the two. */
  lemma AfterOperatorExactly(line: string, i: nat)
    requires i < |line| && line[i] == '>' && OperatorBefore(line, i)
    ensures i > 0 && (ClosesAngle(line, i) <==> !IsSpace(line[i - 1]))
  {
    var m := OperatorWord(line, i);
    OperatorThen(line, m, i);
  }

  /** So a list can end in the name `operator>`. */
  lemma EndsInOperatorName(name: string)
    requires name == "<operator>"
    ensures CloseAt([name], 0, 0) == Some((0, 10))
  {
    OperatorName(name);
    ForwardRoles(name, 0);
    ForwardRoles(name, 9);
    CloseFromMark([name], 0, 0);
    SkipsTo([name], 0, 1, 9, [Angle]);
    CloseFromStep([name], 0, 9, [Angle]);
  }

  lemma OperatorName(name: string)
    requires name == "<operator>"
    ensures |name| == 10 && OpensAngle(name, 0) && ClosesAngle(name, 9) && name[1] != '<' && name[1] != '='
    ensures forall k :: 1 <= k < 9 ==> ForwardTok(name, k) == Skip
  {
    assert name[1..9] == "operator";
    assert OperatorEnds(name, 9, 9);
    AfterOperatorExactly(name, 9);
    NoOperatorAtStart(name);
    forall k | 1 <= k < 9
      ensures ForwardTok(name, k) == Skip
    {
      OperatorLetter(name, 9, k);
      WordIsNoBracket(name[k]);
    }
  }

  lemma WordIsNoBracket(c: char)
    requires IsWord(c)
    ensures !IsOpener(c) && !IsCloser(c) && c != '<' && c != '>' && c != ';'
  {
  }

  lemma {:induction false} SkipsTo(lines: seq<string>, l: nat, p: nat, q: nat, st: seq<Kind>)
    requires l < |lines| && p <= q <= |lines[l]|
    requires forall k :: p <= k < q ==> ForwardTok(lines[l], k) == Skip
    ensures CloseFrom(lines, l, p, st) == CloseFrom(lines, l, q, st)
    decreases q - p
  {
    if p < q {
      CloseFromStep(lines, l, p, st);
      SkipsTo(lines, l, p + 1, q, st);
    }
  }
}
