/** Operators that ReverseCloseExpression passes by two characters: writing other punctuation
    in their place changes none of its answers. */
module InertBack {
  import opened Options
  import opened TextClasses
  import opened BracketGrammar
  import opened TentativeScan
  import opened Matchers
  import opened Spans
  import opened TextRoles
  import opened InertText

  /** An arrow or a shift operator at i (n == 2), or a `>` at i that is passed together with the
      character before it (n == 1). */
  ghost predicate PairAt(line: string, i: nat, n: nat) {
    && 1 <= n <= 2 && i + n <= |line| && PassedByTwo(line, i + n - 1) && FreeAfter(line, i, n)
    && (n == 1 ==> line[i] == '>')
  }

  // ------------------------------------------------------------------- the other characters

  lemma SamePair(line: string, line': string, i: nat, n: nat, k: nat)
    requires Left(line, line', i, n, k) && line[k] == '>'
    ensures PassedByTwo(line', k) <==> PassedByTwo(line, k)
  {
    SameOperator(line, line', i, n, k);
    if k > 0 {
      SameBefore(line, line', i, n, k);
      if k + 2 < |line| {
        SameSpacedEqual(line, line', i, n, k);
      }
    }
  }

  lemma SameBefore(line: string, line': string, i: nat, n: nat, k: nat)
    requires Left(line, line', i, n, k) && 0 < k
    ensures line[k] == '>' ==> (line'[k - 1] == '-' <==> line[k - 1] == '-')
    ensures line[k] == '<' ==> (line'[k - 1] == '<' <==> line[k - 1] == '<')
    ensures IsSpace(line'[k - 1]) <==> IsSpace(line[k - 1])
  {
    if i <= k - 1 < i + n {
      assert k == i + n;
      PunctuationIsNoWord(line[k - 1]);
      PunctuationIsNoWord(line'[k - 1]);
    }
  }

  lemma SameSpacedEqual(line: string, line': string, i: nat, n: nat, k: nat)
    requires Left(line, line', i, n, k) && k + 2 < |line|
    ensures line'[k + 1] == '=' && IsSpace(line'[k + 2]) <==> line[k + 1] == '=' && IsSpace(line[k + 2])
  {
    forall j | 0 <= j < |line|
      ensures line'[j] == '=' <==> line[j] == '='
      ensures IsSpace(line'[j]) <==> IsSpace(line[j])
    {
      if i <= j < i + n {
        PunctuationIsNoWord(line[j]);
        PunctuationIsNoWord(line'[j]);
      }
    }
  }

  /** A character that stays is read as before. */
  lemma SameBack(line: string, line': string, i: nat, n: nat, k: nat)
    requires Left(line, line', i, n, k)
    ensures StepsOverTwo(line', k) <==> StepsOverTwo(line, k)
    ensures BackwardTok(line', k) == BackwardTok(line, k)
  {
    BackwardRoles(line, k);
    BackwardRoles(line', k);
    if line[k] == '>' {
      SamePair(line, line', i, n, k);
    } else if line[k] == '<' && k > 0 {
      SameBefore(line, line', i, n, k);
    }
  }

  /** No pair reaches into the replaced characters from behind. */
  lemma NoPairBehind(line: string, i: nat, n: nat)
    requires PairAt(line, i, n) && i + n < |line| && line[i + n - 1] in "<>-"
    ensures !PassedByTwo(line, i + n)
  {
    PunctuationIsNoWord(line[i + n - 1]);
    if OperatorBefore(line, i + n) {
      OperatorIsNoBracket(line, i + n);
    }
  }

  // ------------------------------------------------------------------------------- the pair

  lemma BeforePair(line: string, i: nat)
    requires PassedByTwo(line, i) && line[i] == '>'
    ensures !StepsOverTwo(line, i - 1) && BackwardTok(line, i - 1) == Skip
  {
    if OperatorBefore(line, i) {
      OperatorIsNoBracket(line, i);
    }
    if line[i - 1] != '-' {
      SpaceIsNoBracket(line[i - 1]);
    }
  }

  lemma PairSkipped(lines: seq<string>, l: nat, p: nat, st: seq<Kind>)
    requires l < |lines| && 0 < p < |lines[l]|
    requires !StepsOverTwo(lines[l], p) && BackwardTok(lines[l], p) == Skip
    requires !StepsOverTwo(lines[l], p - 1) && BackwardTok(lines[l], p - 1) == Skip
    ensures OpenFrom(lines, l, p, st) == OpenFrom(lines, l, p - 2, st)
  {
    OpenFromStep(lines, l, p, st);
    OpenFromStep(lines, l, p - 1, st);
  }

  lemma InertPair(line: string, line': string, i: nat, n: nat)
    requires Replaced(line, line', i, n) && PairAt(line, i, n)
    ensures var p := i + n - 1;
            && p > 0
            && !StepsOverTwo(line', p) && BackwardTok(line', p) == Skip
            && !StepsOverTwo(line', p - 1) && BackwardTok(line', p - 1) == Skip
  {
    InertToken(line', i + n - 1);
    if n == 1 {
      BeforePair(line, i);
      SameBack(line, line', i, n, i - 1);
    } else {
      InertToken(line', i);
    }
  }

  // ----------------------------------------------------------------------------- the search

  lemma BackElsewhere(lines: seq<string>, lines': seq<string>, l: nat, i: nat, n: nat, m: nat, p: nat)
    requires OneLine(lines, lines', l) && Replaced(lines[l], lines'[l], i, n) && PairAt(lines[l], i, n)
    requires m < |lines| && p < |lines[m]| && !(m == l && i <= p < i + n)
    ensures |lines'[m]| == |lines[m]|
    ensures StepsOverTwo(lines'[m], p) <==> StepsOverTwo(lines[m], p)
    ensures BackwardTok(lines'[m], p) == BackwardTok(lines[m], p)
    ensures m == l && p == i + n ==> !StepsOverTwo(lines[m], p)
  {
    if m == l {
      SameBack(lines[l], lines'[l], i, n, p);
      if p == i + n {
        NoPairBehind(lines[l], i, n);
        BackwardRoles(lines[l], p);
      }
    }
  }

  lemma {:induction false} SameOpenFrom(lines: seq<string>, lines': seq<string>, l: nat, i: nat, n: nat, m: nat, p: int,
                                        st: seq<Kind>)
    requires OneLine(lines, lines', l) && Replaced(lines[l], lines'[l], i, n) && PairAt(lines[l], i, n)
    requires m < |lines| && -1 <= p < |lines[m]| && !(m == l && i <= p < i + n - 1)
    ensures |lines'[m]| == |lines[m]| && OpenFrom(lines', m, p, st) == OpenFrom(lines, m, p, st)
    decreases m, p + 1
  {
    if p == -1 {
      if st != [] && m > 0 {
        SameOpenFrom(lines, lines', l, i, n, m - 1, |lines[m - 1]| - 1, st);
      }
    } else if m == l && p == i + n - 1 {
      InertPair(lines[l], lines'[l], i, n);
      PairSkipped(lines', l, p, st);
      BackwardRoles(lines[l], p);
      OpenFromStep(lines, l, p, st);
      SameOpenFrom(lines, lines', l, i, n, l, p - 2, st);
    } else {
      SameOpenStep(lines, lines', l, i, n, m, p, st);
    }
  }

  lemma {:induction false} SameOpenStep(lines: seq<string>, lines': seq<string>, l: nat, i: nat, n: nat, m: nat, p: nat,
                                        st: seq<Kind>)
    requires OneLine(lines, lines', l) && Replaced(lines[l], lines'[l], i, n) && PairAt(lines[l], i, n)
    requires m < |lines| && p < |lines[m]| && !(m == l && i <= p < i + n)
    ensures |lines'[m]| == |lines[m]| && OpenFrom(lines', m, p, st) == OpenFrom(lines, m, p, st)
    decreases m, p + 1, 0
  {
    BackElsewhere(lines, lines', l, i, n, m, p);
    OpenFromStep(lines, m, p, st);
    OpenFromStep(lines', m, p, st);
    var next := Step(BackwardTok(lines[m], p), st);
    if StepsOverTwo(lines[m], p) {
      SameOpenFrom(lines, lines', l, i, n, m, p - 2, st);
    } else if next.More? {
      SameOpenFrom(lines, lines', l, i, n, m, p - 1, next.stack);
    }
  }

  /** Writing anything inert in place of an arrow, of a shift operator or of a `>` passed by two
      changes no answer of ReverseCloseExpression, but from that `>` itself. */
  lemma PairIsNothing(lines: seq<string>, lines': seq<string>, l: nat, i: nat, n: nat, m: nat, p: nat)
    requires OneLine(lines, lines', l) && Replaced(lines[l], lines'[l], i, n) && PairAt(lines[l], i, n)
    requires m < |lines| && p < |lines[m]| && !(m == l && p == i + n - 1)
    ensures |lines'[m]| == |lines[m]| && OpenAt(lines', m, p) == OpenAt(lines, m, p)
  {
    if m == l && i <= p < i + n {
      FirstOfTwo(lines[l], i);
      InertToken(lines'[l], p);
      PunctuationIsNoWord(lines'[l][p]);
    } else {
      SameOpenFrom(lines, lines', l, i, n, m, p, []);
    }
  }

  lemma FirstOfTwo(line: string, i: nat)
    requires i + 1 < |line| && PassedByTwo(line, i + 1) && line[i] in "<>-"
    ensures line[i] == '-' || line[i] == '<'
  {
    PunctuationIsNoWord(line[i]);
    if OperatorBefore(line, i + 1) {
      OperatorIsNoBracket(line, i + 1);
    }
  }
}
