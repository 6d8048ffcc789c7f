/** What the lines inside a block do to the block itself: its parentheses, inline assembly,
    access and derivation; and directives outside any group. */
module BlockDetails {
  import opened Options
  import opened NestingModel

  /** A line with no directive, heads or tokens. */
  predicate Inner(line: Line) {
    line.directive == NoDirective && line.namespaces == [] && line.classHead == NoClass && line.tokens == []
  }

  predicate AllInner(lines: seq<Line>) { forall i :: 0 <= i < |lines| ==> Inner(lines[i]) }

  /** More opening than closing parentheses, over all the lines. */
  function Balance(lines: seq<Line>): int {
    if lines == [] then 0 else Balance(lines[..|lines| - 1]) + lines[|lines| - 1].parentheses
  }

  /** The last access keyword of the lines, `a` if there is none. */
  function LastAccess(lines: seq<Line>, a: Access): Access {
    if lines == [] then a
    else if lines[|lines| - 1].accessKeyword.Some? then lines[|lines| - 1].accessKeyword.value
    else LastAccess(lines[..|lines| - 1], a)
  }

  predicate SomeColon(lines: seq<Line>) { exists i :: 0 <= i < |lines| && lines[i].bareColon }

  lemma {:induction false} InnerLine(s: State, line: Line)
    requires Inner(line) && s.stack != []
    ensures Update(s, line) == s.(stack := Pop(s.stack) + [InspectClass(CountInBlock(Top(s.stack), line), line)])
  {
  }

  lemma {:induction false} RunLast(s: State, lines: seq<Line>)
    requires lines != []
    ensures Run(s, lines) == Update(Run(s, lines[..|lines| - 1]), lines[|lines| - 1])
  {
    var n := |lines| - 1;
    RunConcat(s, lines[..n], [lines[n]]);
    assert lines == lines[..n] + [lines[n]] && [lines[n]][1..] == [];
  }

  /** The block on top after the lines, and that nothing else has changed. */
  ghost predicate TopBecomes(s: State, lines: seq<Line>, b: Block)
    requires s.stack != []
  {
    Run(s, lines) == s.(stack := Pop(s.stack) + [b])
  }

  /** What the lines make of the block a. */
  predicate IsAfter(b: Block, a: Block, lines: seq<Line>) {
    && b.kind == a.kind && b.startingLine == a.startingLine && b.seenOpenBrace == a.seenOpenBrace
    && b.openParentheses == a.openParentheses + Balance(lines)
    && b.access == (if a.kind == Class then LastAccess(lines, a.access) else a.access)
    && b.isDerived == (a.isDerived || (a.kind == Class && !a.seenOpenBrace && SomeColon(lines)))
  }

  lemma {:induction false} OneMoreLine(c: Block, a: Block, lines: seq<Line>)
    requires lines != [] && IsAfter(c, a, lines[..|lines| - 1])
    ensures var line := lines[|lines| - 1];
            IsAfter(InspectClass(CountInBlock(c, line), line), a, lines)
  {
    ColonSplits(lines);
  }

  lemma {:induction false} InnerLines(s: State, lines: seq<Line>) returns (b: Block)
    requires s.stack != [] && AllInner(lines)
    ensures TopBecomes(s, lines, b) && IsAfter(b, Top(s.stack), lines)
    decreases |lines|
  {
    if lines == [] {
      b := Top(s.stack);
      assert s.stack == Pop(s.stack) + [b];
    } else {
      var line, before := lines[|lines| - 1], lines[..|lines| - 1];
      var c := InnerLines(s, before);
      b := InspectClass(CountInBlock(c, line), line);
      OneMoreLine(c, Top(s.stack), lines);
      LastLineOf(s, lines, c);
    }
  }

  lemma {:induction false} LastLineOf(s: State, lines: seq<Line>, c: Block)
    requires s.stack != [] && lines != [] && Inner(lines[|lines| - 1]) && TopBecomes(s, lines[..|lines| - 1], c)
    ensures var line := lines[|lines| - 1];
            TopBecomes(s, lines, InspectClass(CountInBlock(c, line), line))
  {
    RunLast(s, lines);
    InnerLine(Run(s, lines[..|lines| - 1]), lines[|lines| - 1]);
    assert Pop(Pop(s.stack) + [c]) == Pop(s.stack);
  }

  lemma {:induction false} ColonSplits(lines: seq<Line>)
    requires lines != []
    ensures SomeColon(lines) <==> SomeColon(lines[..|lines| - 1]) || lines[|lines| - 1].bareColon
  {
    var n := |lines| - 1;
    if SomeColon(lines) && !lines[n].bareColon {
      var i :| 0 <= i < |lines| && lines[i].bareColon;
      assert lines[..n][i].bareColon;
    }
    if SomeColon(lines[..n]) {
      var i :| 0 <= i < n && lines[..n][i].bareColon;
      assert lines[i].bareColon;
    }
  }

  /** Over any lines inside a block: the open parentheses are counted, a class takes the last
      access keyword and is derived from the first bare colon before its brace on; the other
      blocks and the checkpoints stay. */
  lemma {:induction false} LinesInside(s: State, lines: seq<Line>)
    requires s.stack != [] && AllInner(lines)
    ensures var a, t := Top(s.stack), Run(s, lines);
            && t.stack != [] && Pop(t.stack) == Pop(s.stack) && t.checkpoints == s.checkpoints
            && var b := Top(t.stack);
               && b.kind == a.kind && b.startingLine == a.startingLine && b.seenOpenBrace == a.seenOpenBrace
               && b.openParentheses == a.openParentheses + Balance(lines)
               && b.access == (if a.kind == Class then LastAccess(lines, a.access) else a.access)
               && b.isDerived == (a.isDerived || (a.kind == Class && !a.seenOpenBrace && SomeColon(lines)))
  {
    var b := InnerLines(s, lines);
  }

  // ----------------------------------------------------------------------- class heads

  /** A class head starts a block if and only if no parenthesis is open; a struct starts out
      public and a class private, unless an access keyword follows on the line. */
  lemma {:induction false} ClassHeadStarts(s: State, line: Line)
    requires line.directive == NoDirective && line.namespaces == [] && line.classHead != NoClass && line.tokens == []
    ensures var open := if s.stack == [] then 0 else Top(s.stack).openParentheses + line.parentheses;
            var t := Update(s, line);
            && t.checkpoints == s.checkpoints
            && (open != 0 ==> |t.stack| == |s.stack|)
            && (open == 0 ==> |t.stack| == |s.stack| + 1
                              && var first := if line.classHead == StructKeyword then Public else Private;
                                 var access := if line.accessKeyword.Some? then line.accessKeyword.value else first;
                                 Top(t.stack) == Block(Class, line.number, false, 0, NoAsm, access, line.bareColon))
  {
  }

  /** Leading namespaces start a block each, in order. */
  lemma {:induction false} NamespacesStart(st: seq<Block>, number: nat, braces: seq<bool>)
    ensures OpenNamespaces(st, number, braces)
         == st + seq(|braces|, i requires 0 <= i < |braces| =>
                       Block(Namespace, number, braces[i], 0, NoAsm, Public, false))
    decreases |braces|
  {
    if braces == [] {
    } else {
      NamespacesStart(st + [NewBlock(Namespace, number, braces[0])], number, braces[1..]);
    }
  }

  // -------------------------------------------------------------------- inline assembly

  /** The open parentheses after the first m lines. */
  function OpenAfter(lines: seq<Line>, open: int, m: nat): int
    requires m <= |lines|
  {
    open + Balance(lines[..m])
  }

  /** Line k looks like inline assembly and brings the open parentheses to one. */
  predicate StartsAsm(lines: seq<Line>, open: int, k: nat) {
    k < |lines| && lines[k].asmHead && lines[k].parentheses != 0 && OpenAfter(lines, open, k + 1) == 1
  }

  /** After line k no parenthesis is open. */
  predicate AllClosed(lines: seq<Line>, open: int, k: nat) { k < |lines| && OpenAfter(lines, open, k + 1) == 0 }

  ghost predicate AsmSince(lines: seq<Line>, open: int, k: nat) {
    StartsAsm(lines, open, k) && forall m: nat :: k < m < |lines| ==> !AllClosed(lines, open, m)
  }

  /** Some line starts inline assembly, and its parenthesis has not been closed since. */
  ghost predicate InAsm(lines: seq<Line>, open: int) { exists k: nat :: AsmSince(lines, open, k) }

  lemma OpenBefore(lines: seq<Line>, open: int, m: nat)
    requires m < |lines|
    ensures OpenAfter(lines[..|lines| - 1], open, m) == OpenAfter(lines, open, m)
  {
    assert lines[..|lines| - 1][..m] == lines[..m];
  }

  lemma SameBefore(lines: seq<Line>, open: int, k: nat)
    requires k + 1 < |lines|
    ensures StartsAsm(lines[..|lines| - 1], open, k) <==> StartsAsm(lines, open, k)
    ensures AllClosed(lines[..|lines| - 1], open, k) <==> AllClosed(lines, open, k)
  {
    OpenBefore(lines, open, k + 1);
  }

  lemma SinceBefore(lines: seq<Line>, open: int, k: nat)
    requires k + 1 < |lines| && AsmSince(lines, open, k)
    ensures AsmSince(lines[..|lines| - 1], open, k) && !AllClosed(lines, open, |lines| - 1)
  {
    var before := lines[..|lines| - 1];
    SameBefore(lines, open, k);
    forall m: nat | k < m < |before|
      ensures !AllClosed(before, open, m)
    {
      SameBefore(lines, open, m);
    }
  }

  lemma SinceStill(lines: seq<Line>, open: int, k: nat)
    requires lines != [] && AsmSince(lines[..|lines| - 1], open, k) && !AllClosed(lines, open, |lines| - 1)
    ensures AsmSince(lines, open, k)
  {
    SameBefore(lines, open, k);
    forall m: nat | k < m < |lines|
      ensures !AllClosed(lines, open, m)
    {
      if m < |lines| - 1 {
        SameBefore(lines, open, m);
      }
    }
  }

  lemma InAsmNext(lines: seq<Line>, open: int)
    requires lines != []
    ensures var n := |lines| - 1;
            InAsm(lines, open) <==> StartsAsm(lines, open, n) || (InAsm(lines[..n], open) && !AllClosed(lines, open, n))
  {
    var n := |lines| - 1;
    if InAsm(lines, open) {
      var k: nat :| AsmSince(lines, open, k);
      if k < n {
        SinceBefore(lines, open, k);
      }
    }
    if StartsAsm(lines, open, n) {
      assert AsmSince(lines, open, n);
    }
    if InAsm(lines[..n], open) && !AllClosed(lines, open, n) {
      var k: nat :| AsmSince(lines[..n], open, k);
      SinceStill(lines, open, k);
    }
  }

  /** The inline assembly of a block after these lines, `open` parentheses before them. */
  ghost predicate AsmIs(b: Block, lines: seq<Line>, open: int) {
    && b.openParentheses == open + Balance(lines) && b.inlineAsm != BlockAsm
    && (b.inlineAsm == InsideAsm <==> InAsm(lines, open))
  }

  lemma {:induction false} AsmNext(c: Block, lines: seq<Line>, open: int)
    requires lines != [] && AsmIs(c, lines[..|lines| - 1], open)
    ensures var n := |lines| - 1;
            var b := InspectClass(CountInBlock(c, lines[n]), lines[n]);
            AsmIs(b, lines, open) && (b.inlineAsm == EndAsm <==> InAsm(lines[..n], open) && AllClosed(lines, open, n))
  {
    InAsmNext(lines, open);
    assert lines[..|lines| - 1 + 1] == lines;
  }

  lemma {:induction false} AsmLines(s: State, lines: seq<Line>) returns (b: Block)
    requires s.stack != [] && Top(s.stack).inlineAsm == NoAsm && AllInner(lines)
    ensures TopBecomes(s, lines, b) && AsmIs(b, lines, Top(s.stack).openParentheses)
    decreases |lines|
  {
    if lines == [] {
      b := Top(s.stack);
      assert s.stack == Pop(s.stack) + [b];
    } else {
      var line, before := lines[|lines| - 1], lines[..|lines| - 1];
      var c := AsmLines(s, before);
      b := InspectClass(CountInBlock(c, line), line);
      AsmNext(c, lines, Top(s.stack).openParentheses);
      LastLineOf(s, lines, c);
    }
  }

  /** A block that is no assembly block, after any lines inside it: it is in inline assembly if
      and only if some line has started it and its parenthesis has not been closed since, and
      at the end of one if and only if the last line has closed it. */
  lemma {:induction false} AsmExactly(s: State, lines: seq<Line>)
    requires s.stack != [] && Top(s.stack).inlineAsm == NoAsm && lines != [] && AllInner(lines)
    ensures var open, n, t := Top(s.stack).openParentheses, |lines| - 1, Run(s, lines).stack;
            && t != [] && Top(t).inlineAsm != BlockAsm
            && (Top(t).inlineAsm == InsideAsm <==> InAsm(lines, open))
            && (Top(t).inlineAsm == EndAsm <==> InAsm(lines[..n], open) && AllClosed(lines, open, n))
  {
    var line, before := lines[|lines| - 1], lines[..|lines| - 1];
    var c := AsmLines(s, before);
    AsmNext(c, lines, Top(s.stack).openParentheses);
    LastLineOf(s, lines, c);
  }

  /** An assembly block stays one. */
  lemma {:induction false} AsmBlockStays(s: State, lines: seq<Line>)
    requires s.stack != [] && Top(s.stack).inlineAsm == BlockAsm && AllInner(lines)
    ensures Run(s, lines).stack != [] && Top(Run(s, lines).stack).inlineAsm == BlockAsm
    decreases |lines|
  {
    if lines != [] {
      var before := lines[..|lines| - 1];
      AsmBlockStays(s, before);
      RunLast(s, lines);
      InnerLine(Run(s, before), lines[|lines| - 1]);
    }
  }

  // ------------------------------------------------------------------- stray directives

  lemma OpenClassPlain(st: seq<Block>, line: Line, d: Directive)
    ensures OpenClass(st, line.(directive := d)) == OpenClass(st, line)
  {
  }

  lemma InspectPlain(st: seq<Block>, line: Line, d: Directive)
    ensures Inspect(st, line.(directive := d)) == Inspect(st, line)
  {
  }

  lemma CountPlain(st: seq<Block>, line: Line, d: Directive)
    ensures CountParentheses(st, line.(directive := d)) == CountParentheses(st, line)
  {
  }

  /** The directive itself is no text of the block. */
  lemma BodyPlain(st: seq<Block>, line: Line, d: Directive)
    ensures Body(st, line.(directive := d)) == Body(st, line)
  {
    CountPlain(st, line, d);
    var st1 := OpenNamespaces(CountParentheses(st, line), line.number, line.namespaces);
    OpenClassPlain(st1, line, d);
    InspectPlain(OpenClass(st1, line), line, d);
  }

  /** An #else, #elif or #endif outside any group counts as any other line. */
  lemma {:induction false} StrayDirective(s: State, line: Line)
    requires s.checkpoints == [] && line.directive != If
    ensures Update(s, line) == Update(s, line.(directive := NoDirective))
  {
    BodyPlain(s.stack, line, NoDirective);
  }
}
