/** The nesting state of the linter on values: what one line does to the block stack and
    to the preprocessor checkpoints, and what whole files do.

    A line comes as what the linter's patterns found in it. */
module NestingModel {
  import opened Options

  datatype Access = Public | Private | Protected | Signals

  datatype Asm = NoAsm | InsideAsm | EndAsm | BlockAsm

  datatype Kind = Generic | ExternC | Namespace | Class

  datatype Block = Block(kind: Kind, startingLine: nat, seenOpenBrace: bool, openParentheses: int,
                         inlineAsm: Asm, access: Access, isDerived: bool)

  datatype Directive = NoDirective | If | Else | Endif

  /** `externC` and `asm` tell what the rest of the line looks like at an opening brace. */
  datatype Token = OpenBrace(externC: bool, asm: bool) | CloseBrace | Semicolon | CloseParen

  datatype ClassHead = NoClass | ClassKeyword | StructKeyword

  datatype Line = Line(
    number: nat,
    directive: Directive,
    parentheses: int,          // count of '(' minus count of ')'
    asmHead: bool,             // starts like inline assembly
    namespaces: seq<bool>,     // leading namespace declarations; true with their brace
    classHead: ClassHead,      // a class or struct declaration that is not a template argument
    bareColon: bool,
    accessKeyword: Option<Access>,
    tokens: seq<Token>)

  datatype Checkpoint = Checkpoint(beforeIf: seq<Block>, beforeElse: seq<Block>, seenElse: bool)

  datatype State = State(stack: seq<Block>, checkpoints: seq<Checkpoint>)

  function Top(st: seq<Block>): Block
    requires st != []
  {
    st[|st| - 1]
  }

  function Pop(st: seq<Block>): seq<Block>
    requires st != []
  {
    st[..|st| - 1]
  }

  predicate SeenOpenBrace(st: seq<Block>) { st == [] || Top(st).seenOpenBrace }

  // -------------------------------------------------------------- one line, step by step

  function Preprocess(s: State, d: Directive): State {
    match d
    case NoDirective => s
    case If => s.(checkpoints := s.checkpoints + [Checkpoint(s.stack, [], false)])
    case Else =>
      if s.checkpoints == [] then s else
        var n := |s.checkpoints| - 1;
        var c := s.checkpoints[n];
        var c' := if c.seenElse then c else c.(seenElse := true, beforeElse := s.stack);
        State(c.beforeIf, s.checkpoints[n := c'])
    case Endif =>
      if s.checkpoints == [] then s else
        var n := |s.checkpoints| - 1;
        var c := s.checkpoints[n];
        State(if c.seenElse then c.beforeElse else s.stack, s.checkpoints[..n])
  }

  function CountInBlock(b: Block, line: Line): Block {
    var open := b.openParentheses + line.parentheses;
    var asm :=
      match b.inlineAsm
      case BlockAsm => BlockAsm
      case InsideAsm => if open == 0 then EndAsm else InsideAsm
      case _ => if line.parentheses != 0 && open == 1 && line.asmHead then InsideAsm else NoAsm;
    b.(openParentheses := open, inlineAsm := asm)
  }

  function CountParentheses(st: seq<Block>, line: Line): seq<Block> {
    if st == [] then st else Pop(st) + [CountInBlock(Top(st), line)]
  }

  function NewBlock(kind: Kind, number: nat, seen: bool): Block {
    Block(kind, number, seen, 0, NoAsm, Public, false)
  }

  function OpenNamespaces(st: seq<Block>, number: nat, braces: seq<bool>): seq<Block>
    decreases |braces|
  {
    if braces == [] then st
    else OpenNamespaces(st + [NewBlock(Namespace, number, braces[0])], number, braces[1..])
  }

  function OpenClass(st: seq<Block>, line: Line): seq<Block> {
    if line.classHead == NoClass || (st != [] && Top(st).openParentheses != 0) then st
    else st + [NewBlock(Class, line.number, false)
                 .(access := if line.classHead == StructKeyword then Public else Private)]
  }

  /** The head checks and the access keyword, both for an innermost class. */
  function InspectClass(b: Block, line: Line): Block {
    if b.kind != Class then b else
      var b1 := if !b.seenOpenBrace && line.bareColon then b.(isDerived := true) else b;
      if line.accessKeyword == None then b1 else b1.(access := line.accessKeyword.value)
  }

  function Inspect(st: seq<Block>, line: Line): seq<Block> {
    if st == [] then st else Pop(st) + [InspectClass(Top(st), line)]
  }

  function Consume(st: seq<Block>, number: nat, t: Token): seq<Block> {
    match t
    case OpenBrace(externC, asm) =>
      if !SeenOpenBrace(st) then Pop(st) + [Top(st).(seenOpenBrace := true)]
      else if externC then st + [NewBlock(ExternC, number, true)]
      else st + [NewBlock(Generic, number, true).(inlineAsm := if asm then BlockAsm else NoAsm)]
    case Semicolon => if SeenOpenBrace(st) then st else Pop(st)
    case CloseParen => if SeenOpenBrace(st) then st else Pop(st)
    case CloseBrace => if st == [] then st else Pop(st)
  }

  function ConsumeAll(st: seq<Block>, number: nat, ts: seq<Token>): seq<Block>
    decreases |ts|
  {
    if ts == [] then st else ConsumeAll(Consume(st, number, ts[0]), number, ts[1..])
  }

  /** What a line does to the block stack once its directive has been dealt with. */
  function Body(st: seq<Block>, line: Line): seq<Block> {
    var st1 := OpenNamespaces(CountParentheses(st, line), line.number, line.namespaces);
    ConsumeAll(Inspect(OpenClass(st1, line), line), line.number, line.tokens)
  }

  function Update(s: State, line: Line): State {
    var s1 := Preprocess(s, line.directive);
    s1.(stack := Body(s1.stack, line))
  }

  function Run(s: State, lines: seq<Line>): State
    decreases |lines|
  {
    if lines == [] then s else Run(Update(s, lines[0]), lines[1..])
  }

  lemma {:induction false} RunConcat(s: State, a: seq<Line>, b: seq<Line>)
    ensures Run(s, a + b) == Run(Run(s, a), b)
    decreases |a|
  {
    if a == [] {
      assert a + b == b;
    } else {
      assert (a + b)[1..] == a[1..] + b;
      RunConcat(Update(s, a[0]), a[1..], b);
    }
  }

  // ------------------------------------------------------------ properly nested sources

  datatype Source =
    | Nothing
    | Plain(line: Line, rest: Source)
    | Conditional(ifLine: Line, body: Source, elses: Elses, endLine: Line, rest: Source)

  datatype Elses = NoElse | ElseGroup(line: Line, body: Source, more: Elses)

  predicate WellNested(src: Source) {
    match src
    case Nothing => true
    case Plain(line, rest) => line.directive == NoDirective && WellNested(rest)
    case Conditional(i, body, elses, e, rest) =>
      && i.directive == If && e.directive == Endif
      && WellNested(body) && WellNestedElses(elses) && WellNested(rest)
  }

  predicate WellNestedElses(elses: Elses) {
    match elses
    case NoElse => true
    case ElseGroup(line, body, more) => line.directive == Else && WellNested(body) && WellNestedElses(more)
  }

  function Lines(src: Source): seq<Line> {
    match src
    case Nothing => []
    case Plain(line, rest) => [line] + Lines(rest)
    case Conditional(i, body, elses, e, rest) =>
      [i] + Lines(body) + ElseLines(elses) + [e] + Lines(rest)
  }

  function ElseLines(elses: Elses): seq<Line> {
    match elses
    case NoElse => []
    case ElseGroup(line, body, more) => [line] + Lines(body) + ElseLines(more)
  }

  /** The source without the lines from the first #else or #elif of a group to its #endif. */
  function Prune(src: Source): Source {
    match src
    case Nothing => Nothing
    case Plain(line, rest) => Plain(line, Prune(rest))
    case Conditional(i, body, _, e, rest) => Conditional(i, Prune(body), NoElse, e, Prune(rest))
  }

  /** The stack that the kept lines alone produce; no checkpoints are involved. */
  function Meaning(src: Source, st: seq<Block>): seq<Block> {
    match src
    case Nothing => st
    case Plain(line, rest) => Meaning(rest, Body(st, line))
    case Conditional(i, body, _, e, rest) =>
      Meaning(rest, Body(Meaning(body, Body(st, i)), e))
  }

  /** Checkpointing implements the meaning, from any stack and any open checkpoints. */
  lemma {:induction false} RunIsMeaning(src: Source, s: State)
    requires WellNested(src)
    ensures Run(s, Lines(src)) == State(Meaning(src, s.stack), s.checkpoints)
    decreases src
  {
    match src
    case Nothing =>
    case Plain(line, rest) =>
      RunOne(s, line, Lines(rest));
      RunIsMeaning(rest, Update(s, line));
    case Conditional(i, body, elses, e, rest) =>
      var s1 := Update(s, i);
      var c := Checkpoint(s.stack, [], false);
      RunIsMeaning(body, s1);
      var s2 := Run(s1, Lines(body));
      RunElses(elses, s2, s.checkpoints, c);
      var s3 := Run(s2, ElseLines(elses));
      var s4 := Update(s3, e);
      EndifReturns(s2, s3, elses, s.checkpoints, c);
      assert s4 == State(Body(s2.stack, e), s.checkpoints);
      RunIsMeaning(rest, s4);
      RunParts(s, i, Lines(body), ElseLines(elses), e, Lines(rest));
  }

  lemma RunOne(s: State, line: Line, rest: seq<Line>)
    ensures Run(s, [line] + rest) == Run(Update(s, line), rest)
  {
    assert ([line] + rest)[1..] == rest;
  }

  lemma RunParts(s: State, i: Line, a: seq<Line>, b: seq<Line>, e: Line, c: seq<Line>)
    ensures Run(s, [i] + a + b + [e] + c) == Run(Update(Run(Run(Update(s, i), a), b), e), c)
  {
    assert [i] + a + b + [e] + c == [i] + (a + (b + ([e] + c)));
    RunOne(s, i, a + (b + ([e] + c)));
    RunConcat(Update(s, i), a, b + ([e] + c));
    RunConcat(Run(Update(s, i), a), b, [e] + c);
    RunOne(Run(Run(Update(s, i), a), b), e, c);
  }

  lemma EndifReturns(s2: State, s3: State, elses: Elses, cs: seq<Checkpoint>, c: Checkpoint)
    requires !c.seenElse && s2.checkpoints == cs + [c]
    requires s3.checkpoints == cs + [AfterElses(elses, s2.stack, c)] && (elses == NoElse ==> s3 == s2)
    ensures Preprocess(s3, Endif) == State(s2.stack, cs)
  {
    assert s3.checkpoints[..|cs|] == cs;
  }

  /** The checkpoint that the else groups of a conditional leave behind. */
  function AfterElses(elses: Elses, stack: seq<Block>, c: Checkpoint): Checkpoint {
    if elses == NoElse || c.seenElse then c else c.(seenElse := true, beforeElse := stack)
  }

  lemma {:induction false} RunElses(elses: Elses, s: State, cs: seq<Checkpoint>, c: Checkpoint)
    requires WellNestedElses(elses) && s.checkpoints == cs + [c]
    ensures Run(s, ElseLines(elses)).checkpoints == cs + [AfterElses(elses, s.stack, c)]
    ensures elses == NoElse ==> Run(s, ElseLines(elses)) == s
    decreases elses
  {
    match elses
    case NoElse =>
    case ElseGroup(line, body, more) =>
      var s1 := Update(s, line);
      ElseCheckpoints(s, line, cs, c);
      var c1 := AfterElses(elses, s.stack, c);
      RunIsMeaning(body, s1);
      RunElses(more, Run(s1, Lines(body)), cs, c1);
      RunThree(s, line, Lines(body), ElseLines(more));
  }

  lemma ElseCheckpoints(s: State, line: Line, cs: seq<Checkpoint>, c: Checkpoint)
    requires line.directive == Else && s.checkpoints == cs + [c]
    ensures Update(s, line).checkpoints
         == cs + [if c.seenElse then c else c.(seenElse := true, beforeElse := s.stack)]
  {
    assert s.checkpoints[..|cs|] == cs;
  }

  lemma RunThree(s: State, line: Line, a: seq<Line>, b: seq<Line>)
    ensures Run(s, [line] + a + b) == Run(Run(Update(s, line), a), b)
  {
    RunConcat(s, [line] + a, b);
    RunOne(s, line, a);
  }

  lemma {:induction false} PruneKeeps(src: Source, st: seq<Block>)
    requires WellNested(src)
    ensures WellNested(Prune(src)) && Meaning(Prune(src), st) == Meaning(src, st)
  {
    match src
    case Nothing =>
    case Plain(line, rest) =>
      PruneKeeps(rest, Body(st, line));
    case Conditional(i, body, _, e, rest) =>
      PruneKeeps(body, Body(st, i));
      PruneKeeps(rest, Body(Meaning(body, Body(st, i)), e));
  }

  /** Only the first branch of every conditional counts. */
  lemma ElseBranchesDoNotCount(src: Source, s: State)
    requires WellNested(src)
    ensures Run(s, Lines(src)) == Run(s, Lines(Prune(src)))
    ensures Run(s, Lines(src)).checkpoints == s.checkpoints
  {
    PruneKeeps(src, s.stack);
    RunIsMeaning(src, s);
    RunIsMeaning(Prune(src), s);
  }

  // ------------------------------------------------------------------ the brace counter

  /** The number of blocks whose opening brace has been seen. */
  function SeenCount(st: seq<Block>): nat {
    if st == [] then 0 else SeenCount(Pop(st)) + if Top(st).seenOpenBrace then 1 else 0
  }

  function Counted(n: nat, t: Token): nat {
    match t
    case OpenBrace(_, _) => n + 1
    case CloseBrace => if n == 0 then 0 else n - 1
    case _ => n
  }

  /** A closing brace that pops a block still waiting for its brace, with braces open below. */
  predicate Misses(st: seq<Block>, t: Token) {
    t == CloseBrace && !SeenOpenBrace(st) && SeenCount(st) > 0
  }

  predicate NeverMisses(st: seq<Block>, number: nat, ts: seq<Token>)
    decreases |ts|
  {
    ts == [] || (!Misses(st, ts[0]) && NeverMisses(Consume(st, number, ts[0]), number, ts[1..]))
  }

  /** The counter agrees with the stack after every token. */
  predicate Follows(st: seq<Block>, n: nat, number: nat, ts: seq<Token>)
    decreases |ts|
  {
    && n == SeenCount(st)
    && (ts == [] || Follows(Consume(st, number, ts[0]), Counted(n, ts[0]), number, ts[1..]))
  }

  lemma ConsumeCounts(st: seq<Block>, number: nat, t: Token)
    ensures SeenCount(Consume(st, number, t)) == Counted(SeenCount(st), t) <==> !Misses(st, t)
  {
    if t.OpenBrace? {
      OpenBraceCounts(st, number, t);
    }
  }

  lemma OpenBraceCounts(st: seq<Block>, number: nat, t: Token)
    requires t.OpenBrace?
    ensures SeenCount(Consume(st, number, t)) == SeenCount(st) + 1
  {
    if !SeenOpenBrace(st) {
      SeenPush(Pop(st), Top(st).(seenOpenBrace := true));
    } else if t.externC {
      SeenPush(st, NewBlock(ExternC, number, true));
    } else {
      SeenPush(st, NewBlock(Generic, number, true).(inlineAsm := if t.asm then BlockAsm else NoAsm));
    }
  }

  lemma SeenPush(st: seq<Block>, b: Block)
    ensures SeenCount(st + [b]) == SeenCount(st) + if b.seenOpenBrace then 1 else 0
  {
    assert Pop(st + [b]) == st;
  }

  lemma {:induction false} BraceCounter(st: seq<Block>, number: nat, ts: seq<Token>)
    ensures Follows(st, SeenCount(st), number, ts) <==> NeverMisses(st, number, ts)
    decreases |ts|
  {
    if ts != [] {
      ConsumeCounts(st, number, ts[0]);
      BraceCounter(Consume(st, number, ts[0]), number, ts[1..]);
    }
  }

  /** A line such as `namespace n { class C`. */
  const OpenHead := Line(0, NoDirective, 0, false, [true], ClassKeyword, false, None, [])

  /** A line such as `}`. */
  const Closing := Line(1, NoDirective, 0, false, [], NoClass, false, None, [CloseBrace])

  lemma AfterOpenHead(ns: Block, cl: Block)
    requires ns == NewBlock(Namespace, 0, true) && cl == NewBlock(Class, 0, false).(access := Private)
    ensures Body([], OpenHead) == [ns, cl]
  {
    assert [true][1..] == [];
    assert OpenNamespaces([], 0, [true]) == OpenNamespaces([] + [ns], 0, []) == [ns];
    assert OpenClass([ns], OpenHead) == [ns] + [cl] == [ns, cl];
    assert Pop([ns, cl]) == [ns] && Inspect([ns, cl], OpenHead) == [ns] + [cl];
  }

  /** Where the counter goes wrong: a class head inside a namespace meets a closing brace. The
      line after the head pops the class, and the namespace still counts as open. */
  lemma BraceCounterMisses()
    ensures var st := Body([], OpenHead);
            && SeenCount(st) == 1 && !Follows(st, 1, 1, Closing.tokens)
            && SeenCount(Body(st, Closing)) == 1
  {
    var ns, cl := NewBlock(Namespace, 0, true), NewBlock(Class, 0, false).(access := Private);
    AfterOpenHead(ns, cl);
    HeadMisses(ns, cl);
    ClosingPops(ns, cl);
    BraceCounter([ns, cl], 1, [CloseBrace]);
  }

  lemma HeadMisses(ns: Block, cl: Block)
    requires ns.seenOpenBrace && !cl.seenOpenBrace
    ensures SeenCount([ns]) == 1 && SeenCount([ns, cl]) == 1 && Misses([ns, cl], CloseBrace)
  {
    SeenPush([], ns);
    SeenPush([ns], cl);
    assert [] + [ns] == [ns] && [ns] + [cl] == [ns, cl];
  }

  lemma ClosingPops(ns: Block, cl: Block)
    requires ns == NewBlock(Namespace, 0, true) && cl == NewBlock(Class, 0, false).(access := Private)
    ensures Consume([ns, cl], 1, CloseBrace) == [ns]
    ensures Body([ns, cl], Closing) == [ns]
  {
    var st := [ns, cl];
    assert Pop(st) == [ns] && CountParentheses(st, Closing) == [ns] + [cl] == st;
    assert Inspect(st, Closing) == [ns] + [cl] == st;
    assert [CloseBrace][1..] == [];
    assert ConsumeAll(st, 1, [CloseBrace]) == ConsumeAll([ns], 1, []);
  }
}
