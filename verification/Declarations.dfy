/** What declarations and blocks leave behind on the block stack: nothing. */
module Declarations {
  import opened Options
  import opened NestingModel

  // ---------------------------------------------------------------------- the grammar

  /** What a file says to the block stack, in order: a namespace or class head with the block
      it starts, or one of the tokens. */
  datatype Event = Head(block: Block) | Tok(number: nat, token: Token)

  /** Declarations: stray `;` and `)`; a head that is only declared; a head with a body; a
      namespace head whose brace is on its line; a plain block. */
  datatype Decls =
    | Nothing
    | Stray(number: nat, token: Token, rest: Decls)
    | Declared(head: Block, number: nat, end: Token, rest: Decls)
    | Defined(head: Block, number: nat, open: Token, body: Decls, last: nat, rest: Decls)
    | Opened(head: Block, body: Decls, last: nat, rest: Decls)
    | Braces(number: nat, open: Token, body: Decls, last: nat, rest: Decls)

  predicate EndsDeclaration(t: Token) { t == Semicolon || t == CloseParen }

  predicate IsDecls(d: Decls) {
    match d
    case Nothing => true
    case Stray(_, t, rest) => EndsDeclaration(t) && IsDecls(rest)
    case Declared(head, _, end, rest) => !head.seenOpenBrace && EndsDeclaration(end) && IsDecls(rest)
    case Defined(head, _, open, body, _, rest) =>
      !head.seenOpenBrace && open.OpenBrace? && IsDecls(body) && IsDecls(rest)
    case Opened(head, body, _, rest) => head.seenOpenBrace && IsDecls(body) && IsDecls(rest)
    case Braces(_, open, body, _, rest) => open.OpenBrace? && IsDecls(body) && IsDecls(rest)
  }

  function Events(d: Decls): seq<Event> {
    match d
    case Nothing => []
    case Stray(n, t, rest) => [Tok(n, t)] + Events(rest)
    case Declared(head, n, end, rest) => [Head(head), Tok(n, end)] + Events(rest)
    case Defined(head, n, open, body, m, rest) =>
      [Head(head), Tok(n, open)] + (Events(body) + ([Tok(m, CloseBrace)] + Events(rest)))
    case Opened(head, body, m, rest) => [Head(head)] + (Events(body) + ([Tok(m, CloseBrace)] + Events(rest)))
    case Braces(n, open, body, m, rest) => [Tok(n, open)] + (Events(body) + ([Tok(m, CloseBrace)] + Events(rest)))
  }

  // ------------------------------------------------------------------- events one by one

  function Feed(st: seq<Block>, e: Event): seq<Block> {
    match e
    case Head(b) => st + [b]
    case Tok(n, t) => Consume(st, n, t)
  }

  function FeedAll(st: seq<Block>, es: seq<Event>): seq<Block>
    decreases |es|
  {
    if es == [] then st else FeedAll(Feed(st, es[0]), es[1..])
  }

  lemma {:induction false} FeedConcat(st: seq<Block>, a: seq<Event>, b: seq<Event>)
    ensures FeedAll(st, a + b) == FeedAll(FeedAll(st, a), b)
    decreases |a|
  {
    if a == [] {
      assert a + b == b;
    } else {
      assert (a + b)[1..] == a[1..] + b;
      FeedConcat(Feed(st, a[0]), a[1..], b);
    }
  }

  lemma FeedOne(st: seq<Block>, e: Event, es: seq<Event>)
    ensures FeedAll(st, [e] + es) == FeedAll(Feed(st, e), es)
    ensures FeedAll(st, [e]) == Feed(st, e)
  {
    assert ([e] + es)[1..] == es && [e][1..] == [];
  }

  lemma FeedTwo(st: seq<Block>, e: Event, f: Event, es: seq<Event>)
    ensures FeedAll(st, [e, f] + es) == FeedAll(Feed(Feed(st, e), f), es)
  {
    assert [e, f] + es == [e] + ([f] + es);
    FeedOne(st, e, [f] + es);
    FeedOne(Feed(st, e), f, es);
  }

  /** A body between its braces, then the rest. */
  lemma FeedBody(st: seq<Block>, top: Block, body: seq<Event>, n: nat, rest: seq<Event>)
    requires FeedAll(st + [top], body) == st + [top]
    ensures FeedAll(st + [top], body + ([Tok(n, CloseBrace)] + rest)) == FeedAll(st, rest)
  {
    FeedConcat(st + [top], body, [Tok(n, CloseBrace)] + rest);
    FeedOne(st + [top], Tok(n, CloseBrace), rest);
    assert Pop(st + [top]) == st;
  }

  lemma HeadOpens(st: seq<Block>, head: Block, n: nat, open: Token)
    requires !head.seenOpenBrace && open.OpenBrace?
    ensures Consume(st + [head], n, open) == st + [head.(seenOpenBrace := true)]
  {
    assert Pop(st + [head]) == st;
  }

  lemma HeadEnds(st: seq<Block>, head: Block, n: nat, end: Token)
    requires !head.seenOpenBrace && EndsDeclaration(end)
    ensures Consume(st + [head], n, end) == st
  {
    assert Pop(st + [head]) == st;
  }

  function BraceBlock(n: nat, open: Token): Block
    requires open.OpenBrace?
  {
    if open.externC then NewBlock(ExternC, n, true)
    else NewBlock(Generic, n, true).(inlineAsm := if open.asm then BlockAsm else NoAsm)
  }

  /** On a stack where no head waits for its brace, declarations and blocks leave every block
      as it was. */
  lemma {:induction false} DeclarationsLeave(d: Decls, st: seq<Block>)
    requires IsDecls(d) && SeenOpenBrace(st)
    ensures FeedAll(st, Events(d)) == st
    decreases d
  {
    match d
    case Nothing =>
    case Stray(n, t, rest) =>
      FeedOne(st, Tok(n, t), Events(rest));
      DeclarationsLeave(rest, st);
    case Declared(head, n, end, rest) =>
      FeedTwo(st, Head(head), Tok(n, end), Events(rest));
      HeadEnds(st, head, n, end);
      DeclarationsLeave(rest, st);
    case Defined(head, n, open, body, m, rest) =>
      var b := head.(seenOpenBrace := true);
      FeedTwo(st, Head(head), Tok(n, open), Events(body) + ([Tok(m, CloseBrace)] + Events(rest)));
      HeadOpens(st, head, n, open);
      DeclarationsLeave(body, st + [b]);
      FeedBody(st, b, Events(body), m, Events(rest));
      DeclarationsLeave(rest, st);
    case Opened(head, body, m, rest) =>
      FeedOne(st, Head(head), Events(body) + ([Tok(m, CloseBrace)] + Events(rest)));
      DeclarationsLeave(body, st + [head]);
      FeedBody(st, head, Events(body), m, Events(rest));
      DeclarationsLeave(rest, st);
    case Braces(n, open, body, m, rest) =>
      FeedOne(st, Tok(n, open), Events(body) + ([Tok(m, CloseBrace)] + Events(rest)));
      DeclarationsLeave(body, st + [BraceBlock(n, open)]);
      FeedBody(st, BraceBlock(n, open), Events(body), m, Events(rest));
      DeclarationsLeave(rest, st);
  }

  // ------------------------------------------------------------------------- whole files

  /** A line whose only effect on the stack are its heads and tokens. */
  predicate Quiet(line: Line) {
    line.directive == NoDirective && line.parentheses == 0 && !line.bareColon && line.accessKeyword == None
  }

  predicate CalmBlock(b: Block) { b.openParentheses == 0 && (b.inlineAsm == NoAsm || b.inlineAsm == BlockAsm) }

  /** No parentheses and no inline assembly are open. */
  predicate Calm(st: seq<Block>) { forall i :: 0 <= i < |st| ==> CalmBlock(st[i]) }

  function NamespaceEvents(number: nat, braces: seq<bool>): seq<Event> {
    seq(|braces|, i requires 0 <= i < |braces| => Head(NewBlock(Namespace, number, braces[i])))
  }

  function ClassEvents(line: Line): seq<Event> {
    match line.classHead
    case NoClass => []
    case ClassKeyword => [Head(NewBlock(Class, line.number, false).(access := Private))]
    case StructKeyword => [Head(NewBlock(Class, line.number, false).(access := Public))]
  }

  function TokenEvents(number: nat, ts: seq<Token>): seq<Event> {
    seq(|ts|, i requires 0 <= i < |ts| => Tok(number, ts[i]))
  }

  function EventsOf(line: Line): seq<Event> {
    NamespaceEvents(line.number, line.namespaces) + ClassEvents(line) + TokenEvents(line.number, line.tokens)
  }

  function FileEvents(lines: seq<Line>): seq<Event> {
    if lines == [] then [] else EventsOf(lines[0]) + FileEvents(lines[1..])
  }

  lemma {:induction false} NamespacesFeed(st: seq<Block>, number: nat, braces: seq<bool>)
    ensures OpenNamespaces(st, number, braces) == FeedAll(st, NamespaceEvents(number, braces))
    decreases |braces|
  {
    if braces != [] {
      var b := NewBlock(Namespace, number, braces[0]);
      NamespacesFeed(st + [b], number, braces[1..]);
      assert NamespaceEvents(number, braces) == [Head(b)] + NamespaceEvents(number, braces[1..]);
      FeedOne(st, Head(b), NamespaceEvents(number, braces[1..]));
    }
  }

  lemma {:induction false} TokensFeed(st: seq<Block>, number: nat, ts: seq<Token>)
    ensures ConsumeAll(st, number, ts) == FeedAll(st, TokenEvents(number, ts))
    decreases |ts|
  {
    if ts != [] {
      TokensFeed(Consume(st, number, ts[0]), number, ts[1..]);
      assert TokenEvents(number, ts) == [Tok(number, ts[0])] + TokenEvents(number, ts[1..]);
      FeedOne(st, Tok(number, ts[0]), TokenEvents(number, ts[1..]));
    }
  }

  predicate CalmEvent(e: Event) { e.Head? ==> CalmBlock(e.block) }

  lemma FeedStaysCalm(st: seq<Block>, e: Event)
    requires Calm(st) && CalmEvent(e)
    ensures Calm(Feed(st, e))
  {
  }

  lemma {:induction false} FeedAllStaysCalm(st: seq<Block>, es: seq<Event>)
    requires Calm(st) && forall i :: 0 <= i < |es| ==> CalmEvent(es[i])
    ensures Calm(FeedAll(st, es))
    decreases |es|
  {
    if es != [] {
      FeedStaysCalm(st, es[0]);
      FeedAllStaysCalm(Feed(st, es[0]), es[1..]);
    }
  }

  lemma CalmCounts(st: seq<Block>, line: Line)
    requires Calm(st) && line.parentheses == 0
    ensures CountParentheses(st, line) == st
  {
    if st != [] {
      assert CountInBlock(Top(st), line) == Top(st);
      assert st == Pop(st) + [Top(st)];
    }
  }

  lemma QuietInspects(st: seq<Block>, line: Line)
    requires Quiet(line)
    ensures Inspect(st, line) == st
  {
    if st != [] {
      assert st == Pop(st) + [Top(st)];
    }
  }

  lemma ClassFeeds(st: seq<Block>, line: Line)
    requires Calm(st)
    ensures OpenClass(st, line) == FeedAll(st, ClassEvents(line))
  {
    if line.classHead != NoClass {
      FeedOne(st, ClassEvents(line)[0], []);
      assert ClassEvents(line) == [ClassEvents(line)[0]];
    }
  }

  /** A quiet line is its events. */
  lemma QuietBody(st: seq<Block>, line: Line)
    requires Calm(st) && Quiet(line)
    ensures Body(st, line) == FeedAll(st, EventsOf(line)) && Calm(Body(st, line))
  {
    var ns, cs := NamespaceEvents(line.number, line.namespaces), ClassEvents(line);
    var ts := TokenEvents(line.number, line.tokens);
    CalmCounts(st, line);
    NamespacesFeed(st, line.number, line.namespaces);
    FeedAllStaysCalm(st, ns);
    var st1 := FeedAll(st, ns);
    ClassFeeds(st1, line);
    var st2 := FeedAll(st1, cs);
    QuietInspects(st2, line);
    TokensFeed(st2, line.number, line.tokens);
    FeedConcat(st, ns, cs);
    FeedConcat(st, ns + cs, ts);
    FeedAllStaysCalm(st, EventsOf(line));
  }

  lemma {:induction false} QuietRun(s: State, lines: seq<Line>)
    requires Calm(s.stack) && forall i :: 0 <= i < |lines| ==> Quiet(lines[i])
    ensures Run(s, lines) == s.(stack := FeedAll(s.stack, FileEvents(lines)))
    decreases |lines|
  {
    if lines != [] {
      QuietBody(s.stack, lines[0]);
      QuietRun(Update(s, lines[0]), lines[1..]);
      FeedConcat(s.stack, EventsOf(lines[0]), FileEvents(lines[1..]));
    }
  }

  /** Whole files, over any lines: declarations and blocks, nested as they may be and cut into
      lines anywhere, leave the nesting state exactly as they found it. */
  lemma {:induction false} DeclarationsLeaveState(s: State, lines: seq<Line>, d: Decls)
    requires IsDecls(d) && FileEvents(lines) == Events(d)
    requires Calm(s.stack) && SeenOpenBrace(s.stack) && forall i :: 0 <= i < |lines| ==> Quiet(lines[i])
    ensures Run(s, lines) == s
  {
    QuietRun(s, lines);
    DeclarationsLeave(d, s.stack);
  }

  /** A head that has met its brace stays on top until its closing brace, with only the brace
      noted. */
  lemma {:induction false} HeadThenBody(s: State, lines: seq<Line>, head: Block, n: nat, open: Token, body: Decls)
    requires IsDecls(body) && !head.seenOpenBrace && open.OpenBrace?
    requires FileEvents(lines) == [Head(head), Tok(n, open)] + Events(body)
    requires Calm(s.stack) && forall i :: 0 <= i < |lines| ==> Quiet(lines[i])
    ensures Run(s, lines) == s.(stack := s.stack + [head.(seenOpenBrace := true)])
  {
    QuietRun(s, lines);
    FeedTwo(s.stack, Head(head), Tok(n, open), Events(body));
    HeadOpens(s.stack, head, n, open);
    DeclarationsLeave(body, s.stack + [head.(seenOpenBrace := true)]);
  }

  /** A plain block that has opened stays on top until its closing brace; it records its line
      and what kind of block it is. */
  lemma {:induction false} BraceThenBody(s: State, lines: seq<Line>, n: nat, externC: bool, asm: bool, body: Decls)
    requires IsDecls(body) && FileEvents(lines) == [Tok(n, OpenBrace(externC, asm))] + Events(body)
    requires Calm(s.stack) && SeenOpenBrace(s.stack) && forall i :: 0 <= i < |lines| ==> Quiet(lines[i])
    ensures var b := Block(if externC then ExternC else Generic, n, true, 0,
                           if asm && !externC then BlockAsm else NoAsm, Public, false);
            Run(s, lines) == s.(stack := s.stack + [b])
  {
    QuietRun(s, lines);
    var open := OpenBrace(externC, asm);
    FeedOne(s.stack, Tok(n, open), Events(body));
    DeclarationsLeave(body, s.stack + [BraceBlock(n, open)]);
  }
}
