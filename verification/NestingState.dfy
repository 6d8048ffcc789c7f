/** The nesting state as the linter holds it: block objects that are updated in place and
    a stack of checkpoints that must own their copies. */
module NestingState {
  import opened Options
  import opened NestingModel

  class BlockInfo {
    const kind: Kind
    const startingLine: nat
    var seenOpenBrace: bool
    var openParentheses: int
    var inlineAsm: Asm
    var access: Access
    var isDerived: bool

    ghost function View(): Block
      reads this
    {
      Block(kind, startingLine, seenOpenBrace, openParentheses, inlineAsm, access, isDerived)
    }

    constructor (kind: Kind, startingLine: nat, seenOpenBrace: bool)
      ensures View() == NewBlock(kind, startingLine, seenOpenBrace)
    {
      this.kind, this.startingLine, this.seenOpenBrace := kind, startingLine, seenOpenBrace;
      openParentheses, inlineAsm, access, isDerived := 0, NoAsm, Public, false;
    }

    constructor Copy(b: BlockInfo)
      ensures View() == b.View()
    {
      kind, startingLine, seenOpenBrace := b.kind, b.startingLine, b.seenOpenBrace;
      openParentheses, inlineAsm, access, isDerived := b.openParentheses, b.inlineAsm, b.access, b.isDerived;
    }
  }

  datatype PreprocessorInfo =
    PreprocessorInfo(beforeIf: seq<BlockInfo>, beforeElse: seq<BlockInfo>, seenElse: bool)

  /** The objects currently hold these values. */
  ghost predicate Shows(bs: seq<BlockInfo>, vs: seq<Block>)
    reads bs
  {
    |bs| == |vs| && forall i :: 0 <= i < |bs| ==> bs[i].View() == vs[i]
  }

  ghost predicate InfoShows(p: PreprocessorInfo, c: Checkpoint)
    reads p.beforeIf, p.beforeElse
  {
    Shows(p.beforeIf, c.beforeIf) && Shows(p.beforeElse, c.beforeElse) && p.seenElse == c.seenElse
  }

  ghost predicate Distinct(bs: seq<BlockInfo>) {
    forall i, j :: 0 <= i < j < |bs| ==> bs[i] != bs[j]
  }

  ghost predicate Disjoint(bs: seq<BlockInfo>, p: PreprocessorInfo) {
    forall i :: 0 <= i < |bs| ==> bs[i] !in p.beforeIf && bs[i] !in p.beforeElse
  }

  ghost predicate Separate(ps: seq<PreprocessorInfo>) {
    && (forall k :: 0 <= k < |ps| ==> Distinct(ps[k].beforeElse))
    && forall k, m :: 0 <= k < |ps| && 0 <= m < |ps| && k != m ==> Disjoint(ps[k].beforeElse, ps[m])
  }

  ghost predicate Within(bs: seq<BlockInfo>, r: set<BlockInfo>) {
    forall i :: 0 <= i < |bs| ==> bs[i] in r
  }

  ghost predicate Outside(bs: seq<BlockInfo>, r: set<BlockInfo>) {
    forall i :: 0 <= i < |bs| ==> bs[i] !in r
  }

  ghost predicate InfoWithin(p: PreprocessorInfo, r: set<BlockInfo>) {
    Within(p.beforeIf, r) && Within(p.beforeElse, r)
  }

  ghost predicate AllWithin(ps: seq<PreprocessorInfo>, r: set<BlockInfo>) {
    forall k :: 0 <= k < |ps| ==> InfoWithin(ps[k], r)
  }

  ghost predicate AllDisjoint(bs: seq<BlockInfo>, ps: seq<PreprocessorInfo>) {
    forall k :: 0 <= k < |ps| ==> Disjoint(bs, ps[k])
  }

  /** Objects from outside are shared with nothing inside. */
  lemma OutsideIsDisjoint(bs: seq<BlockInfo>, ps: seq<PreprocessorInfo>, r: set<BlockInfo>)
    requires Outside(bs, r) && AllWithin(ps, r)
    ensures AllDisjoint(bs, ps)
  {
    forall k | 0 <= k < |ps|
      ensures Disjoint(bs, ps[k])
    {
      assert InfoWithin(ps[k], r);
    }
  }

  lemma InsideIsDisjoint(bs: seq<BlockInfo>, p: PreprocessorInfo, r: set<BlockInfo>)
    requires Within(bs, r) && Outside(p.beforeIf, r) && Outside(p.beforeElse, r)
    ensures Disjoint(bs, p)
  {
  }

  lemma SaveSeparates(ps: seq<PreprocessorInfo>, copy: seq<BlockInfo>, r: set<BlockInfo>)
    requires Separate(ps) && AllWithin(ps, r) && Outside(copy, r)
    ensures Separate(ps + [PreprocessorInfo(copy, [], false)])
  {
    var q := PreprocessorInfo(copy, [], false);
    forall k | 0 <= k < |ps|
      ensures Disjoint(ps[k].beforeElse, q)
    {
      assert InfoWithin(ps[k], r);
      InsideIsDisjoint(ps[k].beforeElse, q, r);
    }
  }

  lemma KeepSeparates(ps: seq<PreprocessorInfo>, n: nat, copy: seq<BlockInfo>, r: set<BlockInfo>)
    requires n < |ps| && Separate(ps) && AllWithin(ps, r) && Outside(copy, r) && Distinct(copy)
    ensures Separate(ps[n := ps[n].(seenElse := true, beforeElse := copy)])
  {
    var q := ps[n].(seenElse := true, beforeElse := copy);
    var qs := ps[n := q];
    OutsideIsDisjoint(copy, ps, r);
    forall k, m | 0 <= k < |qs| && 0 <= m < |qs| && k != m
      ensures Disjoint(qs[k].beforeElse, qs[m])
    {
      assert InfoWithin(ps[k], r);
      assert Disjoint(ps[k].beforeElse, ps[m]);
    }
  }

  lemma KeepDisjoint(bs: seq<BlockInfo>, ps: seq<PreprocessorInfo>, n: nat, copy: seq<BlockInfo>, r: set<BlockInfo>)
    requires n < |ps| && AllDisjoint(bs, ps) && Within(bs, r) && Outside(copy, r)
    ensures AllDisjoint(bs, ps[n := ps[n].(seenElse := true, beforeElse := copy)])
  {
  }

  ghost predicate AllShow(ps: seq<PreprocessorInfo>, cs: seq<Checkpoint>, r: set<BlockInfo>)
    requires AllWithin(ps, r)
    reads r
  {
    |ps| == |cs| && forall k :: 0 <= k < |ps| ==> InfoWithin(ps[k], r) && InfoShows(ps[k], cs[k])
  }

  lemma AllShowWider(ps: seq<PreprocessorInfo>, cs: seq<Checkpoint>, r: set<BlockInfo>, r': set<BlockInfo>)
    requires AllWithin(ps, r) && r <= r' && AllShow(ps, cs, r)
    ensures AllWithin(ps, r') && AllShow(ps, cs, r')
  {
    forall k | 0 <= k < |ps|
      ensures InfoWithin(ps[k], r')
    {
      assert InfoWithin(ps[k], r);
    }
  }

  lemma AllShowSnoc(ps: seq<PreprocessorInfo>, cs: seq<Checkpoint>, r: set<BlockInfo>, p: PreprocessorInfo,
                    c: Checkpoint)
    requires AllWithin(ps, r) && AllShow(ps, cs, r) && InfoWithin(p, r) && InfoShows(p, c)
    ensures AllWithin(ps + [p], r) && AllShow(ps + [p], cs + [c], r)
  {
  }

  lemma AllShowSet(ps: seq<PreprocessorInfo>, cs: seq<Checkpoint>, r: set<BlockInfo>, n: nat,
                   p: PreprocessorInfo, c: Checkpoint)
    requires AllWithin(ps, r) && AllShow(ps, cs, r) && InfoWithin(p, r) && InfoShows(p, c) && n < |ps|
    ensures AllWithin(ps[n := p], r) && AllShow(ps[n := p], cs[n := c], r)
  {
  }

  lemma SavedShows(ps: seq<PreprocessorInfo>, cs: seq<Checkpoint>, r: set<BlockInfo>,
                   saved: seq<BlockInfo>, vs: seq<Block>)
    requires AllWithin(ps, r) && AllShow(ps, cs, r) && Shows(saved, vs)
    ensures var r' := r + set b | b in saved;
            && AllWithin(ps + [PreprocessorInfo(saved, [], false)], r')
            && AllShow(ps + [PreprocessorInfo(saved, [], false)], cs + [Checkpoint(vs, [], false)], r')
  {
    var r' := r + set b | b in saved;
    AllShowWider(ps, cs, r, r');
    AllShowSnoc(ps, cs, r', PreprocessorInfo(saved, [], false), Checkpoint(vs, [], false));
  }

  /** A copy kept in a checkpoint shows what the checkpoint is to hold. */
  lemma KeptShows(ps: seq<PreprocessorInfo>, cs: seq<Checkpoint>, r: set<BlockInfo>, n: nat,
                  saved: seq<BlockInfo>, vs: seq<Block>)
    requires AllWithin(ps, r) && AllShow(ps, cs, r) && n < |ps| && Shows(saved, vs)
    ensures var r' := r + set b | b in saved;
            var ps' := ps[n := ps[n].(seenElse := true, beforeElse := saved)];
            && AllWithin(ps', r')
            && AllShow(ps', cs[n := cs[n].(seenElse := true, beforeElse := vs)], r')
  {
    var r' := r + set b | b in saved;
    AllShowWider(ps, cs, r, r');
    AllShowSet(ps, cs, r', n, ps[n].(seenElse := true, beforeElse := saved),
               cs[n].(seenElse := true, beforeElse := vs));
  }

  /** A deep copy of a stack; its objects are new. */
  method CopyStack(bs: seq<BlockInfo>, ghost vs: seq<Block>, ghost r: set<BlockInfo>) returns (cs: seq<BlockInfo>)
    requires Shows(bs, vs)
    ensures Distinct(cs) && Shows(cs, vs) && Outside(cs, r)
    ensures forall c :: c in cs ==> fresh(c)
  {
    cs := [];
    for i := 0 to |bs|
      invariant |cs| == i && Distinct(cs) && Outside(cs, r)
      invariant forall c :: c in cs ==> fresh(c)
      invariant forall k :: 0 <= k < i ==> cs[k].View() == vs[k]
    {
      var c := new BlockInfo.Copy(bs[i]);
      cs := cs + [c];
    }
  }

  class NestingStack {
    var stack: seq<BlockInfo>
    var previousStackTop: BlockInfo?
    var ppStack: seq<PreprocessorInfo>
    ghost var model: State

    ghost var Repr: set<BlockInfo>

    /** No object of the stack is listed twice or shared with a checkpoint, and neither is
        one that a later #endif hands back; `model` is what the objects hold. */
    ghost predicate Valid()
      reads this, Repr
    {
      && Within(stack, Repr) && AllWithin(ppStack, Repr)
      && Distinct(stack) && Separate(ppStack) && AllDisjoint(stack, ppStack)
      && Shows(stack, model.stack) && AllShow(ppStack, model.checkpoints, Repr)
    }

    constructor ()
      ensures Valid() && fresh(Repr) && model == State([], [])
    {
      stack, previousStackTop, ppStack, model, Repr := [], null, [], State([], []), {};
    }

    /** #if: save a deep copy of the stack. */
    method SaveAtIf()
      requires Valid()
      modifies this
      ensures Valid() && fresh(Repr - old(Repr))
      ensures model == Preprocess(old(model), If)
      ensures previousStackTop == old(previousStackTop)
    {
      var copy := CopyStack(stack, model.stack, Repr);
      StoreCheckpoint(copy);
    }

    method StoreCheckpoint(copy: seq<BlockInfo>)
      requires Valid() && Outside(copy, Repr) && Shows(copy, model.stack)
      modifies this
      ensures Valid() && Repr == old(Repr) + set b | b in copy
      ensures model == Preprocess(old(model), If)
      ensures stack == old(stack) && previousStackTop == old(previousStackTop)
    {
      var p := PreprocessorInfo(copy, [], false);
      SaveSeparates(ppStack, copy, Repr);
      InsideIsDisjoint(stack, p, Repr);
      SavedShows(ppStack, model.checkpoints, Repr, copy, model.stack);
      ppStack, Repr := ppStack + [p], Repr + set b | b in copy;
      model := Preprocess(model, If);
    }

    /** The first #else or #elif of a group: remember the stack of the first branch. */
    method KeepFirstBranch()
      requires Valid() && ppStack != []
      modifies this
      ensures Valid() && fresh(Repr - old(Repr)) && |ppStack| == |old(ppStack)|
      ensures var n := |old(ppStack)| - 1;
              var c := old(model).checkpoints[n];
              var c' := if c.seenElse then c else c.(seenElse := true, beforeElse := old(model).stack);
              model == State(old(model).stack, old(model).checkpoints[n := c'])
      ensures previousStackTop == old(previousStackTop)
    {
      if !ppStack[|ppStack| - 1].seenElse {
        var saved := CopyStack(stack, model.stack, Repr);
        StoreBranch(saved);
      }
    }

    method StoreBranch(saved: seq<BlockInfo>)
      requires Valid() && ppStack != [] && Outside(saved, Repr) && Distinct(saved) && Shows(saved, model.stack)
      modifies this
      ensures Valid() && Repr == old(Repr) + (set b | b in saved) && |ppStack| == |old(ppStack)|
      ensures var n := |old(ppStack)| - 1;
              var c := old(model).checkpoints[n].(seenElse := true, beforeElse := old(model).stack);
              model == State(old(model).stack, old(model).checkpoints[n := c])
      ensures stack == old(stack) && previousStackTop == old(previousStackTop)
    {
      var n := |ppStack| - 1;
      KeptShows(ppStack, model.checkpoints, Repr, n, saved, model.stack);
      KeepSeparates(ppStack, n, saved, Repr);
      KeepDisjoint(stack, ppStack, n, saved, Repr);
      ghost var c := model.checkpoints[n].(seenElse := true, beforeElse := model.stack);
      ppStack := ppStack[n := ppStack[n].(seenElse := true, beforeElse := saved)];
      Repr, model := Repr + (set b | b in saved), State(model.stack, model.checkpoints[n := c]);
    }

    /** Go on from a copy of the stack before the #if. */
    method ReturnToIf()
      requires Valid() && ppStack != []
      modifies this
      ensures Valid() && fresh(Repr - old(Repr)) && ppStack == old(ppStack)
      ensures model == old(model).(stack := old(model).checkpoints[|old(ppStack)| - 1].beforeIf)
      ensures previousStackTop == old(previousStackTop)
    {
      var n := |ppStack| - 1;
      ghost var vs := model.checkpoints[n].beforeIf;
      assert InfoShows(ppStack[n], model.checkpoints[n]);
      stack := CopyStack(ppStack[n].beforeIf, vs, Repr);
      OutsideIsDisjoint(stack, ppStack, Repr);
      ghost var r := Repr + set b | b in stack;
      AllShowWider(ppStack, model.checkpoints, Repr, r);
      Repr, model := r, model.(stack := vs);
    }

    /** #else or #elif: keep the stack of the first branch and go back to the #if. */
    method RollBackAtElse()
      requires Valid()
      modifies this
      ensures Valid() && fresh(Repr - old(Repr))
      ensures model == Preprocess(old(model), Else)
      ensures previousStackTop == old(previousStackTop)
    {
      if ppStack != [] {
        KeepFirstBranch();
        ReturnToIf();
      }
    }

    /** #endif: take over, without a copy, the stack of the first branch. */
    method RestoreAtEndif()
      requires Valid()
      modifies this
      ensures Valid() && Repr == old(Repr)
      ensures model == Preprocess(old(model), Endif)
      ensures previousStackTop == old(previousStackTop)
    {
      if ppStack == [] {
        return;
      }
      var n := |ppStack| - 1;
      if ppStack[n].seenElse {
        stack := ppStack[n].beforeElse;
      }
      ppStack := ppStack[..n];
      model := Preprocess(model, Endif);
    }

    method UpdatePreprocessor(d: Directive)
      requires Valid()
      modifies this
      ensures Valid() && fresh(Repr - old(Repr))
      ensures model == Preprocess(old(model), d)
      ensures previousStackTop == old(previousStackTop)
    {
      match d
      case If => SaveAtIf();
      case Else => RollBackAtElse();
      case Endif => RestoreAtEndif();
      case NoDirective =>
    }

    /** A change in place of the innermost block reaches no other block and no checkpoint. */
    twostate lemma TopChanged()
      requires old(Valid()) && stack == old(stack) && stack != []
      requires ppStack == old(ppStack) && Repr == old(Repr)
      requires forall b :: b in Repr && b != stack[|stack| - 1] ==> unchanged(b)
      requires model == old(model).(stack := Pop(old(model).stack) + [stack[|stack| - 1].View()])
      ensures Valid()
    {
      var top := stack[|stack| - 1];
      forall k | 0 <= k < |ppStack|
        ensures InfoShows(ppStack[k], model.checkpoints[k])
      {
        assert Disjoint(stack, ppStack[k]) && InfoWithin(ppStack[k], Repr);
        assert top !in ppStack[k].beforeIf && top !in ppStack[k].beforeElse;
        assert old(InfoShows(ppStack[k], model.checkpoints[k]));
      }
    }

    method Push(b: BlockInfo)
      requires Valid() && b !in Repr
      modifies this
      ensures Valid() && Repr == old(Repr) + {b}
      ensures stack == old(stack) + [b] && model == old(model).(stack := old(model).stack + [b.View()])
      ensures ppStack == old(ppStack) && previousStackTop == old(previousStackTop)
    {
      OutsideIsDisjoint([b], ppStack, Repr);
      PushDisjoint(stack, b, ppStack);
      AllShowWider(ppStack, model.checkpoints, Repr, Repr + {b});
      stack, Repr := stack + [b], Repr + {b};
      model := model.(stack := model.stack + [b.View()]);
    }

    method PopBlock()
      requires Valid() && stack != []
      modifies this
      ensures Valid() && Repr == old(Repr) && stack == old(stack)[..|old(stack)| - 1]
      ensures model == old(model).(stack := Pop(old(model).stack))
      ensures ppStack == old(ppStack) && previousStackTop == old(previousStackTop)
    {
      stack := stack[..|stack| - 1];
      model := model.(stack := Pop(model.stack));
    }

    method CountInTop(line: Line)
      requires Valid()
      modifies this, Repr
      ensures Valid() && Repr == old(Repr)
      ensures model == old(model).(stack := CountParentheses(old(model).stack, line))
      ensures previousStackTop == old(previousStackTop)
    {
      if stack != [] {
        var inner := stack[|stack| - 1];
        inner.openParentheses := inner.openParentheses + line.parentheses;
        if inner.inlineAsm == NoAsm || inner.inlineAsm == EndAsm {
          if line.parentheses != 0 && inner.openParentheses == 1 && line.asmHead {
            inner.inlineAsm := InsideAsm;
          } else {
            inner.inlineAsm := NoAsm;
          }
        } else if inner.inlineAsm == InsideAsm && inner.openParentheses == 0 {
          inner.inlineAsm := EndAsm;
        }
        model := model.(stack := CountParentheses(model.stack, line));
        TopChanged();
      }
    }

    method PushNamespaces(line: Line)
      requires Valid()
      modifies this, Repr
      ensures Valid() && fresh(Repr - old(Repr))
      ensures model == old(model).(stack := OpenNamespaces(old(model).stack, line.number, line.namespaces))
      ensures previousStackTop == old(previousStackTop)
    {
      var i := 0;
      while i < |line.namespaces|
        invariant 0 <= i <= |line.namespaces|
        invariant Valid() && fresh(Repr - old(Repr))
        invariant model.checkpoints == old(model).checkpoints && previousStackTop == old(previousStackTop)
        invariant OpenNamespaces(model.stack, line.number, line.namespaces[i..])
               == OpenNamespaces(old(model).stack, line.number, line.namespaces)
      {
        var b := new BlockInfo(Namespace, line.number, false);
        if line.namespaces[i] {
          b.seenOpenBrace := true;
        }
        assert b.View() == NewBlock(Namespace, line.number, line.namespaces[i]);
        Push(b);
        assert line.namespaces[i..][1..] == line.namespaces[i + 1..];
        i := i + 1;
      }
    }

    method PushClass(line: Line)
      requires Valid()
      modifies this
      ensures Valid() && fresh(Repr - old(Repr))
      ensures model == old(model).(stack := OpenClass(old(model).stack, line))
      ensures previousStackTop == old(previousStackTop)
    {
      if line.classHead != NoClass && (stack == [] || stack[|stack| - 1].openParentheses == 0) {
        var b := new BlockInfo(Class, line.number, false);
        b.access := if line.classHead == StructKeyword then Public else Private;
        Push(b);
      }
    }

    method InspectTop(line: Line)
      requires Valid()
      modifies this, Repr
      ensures Valid() && Repr == old(Repr)
      ensures model == old(model).(stack := Inspect(old(model).stack, line))
      ensures previousStackTop == old(previousStackTop)
    {
      if stack != [] {
        var inner := stack[|stack| - 1];
        if !inner.seenOpenBrace && inner.kind == Class && line.bareColon {
          inner.isDerived := true;
        }
        if inner.kind == Class && line.accessKeyword.Some? {
          inner.access := line.accessKeyword.value;
        }
        model := model.(stack := Inspect(model.stack, line));
        TopChanged();
      }
    }

    method ConsumeToken(number: nat, t: Token)
      requires Valid()
      modifies this, Repr
      ensures Valid() && fresh(Repr - old(Repr))
      ensures model == old(model).(stack := Consume(old(model).stack, number, t))
      ensures previousStackTop == old(previousStackTop)
    {
      var waiting := stack != [] && !stack[|stack| - 1].seenOpenBrace;
      match t
      case OpenBrace(externC, asm) =>
        if waiting {
          stack[|stack| - 1].seenOpenBrace := true;
          model := model.(stack := Consume(model.stack, number, t));
          TopChanged();
        } else if externC {
          var b := new BlockInfo(ExternC, number, true);
          Push(b);
        } else {
          var b := new BlockInfo(Generic, number, true);
          if asm {
            b.inlineAsm := BlockAsm;
          }
          Push(b);
        }
      case Semicolon =>
        if waiting {
          PopBlock();
        }
      case CloseParen =>
        if waiting {
          PopBlock();
        }
      case CloseBrace =>
        if stack != [] {
          PopBlock();
        }
    }

    method ConsumeTokens(number: nat, ts: seq<Token>)
      requires Valid()
      modifies this, Repr
      ensures Valid() && fresh(Repr - old(Repr))
      ensures model == old(model).(stack := ConsumeAll(old(model).stack, number, ts))
      ensures previousStackTop == old(previousStackTop)
    {
      var i := 0;
      while i < |ts|
        invariant 0 <= i <= |ts|
        invariant Valid() && fresh(Repr - old(Repr))
        invariant model.checkpoints == old(model).checkpoints && previousStackTop == old(previousStackTop)
        invariant ConsumeAll(model.stack, number, ts[i..]) == ConsumeAll(old(model).stack, number, ts)
      {
        ConsumeToken(number, ts[i]);
        assert ts[i..][1..] == ts[i + 1..];
        i := i + 1;
      }
    }

    method OpenHeads(line: Line)
      requires Valid()
      modifies this, Repr
      ensures Valid() && fresh(Repr - old(Repr))
      ensures model == old(model).(stack := OpenClass(
                OpenNamespaces(CountParentheses(old(model).stack, line), line.number, line.namespaces), line))
      ensures previousStackTop == old(previousStackTop)
    {
      CountInTop(line);
      PushNamespaces(line);
      PushClass(line);
    }

    method UpdateBlocks(line: Line)
      requires Valid()
      modifies this, Repr
      ensures Valid() && fresh(Repr - old(Repr))
      ensures model == old(model).(stack := Body(old(model).stack, line))
      ensures previousStackTop == old(previousStackTop)
    {
      OpenHeads(line);
      InspectTop(line);
      ConsumeTokens(line.number, line.tokens);
    }

    /** One line. Whatever it changes in place, the checkpoints hold what they held. */
    method UpdateLine(line: Line)
      requires Valid()
      modifies this, Repr
      ensures Valid() && fresh(Repr - old(Repr))
      ensures model == Update(old(model), line)
      ensures previousStackTop == if old(stack) == [] then null else old(stack)[|old(stack)| - 1]
    {
      previousStackTop := if stack != [] then stack[|stack| - 1] else null;
      UpdatePreprocessor(line.directive);
      UpdateBlocks(line);
    }

    method UpdateAll(lines: seq<Line>)
      requires Valid()
      modifies this, Repr
      ensures Valid() && fresh(Repr - old(Repr))
      ensures model == Run(old(model), lines)
    {
      var i := 0;
      while i < |lines|
        invariant 0 <= i <= |lines|
        invariant Valid() && fresh(Repr - old(Repr))
        invariant Run(model, lines[i..]) == Run(old(model), lines)
      {
        RunUnfold(model, lines, i);
        UpdateLine(lines[i]);
        i := i + 1;
      }
    }
  }

  lemma RunUnfold(s: State, lines: seq<Line>, i: nat)
    requires i < |lines|
    ensures Run(s, lines[i..]) == Run(Update(s, lines[i]), lines[i + 1..])
  {
    assert lines[i..][1..] == lines[i + 1..];
  }

  lemma PushDisjoint(bs: seq<BlockInfo>, b: BlockInfo, ps: seq<PreprocessorInfo>)
    requires AllDisjoint(bs, ps) && AllDisjoint([b], ps)
    ensures AllDisjoint(bs + [b], ps)
  {
    forall k | 0 <= k < |ps|
      ensures Disjoint(bs + [b], ps[k])
    {
      assert Disjoint(bs, ps[k]) && Disjoint([b], ps[k]);
      assert [b][0] == b;
    }
  }
}
