/** The one-line searches of the forward and the backward bracket matcher. */
module Matchers {
  import opened Options
  import opened TextClasses
  import opened BracketGrammar
  import opened TentativeScan

  // --------------------------------------------------------------------------- forward

  /** What the forward matcher takes the character at `i` for. */
  function ForwardTok(line: string, i: nat): (t: Tok)
    requires i < |line|
    ensures Agree(t, line[i])
    ensures t == Unmark(true) ==> line[i] == '>'
  {
    var c := line[i];
    if IsOpener(c) then Open(KindOf(c))
    else if c == '<' then
      if i > 0 && line[i - 1] == '<' then Unmark(false)
      else if i > 0 && EndsWithOperator(line[..i]) then Skip
      else Mark
    else if IsCloser(c) then Close(KindOf(c))
    else if c == '>' then
      if i > 0 && (line[i - 1] == '-' || EndsWithOperator(line[..i - 1])) then Skip
      else Unmark(true)
    else if c == ';' then Semi
    else Skip
  }

  function ForwardToks(line: string, p: nat): (ts: seq<Tok>)
    requires p <= |line|
    ensures |ts| == |line| - p
    ensures forall i :: 0 <= i < |ts| ==> ts[i] == ForwardTok(line, p + i)
    decreases |line| - p
  {
    if p == |line| then [] else [ForwardTok(line, p)] + ForwardToks(line, p + 1)
  }

  lemma ForwardReads(line: string, p: nat)
    requires p <= |line|
    ensures Reads(ForwardToks(line, p), line[p..])
  {
  }

  lemma ForwardUnfold(line: string, i: nat, st: seq<Kind>)
    requires i < |line|
    ensures var next := Step(ForwardTok(line, i), st);
            Scan(ForwardToks(line, i), st)
            == if next.More? then Shift(Scan(ForwardToks(line, i + 1), next.stack), 1) else next
  {
    assert ForwardToks(line, i)[1..] == ForwardToks(line, i + 1);
  }

  /** How a one-line search reports an outcome: a position, or the stack to go on with. */
  predicate Reports(r: Outcome, position: int, pos: int, rest: Option<seq<Kind>>) {
    match r
    case Done(_) => pos == position && rest == None
    case Fail => pos == -1 && rest == None
    case More(s) => pos == -1 && rest == Some(s)
  }

  /** The inner loops that discard tentative brackets. */
  method PopAngles(stack: seq<Kind>) returns (st: seq<Kind>)
    ensures st == DropMarks(stack)
  {
    st := stack;
    while st != [] && Last(st) == Angle
      invariant DropMarks(st) == DropMarks(stack)
    {
      st := Pop(st);
    }
  }

  /** A closing bracket or semicolon: pending tentative brackets were operators. */
  method MeetCertain(stack: seq<Kind>, kind: Option<Kind>) returns (r: Outcome)
    ensures r == Step(if kind == None then Semi else Close(kind.value), stack)
  {
    var st := PopAngles(stack);
    if st == [] {
      return Fail;
    }
    if kind == None {
      return More(st);
    }
    if Last(st) != kind.value {
      return Fail;
    }
    st := Pop(st);
    return if st == [] then Done(1) else More(st);
  }

  /** One character of the forward loop. */
  method ReadForward(line: string, i: nat, stack: seq<Kind>) returns (r: Outcome)
    requires i < |line|
    ensures r == Step(ForwardTok(line, i), stack)
  {
    var c := line[i];
    if IsOpener(c) {
      return More(stack + [KindOf(c)]);
    } else if c == '<' {
      if i > 0 && line[i - 1] == '<' {
        // left shift operator
        if stack != [] && Last(stack) == Angle {
          return if Pop(stack) == [] then Fail else More(Pop(stack));
        }
      } else if i > 0 && EndsWithOperator(line[..i]) {
      } else {
        return More(stack + [Angle]);
      }
    } else if IsCloser(c) {
      r := MeetCertain(stack, Some(KindOf(c)));
      return;
    } else if c == '>' {
      if i > 0 && (line[i - 1] == '-' || EndsWithOperator(line[..i - 1])) {
      } else if stack != [] && Last(stack) == Angle {
        return if Pop(stack) == [] then Done(1) else More(Pop(stack));
      }
    } else if c == ';' {
      r := MeetCertain(stack, None);
      return;
    }
    return More(stack);
  }

  method FindEndOfExpressionInLine(line: string, startpos: nat, stack: seq<Kind>)
    returns (end: int, rest: Option<seq<Kind>>)
    requires startpos <= |line|
    ensures var r := Scan(ForwardToks(line, startpos), stack);
            Reports(r, if r.Done? then startpos + r.n else -1, end, rest)
  {
    var st := stack;
    for i := startpos to |line|
      invariant Scan(ForwardToks(line, startpos), stack) == Shift(Scan(ForwardToks(line, i), st), i - startpos)
    {
      ForwardUnfold(line, i, st);
      var r := ReadForward(line, i, st);
      match r
      case Done(_) => return i + 1, None;
      case Fail => return -1, None;
      case More(next) => st := next;
    }
    return -1, Some(st);
  }

  // -------------------------------------------------------------------------- backward

  /** A match for `\s>=\s` starting one character before `i`. */
  predicate SpacedGreaterEqual(line: string, i: nat)
    requires 0 < i < |line|
  {
    && i + 2 < |line|
    && IsSpace(line[i - 1]) && line[i] == '>' && line[i + 1] == '=' && IsSpace(line[i + 2])
  }

  /** A `>` or `<` that the backward matcher steps over together with the character before it. */
  predicate StepsOverTwo(line: string, i: nat)
    requires i < |line|
  {
    && i > 0
    && (|| (line[i] == '>' && (|| line[i - 1] == '-'
                               || SpacedGreaterEqual(line, i)
                               || EndsWithOperator(line[..i])))
        || (line[i] == '<' && line[i - 1] == '<'))
  }

  /** What the backward matcher takes the character at `i` for, seen in the mirror. */
  function BackwardTok(line: string, i: nat): (t: Tok)
    requires i < |line|
    ensures Agree(t, Flip(line[i]))
    ensures t == Unmark(true) ==> line[i] == '<'
  {
    var c := line[i];
    if IsCloser(c) then Open(KindOf(c))
    else if StepsOverTwo(line, i) then Skip
    else if c == '>' then Mark
    else if c == '<' then Unmark(true)
    else if IsOpener(c) then Close(KindOf(c))
    else if c == ';' then Semi
    else Skip
  }

  /** The tokens from position `i` down to the start of the line. */
  function BackwardToks(line: string, i: int): (ts: seq<Tok>)
    requires -1 <= i < |line|
    ensures |ts| == i + 1
    decreases i + 1
  {
    if i < 0 then []
    else if StepsOverTwo(line, i) then [Skip, Skip] + BackwardToks(line, i - 2)
    else [BackwardTok(line, i)] + BackwardToks(line, i - 1)
  }

  /** The backward tokens read the mirrored line; an accepting pop stands at a `<`. */
  ghost predicate MirrorReads(ts: seq<Tok>, line: string, i: int)
    requires -1 <= i < |line|
  {
    && |ts| == i + 1
    && forall j :: 0 <= j <= i ==>
         Agree(ts[j], Flip(line[i - j])) && (ts[j] == Unmark(true) ==> line[i - j] == '<')
  }

  lemma {:induction false} BackwardReads(line: string, i: int)
    requires -1 <= i < |line|
    ensures MirrorReads(BackwardToks(line, i), line, i)
    decreases i + 1
  {
    if i >= 0 {
      if StepsOverTwo(line, i) {
        SteppedOver(line, i);
        BackwardReads(line, i - 2);
        MirrorReadsExtend([Skip, Skip], BackwardToks(line, i - 2), line, i);
      } else {
        BackwardReads(line, i - 1);
        MirrorReadsExtend([BackwardTok(line, i)], BackwardToks(line, i - 1), line, i);
      }
    }
  }

  lemma SteppedOver(line: string, i: nat)
    requires i < |line| && StepsOverTwo(line, i)
    ensures Agree(Skip, line[i - 1])
  {
    if line[i] == '>' && EndsWithOperator(line[..i]) {
      OperatorLastChar(line[..i]);
    }
  }

  lemma MirrorReadsExtend(a: seq<Tok>, b: seq<Tok>, line: string, i: int)
    requires 0 <= i < |line| && |a| <= i + 1 && MirrorReads(b, line, i - |a|)
    requires forall j :: 0 <= j < |a| ==>
      Agree(a[j], Flip(line[i - j])) && (a[j] == Unmark(true) ==> line[i - j] == '<')
    ensures MirrorReads(a + b, line, i)
  {
  }

  lemma BackwardUnfold(line: string, i: nat, st: seq<Kind>)
    requires i < |line|
    ensures var next := Step(BackwardTok(line, i), st);
            Scan(BackwardToks(line, i), st)
            == if StepsOverTwo(line, i) then Shift(Scan(BackwardToks(line, i - 2), st), 2)
               else if next.More? then Shift(Scan(BackwardToks(line, i - 1), next.stack), 1)
               else next
  {
    var ts := BackwardToks(line, i);
    if StepsOverTwo(line, i) {
      ScanConcat([Skip, Skip], BackwardToks(line, i - 2), st);
      assert [Skip, Skip][1..] == [Skip] && [Skip][1..] == [];
      assert Scan([Skip], st) == More(st);
    } else {
      assert ts[1..] == BackwardToks(line, i - 1);
    }
  }

  /** One character of the backward loop, unless it belongs to an operator of two. */
  method ReadBackward(line: string, i: nat, stack: seq<Kind>) returns (r: Outcome)
    requires i < |line| && !StepsOverTwo(line, i)
    ensures r == Step(BackwardTok(line, i), stack)
  {
    var c := line[i];
    if IsCloser(c) {
      return More(stack + [KindOf(c)]);
    } else if c == '>' {
      return More(stack + [Angle]);
    } else if c == '<' {
      if stack != [] && Last(stack) == Angle {
        return if Pop(stack) == [] then Done(1) else More(Pop(stack));
      }
    } else if IsOpener(c) {
      r := MeetCertain(stack, Some(KindOf(c)));
      return;
    } else if c == ';' {
      r := MeetCertain(stack, None);
      return;
    }
    return More(stack);
  }

  method FindStartOfExpressionInLine(line: string, endpos: int, stack: seq<Kind>)
    returns (start: int, rest: Option<seq<Kind>>)
    requires -1 <= endpos < |line|
    ensures var r := Scan(BackwardToks(line, endpos), stack);
            Reports(r, if r.Done? then endpos - r.n + 1 else -1, start, rest)
  {
    var st := stack;
    var i := endpos;
    while i >= 0
      invariant -1 <= i <= endpos
      invariant Scan(BackwardToks(line, endpos), stack) == Shift(Scan(BackwardToks(line, i), st), endpos - i)
    {
      BackwardUnfold(line, i, st);
      if i > 0 && line[i] == '>'
         && (line[i - 1] == '-' || SpacedGreaterEqual(line, i) || EndsWithOperator(line[..i]))
      {
        i := i - 2;
        continue;
      }
      if i > 0 && line[i] == '<' && line[i - 1] == '<' {
        i := i - 2;
        continue;
      }
      var r := ReadBackward(line, i, st);
      match r
      case Done(_) => return i, None;
      case Fail => return -1, None;
      case More(next) => st := next;
      i := i - 1;
    }
    return -1, Some(st);
  }
}
