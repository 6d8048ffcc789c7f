/** Clients of the matchers: the independent extractor of parenthesised text, and the
    scan that decides whether a place is inside a template argument list. */
module TextInside {
  import opened Options
  import opened BracketGrammar
  import opened TentativeScan
  import opened Matchers
  import opened Spans

  // ------------------------------------------------------------- text inside brackets

  /** The extractor knows no tentative brackets. */
  function PlainTok(c: char): (t: Tok)
    ensures Agree(t, c)
  {
    if IsOpener(c) then Open(KindOf(c))
    else if IsCloser(c) then Close(KindOf(c))
    else if c == ';' then Semi else Skip
  }

  function PlainToks(text: string, p: nat): (ts: seq<Tok>)
    requires p <= |text|
    ensures |ts| == |text| - p
    decreases |text| - p
  {
    if p == |text| then [] else [PlainTok(text[p])] + PlainToks(text, p + 1)
  }

  lemma {:induction false} PlainReads(text: string, p: nat)
    requires p <= |text|
    ensures Reads(PlainToks(text, p), text[p..])
    decreases |text| - p
  {
    if p < |text| {
      PlainReads(text, p + 1);
      assert text[p..] == [text[p]] + text[p + 1..];
      assert Reads([PlainTok(text[p])], [text[p]]);
    }
  }

  lemma PlainUnfold(text: string, i: nat, st: seq<Kind>)
    requires i < |text| && st != [] && Last(st) != Angle
    ensures var c := text[i];
            Scan(PlainToks(text, i), st)
            == if IsOpener(c) then Shift(Scan(PlainToks(text, i + 1), st + [KindOf(c)]), 1)
               else if !IsCloser(c) then Shift(Scan(PlainToks(text, i + 1), st), 1)
               else if KindOf(c) != Last(st) then Fail
               else if |st| == 1 then Done(1)
               else Shift(Scan(PlainToks(text, i + 1), Pop(st)), 1)
  {
    assert PlainToks(text, i)[1..] == PlainToks(text, i + 1);
    assert DropMarks(st) == st;
  }

  /** Every way of guessing at angle brackets closes a certain bracket at the same place. */
  lemma GuessesAgree(text: string, p: nat, o: char)
    requires p <= |text| && IsOpener(o)
    ensures var r := Scan(PlainToks(text, p), [KindOf(o)]);
            var s := Scan(ForwardToks(text, p), [KindOf(o)]);
            (r.Done? <==> s.Done?) && (r.Done? ==> r == s)
  {
    var r := Scan(PlainToks(text, p), [KindOf(o)]);
    var s := Scan(ForwardToks(text, p), [KindOf(o)]);
    ForwardReads(text, p);
    PlainReads(text, p);
    if r.Done? {
      ScanIff(PlainToks(text, p), text[p..], o, r.n);
      ScanIff(ForwardToks(text, p), text[p..], o, r.n);
    }
    if s.Done? {
      ScanIff(PlainToks(text, p), text[p..], o, s.n);
      ScanIff(ForwardToks(text, p), text[p..], o, s.n);
    }
  }

  /** `start` is the end of the first match of the start pattern, if there is one; the
      pattern must end with an opener. The reply is told by the forward matcher. */
  method GetTextInside(text: string, start: Option<nat>) returns (inside: Option<string>)
    requires start.Some? ==> 0 < start.value <= |text| && IsOpener(text[start.value - 1])
    ensures start.None? ==> inside == None
    ensures start.Some? ==>
      match Scan(ForwardToks(text, start.value), [KindOf(text[start.value - 1])])
      case Done(n) => inside == Some(text[start.value..start.value + n - 1])
      case _ => inside == None
  {
    if start.None? {
      return None;
    }
    var s := start.value;
    GuessesAgree(text, s, text[s - 1]);
    var end := FindClosing(text, s);
    return if end.Some? then Some(text[s..end.value - 1]) else None;
  }

  /** The loop: the place just past the closer of the opener before `s`. */
  method FindClosing(text: string, s: nat) returns (end: Option<nat>)
    requires 0 < s <= |text| && IsOpener(text[s - 1])
    ensures var r := Scan(PlainToks(text, s), [KindOf(text[s - 1])]);
            end == if r.Done? then Some(s + r.n) else None
  {
    var stack := [KindOf(text[s - 1])];
    ghost var goal := Scan(PlainToks(text, s), stack);
    var i := s;
    while stack != [] && i < |text|
      invariant s <= i <= |text|
      invariant forall k :: 0 <= k < |stack| ==> stack[k] != Angle
      invariant goal == if stack == [] then Done(i - s) else Shift(Scan(PlainToks(text, i), stack), i - s)
      decreases |text| - i
    {
      PlainUnfold(text, i, stack);
      if IsCloser(text[i]) && KindOf(text[i]) == Last(stack) {
        stack := Pop(stack);
      } else if IsCloser(text[i]) {
        return None;
      } else if IsOpener(text[i]) {
        stack := stack + [KindOf(text[i])];
      }
      i := i + 1;
    }
    if stack != [] {
      assert PlainToks(text, i) == [];
      return None;
    }
    return Some(i);
  }

  /** What is returned: the text of the one bracket group that starts at the opener. */
  lemma InsideIsGroup(text: string, s: nat, n: nat)
    requires 0 < s <= |text| && IsOpener(text[s - 1]) && n <= |text| - s
    ensures Scan(ForwardToks(text, s), [KindOf(text[s - 1])]) == Done(n) <==> Enclosed(text[s - 1..s + n])
  {
    ForwardReads(text, s);
    ScanIff(ForwardToks(text, s), text[s..], text[s - 1], n);
    assert text[s - 1..s + n] == [text[s - 1]] + text[s..][..n];
  }

  // ------------------------------------------------------- inside template arguments

  datatype Verdict = Inside | Outside | Continue(line: nat, pos: nat)

  /** The characters that can settle the question. */
  predicate IsTelling(c: char) { EndsStatement(c) || SuggestsTemplate(c) || c == '<' }

  predicate EndsStatement(c: char) { c == '{' || c == '}' || c == ';' }

  predicate SuggestsTemplate(c: char) { c == '>' || c == '=' || c == '[' || c == ']' || c == '.' }

  function FirstTelling(line: string, p: nat): (k: nat)
    requires p <= |line|
    ensures p <= k <= |line|
    ensures k < |line| ==> IsTelling(line[k])
    ensures forall i :: p <= i < k ==> !IsTelling(line[i])
    decreases |line| - p
  {
    if p == |line| || IsTelling(line[p]) then p else FirstTelling(line, p + 1)
  }

  /** One round of the loop. A remainder without a telling character ends the line. */
  function OneRound(lines: seq<string>, l: nat, p: nat): Verdict
    requires l < |lines|
  {
    if p > |lines[l]| then Continue(l + 1, 0) else
      var k := FirstTelling(lines[l], p);
      if k == |lines[l]| then Continue(l + 1, 0)
      else if EndsStatement(lines[l][k]) then Outside
      else if lines[l][k] != '<' then Inside
      else match CloseAt(lines, l, k)
        case None => Outside
        case Some((l2, e)) => Continue(l2, e)
  }

  /** Every round moves strictly forward in the file. */
  lemma RoundAdvances(lines: seq<string>, l: nat, p: nat)
    requires l < |lines| && OneRound(lines, l, p).Continue?
    ensures var r := OneRound(lines, l, p);
            && (l < r.line || (l == r.line && p < r.pos))
            && (r.line < |lines| ==> r.pos <= |lines[r.line]|)
            && r.line <= |lines|
  {
    if p <= |lines[l]| {
      var k := FirstTelling(lines[l], p);
      if k < |lines[l]| && lines[l][k] == '<' {
        CloseFromLater(lines, l, k, []);
      }
    }
  }

  function Measure(lines: seq<string>, l: nat, p: nat): nat {
    if l < |lines| && p <= |lines[l]| then |lines[l]| - p else 0
  }

  /** The outcome of the whole loop; it exists because every round advances. */
  function InTemplateArguments(lines: seq<string>, l: nat, p: nat): bool
    decreases |lines| - l, Measure(lines, l, p)
  {
    if l >= |lines| then false else
      match OneRound(lines, l, p)
      case Inside => true
      case Outside => false
      case Continue(l2, p2) => RoundAdvances(lines, l, p); InTemplateArguments(lines, l2, p2)
  }

  /** The body of the loop. */
  method NextRound(lines: seq<string>, l: nat, p: nat) returns (r: Verdict)
    requires l < |lines|
    ensures r == OneRound(lines, l, p)
  {
    var line := lines[l];
    if p >= |line| {
      return Continue(l + 1, 0);
    }
    var k := FirstTelling(line, p);
    // Without a telling character the pattern backs up and takes the last one.
    var token := if k < |line| then line[k] else line[|line| - 1];
    var next := if k < |line| then k + 1 else |line|;
    if EndsStatement(token) {
      return Outside;
    }
    if SuggestsTemplate(token) {
      return Inside;
    }
    if token != '<' {
      next := next + 1;
      if next >= |line| {
        return Continue(l + 1, 0);
      }
      assert false;
    }
    var _, endLine, endPos := CloseExpression(lines, l, next - 1);
    return if endPos < 0 then Outside else Continue(endLine, endPos);
  }

  method InTemplateArgumentList(lines: seq<string>, linenum: nat, pos: nat) returns (inside: bool)
    ensures inside == InTemplateArguments(lines, linenum, pos)
  {
    var l: nat, p: nat := linenum, pos;
    while l < |lines|
      invariant InTemplateArguments(lines, linenum, pos) == InTemplateArguments(lines, l, p)
      decreases |lines| - l, Measure(lines, l, p)
    {
      var r := NextRound(lines, l, p);
      if !r.Continue? {
        return r.Inside?;
      }
      RoundAdvances(lines, l, p);
      l, p := r.line, r.pos;
    }
    return false;
  }
}
