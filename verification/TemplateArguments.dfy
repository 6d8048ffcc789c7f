/** When a place counts as inside a template argument list, read off the text. */
module TemplateArguments {
  import opened Options
  import opened BracketGrammar
  import opened TentativeScan
  import opened Matchers
  import opened Spans
  import opened AngleCounter
  import opened TextInside

  type Spot = (nat, nat)

  predicate OnLine(lines: seq<string>, a: Spot) { a.0 < |lines| && a.1 <= |lines[a.0]| }

  predicate AtCharacter(lines: seq<string>, a: Spot) { a.0 < |lines| && a.1 < |lines[a.0]| }

  /** The character at `q` is the first one from `from` on that a search with nothing pending
      would push; until then it would meet no closer and no semicolon. */
  predicate FirstPushed(line: string, from: nat, q: nat) {
    && from <= q < |line|
    && (ForwardTok(line, q).Open? || ForwardTok(line, q) == Mark)
    && forall k :: from <= k < q ==> ForwardTok(line, k) == Skip || ForwardTok(line, k).Unmark?
  }

  /** A bracket group, or a list whose depth of angle brackets returns to zero, from (l, q) to
      before b. */
  ghost predicate Closes(lines: seq<string>, l: nat, q: nat, b: Spot)
    requires l < |lines| && q < |lines[l]|
  {
    if IsOpener(lines[l][q]) then BracketSpan(lines, l, q, b.0, b.1)
    else IsRegion(lines, l, q, b.0, b.1) && DepthReturns(lines, l, q + 1, b.0, b.1)
  }

  /** The characters that make it look like a template argument list. */
  predicate IsSign(c: char) { c == '>' || c == '=' || c == '[' || c == ']' || c == '.' }

  /** The characters that end a statement. */
  predicate IsStop(c: char) { c == '{' || c == '}' || c == ';' }

  /** The first bracket that would be pushed from `p` on closes before b. */
  ghost predicate ClosesLaterOn(lines: seq<string>, l: nat, p: nat, b: Spot)
    requires l < |lines|
  {
    exists q: nat :: FirstPushed(lines[l], p, q) && Closes(lines, l, q, b)
  }

  /** From a to b: over one character that tells nothing, over a line end, or from a `<`. One
      that opens a list is passed with the whole list. After a second `<` or a `=` there is no
      passing. Any other `<` (the second of a shift operator, `operator<`) is passed with the
      first group or list that opens later on its line, if no closer or semicolon comes first. */
  ghost predicate Passes(lines: seq<string>, a: Spot, b: Spot)
    requires OnLine(lines, a)
  {
    var (l, p) := a;
    if p == |lines[l]| then b == (l + 1, 0)
    else if !IsSign(lines[l][p]) && !IsStop(lines[l][p]) && lines[l][p] != '<' then b == (l, p + 1)
    else
      && lines[l][p] == '<' && Searches(lines[l], p)
      && if ForwardTok(lines[l], p) == Mark then Closes(lines, l, p, b)
         else ClosesLaterOn(lines, l, p + 1, b)
  }

  /** The character at this place makes it look like a template argument list. */
  predicate Suggests(lines: seq<string>, a: Spot) {
    AtCharacter(lines, a) && IsSign(lines[a.0][a.1])
  }

  /** The places `ps` lead from `a`, each passing to the next, to a suggesting character. */
  ghost predicate LeadsToSign(lines: seq<string>, a: Spot, ps: seq<Spot>)
    decreases |ps|
  {
    && OnLine(lines, a)
    && if ps == [] then Suggests(lines, a) else Passes(lines, a, ps[0]) && LeadsToSign(lines, ps[0], ps[1..])
  }

  // ---- a search with nothing pending

  lemma EmptyGoesOn(lines: seq<string>, l: nat, p: nat)
    requires l < |lines| && p < |lines[l]|
    requires ForwardTok(lines[l], p) == Skip || ForwardTok(lines[l], p).Unmark?
    ensures CloseFrom(lines, l, p, []) == CloseFrom(lines, l, p + 1, [])
  {
    ForwardUnfold(lines[l], p, []);
  }

  lemma EmptyGivesUp(lines: seq<string>, l: nat, p: nat)
    requires l < |lines| && p <= |lines[l]|
    requires p == |lines[l]| || ForwardTok(lines[l], p) == Semi || ForwardTok(lines[l], p).Close?
    ensures CloseFrom(lines, l, p, []) == None
  {
    if p < |lines[l]| {
      ForwardUnfold(lines[l], p, []);
    }
  }

  lemma EmptyPushes(lines: seq<string>, l: nat, q: nat, b: Spot)
    requires l < |lines| && q < |lines[l]| && (ForwardTok(lines[l], q).Open? || ForwardTok(lines[l], q) == Mark)
    ensures CloseFrom(lines, l, q, []) == Some(b) <==> Closes(lines, l, q, b)
  {
    if IsOpener(lines[l][q]) {
      CloseFindsSpan(lines, l, q, b.0, b.1);
    } else {
      MarkPushes(lines, l, q);
      if IsRegion(lines, l, q, b.0, b.1) {
        CloseFromCount(lines, l, q + 1, b.0, b.1);
      }
    }
  }

  lemma MarkPushes(lines: seq<string>, l: nat, q: nat)
    requires l < |lines| && q < |lines[l]| && ForwardTok(lines[l], q) == Mark
    ensures CloseFrom(lines, l, q, []) == CloseFrom(lines, l, q + 1, [Angle])
    ensures var r := CloseFrom(lines, l, q, []); r.Some? ==> IsRegion(lines, l, q, r.value.0, r.value.1)
  {
    assert Step(Mark, []) == More([] + [Angle]);
    CloseFromPushed(lines, l, q, Angle);
    CloseFromLater(lines, l, q, []);
  }

  lemma {:induction false} EmptySearch(lines: seq<string>, l: nat, p: nat, b: Spot)
    requires l < |lines| && p <= |lines[l]|
    ensures CloseFrom(lines, l, p, []) == Some(b) <==> ClosesLaterOn(lines, l, p, b)
    decreases |lines[l]| - p
  {
    if p == |lines[l]| || ForwardTok(lines[l], p) == Semi || ForwardTok(lines[l], p).Close? {
      EmptyGivesUp(lines, l, p);
    } else if ForwardTok(lines[l], p).Open? || ForwardTok(lines[l], p) == Mark {
      EmptyPushes(lines, l, p, b);
      assert FirstPushed(lines[l], p, p);
    } else {
      EmptyGoesOn(lines, l, p);
      EmptySearch(lines, l, p + 1, b);
      LaterOn(lines[l], p);
    }
  }

  lemma LaterOn(line: string, p: nat)
    requires p < |line| && (ForwardTok(line, p) == Skip || ForwardTok(line, p).Unmark?)
    ensures forall q: nat :: FirstPushed(line, p, q) <==> FirstPushed(line, p + 1, q)
  {
  }

  lemma ListCloses(lines: seq<string>, a: Spot, b: Spot)
    requires AtCharacter(lines, a) && lines[a.0][a.1] == '<'
    ensures Passes(lines, a, b) <==> CloseAt(lines, a.0, a.1) == Some(b)
  {
    var (l, p) := a;
    if Searches(lines[l], p) {
      if ForwardTok(lines[l], p) == Mark {
        EmptyPushes(lines, l, p, b);
      } else {
        EmptyGoesOn(lines, l, p);
        EmptySearch(lines, l, p + 1, b);
      }
    }
  }

  function Verdict(lines: seq<string>, a: Spot): bool { InTemplateArguments(lines, a.0, a.1) }

  /** Passing on does not change the verdict. */
  lemma PassingKeeps(lines: seq<string>, a: Spot, b: Spot)
    requires OnLine(lines, a) && Passes(lines, a, b)
    ensures Verdict(lines, a) == Verdict(lines, b)
  {
    var (l, p) := a;
    if p < |lines[l]| && lines[l][p] == '<' {
      ListCloses(lines, a, b);
      assert OneRound(lines, l, p) == Continue(b.0, b.1);
    } else if p < |lines[l]| {
      assert OneRound(lines, l, p) == OneRound(lines, l, p + 1);
    } else {
      assert OneRound(lines, l, p) == Continue(l + 1, 0);
    }
  }

  lemma SignDecides(lines: seq<string>, a: Spot)
    requires AtCharacter(lines, a) && IsTelling(lines[a.0][a.1]) && lines[a.0][a.1] != '<'
    ensures Verdict(lines, a) <==> Suggests(lines, a)
  {
  }

  lemma {:induction false} PathIsInside(lines: seq<string>, a: Spot, ps: seq<Spot>)
    requires LeadsToSign(lines, a, ps)
    ensures Verdict(lines, a)
    decreases |ps|
  {
    if ps == [] {
      SignDecides(lines, a);
    } else {
      PathIsInside(lines, ps[0], ps[1..]);
      PassingKeeps(lines, a, ps[0]);
    }
  }

  /** Where to go on from a place that passes on and is judged to be inside. */
  lemma NextSpot(lines: seq<string>, a: Spot) returns (b: Spot)
    requires OnLine(lines, a) && Verdict(lines, a) && !Suggests(lines, a)
    ensures OnLine(lines, b) && Passes(lines, a, b)
    ensures a.0 < b.0 || (a.0 == b.0 && a.1 < b.1)
  {
    var (l, p) := a;
    if p == |lines[l]| {
      b := (l + 1, 0);
      PassingKeeps(lines, a, b);
    } else if !IsTelling(lines[l][p]) {
      b := (l, p + 1);
    } else {
      if lines[l][p] != '<' {
        SignDecides(lines, a);
        assert false;
      }
      assert CloseAt(lines, l, p).Some?;
      b := CloseAt(lines, l, p).value;
      ListCloses(lines, a, b);
      CloseFromLater(lines, l, p, []);
    }
  }

  lemma {:induction false} FindPath(lines: seq<string>, a: Spot) returns (ps: seq<Spot>)
    requires OnLine(lines, a) && Verdict(lines, a)
    ensures LeadsToSign(lines, a, ps)
    decreases |lines| - a.0, |lines[a.0]| - a.1
  {
    if Suggests(lines, a) {
      ps := [];
    } else {
      var b := NextSpot(lines, a);
      PassingKeeps(lines, a, b);
      var rest := FindPath(lines, b);
      ps := [b] + rest;
      assert ps[1..] == rest;
    }
  }

  ghost predicate ComesToSign(lines: seq<string>, a: Spot) {
    exists ps: seq<Spot> :: IsWay(lines, a, ps)
  }

  ghost predicate IsWay(lines: seq<string>, a: Spot, ps: seq<Spot>) { LeadsToSign(lines, a, ps) }

  /** A place is judged to be inside a template argument list if and only if, passing over
      characters that tell nothing, line ends and closed lists, one comes to one of
      `>`, `=`, `[`, `]` and `.`. */
  lemma InsideExactly(lines: seq<string>, l: nat, p: nat)
    requires l < |lines| && p <= |lines[l]|
    ensures InTemplateArguments(lines, l, p) <==> ComesToSign(lines, (l, p))
  {
    if ComesToSign(lines, (l, p)) {
      var ps: seq<Spot> :| IsWay(lines, (l, p), ps);
      PathIsInside(lines, (l, p), ps);
    }
    if InTemplateArguments(lines, l, p) {
      var ps := FindPath(lines, (l, p));
      assert IsWay(lines, (l, p), ps);
    }
  }
}
