/** Removal of comments that span lines, in place on the list of lines. */
module BlockComments {
  import opened Options

  /** What `strip` takes off a Unicode string in Python 2. */
  predicate IsBlank(c: char) {
    var n := c as int;
    || 9 <= n <= 13 || 28 <= n <= 32 || n == 0x85 || n == 0xA0 || n == 0x1680 || n == 0x180E
    || 0x2000 <= n <= 0x200A || n == 0x2028 || n == 0x2029 || n == 0x202F || n == 0x205F || n == 0x3000
  }

  function Strip(s: string): string
    decreases |s|
  {
    if s == "" then s
    else if IsBlank(s[0]) then Strip(s[1..])
    else if IsBlank(s[|s| - 1]) then Strip(s[..|s| - 1])
    else s
  }

  /** A closing mark at or after position `i`. */
  predicate ClosesFrom(s: string, i: nat)
    decreases |s| - i
  {
    i + 1 < |s| && ((s[i] == '*' && s[i + 1] == '/') || ClosesFrom(s, i + 1))
  }

  /** The line opens a comment and does not close it on the same line. */
  predicate Starts(line: string) {
    var t := Strip(line);
    |t| >= 2 && t[0] == '/' && t[1] == '*' && !ClosesFrom(t, 2)
  }

  predicate Ends(line: string) {
    var t := Strip(line);
    |t| >= 2 && t[|t| - 2] == '*' && t[|t| - 1] == '/'
  }

  const BLANK: string := "/**/"

  // ------------------------------------- reference: one pass over the lines, one state

  /** All that matters about a line. */
  datatype Mark = Mark(starts: bool, ends: bool)

  function MarkOf(line: string): Mark { Mark(Starts(line), Ends(line)) }

  function Marks(lines: seq<string>): (ms: seq<Mark>)
    ensures |ms| == |lines|
  {
    if lines == [] then [] else Marks(lines[..|lines| - 1]) + [MarkOf(lines[|lines| - 1])]
  }

  lemma {:induction false} MarkAt(lines: seq<string>, k: nat)
    requires k < |lines|
    ensures Marks(lines)[k] == MarkOf(lines[k])
  {
    if k < |lines| - 1 {
      MarkAt(lines[..|lines| - 1], k);
    }
  }

  /** The line where the comment open before line `k` began, if one is open. */
  function OpenBefore(ms: seq<Mark>, k: nat): (b: Option<nat>)
    requires k <= |ms|
    ensures b.Some? ==> b.value < k
    decreases k, 0
  {
    if k == 0 then None else
      var b := Beginning(ms, k - 1);
      if b.Some? && ms[k - 1].ends then None else b
  }

  /** The beginning of the comment that line `k` belongs to. */
  function Beginning(ms: seq<Mark>, k: nat): (b: Option<nat>)
    requires k < |ms|
    ensures b.Some? ==> b.value <= k
    decreases k, 1
  {
    var b := OpenBefore(ms, k);
    if b.Some? then b else if ms[k].starts then Some(k) else None
  }

  /** A comment that is never closed, by its first line. */
  function Unterminated(ms: seq<Mark>): Option<nat> { OpenBefore(ms, |ms|) }

  /** Where the file stops being treated: at an unterminated comment or at its end. */
  function Limit(ms: seq<Mark>): (m: nat)
    ensures m <= |ms|
  {
    var u := Unterminated(ms);
    if u.Some? then u.value else |ms|
  }

  /** The line lies in a comment that is closed somewhere. */
  predicate InComment(ms: seq<Mark>, k: nat)
    requires k < |ms|
  {
    k < Limit(ms) && Beginning(ms, k).Some?
  }

  function TreatedBy(lines: seq<string>, ms: seq<Mark>): (r: seq<string>)
    requires |ms| == |lines|
    ensures |r| == |lines|
    ensures forall k :: 0 <= k < |lines| ==> r[k] == if InComment(ms, k) then BLANK else lines[k]
  {
    seq(|lines|, k requires 0 <= k < |lines| => if InComment(ms, k) then BLANK else lines[k])
  }

  /** Every line of a closed comment blanked, the others as they were. */
  function Treated(lines: seq<string>): seq<string> { TreatedBy(lines, Marks(lines)) }

  // ------------------------------------------------------------------- the procedures

  function NextStart(ms: seq<Mark>, i: nat): (r: nat)
    requires i <= |ms|
    ensures i <= r <= |ms|
    decreases |ms| - i
  {
    if i == |ms| || ms[i].starts then i else NextStart(ms, i + 1)
  }

  function NextEnd(ms: seq<Mark>, i: nat): (r: nat)
    requires i <= |ms|
    ensures i <= r <= |ms|
    decreases |ms| - i
  {
    if i == |ms| || ms[i].ends then i else NextEnd(ms, i + 1)
  }

  function Blanked(lines: seq<string>, begin: nat, end: nat): (r: seq<string>)
    requires begin <= end <= |lines|
    ensures |r| == |lines|
    ensures forall k :: 0 <= k < |lines| ==> r[k] == if begin <= k < end then BLANK else lines[k]
  {
    seq(|lines|, k requires 0 <= k < |lines| => if begin <= k < end then BLANK else lines[k])
  }

  method FindNextMultiLineCommentStart(lines: array<string>, lineix: nat) returns (r: nat)
    requires lineix <= lines.Length
    ensures r == NextStart(Marks(lines[..]), lineix)
  {
    ghost var ms := Marks(lines[..]);
    r := lineix;
    while r < lines.Length
      invariant lineix <= r <= lines.Length
      invariant NextStart(ms, lineix) == NextStart(ms, r)
    {
      MarkAt(lines[..], r);
      if Starts(lines[r]) {
        return;
      }
      r := r + 1;
    }
  }

  method FindNextMultiLineCommentEnd(lines: array<string>, lineix: nat) returns (r: nat)
    requires lineix <= lines.Length
    ensures r == NextEnd(Marks(lines[..]), lineix)
  {
    ghost var ms := Marks(lines[..]);
    r := lineix;
    while r < lines.Length
      invariant lineix <= r <= lines.Length
      invariant NextEnd(ms, lineix) == NextEnd(ms, r)
    {
      MarkAt(lines[..], r);
      if Ends(lines[r]) {
        return;
      }
      r := r + 1;
    }
  }

  method RemoveMultiLineCommentsFromRange(lines: array<string>, begin: nat, end: nat)
    requires begin <= end <= lines.Length
    modifies lines
    ensures lines[..] == Blanked(old(lines[..]), begin, end)
  {
    for i := begin to end
      invariant forall k :: 0 <= k < lines.Length ==>
                  lines[k] == if begin <= k < i then BLANK else old(lines[k])
    {
      lines[i] := BLANK;
    }
  }

  /** Two lists of marks that agree from `m` on. */
  ghost predicate AgreeFrom(a: seq<Mark>, b: seq<Mark>, m: nat) {
    |a| == |b| && forall k :: m <= k < |a| ==> a[k] == b[k]
  }

  /** The search for a start passes only lines outside comments. */
  lemma {:induction false} StartFound(now: seq<Mark>, ms: seq<Mark>, m: nat)
    requires m <= |ms| && AgreeFrom(now, ms, m) && OpenBefore(ms, m) == None
    ensures var b := NextStart(now, m);
            && OpenBefore(ms, b) == None
            && (forall k :: m <= k < b ==> Beginning(ms, k) == None)
            && (b < |ms| ==> Beginning(ms, b) == Some(b))
    decreases |ms| - m
  {
    if m < |ms| && !now[m].starts {
      assert Beginning(ms, m) == None && OpenBefore(ms, m + 1) == None;
      StartFound(now, ms, m + 1);
    }
  }

  /** The search for an end passes only lines of the comment begun at `b`. */
  lemma {:induction false} EndFound(now: seq<Mark>, ms: seq<Mark>, b: nat, m: nat)
    requires b <= m < |ms| && AgreeFrom(now, ms, m)
    requires forall k :: b <= k <= m ==> Beginning(ms, k) == Some(b)
    ensures var e := NextEnd(now, m);
            if e < |ms| then OpenBefore(ms, e + 1) == None && forall k :: b <= k <= e ==> Beginning(ms, k) == Some(b)
            else Unterminated(ms) == Some(b)
    decreases |ms| - m
  {
    assert Beginning(ms, m) == Some(b);
    if !now[m].ends {
      assert OpenBefore(ms, m + 1) == Some(b);
      if m + 1 < |ms| {
        EndFound(now, ms, b, m + 1);
      }
    }
  }

  /** The lines once those before `m` are done. */
  function Partial(orig: seq<string>, ms: seq<Mark>, m: nat): (r: seq<string>)
    requires m <= |orig| == |ms|
    ensures |r| == |orig|
    ensures forall k :: 0 <= k < |r| ==> r[k] == if k < m && Beginning(ms, k).Some? then BLANK else orig[k]
  {
    seq(|orig|, k requires 0 <= k < |orig| => if k < m && Beginning(ms, k).Some? then BLANK else orig[k])
  }

  lemma PartialMarks(orig: seq<string>, m: nat)
    requires m <= |orig|
    ensures AgreeFrom(Marks(Partial(orig, Marks(orig), m)), Marks(orig), m)
  {
    var now := Partial(orig, Marks(orig), m);
    forall k | m <= k < |orig|
      ensures Marks(now)[k] == Marks(orig)[k]
    {
      MarkAt(now, k);
      MarkAt(orig, k);
    }
  }

  lemma PartialTreated(orig: seq<string>, ms: seq<Mark>, m: nat)
    requires m <= Limit(ms) && |orig| == |ms|
    requires forall k :: m <= k < Limit(ms) ==> Beginning(ms, k) == None
    ensures Partial(orig, ms, m) == TreatedBy(orig, ms)
  {
  }

  lemma PartialBlanked(orig: seq<string>, ms: seq<Mark>, m: nat, b: nat, e: nat)
    requires m <= b <= e < |orig| == |ms|
    requires forall k :: m <= k < b ==> Beginning(ms, k) == None
    requires forall k :: b <= k <= e ==> Beginning(ms, k) == Some(b)
    ensures Blanked(Partial(orig, ms, m), b, e + 1) == Partial(orig, ms, e + 1)
  {
    var l, r := Blanked(Partial(orig, ms, m), b, e + 1), Partial(orig, ms, e + 1);
    forall k | 0 <= k < |orig|
      ensures l[k] == r[k]
    {
    }
  }

  datatype Round = Last(open: Option<nat>) | Resume(next: nat)

  /** What a round that searches `nm` from `m` makes of the lines `before`. */
  ghost predicate RoundMakes(before: seq<string>, nm: seq<Mark>, m: nat, r: Round, after: seq<string>)
    requires m <= |before| == |nm|
  {
    var b := NextStart(nm, m);
    if b == |nm| then r == Last(None) && after == before
    else
      var e := NextEnd(nm, b);
      if e == |nm| then r == Last(Some(b)) && after == before
      else r == Resume(e + 1) && after == Blanked(before, b, e + 1)
  }

  /** One round: blank the next comment, or stop with the comment that is left open. */
  method RemoveNext(lines: array<string>, lineix: nat) returns (r: Round)
    requires lineix <= lines.Length
    modifies lines
    ensures RoundMakes(old(lines[..]), Marks(old(lines[..])), lineix, r, lines[..])
  {
    var begin := FindNextMultiLineCommentStart(lines, lineix);
    if begin >= lines.Length {
      return Last(None);
    }
    var end := FindNextMultiLineCommentEnd(lines, begin);
    if end >= lines.Length {
      return Last(Some(begin));
    }
    RemoveMultiLineCommentsFromRange(lines, begin, end + 1);
    return Resume(end + 1);
  }

  /** What is true after a round. */
  ghost predicate RoundDone(orig: seq<string>, ms: seq<Mark>, m: nat, r: Round, after: seq<string>)
    requires |orig| == |ms|
  {
    match r
    case Last(open) => after == TreatedBy(orig, ms) && Unterminated(ms) == open
    case Resume(next) => m < next <= |orig| && OpenBefore(ms, next) == None && after == Partial(orig, ms, next)
  }

  /** A round from line `m` on; `nm` are the marks of the current lines. */
  lemma OneRound(orig: seq<string>, nm: seq<Mark>, ms: seq<Mark>, m: nat, r: Round, after: seq<string>)
    requires m <= |orig| == |ms| && AgreeFrom(nm, ms, m) && OpenBefore(ms, m) == None
    requires RoundMakes(Partial(orig, ms, m), nm, m, r, after)
    ensures RoundDone(orig, ms, m, r, after)
  {
    StartFound(nm, ms, m);
    var b := NextStart(nm, m);
    if b == |orig| {
      PartialTreated(orig, ms, m);
    } else {
      RoundFrom(orig, nm, ms, m, b, r, after);
    }
  }

  lemma RoundFrom(orig: seq<string>, nm: seq<Mark>, ms: seq<Mark>, m: nat, b: nat, r: Round, after: seq<string>)
    requires m <= b < |orig| == |ms| && AgreeFrom(nm, ms, m) && b == NextStart(nm, m)
    requires (forall k :: m <= k < b ==> Beginning(ms, k) == None) && Beginning(ms, b) == Some(b)
    requires RoundMakes(Partial(orig, ms, m), nm, m, r, after)
    ensures RoundDone(orig, ms, m, r, after)
  {
    EndFound(nm, ms, b, b);
    var e := NextEnd(nm, b);
    if e == |orig| {
      OpenTreated(orig, ms, m, b);
    } else {
      RoundBlanks(orig, ms, m, b, e);
    }
  }

  lemma RoundBlanks(orig: seq<string>, ms: seq<Mark>, m: nat, b: nat, e: nat)
    requires m <= b <= e < |orig| == |ms|
    requires forall k :: m <= k < b ==> Beginning(ms, k) == None
    requires forall k :: b <= k <= e ==> Beginning(ms, k) == Some(b)
    requires OpenBefore(ms, e + 1) == None
    ensures RoundDone(orig, ms, m, Resume(e + 1), Blanked(Partial(orig, ms, m), b, e + 1))
  {
    PartialBlanked(orig, ms, m, b, e);
  }

  lemma OpenTreated(orig: seq<string>, ms: seq<Mark>, m: nat, b: nat)
    requires m <= b && |orig| == |ms| && Unterminated(ms) == Some(b)
    requires forall k :: m <= k < b ==> Beginning(ms, k) == None
    ensures Partial(orig, ms, m) == TreatedBy(orig, ms)
  {
    PartialTreated(orig, ms, m);
  }

  lemma RoundOf(orig: seq<string>, m: nat, r: Round, after: seq<string>)
    requires m <= |orig| && OpenBefore(Marks(orig), m) == None
    requires var now := Partial(orig, Marks(orig), m); RoundMakes(now, Marks(now), m, r, after)
    ensures RoundDone(orig, Marks(orig), m, r, after)
  {
    PartialMarks(orig, m);
    OneRound(orig, Marks(Partial(orig, Marks(orig), m)), Marks(orig), m, r, after);
  }

  /** Returns the number of the line to report, counted from one, if a comment is open. */
  method RemoveMultiLineComments(lines: array<string>) returns (report: Option<nat>)
    modifies lines
    ensures lines[..] == Treated(old(lines[..]))
    ensures report == match Unterminated(Marks(old(lines[..]))) case Some(b) => Some(b + 1) case None => None
  {
    ghost var orig, ms := lines[..], Marks(lines[..]);
    var lineix := 0;
    assert lines[..] == Partial(orig, ms, 0);
    while lineix < lines.Length
      invariant 0 <= lineix <= lines.Length
      invariant OpenBefore(ms, lineix) == None && lines[..] == Partial(orig, ms, lineix)
    {
      var r := RemoveNext(lines, lineix);
      RoundOf(orig, lineix, r, lines[..]);
      match r
      case Last(open) => return if open.Some? then Some(open.value + 1) else None;
      case Resume(next) => lineix := next;
    }
    PartialTreated(orig, ms, lineix);
    return None;
  }

  // ------------------------------------------------------------------------- results

  lemma BlankIsNoStart()
    ensures !Starts(BLANK)
  {
    assert Strip(BLANK) == BLANK;
    assert BLANK[2] == '*' && BLANK[3] == '/';
  }

  lemma {:induction false} StaysOutside(ms: seq<Mark>, k: nat)
    requires k <= |ms| && forall m :: 0 <= m < k ==> !ms[m].starts
    ensures OpenBefore(ms, k) == None
    ensures forall m :: 0 <= m < k ==> Beginning(ms, m) == None
  {
    if k > 0 {
      StaysOutside(ms, k - 1);
    }
  }

  /** Below the limit no line of the treated list starts a comment; above, nothing changed. */
  lemma TreatedMarks(lines: seq<string>)
    ensures var ms, rs := Marks(lines), Marks(Treated(lines));
            && (forall k :: 0 <= k < Limit(ms) ==> !rs[k].starts)
            && AgreeFrom(rs, ms, Limit(ms))
  {
    var ms, rs := Marks(lines), Marks(Treated(lines));
    BlankIsNoStart();
    forall k | 0 <= k < |ms|
      ensures k < Limit(ms) ==> !rs[k].starts
      ensures k >= Limit(ms) ==> rs[k] == ms[k]
    {
      assert Treated(lines)[k] == if InComment(ms, k) then BLANK else lines[k];
      MarkAt(lines, k);
      MarkAt(Treated(lines), k);
    }
  }

  lemma {:induction false} InsideToTheEnd(ms: seq<Mark>, b: nat, k: nat)
    requires Unterminated(ms) == Some(b) && b < k <= |ms|
    ensures OpenBefore(ms, k) == Some(b) && !ms[k - 1].ends
    ensures k == b + 1 ==> ms[b].starts
    decreases |ms| - k
  {
    if k < |ms| {
      InsideToTheEnd(ms, b, k + 1);
    }
  }

  /** From an unterminated comment on, both lists are in the same state. */
  lemma {:induction false} SameInside(rs: seq<Mark>, ms: seq<Mark>, b: nat, k: nat)
    requires Unterminated(ms) == Some(b) && b < k <= |ms| && AgreeFrom(rs, ms, b)
    requires OpenBefore(rs, b) == None
    ensures OpenBefore(rs, k) == Some(b)
    decreases k
  {
    InsideToTheEnd(ms, b, k);
    if k > b + 1 {
      SameInside(rs, ms, b, k - 1);
    }
  }

  /** Either an unterminated comment is reported, or no multi-line comment is left. */
  lemma NoCommentLeft(lines: seq<string>)
    ensures Unterminated(Marks(lines)) == None ==> forall k :: 0 <= k < |lines| ==> !Starts(Treated(lines)[k])
  {
    TreatedMarks(lines);
    if Unterminated(Marks(lines)) == None {
      forall k | 0 <= k < |lines|
        ensures !Starts(Treated(lines)[k])
      {
        assert !Marks(Treated(lines))[k].starts;
        MarkAt(Treated(lines), k);
      }
    }
  }

  lemma SameReport(lines: seq<string>)
    ensures Unterminated(Marks(Treated(lines))) == Unterminated(Marks(lines))
    ensures forall k :: 0 <= k < Limit(Marks(lines)) ==> Beginning(Marks(Treated(lines)), k) == None
  {
    var ms, rs := Marks(lines), Marks(Treated(lines));
    TreatedMarks(lines);
    StaysOutside(rs, Limit(ms));
    if Unterminated(ms).Some? {
      SameInside(rs, ms, Limit(ms), |ms|);
    }
  }

  /** A second run changes nothing and reports the same. */
  lemma TreatedTwice(lines: seq<string>)
    ensures Unterminated(Marks(Treated(lines))) == Unterminated(Marks(lines))
    ensures Treated(Treated(lines)) == Treated(lines)
  {
    SameReport(lines);
    var r := Treated(lines);
    forall k | 0 <= k < |r|
      ensures Treated(r)[k] == r[k]
    {
      assert !InComment(Marks(r), k);
    }
  }
}
