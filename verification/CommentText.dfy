/** The removal of multi-line comments, read off the text of the lines. */
module CommentText {
  import opened Options
  import opened BlockComments

  // ------------------------------------------------------------------------ single lines

  predicate AllBlank(s: string) { forall i :: 0 <= i < |s| ==> IsBlank(s[i]) }

  /** The text neither starts nor ends with a blank. */
  predicate Trimmed(t: string) { t != "" ==> !IsBlank(t[0]) && !IsBlank(t[|t| - 1]) }

  lemma {:induction false} StripIs(a: string, t: string, b: string)
    requires AllBlank(a) && AllBlank(b) && Trimmed(t)
    ensures Strip(a + t + b) == t
    decreases |a| + |b|
  {
    var s := a + t + b;
    if a != "" {
      StripIs(a[1..], t, b);
      assert s[0] == a[0] && s[1..] == a[1..] + t + b;
    } else if t == "" {
      if b != "" {
        StripIs("", "", b[1..]);
        assert s[0] == b[0] && s[1..] == "" + "" + b[1..];
      }
    } else if b != "" {
      StripIs("", t, b[..|b| - 1]);
      assert s[0] == t[0] && s[|s| - 1] == b[|b| - 1] && s[..|s| - 1] == "" + t + b[..|b| - 1];
    } else {
      assert s == t;
    }
  }

  lemma {:induction false} StripParts(s: string) returns (a: string, b: string)
    ensures AllBlank(a) && AllBlank(b) && Trimmed(Strip(s)) && s == a + Strip(s) + b
    decreases |s|
  {
    a, b := "", "";
    if s == "" {
    } else if IsBlank(s[0]) {
      var a1, b1 := StripParts(s[1..]);
      a, b := [s[0]] + a1, b1;
      assert a + Strip(s) + b == [s[0]] + (a1 + Strip(s[1..]) + b1);
    } else if IsBlank(s[|s| - 1]) {
      var n := |s| - 1;
      var a1, b1 := StripParts(s[..n]);
      a, b := a1, b1 + [s[n]];
      assert s == s[..n] + [s[n]];
      assert a + Strip(s) + b == (a1 + Strip(s[..n]) + b1) + [s[n]];
    }
  }

  predicate IsAt(s: string, t: string, i: nat) { i + |t| <= |s| && s[i..i + |t|] == t }

  /** `t` occurs somewhere in s. */
  ghost predicate Contains(s: string, t: string) { exists i: nat :: IsAt(s, t, i) }

  lemma {:induction false} ClosesExactly(s: string, i: nat)
    requires i <= |s|
    ensures ClosesFrom(s, i) <==> Contains(s[i..], "*/")
    decreases |s| - i
  {
    if i < |s| {
      ClosesExactly(s, i + 1);
      ContainsNext(s[i..]);
      assert s[i..][1..] == s[i + 1..];
    }
  }

  lemma ContainsNext(s: string)
    requires s != ""
    ensures Contains(s, "*/") <==> (|s| >= 2 && s[0] == '*' && s[1] == '/') || Contains(s[1..], "*/")
  {
    if Contains(s, "*/") {
      var i: nat :| IsAt(s, "*/", i);
      if i == 0 {
        assert s[..2] == "*/" && s[0] == s[..2][0] && s[1] == s[..2][1];
      } else {
        assert s[1..][i - 1..i + 1] == s[i..i + 2];
        assert IsAt(s[1..], "*/", i - 1);
      }
    }
    if |s| >= 2 && s[0] == '*' && s[1] == '/' {
      assert s[0..2] == "*/";
      assert IsAt(s, "*/", 0);
    }
    if Contains(s[1..], "*/") {
      var i: nat :| IsAt(s[1..], "*/", i);
      assert s[i + 1..i + 3] == s[1..][i..i + 2];
      assert IsAt(s, "*/", i + 1);
    }
  }

  /** A comment is opened, after blanks only, and not closed on its line. */
  ghost predicate OpensComment(line: string) {
    exists a, t, b :: OpensWith(line, a, t, b)
  }

  ghost predicate OpensWith(line: string, a: string, t: string, b: string) {
    && AllBlank(a) && AllBlank(b) && line == a + ("/*" + t) + b
    && (t != "" ==> !IsBlank(t[|t| - 1])) && !Contains(t, "*/")
  }

  /** Nothing but blanks follow a closing mark. */
  ghost predicate ClosesComment(line: string) { exists a, b :: AllBlank(b) && line == a + "*/" + b }

  lemma StartsExactly(line: string)
    ensures Starts(line) <==> OpensComment(line)
  {
    var t := Strip(line);
    if Starts(line) {
      var a, b := StripParts(line);
      assert t == "/*" + t[2..];
      ClosesExactly(t, 2);
      assert OpensWith(line, a, t[2..], b);
    }
    if OpensComment(line) {
      var a, u, b :| OpensWith(line, a, u, b);
      StripIs(a, "/*" + u, b);
      ClosesExactly(t, 2);
      assert t[2..] == u;
    }
  }

  lemma EndsExactly(line: string)
    ensures Ends(line) <==> ClosesComment(line)
  {
    var t := Strip(line);
    if Ends(line) {
      var a, b := StripParts(line);
      assert t == t[..|t| - 2] + "*/";
      assert line == (a + t[..|t| - 2]) + "*/" + b;
    }
    if ClosesComment(line) {
      var a, b :| AllBlank(b) && line == a + "*/" + b;
      ClosingStays(a, b);
    }
  }

  lemma ClosingStays(a: string, b: string)
    requires AllBlank(b)
    ensures Ends(a + "*/" + b)
  {
    var c, d := StripParts(a);
    var u := Strip(a);
    var e := if u == "" then "*/" else u + (d + "*/");
    assert Trimmed(e) && |e| >= 2 && e[|e| - 2] == '*' && e[|e| - 1] == '/';
    if u == "" {
      assert a + "*/" + b == (c + d) + e + b;
      StripIs(c + d, e, b);
    } else {
      assert a + "*/" + b == c + e + b;
      StripIs(c, e, b);
    }
  }

  // ------------------------------------------------------------------------ whole files

  lemma {:induction false} MarksConcat(a: seq<string>, b: seq<string>)
    ensures Marks(a + b) == Marks(a) + Marks(b)
  {
    forall k | 0 <= k < |a + b|
      ensures Marks(a + b)[k] == (Marks(a) + Marks(b))[k]
    {
      MarkAt(a + b, k);
      if k < |a| {
        MarkAt(a, k);
      } else {
        MarkAt(b, k - |a|);
      }
    }
  }

  lemma {:induction false} PrefixOpen(a: seq<Mark>, b: seq<Mark>, k: nat)
    requires k <= |a|
    ensures OpenBefore(a + b, k) == OpenBefore(a, k)
    ensures k < |a| ==> Beginning(a + b, k) == Beginning(a, k)
    decreases k
  {
    if k > 0 {
      PrefixOpen(a, b, k - 1);
    }
  }

  function Shifted(o: Option<nat>, n: nat): Option<nat> { if o.Some? then Some(o.value + n) else None }

  /** After lines that leave no comment open, the state is that of the rest alone. */
  lemma {:induction false} ShiftOpen(a: seq<Mark>, b: seq<Mark>, k: nat)
    requires k <= |b| && OpenBefore(a, |a|) == None
    ensures OpenBefore(a + b, |a| + k) == Shifted(OpenBefore(b, k), |a|)
    ensures k < |b| ==> Beginning(a + b, |a| + k) == Shifted(Beginning(b, k), |a|)
    decreases k
  {
    if k == 0 {
      PrefixOpen(a, b, |a|);
    } else {
      ShiftOpen(a, b, k - 1);
    }
  }

  lemma InCommentApart(a: seq<Mark>, b: seq<Mark>)
    requires OpenBefore(a, |a|) == None
    ensures Unterminated(a + b) == Shifted(Unterminated(b), |a|)
    ensures forall k :: 0 <= k < |a| ==> (InComment(a + b, k) <==> InComment(a, k))
    ensures forall k :: |a| <= k < |a + b| ==> (InComment(a + b, k) <==> InComment(b, k - |a|))
  {
    ShiftOpen(a, b, |b|);
    forall k | 0 <= k < |a|
      ensures InComment(a + b, k) <==> InComment(a, k)
    {
      PrefixOpen(a, b, k);
    }
    forall k | |a| <= k < |a + b|
      ensures InComment(a + b, k) <==> InComment(b, k - |a|)
    {
      ShiftOpen(a, b, k - |a|);
    }
  }

  lemma TreatedPieces(a: seq<string>, b: seq<string>, ms: seq<Mark>, ma: seq<Mark>, mb: seq<Mark>)
    requires |ma| == |a| && |mb| == |b| && |ms| == |a| + |b|
    requires forall k :: 0 <= k < |a| ==> (InComment(ms, k) <==> InComment(ma, k))
    requires forall k :: |a| <= k < |ms| ==> (InComment(ms, k) <==> InComment(mb, k - |a|))
    ensures TreatedBy(a + b, ms) == TreatedBy(a, ma) + TreatedBy(b, mb)
  {
    var x, y, z := TreatedBy(a + b, ms), TreatedBy(a, ma), TreatedBy(b, mb);
    forall k | 0 <= k < |x|
      ensures x[k] == (y + z)[k]
    {
    }
  }

  /** Lines that leave no comment open are treated apart from the rest. */
  lemma {:induction false} TreatedApart(a: seq<string>, b: seq<string>)
    requires OpenBefore(Marks(a), |a|) == None
    ensures Treated(a + b) == Treated(a) + Treated(b)
    ensures Unterminated(Marks(a + b)) == Shifted(Unterminated(Marks(b)), |a|)
  {
    MarksConcat(a, b);
    InCommentApart(Marks(a), Marks(b));
    TreatedPieces(a, b, Marks(a + b), Marks(a), Marks(b));
  }

  /** A line outside comments that opens none stays. */
  lemma {:induction false} PlainLine(line: string, rest: seq<string>)
    requires !OpensComment(line)
    ensures Treated([line] + rest) == [line] + Treated(rest)
    ensures Unterminated(Marks([line] + rest)) == Shifted(Unterminated(Marks(rest)), 1)
  {
    StartsExactly(line);
    MarkAt([line], 0);
    assert OpenBefore(Marks([line]), 0) == None && Beginning(Marks([line]), 0) == None;
    TreatedApart([line], rest);
    assert Treated([line]) == [line];
  }

  lemma {:induction false} OpenInside(ms: seq<Mark>, k: nat)
    requires 0 < k <= |ms| && ms[0].starts && forall i :: 0 <= i < k ==> !ms[i].ends
    ensures OpenBefore(ms, k) == Some(0) && Beginning(ms, k - 1) == Some(0)
    decreases k
  {
    if k > 1 {
      OpenInside(ms, k - 1);
    } else {
      assert OpenBefore(ms, 0) == None;
    }
  }

  /** A comment over the given lines: opened on the first, closed on the last and not before. */
  ghost predicate IsComment(c: seq<string>) {
    && c != [] && OpensComment(c[0]) && ClosesComment(c[|c| - 1])
    && forall i :: 0 <= i < |c| - 1 ==> !ClosesComment(c[i])
  }

  lemma CommentMarks(c: seq<string>)
    requires IsComment(c)
    ensures var ms := Marks(c);
            && OpenBefore(ms, |c|) == None && forall k :: 0 <= k < |c| ==> Beginning(ms, k) == Some(0)
  {
    var ms, n := Marks(c), |c| - 1;
    forall k | 0 <= k <= n
      ensures (k == 0 ==> ms[k].starts) && (ms[k].ends <==> k == n)
    {
      MarkAt(c, k);
      StartsExactly(c[k]);
      EndsExactly(c[k]);
    }
    forall k | 0 <= k <= n
      ensures Beginning(ms, k) == Some(0)
    {
      if k > 0 {
        OpenInside(ms, k);
      } else {
        assert OpenBefore(ms, 0) == None;
      }
    }
  }

  /** A closed comment becomes lines that hold an empty one, and the rest is treated apart. */
  lemma {:induction false} WholeComment(c: seq<string>, rest: seq<string>)
    requires IsComment(c)
    ensures Treated(c + rest) == seq(|c|, _ => "/**/") + Treated(rest)
    ensures Unterminated(Marks(c + rest)) == Shifted(Unterminated(Marks(rest)), |c|)
  {
    CommentMarks(c);
    TreatedApart(c, rest);
    assert Treated(c) == seq(|c|, _ => "/**/");
  }

  /** A comment that is never closed is reported by its first line, and nothing is changed. */
  lemma {:induction false} OpenComment(lines: seq<string>)
    requires lines != [] && OpensComment(lines[0]) && forall i :: 0 <= i < |lines| ==> !ClosesComment(lines[i])
    ensures Treated(lines) == lines && Unterminated(Marks(lines)) == Some(0)
  {
    var ms := Marks(lines);
    forall k | 0 <= k < |lines|
      ensures (k == 0 ==> ms[k].starts) && !ms[k].ends
    {
      MarkAt(lines, k);
      StartsExactly(lines[k]);
      EndsExactly(lines[k]);
    }
    OpenInside(ms, |lines|);
    assert Limit(ms) == 0;
  }
}
