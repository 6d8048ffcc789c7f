/** When the two matchers undo each other from angle brackets: they do wherever both take the
    characters of the region for the same brackets. */
module AngleUndo {
  import opened Options
  import opened TextClasses
  import opened BracketGrammar
  import opened TentativeScan
  import opened Matchers
  import opened Spans
  import opened AngleCounter

  // ------------------------------------------------------- what a bracketed list contains

  /** The content of a list with its tokens: plain characters, nested lists, and groups of
      certain brackets. */
  datatype Args =
    | Empty
    | Plain(c: char, rest: Args)
    | Angles(x: char, inner: Args, accepts: bool, y: char, rest: Args)
    | Bracketed(ts: seq<Tok>, text: string, rest: Args)

  function Toks(a: Args): seq<Tok> {
    match a
    case Empty => []
    case Plain(_, rest) => [Skip] + Toks(rest)
    case Angles(_, inner, accepts, _, rest) => [Mark] + (Toks(inner) + ([Unmark(accepts)] + Toks(rest)))
    case Bracketed(ts, _, rest) => ts + Toks(rest)
  }

  function Text(a: Args): string {
    match a
    case Empty => ""
    case Plain(c, rest) => [c] + Text(rest)
    case Angles(x, inner, _, y, rest) => [x] + (Text(inner) + ([y] + Text(rest)))
    case Bracketed(_, text, rest) => text + Text(rest)
  }

  ghost predicate IsArgs(a: Args) {
    match a
    case Empty => true
    case Plain(_, rest) => IsArgs(rest)
    case Angles(_, inner, _, _, rest) => IsArgs(inner) && IsArgs(rest)
    case Bracketed(ts, text, rest) => |ts| == |text| && Enclosed(text) && ts[0].Open? && IsArgs(rest)
  }

  lemma {:induction false} SameLength(a: Args)
    requires IsArgs(a)
    ensures |Toks(a)| == |Text(a)|
  {
    match a
    case Empty =>
    case Plain(_, rest) => SameLength(rest);
    case Angles(_, inner, _, _, rest) => SameLength(inner); SameLength(rest);
    case Bracketed(_, _, rest) => SameLength(rest);
  }

  // -------------------------------------------------------------------- counting, by piece

  lemma CountFirst(t: Tok, c: char, us: seq<Tok>, v: string, d: nat, n: nat)
    requires |us| == |v| && n <= |us|
    ensures t == Skip ==> (EndsAfter([t] + us, [c] + v, d, n + 1) <==> EndsAfter(us, v, d, n))
    ensures t == Mark ==> (EndsAfter([t] + us, [c] + v, d, n + 1) <==> EndsAfter(us, v, d + 1, n))
    ensures t.Unmark? && d > 1 ==> (EndsAfter([t] + us, [c] + v, d, n + 1) <==> EndsAfter(us, v, d - 1, n))
    ensures t.Unmark? && d == 1 ==> (EndsAfter([t] + us, [c] + v, d, n + 1) <==> t.accepts && n == 0)
  {
    assert ([t] + us)[1..] == us && ([c] + v)[1..] == v;
  }

  lemma CountGroup(gs: seq<Tok>, g: string, us: seq<Tok>, v: string, d: nat, n: nat)
    requires |gs| == |g| && Enclosed(g) && gs[0].Open? && |us| == |v| && EndsAfter(us, v, d, n)
    ensures EndsAfter(gs + us, g + v, d, |g| + n)
  {
    assert (gs + us)[|g|..] == us && (g + v)[|g|..] == v && (g + v)[..|g|] == g;
    assert GroupThen(gs + us, g + v, d, |g| + n, |g| - 1);
  }

  lemma EndsWithin(ts: seq<Tok>, w: string, d: nat, n: nat)
    requires |ts| == |w| && EndsAfter(ts, w, d, n)
    ensures 1 <= n <= |ts|
  {
  }

  lemma Regroup<T>(a: seq<T>, b: seq<T>, c: seq<T>, d: seq<T>, e: seq<T>)
    ensures (a + (b + (c + d))) + e == a + (b + (c + (d + e)))
    ensures (a + b) + e == a + (b + e)
  {
  }

  /** Before a count, a content can be put that leaves the depth as it is. */
  lemma {:induction false} Compose(a: Args, us: seq<Tok>, v: string, d: nat, n: nat)
    requires IsArgs(a) && |us| == |v| && d > 0 && EndsAfter(us, v, d, n)
    ensures |Toks(a)| == |Text(a)| && EndsAfter(Toks(a) + us, Text(a) + v, d, |Toks(a)| + n)
    decreases a, 1
  {
    SameLength(a);
    match a
    case Empty =>
      assert Toks(a) + us == us && Text(a) + v == v;
    case Plain(c, rest) =>
      Compose(rest, us, v, d, n);
      ComposePlain(c, Toks(rest), Text(rest), us, v, d, n);
    case Angles(_, _, _, _, _) =>
      ComposeAngles(a, us, v, d, n);
    case Bracketed(gs, g, rest) =>
      Compose(rest, us, v, d, n);
      CountGroup(gs, g, Toks(rest) + us, Text(rest) + v, d, |Toks(rest)| + n);
      Regroup(gs, Toks(rest), [], [], us);
      Regroup(g, Text(rest), "", "", v);
  }

  lemma ComposePlain(c: char, ts: seq<Tok>, w: string, us: seq<Tok>, v: string, d: nat, n: nat)
    requires |ts| == |w| && |us| == |v| && EndsAfter(ts + us, w + v, d, |ts| + n)
    ensures EndsAfter(([Skip] + ts) + us, ([c] + w) + v, d, 1 + |ts| + n)
  {
    EndsWithin(ts + us, w + v, d, |ts| + n);
    CountFirst(Skip, c, ts + us, w + v, d, |ts| + n);
    Regroup([Skip], ts, [], [], us);
    Regroup([c], w, "", "", v);
  }

  lemma CountUnmark(accepts: bool, y: char, us: seq<Tok>, v: string, d: nat, n: nat)
    requires |us| == |v| && d > 0 && EndsAfter(us, v, d, n)
    ensures EndsAfter([Unmark(accepts)] + us, [y] + v, d + 1, n + 1)
  {
    EndsWithin(us, v, d, n);
    CountFirst(Unmark(accepts), y, us, v, d + 1, n);
  }

  lemma CountMark(x: char, us: seq<Tok>, v: string, d: nat, n: nat)
    requires |us| == |v| && EndsAfter(us, v, d + 1, n)
    ensures EndsAfter([Mark] + us, [x] + v, d, n + 1)
  {
    EndsWithin(us, v, d + 1, n);
    CountFirst(Mark, x, us, v, d, n);
  }

  lemma {:induction false} ComposeAngles(a: Args, us: seq<Tok>, v: string, d: nat, n: nat)
    requires a.Angles? && IsArgs(a) && |Toks(a)| == |Text(a)| && |us| == |v| && d > 0 && EndsAfter(us, v, d, n)
    ensures EndsAfter(Toks(a) + us, Text(a) + v, d, |Toks(a)| + n)
    decreases a, 0
  {
    var Angles(x, inner, accepts, y, rest) := a;
    Compose(rest, us, v, d, n);
    var k := |Toks(rest)| + n;
    CountUnmark(accepts, y, Toks(rest) + us, Text(rest) + v, d, k);
    var us', v' := [Unmark(accepts)] + (Toks(rest) + us), [y] + (Text(rest) + v);
    Compose(inner, us', v', d + 1, k + 1);
    CountMark(x, Toks(inner) + us', Text(inner) + v', d, |Toks(inner)| + k + 1);
    Regroup([Mark], Toks(inner), [Unmark(accepts)], Toks(rest), us);
    Regroup([x], Text(inner), [y], Text(rest), v);
  }

  /** The content up to where the depth first falls, the character there, and what follows. */
  datatype Parts = Parts(a: Args, accepts: bool, c: char, us: seq<Tok>, v: string)

  ghost predicate Splits(p: Parts, ts: seq<Tok>, w: string, d: nat, n: nat) {
    && IsArgs(p.a) && |p.us| == |p.v|
    && ts == Toks(p.a) + ([Unmark(p.accepts)] + p.us) && w == Text(p.a) + ([p.c] + p.v)
    && if d == 1 then p.accepts && n == |Toks(p.a)| + 1
       else d > 1 && n > |Toks(p.a)| + 1 && EndsAfter(p.us, p.v, d - 1, n - |Toks(p.a)| - 1)
  }

  lemma SplitsAt(accepts: bool, c: char, us: seq<Tok>, v: string, d: nat, n: nat)
    requires |us| == |v| && d > 0 && n <= |us| + 1
    requires if d == 1 then accepts && n == 1 else n > 1 && EndsAfter(us, v, d - 1, n - 1)
    ensures Splits(Parts(Empty, accepts, c, us, v), [Unmark(accepts)] + us, [c] + v, d, n)
  {
    assert [] + ([Unmark(accepts)] + us) == [Unmark(accepts)] + us && "" + ([c] + v) == [c] + v;
  }

  lemma SplitsPlain(c: char, p: Parts, ts: seq<Tok>, w: string, d: nat, n: nat)
    requires Splits(p, ts, w, d, n)
    ensures Splits(p.(a := Plain(c, p.a)), [Skip] + ts, [c] + w, d, n + 1)
  {
    Regroup([Skip], Toks(p.a), [], [], [Unmark(p.accepts)] + p.us);
    Regroup([c], Text(p.a), "", "", [p.c] + p.v);
  }

  lemma SplitsGroup(gs: seq<Tok>, g: string, p: Parts, ts: seq<Tok>, w: string, d: nat, n: nat)
    requires Splits(p, ts, w, d, n) && |gs| == |g| && Enclosed(g) && gs[0].Open?
    ensures Splits(p.(a := Bracketed(gs, g, p.a)), gs + ts, g + w, d, |g| + n)
  {
    Regroup(gs, Toks(p.a), [], [], [Unmark(p.accepts)] + p.us);
    Regroup(g, Text(p.a), "", "", [p.c] + p.v);
  }

  lemma SplitsAngles(x: char, p: Parts, q: Parts, ts: seq<Tok>, w: string, d: nat, n: nat)
    requires d > 0 && Splits(p, ts, w, d + 1, n) && Splits(q, p.us, p.v, d, n - |Toks(p.a)| - 1)
    ensures Splits(q.(a := Angles(x, p.a, p.accepts, p.c, q.a)), [Mark] + ts, [x] + w, d, n + 1)
  {
    Regroup([Mark], Toks(p.a), [Unmark(p.accepts)], Toks(q.a), [Unmark(q.accepts)] + q.us);
    Regroup([x], Text(p.a), [p.c], Text(q.a), [q.c] + q.v);
  }

  lemma {:induction false} Decompose(ts: seq<Tok>, w: string, d: nat, n: nat) returns (p: Parts)
    requires |ts| == |w| && d > 0 && EndsAfter(ts, w, d, n)
    ensures Splits(p, ts, w, d, n)
    decreases |ts|, 1
  {
    var t, c, us, v := ts[0], w[0], ts[1..], w[1..];
    assert ts == [t] + us && w == [c] + v;
    if t.Open? {
      p := DecomposeGroup(ts, w, d, n);
    } else if t.Unmark? {
      CountFirst(t, c, us, v, d, n - 1);
      if d > 1 {
        EndsWithin(us, v, d - 1, n - 1);
      }
      p := Parts(Empty, t.accepts, c, us, v);
      SplitsAt(t.accepts, c, us, v, d, n);
    } else if t == Skip {
      CountFirst(t, c, us, v, d, n - 1);
      p := Decompose(us, v, d, n - 1);
      SplitsPlain(c, p, us, v, d, n - 1);
      p := p.(a := Plain(c, p.a));
    } else {
      p := DecomposeMark(c, us, v, d, n);
    }
  }

  lemma {:induction false} DecomposeMark(x: char, us: seq<Tok>, v: string, d: nat, n: nat) returns (p: Parts)
    requires |us| == |v| && d > 0 && EndsAfter([Mark] + us, [x] + v, d, n)
    ensures Splits(p, [Mark] + us, [x] + v, d, n)
    decreases |us| + 1, 0
  {
    EndsWithin([Mark] + us, [x] + v, d, n);
    CountFirst(Mark, x, us, v, d, n - 1);
    var o := Decompose(us, v, d + 1, n - 1);
    var q := Decompose(o.us, o.v, d, n - 1 - |Toks(o.a)| - 1);
    SplitsAngles(x, o, q, us, v, d, n - 1);
    p := q.(a := Angles(x, o.a, o.accepts, o.c, q.a));
  }

  lemma {:induction false} DecomposeGroup(ts: seq<Tok>, w: string, d: nat, n: nat) returns (p: Parts)
    requires |ts| == |w| && d > 0 && EndsAfter(ts, w, d, n) && ts[0].Open?
    ensures Splits(p, ts, w, d, n)
    decreases |ts|, 0
  {
    var i := FirstGroup(ts, w, d, n);
    var g := i + 1;
    p := Decompose(ts[g..], w[g..], d, n - g);
    SplitsGroup(ts[..g], w[..g], p, ts[g..], w[g..], d, n - g);
    assert ts == ts[..g] + ts[g..] && w == w[..g] + w[g..];
    p := p.(a := Bracketed(ts[..g], w[..g], p.a));
  }

  /** The tokens and the text are those of some content. */
  ghost predicate Contents(ts: seq<Tok>, w: string) { exists a :: IsArgs(a) && Toks(a) == ts && Text(a) == w }

  /** A count from depth one ends with the first accepted token after a content. */
  lemma EndsAfterContents(ts: seq<Tok>, w: string, n: nat)
    requires |ts| == |w| && 0 < n <= |ts|
    ensures EndsAfter(ts, w, 1, n) <==> ts[n - 1] == Unmark(true) && Contents(ts[..n - 1], w[..n - 1])
  {
    if EndsAfter(ts, w, 1, n) {
      var p := Decompose(ts, w, 1, n);
      SameLength(p.a);
      assert ts[..n - 1] == Toks(p.a) && w[..n - 1] == Text(p.a);
    }
    if ts[n - 1] == Unmark(true) && Contents(ts[..n - 1], w[..n - 1]) {
      var a :| IsArgs(a) && Toks(a) == ts[..n - 1] && Text(a) == w[..n - 1];
      ContentsEnd(a, w[n - 1], ts[n..], w[n..]);
      assert ts == Toks(a) + ([Unmark(true)] + ts[n..]) && w == Text(a) + ([w[n - 1]] + w[n..]);
    }
  }

  lemma ContentsEnd(a: Args, c: char, us: seq<Tok>, v: string)
    requires IsArgs(a) && |us| == |v|
    ensures |Toks(a)| == |Text(a)|
    ensures EndsAfter(Toks(a) + ([Unmark(true)] + us), Text(a) + ([c] + v), 1, |Toks(a)| + 1)
  {
    CountFirst(Unmark(true), c, us, v, 1, 0);
    Compose(a, [Unmark(true)] + us, [c] + v, 1, 1);
  }

  // ------------------------------------------------------------------- seen in the mirror

  /** The forward and the backward matcher take a character for the same thing. */
  predicate Opposite(f: Tok, b: Tok) {
    match f
    case Mark => b == Unmark(true)
    case Unmark(accepts) => accepts && b == Mark
    case Skip => b == Skip
    case Semi => b == Semi
    case Open(k) => b == Close(k)
    case Close(k) => b == Open(k)
  }

  predicate Mirrored(fs: seq<Tok>, bs: seq<Tok>) {
    |fs| == |bs| && forall i :: 0 <= i < |fs| ==> Opposite(fs[i], bs[|fs| - 1 - i])
  }

  lemma MirroredBack(fs: seq<Tok>, bs: seq<Tok>)
    requires Mirrored(fs, bs)
    ensures Mirrored(bs, fs)
  {
    forall i | 0 <= i < |bs|
      ensures Opposite(bs[i], fs[|bs| - 1 - i])
    {
      assert Opposite(fs[|fs| - 1 - i], bs[i]);
    }
  }

  /** Mirrored tokens of two pieces are mirrored tokens of each, in the other order. */
  lemma MirroredPieces(xs: seq<Tok>, ys: seq<Tok>, bs: seq<Tok>) returns (bk: seq<Tok>, bx: seq<Tok>)
    requires Mirrored(xs + ys, bs)
    ensures bs == bk + bx && Mirrored(ys, bk) && Mirrored(xs, bx)
  {
    bk, bx := bs[..|ys|], bs[|ys|..];
    var fs := xs + ys;
    forall i | 0 <= i < |xs|
      ensures Opposite(xs[i], bx[|xs| - 1 - i])
    {
      assert Opposite(fs[i], bs[|fs| - 1 - i]);
    }
    forall i | 0 <= i < |ys|
      ensures Opposite(ys[i], bk[|ys| - 1 - i])
    {
      assert Opposite(fs[|xs| + i], bs[|fs| - 1 - (|xs| + i)]);
    }
  }

  lemma MirroredOne(t: Tok, bs: seq<Tok>)
    requires Mirrored([t], bs)
    ensures |bs| == 1 && Opposite(t, bs[0])
  {
    assert Opposite([t][0], bs[0]);
  }

  function Append(a: Args, b: Args): Args {
    match a
    case Empty => b
    case Plain(c, rest) => Plain(c, Append(rest, b))
    case Angles(x, inner, accepts, y, rest) => Angles(x, inner, accepts, y, Append(rest, b))
    case Bracketed(ts, text, rest) => Bracketed(ts, text, Append(rest, b))
  }

  lemma {:induction false} AppendIsBoth(a: Args, b: Args)
    requires IsArgs(a) && IsArgs(b)
    ensures IsArgs(Append(a, b))
    ensures Toks(Append(a, b)) == Toks(a) + Toks(b) && Text(Append(a, b)) == Text(a) + Text(b)
  {
    match a
    case Empty =>
    case Plain(c, rest) =>
      AppendIsBoth(rest, b);
      Regroup([Skip], Toks(rest), [], [], Toks(b));
      Regroup([c], Text(rest), "", "", Text(b));
    case Angles(x, inner, accepts, y, rest) =>
      AppendIsBoth(rest, b);
      Regroup([Mark], Toks(inner), [Unmark(accepts)], Toks(rest), Toks(b));
      Regroup([x], Text(inner), [y], Text(rest), Text(b));
    case Bracketed(ts, text, rest) =>
      AppendIsBoth(rest, b);
      Regroup(ts, Toks(rest), [], [], Toks(b));
      Regroup(text, Text(rest), "", "", Text(b));
  }

  /** A content with these tokens and this text. */
  ghost predicate Is(a: Args, ts: seq<Tok>, w: string) { IsArgs(a) && Toks(a) == ts && Text(a) == w }

  lemma JoinArgs(a: Args, b: Args, ts: seq<Tok>, v: string, us: seq<Tok>, w: string) returns (r: Args)
    requires Is(a, ts, v) && Is(b, us, w)
    ensures Is(r, ts + us, v + w)
  {
    AppendIsBoth(a, b);
    r := Append(a, b);
  }

  lemma ReadsPieces(xs: seq<Tok>, ys: seq<Tok>, v: string, w: string)
    requires |xs| == |v| && Reads(xs + ys, v + w)
    ensures Reads(xs, v) && Reads(ys, w)
  {
    forall i | 0 <= i < |xs|
      ensures Agree(xs[i], v[i])
    {
      assert Agree((xs + ys)[i], (v + w)[i]);
    }
    forall i | 0 <= i < |ys|
      ensures Agree(ys[i], w[i])
    {
      assert Agree((xs + ys)[|xs| + i], (v + w)[|xs| + i]);
    }
  }

  lemma PlainBack(c: char, bs: seq<Tok>) returns (r: Args)
    requires Mirrored([Skip], bs)
    ensures Is(r, bs, Mirror([c]))
  {
    MirroredOne(Skip, bs);
    r := Plain(Flip(c), Empty);
    assert bs == [Skip] && Mirror([c]) == [Flip(c)];
  }

  lemma GroupBack(gs: seq<Tok>, g: string, bs: seq<Tok>) returns (r: Args)
    requires |gs| == |g| && Enclosed(g) && Reads(gs, g) && Mirrored(gs, bs)
    ensures Is(r, bs, Mirror(g))
  {
    MirrorEnclosed(g);
    assert Agree(gs[|g| - 1], g[|g| - 1]) && Opposite(gs[|g| - 1], bs[0]);
    r := Bracketed(bs, Mirror(g), Empty);
    assert bs + [] == bs && Mirror(g) + "" == Mirror(g);
  }

  lemma AnglesBack(x: char, y: char, inner: Args, ts: seq<Tok>, v: string) returns (r: Args)
    requires Is(inner, ts, Mirror(v))
    ensures Is(r, [Mark] + (ts + [Unmark(true)]), Mirror([x] + (v + [y])))
  {
    r := Angles(Flip(y), inner, true, Flip(x), Empty);
    MirrorConcat([x], v + [y]);
    MirrorConcat(v, [y]);
    assert Mirror([x]) == [Flip(x)] && Mirror([y]) == [Flip(y)];
    assert [Unmark(true)] + [] == [Unmark(true)] && [Flip(x)] + "" == [Flip(x)];
    Regroup([Flip(y)], Mirror(v), "", "", [Flip(x)]);
  }

  /** A content read by the one matcher is, backward, a content read by the other. */
  lemma {:induction false} Backward(a: Args, bs: seq<Tok>) returns (r: Args)
    requires IsArgs(a) && Reads(Toks(a), Text(a)) && Mirrored(Toks(a), bs)
    ensures Is(r, bs, Mirror(Text(a)))
    decreases a, 1
  {
    match a
    case Empty =>
      r := Empty;
    case Plain(c, rest) =>
      ReadsPieces([Skip], Toks(rest), [c], Text(rest));
      var bk, bx := MirroredPieces([Skip], Toks(rest), bs);
      var r1 := Backward(rest, bk);
      var r2 := PlainBack(c, bx);
      MirrorConcat([c], Text(rest));
      r := JoinArgs(r1, r2, bk, Mirror(Text(rest)), bx, Mirror([c]));
    case Angles(x, inner, accepts, y, rest) =>
      r := BackwardAngles(a, bs);
    case Bracketed(gs, g, rest) =>
      ReadsPieces(gs, Toks(rest), g, Text(rest));
      var bk, bx := MirroredPieces(gs, Toks(rest), bs);
      var r1 := Backward(rest, bk);
      var r2 := GroupBack(gs, g, bx);
      MirrorConcat(g, Text(rest));
      r := JoinArgs(r1, r2, bk, Mirror(Text(rest)), bx, Mirror(g));
  }

  lemma {:induction false} BackwardAngles(a: Args, bs: seq<Tok>) returns (r: Args)
    requires a.Angles? && IsArgs(a) && Reads(Toks(a), Text(a)) && Mirrored(Toks(a), bs)
    ensures Is(r, bs, Mirror(Text(a)))
    decreases a, 0
  {
    var Angles(x, inner, accepts, y, rest) := a;
    var ts, w := Toks(rest), Text(rest);
    var head, top := [Mark] + (Toks(inner) + [Unmark(accepts)]), [x] + (Text(inner) + [y]);
    SameLength(inner);
    assert Toks(a) == head + ts && Text(a) == top + w;
    ReadsPieces(head, ts, top, w);
    var bk, bh := MirroredPieces(head, ts, bs);
    var r1 := Backward(rest, bk);
    ReadsPieces([Mark], Toks(inner) + [Unmark(accepts)], [x], Text(inner) + [y]);
    ReadsPieces(Toks(inner), [Unmark(accepts)], Text(inner), [y]);
    var bt, bx := MirroredPieces([Mark], Toks(inner) + [Unmark(accepts)], bh);
    var b0, bi := MirroredPieces(Toks(inner), [Unmark(accepts)], bt);
    MirroredOne(Mark, bx);
    MirroredOne(Unmark(accepts), b0);
    var r2 := Backward(inner, bi);
    var r3 := AnglesBack(x, y, r2, bi, Text(inner));
    assert bh == [Mark] + (bi + [Unmark(true)]);
    MirrorConcat(top, w);
    r := JoinArgs(r1, r3, bk, Mirror(w), bh, Mirror(top));
  }

  lemma ContentsBackward(fs: seq<Tok>, bs: seq<Tok>, w: string)
    requires Reads(fs, w) && Mirrored(fs, bs) && Contents(fs, w)
    ensures Contents(bs, Mirror(w))
  {
    var a :| IsArgs(a) && Toks(a) == fs && Text(a) == w;
    var r := Backward(a, bs);
  }

  lemma ContentsMirrored(fs: seq<Tok>, bs: seq<Tok>, w: string)
    requires Reads(fs, w) && Reads(bs, Mirror(w)) && Mirrored(fs, bs)
    ensures Contents(fs, w) <==> Contents(bs, Mirror(w))
  {
    if Contents(fs, w) {
      ContentsBackward(fs, bs, w);
    }
    if Contents(bs, Mirror(w)) {
      MirroredBack(fs, bs);
      ContentsBackward(bs, fs, Mirror(w));
      MirrorTwice(w);
    }
  }

  // -------------------------------------------------------------------- in whole files

  /** A region of at least two characters. */
  predicate IsWideRegion(lines: seq<string>, l1: nat, p1: nat, l2: nat, e: nat) {
    IsRegion(lines, l1, p1, l2, e) && (l1 == l2 ==> p1 + 1 < e)
  }

  /** Each matcher accepts the bracket the other starts from, and they agree on every
      character between. */
  predicate RegionAgrees(lines: seq<string>, l1: nat, p1: nat, l2: nat, e: nat)
    requires IsWideRegion(lines, l1, p1, l2, e)
  {
    var fs, bs := FileToks(lines, l1, p1 + 1), BackToks(lines, l2, e - 2);
    AgreeFor(fs, bs, |Between(lines, l1, p1 + 1, l2, e)|)
  }

  predicate AgreeFor(fs: seq<Tok>, bs: seq<Tok>, n: nat) {
    && 0 < n <= |fs| && n <= |bs|
    && fs[n - 1] == Unmark(true) && bs[n - 1] == Unmark(true)
    && Mirrored(fs[..n - 1], bs[..n - 1])
  }

  /** The tokens read w, and w is a content and an accepted closing bracket. */
  ghost predicate EndsWith(fs: seq<Tok>, w: string) {
    && 0 < |w| <= |fs| && fs[|w| - 1] == Unmark(true)
    && Contents(fs[..|w| - 1], w[..|w| - 1])
  }

  lemma CountIsEnd(fs: seq<Tok>, text: string, w: string)
    requires Reads(fs, text) && w <= text && w != ""
    ensures |w| <= |fs| && Reads(fs[..|w|], w)
    ensures EndsAfter(fs, text, 1, |w|) <==> EndsWith(fs, w)
  {
    assert text[..|w|] == w && text[..|w| - 1] == w[..|w| - 1];
    EndsAfterContents(fs, text, |w|);
  }

  /** What the forward search from a list reads before (l2, e). */
  lemma ForwardContents(lines: seq<string>, l1: nat, p1: nat, l2: nat, e: nat)
    requires IsWideRegion(lines, l1, p1, l2, e) && StartsList(lines[l1], p1)
    ensures var fs, w := FileToks(lines, l1, p1 + 1), Between(lines, l1, p1 + 1, l2, e);
            && |w| <= |fs| && Reads(fs[..|w|], w)
            && (CloseAt(lines, l1, p1) == Some((l2, e)) <==> EndsWith(fs, w))
  {
    FileReads(lines, l1, p1 + 1);
    BetweenIsPrefix(lines, l1, p1 + 1, l2, e);
    CountIsEnd(FileToks(lines, l1, p1 + 1), FileText(lines, l1, p1 + 1), Between(lines, l1, p1 + 1, l2, e));
    CloseAngleExactly(lines, l1, p1, l2, e);
  }

  /** What the backward search from the end of a list reads down to (l1, p1), mirrored. */
  lemma BackContents(lines: seq<string>, l1: nat, p1: nat, l2: nat, e: nat)
    requires IsWideRegion(lines, l1, p1, l2, e) && BackwardTok(lines[l2], e - 1) == Mark
    ensures var bs, w := BackToks(lines, l2, e - 2), Mirror(Between(lines, l1, p1, l2, e - 1));
            && |w| <= |bs| && Reads(bs[..|w|], w)
            && (OpenAt(lines, l2, e - 1) == Some((l1, p1)) <==> EndsWith(bs, w))
  {
    BackReads(lines, l2, e - 2);
    BetweenIsBackPrefix(lines, l1, p1, l2, e - 2);
    CountIsEnd(BackToks(lines, l2, e - 2), BackText(lines, l2, e - 2), Mirror(Between(lines, l1, p1, l2, e - 1)));
    OpenAngleExactly(lines, l2, e - 1, l1, p1);
  }

  /** The text inside the region, read from either end. */
  lemma InnerText(lines: seq<string>, l1: nat, p1: nat, l2: nat, e: nat)
    requires IsWideRegion(lines, l1, p1, l2, e)
    ensures var v, u := Between(lines, l1, p1 + 1, l2, e), Between(lines, l1, p1, l2, e - 1);
            |v| == |u| > 0 && Mirror(u)[..|u| - 1] == Mirror(v[..|v| - 1])
  {
    var w := Between(lines, l1, p1, l2, e);
    var v, u := Between(lines, l1, p1 + 1, l2, e), Between(lines, l1, p1, l2, e - 1);
    var x, y := lines[l1][p1], lines[l2][e - 1];
    assert w == [x] + v by {
      BetweenHead(lines, l1, p1, l2, e);
    }
    assert w == u + [y] by {
      BetweenLast(lines, l1, p1, l2, e - 1);
    }
    InnerOf(w, u, v, x, y);
  }

  lemma InnerOf(w: string, u: string, v: string, x: char, y: char)
    requires w == [x] + v && w == u + [y] && |v| > 0
    ensures |v| == |u| && Mirror(u)[..|u| - 1] == Mirror(v[..|v| - 1])
  {
    assert u[1..] == w[1..|w| - 1] == v[..|v| - 1];
    assert Mirror(u)[..|u| - 1] == Mirror(u[1..]);
  }

  /** From a `<` that opens a list and a `>` that the backward search starts from: where the
      two matchers agree on the region between, the one finds the other bracket if and only if
      the other finds the one. */
  lemma AnglesUndoEachOther(lines: seq<string>, l1: nat, p1: nat, l2: nat, e: nat)
    requires IsWideRegion(lines, l1, p1, l2, e) && RegionAgrees(lines, l1, p1, l2, e)
    requires StartsList(lines[l1], p1) && BackwardTok(lines[l2], e - 1) == Mark
    ensures CloseAt(lines, l1, p1) == Some((l2, e)) <==> OpenAt(lines, l2, e - 1) == Some((l1, p1))
  {
    ForwardContents(lines, l1, p1, l2, e);
    BackContents(lines, l1, p1, l2, e);
    InnerText(lines, l1, p1, l2, e);
    AgreeInside(FileToks(lines, l1, p1 + 1), BackToks(lines, l2, e - 2),
                Between(lines, l1, p1 + 1, l2, e), Mirror(Between(lines, l1, p1, l2, e - 1)));
  }

  lemma AgreeInside(fs: seq<Tok>, bs: seq<Tok>, v: string, w: string)
    requires |v| == |w| && AgreeFor(fs, bs, |v|)
    requires Reads(fs[..|v|], v) && Reads(bs[..|v|], w) && w[..|v| - 1] == Mirror(v[..|v| - 1])
    ensures EndsWith(fs, v) <==> EndsWith(bs, w)
  {
    var n := |v|;
    assert fs[..n][..n - 1] == fs[..n - 1] && bs[..n][..n - 1] == bs[..n - 1];
    ReadsPrefixOf(fs[..n], v, n - 1);
    ReadsPrefixOf(bs[..n], w, n - 1);
    ContentsMirrored(fs[..n - 1], bs[..n - 1], v[..n - 1]);
  }

  lemma ReadsPrefixOf(ts: seq<Tok>, w: string, i: nat)
    requires Reads(ts, w) && i <= |ts|
    ensures Reads(ts[..i], w[..i])
  {
  }

  // ------------------------------------------------------------- where they do not agree

  /** A line on which the forward search takes the `>` of ` >= ` for a bracket and the backward
      search does not. */
  const Comparison: string := "< >= >"

  lemma {:induction false} TrimmedIsShorter(s: string)
    ensures |RTrim(s)| <= |s|
  {
    if s != [] && IsSpace(s[|s| - 1]) {
      TrimmedIsShorter(s[..|s| - 1]);
    }
  }

  lemma ComparisonForward()
    ensures ForwardTok(Comparison, 0) == Mark && StartsList(Comparison, 0)
    ensures ForwardTok(Comparison, 1) == Skip && ForwardTok(Comparison, 2) == Unmark(true)
  {
    TrimmedIsShorter(Comparison[..1]);
  }

  lemma ComparisonBackward()
    ensures BackwardTok(Comparison, 5) == Mark
    ensures BackwardToks(Comparison, 4) == [Skip, Skip, Skip, Skip, Unmark(true)]
  {
    TrimmedIsShorter(Comparison[..5]);
    TrimmedIsShorter(Comparison[..2]);
    assert BackwardToks(Comparison, 0) == [Unmark(true)];
    assert BackwardToks(Comparison, 2) == [Skip, Skip, Unmark(true)];
    assert BackwardToks(Comparison, 3) == [Skip, Skip, Skip, Unmark(true)];
  }

  lemma ComparisonCounts(ts: seq<Tok>, w: string)
    requires |ts| == |w| == 5
    ensures ts[0] == Skip && ts[1] == Unmark(true) ==> EndsAfter(ts, w, 1, 2)
    ensures ts == [Skip, Skip, Skip, Skip, Unmark(true)] ==> EndsAfter(ts, w, 1, 5)
  {
    if ts == [Skip, Skip, Skip, Skip, Unmark(true)] {
      assert EndsAfter(ts[4..], w[4..], 1, 1);
      assert ts[3..][1..] == ts[4..] && w[3..][1..] == w[4..] && EndsAfter(ts[3..], w[3..], 1, 2);
      assert ts[2..][1..] == ts[3..] && w[2..][1..] == w[3..] && EndsAfter(ts[2..], w[2..], 1, 3);
      assert ts[1..][1..] == ts[2..] && w[1..][1..] == w[2..] && EndsAfter(ts[1..], w[1..], 1, 4);
    }
  }

  lemma ComparisonCloses()
    ensures CloseAt([Comparison], 0, 0) == Some((0, 3))
  {
    var lines := [Comparison];
    ComparisonForward();
    FileReads(lines, 0, 1);
    assert FileToks(lines, 0, 1) == ForwardToks(Comparison, 1);
    ComparisonCounts(FileToks(lines, 0, 1), FileText(lines, 0, 1));
    CloseAngleExactly(lines, 0, 0, 0, 3);
  }

  lemma ComparisonOpens()
    ensures OpenAt([Comparison], 0, 5) == Some((0, 0))
  {
    var lines := [Comparison];
    ComparisonBackward();
    BackReads(lines, 0, 4);
    assert BackToks(lines, 0, 4) == BackwardToks(Comparison, 4);
    ComparisonCounts(BackToks(lines, 0, 4), BackText(lines, 0, 4));
    OpenAngleExactly(lines, 0, 5, 0, 0);
  }

  /** There the two matchers do not undo each other. */
  lemma AnglesDisagree()
    ensures CloseAt([Comparison], 0, 0) == Some((0, 3))
    ensures OpenAt([Comparison], 0, 5) == Some((0, 0))
  {
    ComparisonCloses();
    ComparisonOpens();
  }
}
