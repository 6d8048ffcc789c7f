/** Balanced text over the three certain bracket kinds, given by a grammar and
    without any stack, and its mirror image. */
module BracketGrammar {

  predicate IsOpener(c: char) { c == '(' || c == '[' || c == '{' }

  predicate IsCloser(c: char) { c == ')' || c == ']' || c == '}' }

  predicate IsBracket(c: char) { IsOpener(c) || IsCloser(c) }

  /** Exchanges `(` with `)`, `[` with `]` and `{` with `}`. */
  function Flip(c: char): (r: char)
    ensures IsOpener(c) <==> IsCloser(r)
    ensures IsCloser(c) <==> IsOpener(r)
    ensures !IsBracket(c) ==> r == c
  {
    match c
    case '(' => ')'
    case '[' => ']'
    case '{' => '}'
    case ')' => '('
    case ']' => '['
    case '}' => '{'
    case _ => c
  }

  /** A forest of bracket groups; the root level is the list along `rest`. */
  datatype Forest =
    | Nil
    | Leaf(c: char, rest: Forest)
    | Group(open: char, inner: Forest, rest: Forest)

  predicate WellFormed(f: Forest) {
    match f
    case Nil => true
    case Leaf(c, rest) => !IsBracket(c) && WellFormed(rest)
    case Group(open, inner, rest) => IsOpener(open) && WellFormed(inner) && WellFormed(rest)
  }

  function Yield(f: Forest): string {
    match f
    case Nil => ""
    case Leaf(c, rest) => [c] + Yield(rest)
    case Group(open, inner, rest) => [open] + Yield(inner) + [Flip(open)] + Yield(rest)
  }

  /** No semicolon at the root level. */
  predicate NoRootSemicolon(f: Forest) {
    match f
    case Nil => true
    case Leaf(c, rest) => c != ';' && NoRootSemicolon(rest)
    case Group(_, _, rest) => NoRootSemicolon(rest)
  }

  ghost predicate IsTree(w: string, semicolons: bool, f: Forest) {
    WellFormed(f) && Yield(f) == w && (semicolons || NoRootSemicolon(f))
  }

  /** Balanced text; without `semicolons`, one whose semicolons are all inside a group. */
  ghost predicate Balanced(w: string, semicolons: bool) {
    exists f :: IsTree(w, semicolons, f)
  }

  /** One bracket group: an opener, balanced text, and the closer of the same kind. */
  ghost predicate Enclosed(w: string) {
    && |w| >= 2
    && IsOpener(w[0])
    && w[|w| - 1] == Flip(w[0])
    && Balanced(w[1..|w| - 1], true)
  }

  /** The text of a template argument list: every semicolon is inside a bracket group. */
  ghost predicate AngleText(w: string) {
    && |w| >= 2
    && w[0] == '<'
    && w[|w| - 1] == '>'
    && Balanced(w[1..|w| - 1], false)
  }

  lemma BalancedNil(semicolons: bool)
    ensures Balanced("", semicolons)
  {
    assert IsTree("", semicolons, Nil);
  }

  lemma BalancedLeaf(c: char, w: string, semicolons: bool)
    requires Balanced(w, semicolons) && !IsBracket(c) && (semicolons || c != ';')
    ensures Balanced([c] + w, semicolons)
  {
    var f :| IsTree(w, semicolons, f);
    assert IsTree([c] + w, semicolons, Leaf(c, f));
  }

  lemma BalancedGroup(o: char, a: string, b: string, semicolons: bool)
    requires Balanced(a, true) && Balanced(b, semicolons) && IsOpener(o)
    ensures Balanced([o] + a + [Flip(o)] + b, semicolons)
  {
    var f :| IsTree(a, true, f);
    var g :| IsTree(b, semicolons, g);
    assert IsTree([o] + a + [Flip(o)] + b, semicolons, Group(o, f, g));
  }

  // ---------------------------------------------------------------- mirror image

  function Mirror(w: string): (r: string)
    ensures |r| == |w|
    ensures forall i :: 0 <= i < |w| ==> r[i] == Flip(w[|w| - 1 - i])
  {
    seq(|w|, i requires 0 <= i < |w| => Flip(w[|w| - 1 - i]))
  }

  lemma MirrorConcat(a: string, b: string)
    ensures Mirror(a + b) == Mirror(b) + Mirror(a)
  {
  }

  lemma MirrorTwice(w: string)
    ensures Mirror(Mirror(w)) == w
  {
  }

  function Append(f: Forest, g: Forest): Forest {
    match f
    case Nil => g
    case Leaf(c, rest) => Leaf(c, Append(rest, g))
    case Group(open, inner, rest) => Group(open, inner, Append(rest, g))
  }

  lemma {:induction false} AppendYield(f: Forest, g: Forest)
    ensures Yield(Append(f, g)) == Yield(f) + Yield(g)
    ensures WellFormed(f) && WellFormed(g) ==> WellFormed(Append(f, g))
    ensures NoRootSemicolon(f) && NoRootSemicolon(g) ==> NoRootSemicolon(Append(f, g))
  {
    match f
    case Nil =>
    case Leaf(_, rest) =>
      AppendYield(rest, g);
    case Group(_, _, rest) =>
      AppendYield(rest, g);
  }

  function Reflect(f: Forest): Forest {
    match f
    case Nil => Nil
    case Leaf(c, rest) => Append(Reflect(rest), Leaf(c, Nil))
    case Group(open, inner, rest) => Append(Reflect(rest), Group(open, Reflect(inner), Nil))
  }

  lemma {:induction false} ReflectShape(f: Forest)
    requires WellFormed(f)
    ensures WellFormed(Reflect(f))
    ensures NoRootSemicolon(f) ==> NoRootSemicolon(Reflect(f))
  {
    assert WellFormed(Nil) && NoRootSemicolon(Nil);
    match f
    case Nil =>
    case Leaf(c, rest) =>
      ReflectShape(rest);
      AppendYield(Reflect(rest), Leaf(c, Nil));
    case Group(open, inner, rest) =>
      ReflectShape(rest);
      ReflectShape(inner);
      AppendYield(Reflect(rest), Group(open, Reflect(inner), Nil));
  }

  lemma MirrorGroup(o: char, a: string, b: string)
    ensures Mirror([o] + a + [Flip(o)] + b) == Mirror(b) + ([o] + Mirror(a) + [Flip(o)] + "")
  {
    var y := [o] + a + [Flip(o)];
    assert Mirror(y) == [o] + Mirror(a) + [Flip(o)] + "";
    MirrorConcat(y, b);
  }

  lemma {:induction false} ReflectYield(f: Forest)
    requires WellFormed(f)
    ensures Yield(Reflect(f)) == Mirror(Yield(f))
  {
    match f
    case Nil =>
    case Leaf(c, rest) =>
      ReflectYield(rest);
      AppendYield(Reflect(rest), Leaf(c, Nil));
      MirrorConcat([c], Yield(rest));
    case Group(open, inner, rest) =>
      ReflectYield(rest);
      ReflectYield(inner);
      var g := Group(open, Reflect(inner), Nil);
      AppendYield(Reflect(rest), g);
      MirrorGroup(open, Yield(inner), Yield(rest));
      assert Yield(g) == [open] + Mirror(Yield(inner)) + [Flip(open)] + "";
  }

  lemma MirrorBalanced(w: string, semicolons: bool)
    ensures Balanced(w, semicolons) <==> Balanced(Mirror(w), semicolons)
  {
    if Balanced(w, semicolons) {
      MirrorBalancedOneWay(w, semicolons);
    }
    if Balanced(Mirror(w), semicolons) {
      MirrorBalancedOneWay(Mirror(w), semicolons);
      MirrorTwice(w);
    }
  }

  lemma MirrorBalancedOneWay(w: string, semicolons: bool)
    requires Balanced(w, semicolons)
    ensures Balanced(Mirror(w), semicolons)
  {
    var f :| IsTree(w, semicolons, f);
    ReflectShape(f);
    ReflectYield(f);
    assert IsTree(Mirror(w), semicolons, Reflect(f));
  }

  lemma MirrorEnclosed(w: string)
    ensures Enclosed(w) <==> Enclosed(Mirror(w))
  {
    if |w| >= 2 {
      var v := w[1..|w| - 1];
      assert Mirror(w)[1..|w| - 1] == Mirror(v);
      MirrorBalanced(v, true);
    }
  }
}
