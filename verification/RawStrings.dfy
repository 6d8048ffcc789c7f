/** Removal of C++11 raw string literals, which may span lines.

    `comment` decides whether a prefix of a line ends inside a // comment; all results
    hold for every such predicate. Lines contain no line feed. */
module RawStrings {
  import opened Options
  import opened TextClasses

  const QUOTES: string := "\"\""

  // ----------------------------------------------------------------- searching one line

  predicate OccursAt(s: string, t: string, i: nat) {
    i + |t| <= |s| && s[i..i + |t|] == t
  }

  /** The first occurrence of `t` at or after `i`. */
  function Find(s: string, t: string, i: nat): (r: Option<nat>)
    requires i <= |s|
    ensures r.Some? ==> i <= r.value && r.value + |t| <= |s|
    decreases |s| - i
  {
    if OccursAt(s, t, i) then Some(i) else if i == |s| then None else Find(s, t, i + 1)
  }

  lemma {:induction false} FindIsFirst(s: string, t: string, i: nat)
    requires i <= |s|
    ensures var r := Find(s, t, i);
            && (r.Some? ==> OccursAt(s, t, r.value))
            && forall k :: i <= k < (if r.Some? then r.value else |s| + 1) ==> !OccursAt(s, t, k)
    decreases |s| - i
  {
    if !OccursAt(s, t, i) && i < |s| {
      FindIsFirst(s, t, i + 1);
    }
  }

  /** A character allowed in the delimiter of a raw string. */
  predicate IsDelimiter(c: char) { !IsSpace(c) && c != '\\' && c != '(' && c != ')' }

  /** The end of the delimiter characters from `i` on. */
  function DelimiterEnd(s: string, i: nat): (k: nat)
    requires i <= |s|
    ensures i <= k <= |s|
    ensures forall j :: i <= j < k ==> IsDelimiter(s[j])
    ensures k < |s| ==> !IsDelimiter(s[k])
    decreases |s| - i
  {
    if i < |s| && IsDelimiter(s[i]) then DelimiterEnd(s, i + 1) else i
  }

  /** The length of the encoding prefix and the R at `i`; 0 if there is none. */
  function PrefixLength(s: string, i: nat): nat
    requires i <= |s|
  {
    if OccursAt(s, "R\"", i) then 1
    else if OccursAt(s, "u8R\"", i) then 3
    else if OccursAt(s, "uR\"", i) || OccursAt(s, "UR\"", i) || OccursAt(s, "LR\"", i) then 2
    else 0
  }

  /** A raw string opens at `i`: a word boundary, the prefix, the quote, delimiter, paren. */
  predicate OpensAt(s: string, i: nat)
    requires i <= |s|
  {
    && (i == 0 || !IsWord(s[i - 1]))
    && var n := PrefixLength(s, i);
       && n > 0
       && i + n + 1 <= |s|
       && var k := DelimiterEnd(s, i + n + 1);
          k < |s| && s[k] == '('
  }

  function FirstOpening(s: string, i: nat): (r: Option<nat>)
    requires i <= |s|
    ensures r.Some? ==> i <= r.value <= |s| && OpensAt(s, r.value)
    ensures forall k :: i <= k < (if r.Some? then r.value else |s| + 1) ==> !OpensAt(s, k)
    decreases |s| - i
  {
    if OpensAt(s, i) then Some(i) else if i == |s| then None else FirstOpening(s, i + 1)
  }

  function BodyStart(s: string, i: nat): (b: nat)
    requires i <= |s| && OpensAt(s, i)
    ensures i + 3 <= b <= |s|
  {
    DelimiterEnd(s, i + PrefixLength(s, i) + 1) + 1
  }

  /** The text that ends the raw string opened at `i`. */
  function Terminator(s: string, i: nat): (t: string)
    requires i <= |s| && OpensAt(s, i)
    ensures |t| >= 2
  {
    ")" + s[i + PrefixLength(s, i) + 1..BodyStart(s, i) - 1] + "\""
  }

  // ------------------------------------------------------------------------- one line

  datatype Cleaned = Cleaned(line: string, pending: Option<string>)

  datatype Removal = Nothing | Closed(line: string) | Unclosed(line: string, terminator: string)

  /** What one round does with the leftmost raw string of a line. */
  function RemoveFirst(line: string, comment: string -> bool): (r: Removal)
    ensures r.Closed? ==> |r.line| < |line|
  {
    match FirstOpening(line, 0)
    case None => Nothing
    case Some(i) =>
      if comment(line[..i]) then Nothing else
        var t := Terminator(line, i);
        match Find(line, t, BodyStart(line, i))
        case Some(e) => Closed(line[..i] + QUOTES + line[e + |t|..])
        case None => Unclosed(line[..i] + QUOTES, t)
  }

  /** Removes raw strings from a line that does not start inside one. */
  function CleanLine(line: string, comment: string -> bool): Cleaned
    decreases |line|
  {
    match RemoveFirst(line, comment)
    case Nothing => Cleaned(line, None)
    case Closed(shorter) => CleanLine(shorter, comment)
    case Unclosed(head, t) => Cleaned(head, Some(t))
  }

  function LeadingSpace(s: string): string {
    if s != "" && IsSpace(s[0]) then [s[0]] + LeadingSpace(s[1..]) else ""
  }

  /** A line that starts inside the raw string that `t` ends: what is left of it. */
  function Skip(line: string, t: string): Cleaned {
    match Find(line, t, 0)
    case Some(e) => Cleaned(LeadingSpace(line) + QUOTES + line[e + |t|..], None)
    case None => Cleaned(QUOTES, Some(t))
  }

  function NextLine(line: string, pending: Option<string>, comment: string -> bool): Cleaned {
    var c := if pending == None then Cleaned(line, None) else Skip(line, pending.value);
    if c.pending == None then CleanLine(c.line, comment) else c
  }

  function Cleanse(lines: seq<string>, pending: Option<string>, comment: string -> bool): seq<string> {
    if lines == [] then [] else
      var c := NextLine(lines[0], pending, comment);
      [c.line] + Cleanse(lines[1..], c.pending, comment)
  }

  // --------------------------------------------------------------------- the two loops

  method RemoveOne(line: string, comment: string -> bool) returns (r: Removal)
    ensures r == RemoveFirst(line, comment)
  {
    var matched := FirstOpening(line, 0);
    if matched.Some? && !comment(line[..matched.value]) {
      var i := matched.value;
      var t := Terminator(line, i);
      var end := Find(line, t, BodyStart(line, i));
      if end.Some? {
        return Closed(line[..i] + QUOTES + line[end.value + |t|..]);
      } else {
        return Unclosed(line[..i] + QUOTES, t);
      }
    }
    return Nothing;
  }

  method RemoveFromLine(start: string, comment: string -> bool) returns (line: string, delimiter: Option<string>)
    ensures Cleaned(line, delimiter) == CleanLine(start, comment)
  {
    line, delimiter := start, None;
    while delimiter == None
      invariant CleanLine(start, comment)
             == if delimiter == None then CleanLine(line, comment) else Cleaned(line, delimiter)
      decreases delimiter == None, |line|
    {
      var r := RemoveOne(line, comment);
      match r
      case Nothing => break;
      case Closed(shorter) => line := shorter;
      case Unclosed(head, t) => line, delimiter := head, Some(t);
    }
  }

  /** The end of a pending raw string, if it is on this line. */
  method SkipPending(raw: string, t: string) returns (line: string, delimiter: Option<string>)
    ensures Cleaned(line, delimiter) == Skip(raw, t)
  {
    var end := Find(raw, t, 0);
    if end.Some? {
      return LeadingSpace(raw) + QUOTES + raw[end.value + |t|..], None;
    } else {
      return QUOTES, Some(t);
    }
  }

  method CleanOne(raw: string, pending: Option<string>, comment: string -> bool)
    returns (line: string, delimiter: Option<string>)
    ensures Cleaned(line, delimiter) == NextLine(raw, pending, comment)
  {
    line, delimiter := raw, pending;
    if delimiter.Some? {
      line, delimiter := SkipPending(line, delimiter.value);
    }
    if delimiter == None {
      line, delimiter := RemoveFromLine(line, comment);
    }
  }

  method CleanseRawStrings(rawLines: seq<string>, comment: string -> bool) returns (lines: seq<string>)
    ensures lines == Cleanse(rawLines, None, comment)
  {
    var delimiter := None;
    lines := [];
    for n := 0 to |rawLines|
      invariant lines + Cleanse(rawLines[n..], delimiter, comment) == Cleanse(rawLines, None, comment)
    {
      ghost var before := delimiter;
      var line;
      line, delimiter := CleanOne(rawLines[n], delimiter, comment);
      CleanseCons(rawLines, n, before, comment);
      lines := lines + [line];
    }
    assert rawLines[|rawLines|..] == [];
  }

  lemma CleanseCons(lines: seq<string>, n: nat, pending: Option<string>, comment: string -> bool)
    requires n < |lines|
    ensures var c := NextLine(lines[n], pending, comment);
            Cleanse(lines[n..], pending, comment) == [c.line] + Cleanse(lines[n + 1..], c.pending, comment)
  {
    assert lines[n..][1..] == lines[n + 1..];
  }

  // ------------------------------------------------------------ what the result is like

  /** No raw string is left that the search would remove. */
  predicate Quiet(line: string, comment: string -> bool) {
    RemoveFirst(line, comment) == Nothing
  }

  /** Cutting a line at its first opening and closing it with quotes leaves no opening. */
  lemma NoOpeningBefore(line: string, p: nat)
    requires FirstOpening(line, 0) == Some(p)
    ensures FirstOpening(line[..p] + QUOTES, 0) == None
  {
    var v := line[..p] + QUOTES;
    forall i | 0 <= i <= |v|
      ensures !OpensAt(v, i)
    {
      if OpensAt(v, i) {
        SameOpening(v, line, i, p);
      }
    }
  }

  /** An opening reads no further than its parenthesis. */
  lemma SameOpening(v: string, line: string, i: nat, p: nat)
    requires p <= |line| && v == line[..p] + QUOTES && i <= |v| && OpensAt(v, i)
    ensures i < p && OpensAt(line, i)
  {
    var n := PrefixLength(v, i);
    var k := DelimiterEnd(v, i + n + 1);
    assert k < p;
    assert forall j :: 0 <= j <= k ==> v[j] == line[j];
    SamePrefix(v, line, i, k);
    SameDelimiter(v, line, i + n + 1, k);
  }

  lemma SameDelimiter(v: string, line: string, q: nat, k: nat)
    requires q <= k < |v| && k < |line| && DelimiterEnd(v, q) == k
    requires forall j :: 0 <= j <= k ==> v[j] == line[j]
    ensures DelimiterEnd(line, q) == k
  {
    DelimiterEndIs(line, q, k);
  }

  lemma SamePrefix(v: string, line: string, i: nat, k: nat)
    requires i < |v| && 0 < PrefixLength(v, i) <= k - i && k < |v| && k < |line|
    requires forall j :: 0 <= j <= k ==> v[j] == line[j]
    ensures PrefixLength(line, i) == PrefixLength(v, i)
  {
    var r := PrefixText(v, i);
    var t := r + "\"";
    assert line[i..i + |t|] == v[i..i + |t|];
    PrefixFound(line, i, r);
  }

  lemma PrefixText(s: string, i: nat) returns (r: string)
    requires i <= |s| && PrefixLength(s, i) > 0
    ensures IsRawPrefix(r) && |r| == PrefixLength(s, i) && OccursAt(s, r + "\"", i)
  {
    var t := s[i..i + PrefixLength(s, i) + 1];
    r := t[..|t| - 1];
    assert r + "\"" == t;
  }

  lemma QuotesQuiet(comment: string -> bool)
    ensures Quiet(QUOTES, comment)
  {
    forall i | 0 <= i <= |QUOTES|
      ensures !OpensAt(QUOTES, i)
    {
      if i < 2 {
        assert QUOTES[i] == '"';
      }
    }
  }

  lemma {:induction false} CleanedIsQuiet(line: string, comment: string -> bool)
    ensures Quiet(CleanLine(line, comment).line, comment)
    decreases |line|
  {
    match RemoveFirst(line, comment)
    case Nothing =>
    case Closed(shorter) =>
      CleanedIsQuiet(shorter, comment);
    case Unclosed(_, _) =>
      NoOpeningBefore(line, FirstOpening(line, 0).value);
  }

  lemma NextIsQuiet(line: string, pending: Option<string>, comment: string -> bool)
    ensures Quiet(NextLine(line, pending, comment).line, comment)
  {
    var c := if pending == None then Cleaned(line, None) else Skip(line, pending.value);
    CleanedIsQuiet(c.line, comment);
    QuotesQuiet(comment);
  }

  lemma {:induction false} CleanseIsQuiet(lines: seq<string>, pending: Option<string>, comment: string -> bool)
    ensures |Cleanse(lines, pending, comment)| == |lines|
    ensures forall k :: 0 <= k < |lines| ==> Quiet(Cleanse(lines, pending, comment)[k], comment)
  {
    if lines != [] {
      NextIsQuiet(lines[0], pending, comment);
      CleanseIsQuiet(lines[1..], NextLine(lines[0], pending, comment).pending, comment);
    }
  }

  /** Lines without raw strings are left alone. */
  lemma {:induction false} QuietStays(lines: seq<string>, comment: string -> bool)
    requires forall k :: 0 <= k < |lines| ==> Quiet(lines[k], comment)
    ensures Cleanse(lines, None, comment) == lines
  {
    if lines != [] {
      assert CleanLine(lines[0], comment) == Cleaned(lines[0], None);
      QuietStays(lines[1..], comment);
    }
  }

  /** Cleansing twice is cleansing once, and no line is added or lost. */
  lemma CleanseIdempotent(lines: seq<string>, comment: string -> bool)
    ensures Cleanse(Cleanse(lines, None, comment), None, comment) == Cleanse(lines, None, comment)
    ensures |Cleanse(lines, None, comment)| == |lines|
  {
    CleanseIsQuiet(lines, None, comment);
    QuietStays(Cleanse(lines, None, comment), comment);
  }

  // --------------------------------------------------- what becomes of one raw string

  predicate IsRawPrefix(r: string) { r == "R" || r == "u8R" || r == "uR" || r == "UR" || r == "LR" }

  function Ending(d: string): string { ")" + d + "\"" }

  lemma PrefixFound(s: string, p: nat, r: string)
    requires IsRawPrefix(r) && OccursAt(s, r + "\"", p)
    ensures PrefixLength(s, p) == |r|
  {
    var w := s[p..p + |r| + 1];
    assert s[p] == w[0];
    if r == "u8R" {
      assert !OccursAt(s, "R\"", p);
    } else if r != "R" {
      assert s[p + 1] == w[1] == 'R';
      assert !OccursAt(s, "R\"", p) && !OccursAt(s, "u8R\"", p);
    }
  }

  /** What the standard allows between the quote and the parenthesis. */
  predicate IsDelimiterText(d: string) {
    forall k :: 0 <= k < |d| ==> !IsSpace(d[k]) && d[k] !in "\\()"
  }

  /** The text at `p` opens a raw string with prefix `r` and delimiter `d`. */
  predicate RawAt(s: string, p: nat, r: string, d: string) {
    && IsRawPrefix(r) && IsDelimiterText(d)
    && OccursAt(s, r + "\"", p) && (p == 0 || !IsWord(s[p - 1]))
    && var q := p + |r| + 1;
       OccursAt(s, d, q) && q + |d| < |s| && s[q + |d|] == '('
  }

  lemma Pieces(pre: string, q: string, d: string, rest: string)
    ensures var s := pre + q + d + "(" + rest;
            && OccursAt(s, q, |pre|) && OccursAt(s, d, |pre| + |q|)
            && |pre| + |q| + |d| < |s| && s[|pre| + |q| + |d|] == '('
            && s[..|pre|] == pre
  {
  }

  /** Every opening written out is one. */
  lemma WrittenOut(pre: string, r: string, d: string, rest: string)
    requires IsRawPrefix(r) && IsDelimiterText(d)
    requires pre == "" || !IsWord(pre[|pre| - 1])
    ensures RawAt(pre + (r + "\"") + d + "(" + rest, |pre|, r, d)
  {
    Pieces(pre, r + "\"", d, rest);
    var s := pre + (r + "\"") + d + "(" + rest;
    assert pre != "" ==> s[|pre| - 1] == pre[|pre| - 1];
  }

  lemma OpeningFound(s: string, p: nat, r: string, d: string)
    requires RawAt(s, p, r, d)
    ensures OpensAt(s, p)
    ensures BodyStart(s, p) == p + |r| + |d| + 2
    ensures Terminator(s, p) == Ending(d)
  {
    PrefixFound(s, p, r);
    var q := p + |r| + 1;
    forall j | q <= j < q + |d|
      ensures IsDelimiter(s[j])
    {
      assert s[j] == s[q..q + |d|][j - q] == d[j - q];
    }
    DelimiterEndIs(s, q, q + |d|);
  }

  ghost predicate IsOpening(s: string, p: nat) { exists r, d :: RawAt(s, p, r, d) }

  /** The search takes exactly the raw string openings of the standard for one. */
  lemma OpensExactly(s: string, p: nat)
    requires p <= |s|
    ensures OpensAt(s, p) <==> IsOpening(s, p)
  {
    if IsOpening(s, p) {
      var r, d :| RawAt(s, p, r, d);
      OpeningFound(s, p, r, d);
    }
    if OpensAt(s, p) {
      var r := PrefixText(s, p);
      var q := p + |r| + 1;
      assert RawAt(s, p, r, s[q..DelimiterEnd(s, q)]);
    }
  }

  /** The first opening of the line is at `p`. */
  ghost predicate OpensFirstAt(s: string, p: nat) {
    p <= |s| && IsOpening(s, p) && forall k :: 0 <= k < p ==> !IsOpening(s, k)
  }

  lemma FirstOpeningExactly(s: string, p: nat)
    requires p <= |s|
    ensures FirstOpening(s, 0) == Some(p) <==> OpensFirstAt(s, p)
  {
    forall k | 0 <= k <= |s|
      ensures OpensAt(s, k) <==> IsOpening(s, k)
    {
      OpensExactly(s, k);
    }
    if OpensFirstAt(s, p) {
      FirstOpeningIs(s, p);
    }
  }

  // ---- lines that stay

  lemma {:induction false} CleanShortens(line: string, comment: string -> bool)
    ensures RemoveFirst(line, comment) == Nothing ==> CleanLine(line, comment) == Cleaned(line, None)
    ensures RemoveFirst(line, comment) != Nothing ==> |CleanLine(line, comment).line| < |line|
    decreases |line|
  {
    match RemoveFirst(line, comment)
    case Nothing =>
    case Closed(shorter) => CleanShortens(shorter, comment);
    case Unclosed(head, _) =>
  }

  /** No raw string opens on the line, or the first that does is in a comment. */
  ghost predicate StaysAsItIs(line: string, comment: string -> bool) {
    || (forall p :: 0 <= p <= |line| ==> !IsOpening(line, p))
    || (exists p: nat :: OpensFirstAt(line, p) && comment(line[..p]))
  }

  lemma NothingToRemove(line: string, comment: string -> bool)
    ensures var f := FirstOpening(line, 0);
            RemoveFirst(line, comment) == Nothing <==> f == None || comment(line[..f.value])
  {
  }

  lemma NoOpening(line: string)
    requires FirstOpening(line, 0) == None
    ensures forall p :: 0 <= p <= |line| ==> !IsOpening(line, p)
  {
    forall p | 0 <= p <= |line|
      ensures !IsOpening(line, p)
    {
      OpensExactly(line, p);
    }
  }

  lemma StaysExactly(line: string, comment: string -> bool)
    ensures var f := FirstOpening(line, 0);
            StaysAsItIs(line, comment) <==> f == None || comment(line[..f.value])
  {
    var f := FirstOpening(line, 0);
    if f == None {
      NoOpening(line);
    } else {
      FirstOpeningExactly(line, f.value);
      forall p: nat | OpensFirstAt(line, p)
        ensures p == f.value
      {
        FirstOpeningExactly(line, p);
      }
    }
  }

  lemma NothingExactly(line: string, comment: string -> bool)
    ensures RemoveFirst(line, comment) == Nothing <==> StaysAsItIs(line, comment)
  {
    NothingToRemove(line, comment);
    StaysExactly(line, comment);
  }

  /** A line that starts outside raw strings is kept if and only if no raw string opens on it
      or the first that does is in a comment. */
  lemma KeptExactly(line: string, comment: string -> bool)
    ensures CleanLine(line, comment).line == line <==> StaysAsItIs(line, comment)
  {
    CleanShortens(line, comment);
    NothingExactly(line, comment);
  }

  /** In a file such a line stays, and cleansing goes on after it as if it were not there. */
  lemma StayingLine(line: string, rest: seq<string>, comment: string -> bool)
    requires StaysAsItIs(line, comment)
    ensures Cleanse([line] + rest, None, comment) == [line] + Cleanse(rest, None, comment)
  {
    NothingExactly(line, comment);
    CleanShortens(line, comment);
    KeptFirst(line, rest, comment);
  }

  lemma KeptFirst(line: string, rest: seq<string>, comment: string -> bool)
    requires CleanLine(line, comment) == Cleaned(line, None)
    ensures Cleanse([line] + rest, None, comment) == [line] + Cleanse(rest, None, comment)
  {
    CleanseFirst(line, rest, None, comment);
  }

  lemma {:induction false} DelimiterEndIs(s: string, i: nat, e: nat)
    requires i <= e < |s| && !IsDelimiter(s[e]) && forall j :: i <= j < e ==> IsDelimiter(s[j])
    ensures DelimiterEnd(s, i) == e
    decreases e - i
  {
    if i < e {
      DelimiterEndIs(s, i + 1, e);
    }
  }

  // ---- searches on text put together from pieces

  lemma {:induction false} FindIs(s: string, t: string, i: nat, e: nat)
    requires i <= e <= |s| && OccursAt(s, t, e) && forall k :: i <= k < e ==> !OccursAt(s, t, k)
    ensures Find(s, t, i) == Some(e)
    decreases e - i
  {
    if i < e {
      FindIs(s, t, i + 1, e);
    }
  }

  lemma {:induction false} FindNone(s: string, t: string, i: nat)
    requires i <= |s| && forall k :: i <= k <= |s| ==> !OccursAt(s, t, k)
    ensures Find(s, t, i) == None
    decreases |s| - i
  {
    if i < |s| {
      FindNone(s, t, i + 1);
    }
  }

  lemma FirstOpeningIs(s: string, p: nat)
    requires p <= |s| && OpensAt(s, p) && forall k :: 0 <= k < p ==> !OpensAt(s, k)
    ensures FirstOpening(s, 0) == Some(p)
  {
    var r := FirstOpening(s, 0);
    assert r.Some? && r.value <= p;
  }

  lemma OccursInTail(s: string, t: string, b: nat, k: nat)
    requires b <= |s|
    ensures OccursAt(s, t, b + k) <==> OccursAt(s[b..], t, k)
  {
    if b + k + |t| <= |s| {
      assert s[b + k..b + k + |t|] == s[b..][k..k + |t|];
    }
  }

  lemma OccursInHead(a: string, b: string, t: string, k: nat)
    requires k + |t| <= |a|
    ensures OccursAt(a + b, t, k) <==> OccursAt(a, t, k)
  {
    assert (a + b)[k..k + |t|] == a[k..k + |t|];
  }

  /** `t` does not occur in the text. */
  predicate Absent(s: string, t: string) { forall k :: 0 <= k <= |s| ==> !OccursAt(s, t, k) }

  /** In the text followed by `t`, that is where `t` occurs first. */
  predicate FirstAfter(s: string, t: string) { forall k :: 0 <= k < |s| ==> !OccursAt(s + t, t, k) }

  lemma FindAfter(body: string, t: string, post: string)
    requires FirstAfter(body, t)
    ensures Find(body + t + post, t, 0) == Some(|body|)
    ensures (body + t + post)[|body| + |t|..] == post
  {
    var s := body + t + post;
    assert s[|body|..|body| + |t|] == t;
    forall k | 0 <= k < |body|
      ensures !OccursAt(s, t, k)
    {
      OccursInHead(body + t, post, t, k);
    }
    FindIs(s, t, 0, |body|);
  }

  lemma FindInTail(s: string, t: string, b: nat)
    requires b <= |s|
    ensures var r := Find(s[b..], t, 0);
            Find(s, t, b) == if r.Some? then Some(b + r.value) else None
  {
    var r := Find(s[b..], t, 0);
    FindIsFirst(s[b..], t, 0);
    forall k | b <= k < (if r.Some? then b + r.value else |s| + 1)
      ensures !OccursAt(s, t, k)
    {
      OccursInTail(s, t, b, k - b);
    }
    if r.Some? {
      OccursInTail(s, t, b, r.value);
      FindIs(s, t, b, b + r.value);
    } else {
      FindNone(s, t, b);
    }
  }

  // ---- raw strings written out

  /** A line with the opening of a raw string written out in it. */
  function Opened(pre: string, r: string, d: string, rest: string): string {
    pre + (r + "\"") + d + "(" + rest
  }

  /** The raw string written out after `pre` is the first on its line. */
  ghost predicate WrittenFirst(pre: string, r: string, d: string, rest: string) {
    && IsRawPrefix(r) && IsDelimiterText(d) && (pre == "" || !IsWord(pre[|pre| - 1]))
    && forall k :: 0 <= k < |pre| ==> !IsOpening(Opened(pre, r, d, rest), k)
  }

  lemma OpenedParts(pre: string, r: string, d: string, rest: string)
    ensures var s := Opened(pre, r, d, rest);
            && |s| == |pre| + |r| + |d| + 2 + |rest|
            && s[..|pre|] == pre && s[|pre| + |r| + |d| + 2..] == rest
  {
  }

  /** What the search finds on such a line. */
  lemma LeftmostFound(pre: string, r: string, d: string, rest: string)
    requires WrittenFirst(pre, r, d, rest)
    ensures var s := Opened(pre, r, d, rest);
            && FirstOpening(s, 0) == Some(|pre|) && Terminator(s, |pre|) == Ending(d)
            && BodyStart(s, |pre|) == |pre| + |r| + |d| + 2
            && s[..|pre|] == pre && s[|pre| + |r| + |d| + 2..] == rest
  {
    var s := Opened(pre, r, d, rest);
    OpenedParts(pre, r, d, rest);
    WrittenOut(pre, r, d, rest);
    OpeningFound(s, |pre|, r, d);
    FirstOpeningExactly(s, |pre|);
  }

  /** A raw string written out in a comment stays, whether or not it ends on its line. */
  lemma CommentedLiteral(pre: string, r: string, d: string, body: string, rest: seq<string>, comment: string -> bool)
    requires WrittenFirst(pre, r, d, body) && comment(pre)
    ensures Cleanse([Opened(pre, r, d, body)] + rest, None, comment)
         == [Opened(pre, r, d, body)] + Cleanse(rest, None, comment)
  {
    var s := Opened(pre, r, d, body);
    LeftmostFound(pre, r, d, body);
    FirstOpeningExactly(s, |pre|);
    assert OpensFirstAt(s, |pre|) && comment(s[..|pre|]);
    StayingLine(s, rest, comment);
  }

  lemma FindWritten(s: string, t: string, b: nat, body: string, post: string)
    requires b <= |s| && s[b..] == body + t + post && FirstAfter(body, t)
    ensures Find(s, t, b) == Some(b + |body|)
    ensures s[b + |body| + |t|..] == post
  {
    FindAfter(body, t, post);
    FindInTail(s, t, b);
    assert s[b + |body| + |t|..] == s[b..][|body| + |t|..];
  }

  lemma FindAbsent(s: string, t: string, b: nat)
    requires b <= |s| && Absent(s[b..], t)
    ensures Find(s, t, b) == None
  {
    FindNone(s[b..], t, 0);
    FindInTail(s, t, b);
  }

  lemma RemoveAt(s: string, p: nat, t: string, b: nat, end: Option<nat>, comment: string -> bool)
    requires FirstOpening(s, 0) == Some(p) && !comment(s[..p])
    requires Terminator(s, p) == t && BodyStart(s, p) == b <= |s| && Find(s, t, b) == end
    ensures RemoveFirst(s, comment) == if end.Some? then Closed(s[..p] + QUOTES + s[end.value + |t|..])
                                       else Unclosed(s[..p] + QUOTES, t)
  {
  }

  /** A raw string that ends on its line: it becomes quotes, and the search goes on in what is
      left of the line. */
  lemma ClosedRemoved(pre: string, r: string, d: string, body: string, post: string, comment: string -> bool)
    requires WrittenFirst(pre, r, d, body + Ending(d) + post) && !comment(pre) && FirstAfter(body, Ending(d))
    ensures RemoveFirst(Opened(pre, r, d, body + Ending(d) + post), comment) == Closed(pre + QUOTES + post)
  {
    var t, rest := Ending(d), body + Ending(d) + post;
    LeftmostFound(pre, r, d, rest);
    var s, b := Opened(pre, r, d, rest), |pre| + |r| + |d| + 2;
    FindWritten(s, t, b, body, post);
    RemoveAt(s, |pre|, t, b, Some(b + |body|), comment);
  }

  lemma CleanShorter(s: string, shorter: string, comment: string -> bool)
    requires RemoveFirst(s, comment) == Closed(shorter)
    ensures CleanLine(s, comment) == CleanLine(shorter, comment)
  {
  }

  /** In a file: a raw string on one line can be replaced by quotes beforehand. */
  lemma OneLineLiteral(pre: string, r: string, d: string, body: string, post: string,
                       rest: seq<string>, comment: string -> bool)
    requires WrittenFirst(pre, r, d, body + Ending(d) + post) && !comment(pre) && FirstAfter(body, Ending(d))
    ensures Cleanse([Opened(pre, r, d, body + Ending(d) + post)] + rest, None, comment)
         == Cleanse([pre + "\"\"" + post] + rest, None, comment)
  {
    var s, shorter := Opened(pre, r, d, body + Ending(d) + post), pre + QUOTES + post;
    ClosedRemoved(pre, r, d, body, post, comment);
    CleanShorter(s, shorter, comment);
    SameFirst(s, shorter, rest, comment);
  }

  lemma SameFirst(a: string, b: string, rest: seq<string>, comment: string -> bool)
    requires CleanLine(a, comment) == CleanLine(b, comment)
    ensures Cleanse([a] + rest, None, comment) == Cleanse([b] + rest, None, comment)
  {
    CleanseFirst(a, rest, None, comment);
    CleanseFirst(b, rest, None, comment);
  }

  lemma OpenRemoved(pre: string, r: string, d: string, body: string, comment: string -> bool)
    requires WrittenFirst(pre, r, d, body) && !comment(pre) && Absent(body, Ending(d))
    ensures CleanLine(Opened(pre, r, d, body), comment) == Cleaned(pre + QUOTES, Some(Ending(d)))
  {
    LeftmostFound(pre, r, d, body);
    var s, b := Opened(pre, r, d, body), |pre| + |r| + |d| + 2;
    FindAbsent(s, Ending(d), b);
    RemoveAt(s, |pre|, Ending(d), b, None, comment);
  }

  predicate AllSpace(s: string) { forall k :: 0 <= k < |s| ==> IsSpace(s[k]) }

  lemma {:induction false} LeadingSpaceIs(indent: string, s: string)
    requires AllSpace(indent) && (s == "" || !IsSpace(s[0]))
    ensures LeadingSpace(indent + s) == indent
  {
    if indent == "" {
      assert indent + s == s;
    } else {
      LeadingSpaceIs(indent[1..], s);
      assert (indent + s)[1..] == indent[1..] + s;
    }
  }

  /** In a file: a raw string over several lines turns the rest of its first line and every
      line between into quotes, and its last line into its own indentation, quotes and what
      follows the terminator; cleansing goes on from there. */
  lemma LiteralRemoved(pre: string, r: string, d: string, body: string, middle: seq<string>,
                       indent: string, end: string, post: string, rest: seq<string>, comment: string -> bool)
    requires WrittenFirst(pre, r, d, body) && !comment(pre) && Absent(body, Ending(d))
    requires forall m :: 0 <= m < |middle| ==> Absent(middle[m], Ending(d))
    requires FirstAfter(indent + end, Ending(d)) && AllSpace(indent) && (end == "" || !IsSpace(end[0]))
    ensures Cleanse([Opened(pre, r, d, body)] + middle + [indent + end + Ending(d) + post] + rest, None, comment)
         == [pre + "\"\""] + seq(|middle|, _ => "\"\"") + Cleanse([indent + "\"\"" + post] + rest, None, comment)
  {
    var t, last := Ending(d), indent + end + Ending(d) + post;
    OpenRemoved(pre, r, d, body, comment);
    forall m | 0 <= m < |middle|
      ensures Find(middle[m], t, 0) == None
    {
      FindNone(middle[m], t, 0);
    }
    FindAfter(indent + end, t, post);
    IndentOf(indent, end, t, post);
    BlanksAre(|middle|);
    SpanRemoved(Opened(pre, r, d, body), pre + QUOTES, t, middle, last, |indent + end|, post, rest, comment);
  }

  lemma IndentOf(indent: string, end: string, t: string, post: string)
    requires AllSpace(indent) && (end == "" || !IsSpace(end[0])) && t != "" && !IsSpace(t[0])
    ensures LeadingSpace(indent + end + t + post) == indent
  {
    assert indent + end + t + post == indent + (end + t + post);
    LeadingSpaceIs(indent, end + t + post);
  }

  lemma {:induction false} BlanksAre(n: nat)
    ensures Blanks(n) == seq(n, _ => "\"\"")
  {
    if n > 0 {
      BlanksAre(n - 1);
    }
  }

  /** A raw string that is never closed turns the rest of the file into quotes. */
  lemma NeverClosed(pre: string, r: string, d: string, body: string, others: seq<string>, comment: string -> bool)
    requires WrittenFirst(pre, r, d, body) && !comment(pre) && Absent(body, Ending(d))
    requires forall m :: 0 <= m < |others| ==> Absent(others[m], Ending(d))
    ensures Cleanse([Opened(pre, r, d, body)] + others, None, comment)
         == [pre + "\"\""] + seq(|others|, _ => "\"\"")
  {
    OpenRemoved(pre, r, d, body, comment);
    FirstOpens(Opened(pre, r, d, body), pre + QUOTES, Ending(d), others, comment);
    AllInside(others, Ending(d), comment);
    BlanksAre(|others|);
  }

  lemma {:induction false} AllInside(lines: seq<string>, t: string, comment: string -> bool)
    requires forall m :: 0 <= m < |lines| ==> Absent(lines[m], t)
    ensures Cleanse(lines, Some(t), comment) == Blanks(|lines|)
  {
    if lines != [] {
      FindNone(lines[0], t, 0);
      AllInside(lines[1..], t, comment);
    }
  }

  lemma SpanRemoved(first: string, head: string, t: string, middle: seq<string>, last: string, end: nat, post: string,
                    rest: seq<string>, comment: string -> bool)
    requires CleanLine(first, comment) == Cleaned(head, Some(t))
    requires forall m :: 0 <= m < |middle| ==> Find(middle[m], t, 0) == None
    requires Find(last, t, 0) == Some(end) && last[end + |t|..] == post
    ensures Cleanse([first] + middle + [last] + rest, None, comment)
         == [head] + Blanks(|middle|) + Cleanse([LeadingSpace(last) + QUOTES + post] + rest, None, comment)
  {
    SpanParts(first, head, t, middle, last, end, rest, comment);
    Regroup([first], middle, [last], rest);
    RegroupThree([head], Blanks(|middle|), Cleanse([LeadingSpace(last) + QUOTES + post] + rest, None, comment));
  }

  lemma SpanParts(first: string, head: string, t: string, middle: seq<string>, last: string, end: nat,
                  rest: seq<string>, comment: string -> bool)
    requires CleanLine(first, comment) == Cleaned(head, Some(t))
    requires forall m :: 0 <= m < |middle| ==> Find(middle[m], t, 0) == None
    requires Find(last, t, 0) == Some(end)
    ensures Cleanse([first] + (middle + [last] + rest), None, comment)
         == [head] + (Blanks(|middle|)
                      + Cleanse([LeadingSpace(last) + QUOTES + last[end + |t|..]] + rest, None, comment))
  {
    MiddleLines(middle, t, last, end, rest, comment);
    FirstOpens(first, head, t, middle + [last] + rest, comment);
  }

  lemma Regroup(a: seq<string>, b: seq<string>, c: seq<string>, d: seq<string>)
    ensures a + b + c + d == a + (b + c + d)
  {
  }

  lemma RegroupThree(a: seq<string>, b: seq<string>, c: seq<string>)
    ensures a + b + c == a + (b + c)
  {
  }

  lemma FirstOpens(first: string, head: string, t: string, rest: seq<string>, comment: string -> bool)
    requires CleanLine(first, comment) == Cleaned(head, Some(t))
    ensures Cleanse([first] + rest, None, comment) == [head] + Cleanse(rest, Some(t), comment)
  {
    CleanseFirst(first, rest, None, comment);
  }

  lemma CleanseFirst(line: string, rest: seq<string>, pending: Option<string>, comment: string -> bool)
    ensures var c := NextLine(line, pending, comment);
            Cleanse([line] + rest, pending, comment) == [c.line] + Cleanse(rest, c.pending, comment)
  {
    assert ([line] + rest)[1..] == rest;
  }

  lemma {:induction false} MiddleLines(middle: seq<string>, t: string, last: string, end: nat,
                                       rest: seq<string>, comment: string -> bool)
    requires forall m :: 0 <= m < |middle| ==> Find(middle[m], t, 0) == None
    requires Find(last, t, 0) == Some(end)
    ensures Cleanse(middle + [last] + rest, Some(t), comment)
         == Blanks(|middle|)
            + Cleanse([LeadingSpace(last) + QUOTES + last[end + |t|..]] + rest, None, comment)
  {
    if middle == [] {
      LastLine(t, last, end, rest, comment);
      assert middle + [last] + rest == [last] + rest;
      assert [] + Cleanse([last] + rest, Some(t), comment) == Cleanse([last] + rest, Some(t), comment);
    } else {
      var ms := middle[1..];
      assert middle + [last] + rest == [middle[0]] + (ms + [last] + rest);
      CleanseFirst(middle[0], ms + [last] + rest, Some(t), comment);
      MiddleLines(ms, t, last, end, rest, comment);
      BlanksFirst(|ms|, Cleanse([LeadingSpace(last) + QUOTES + last[end + |t|..]] + rest, None, comment));
    }
  }

  lemma LastLine(t: string, last: string, end: nat, rest: seq<string>, comment: string -> bool)
    requires Find(last, t, 0) == Some(end)
    ensures Cleanse([last] + rest, Some(t), comment)
         == Cleanse([LeadingSpace(last) + QUOTES + last[end + |t|..]] + rest, None, comment)
  {
    var tail := LeadingSpace(last) + QUOTES + last[end + |t|..];
    SkipThenClean(last, t, tail, rest, comment);
  }

  lemma SkipThenClean(last: string, t: string, tail: string, rest: seq<string>, comment: string -> bool)
    requires Skip(last, t) == Cleaned(tail, None)
    ensures Cleanse([last] + rest, Some(t), comment) == Cleanse([tail] + rest, None, comment)
  {
    assert NextLine(last, Some(t), comment) == NextLine(tail, None, comment);
    CleanseFirst(last, rest, Some(t), comment);
    CleanseFirst(tail, rest, None, comment);
  }

  function Blanks(n: nat): seq<string> {
    if n == 0 then [] else [QUOTES] + Blanks(n - 1)
  }

  lemma BlanksFirst(n: nat, tail: seq<string>)
    ensures Blanks(n + 1) + tail == [QUOTES] + (Blanks(n) + tail)
  {
  }
}
