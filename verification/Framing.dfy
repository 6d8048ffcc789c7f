/** Length-prefixed messages: an 8-character, space-padded, lower-case hexadecimal header
    and then the serialized data. A character stands for one byte; the serialized form of
    an object is opaque text. */
module Framing {
  import opened Options
  import opened TextClasses

  const HEADER_LENGTH := 8

  /** The first payload size that no longer fits the header. */
  const SIZE_LIMIT := 0x1_0000_0000

  /** Sizes are 64 bits wide. */
  const SIZE_MODULUS := 0x1_0000_0000_0000_0000

  // ----------------------------------------------------------------- formatting a size

  const DIGITS := "0123456789abcdef"

  function Hex(n: nat): (r: string)
    ensures r != ""
  {
    if n < 16 then [DIGITS[n]] else Hex(n / 16) + [DIGITS[n % 16]]
  }

  function Spaces(k: nat): (r: string)
    ensures |r| == k
  {
    if k == 0 then "" else " " + Spaces(k - 1)
  }

  /** The size as the stream formats it with the field width set to 8. */
  function Formatted(n: nat): (r: string)
    ensures |r| >= HEADER_LENGTH
  {
    if |Hex(n)| < HEADER_LENGTH then Spaces(HEADER_LENGTH - |Hex(n)|) + Hex(n) else Hex(n)
  }

  // ------------------------------------------------------------------- reading a size

  function DigitValue(c: char): Option<nat> {
    if '0' <= c <= '9' then Some(c as int - '0' as int)
    else if 'a' <= c <= 'f' then Some(c as int - 'a' as int + 10)
    else if 'A' <= c <= 'F' then Some(c as int - 'A' as int + 10)
    else None
  }

  function SkipSpace(s: string): (r: string)
    ensures |r| <= |s|
  {
    if s != "" && IsSpace(s[0]) then SkipSpace(s[1..]) else s
  }

  /** The hexadecimal digits that s starts with. */
  function LeadingDigits(s: string): string {
    if s != "" && DigitValue(s[0]).Some? then [s[0]] + LeadingDigits(s[1..]) else ""
  }

  predicate AllDigits(s: string) { forall i :: 0 <= i < |s| ==> DigitValue(s[i]).Some? }

  function NumberOf(digits: string): nat {
    if digits == "" then 0 else
      var d := DigitValue(digits[|digits| - 1]);
      16 * NumberOf(digits[..|digits| - 1]) + if d.Some? then d.value else 0
  }

  /** A number too large for its type is no number. */
  function InRange(n: nat): Option<nat> { if n < SIZE_MODULUS then Some(n) else None }

  function Negated(n: nat): nat
    requires n < SIZE_MODULUS
  {
    if n == 0 then 0 else SIZE_MODULUS - n
  }

  function Magnitude(t: string): (r: Option<nat>)
    ensures r.Some? ==> r.value < SIZE_MODULUS
  {
    var u := if |t| >= 2 && t[0] == '0' && (t[1] == 'x' || t[1] == 'X') then t[2..] else t;
    if LeadingDigits(u) == "" then None else InRange(NumberOf(LeadingDigits(u)))
  }

  /** An unsigned number as the stream extracts it in base 16: white space, a sign, 0x and
      anything after the digits are accepted; a minus wraps around. */
  function Parse(h: string): Option<nat> {
    var s := SkipSpace(h);
    if s != "" && s[0] == '-' then
      var m := Magnitude(s[1..]);
      if m.Some? then Some(Negated(m.value)) else None
    else Magnitude(if s != "" && s[0] == '+' then s[1..] else s)
  }

  // ---------------------------------------------------------------------- the messages

  /** What is put on the wire for one payload; None if it is refused. */
  function Frame(data: string): Option<string> {
    if |Formatted(|data|)| == HEADER_LENGTH then Some(Formatted(|data|) + data) else None
  }

  predicate Fits(data: string) { |data| < SIZE_LIMIT }

  datatype Received =
    | Message(data: string, rest: string)
    | Incomplete                   // the stream ends inside the message
    | Invalid                      // the header is no number

  function Receive(stream: string): (r: Received)
    ensures r.Message? ==> |r.rest| < |stream|
  {
    if |stream| < HEADER_LENGTH then Incomplete else
      match Parse(stream[..HEADER_LENGTH])
      case None => Invalid
      case Some(n) =>
        var body := stream[HEADER_LENGTH..];
        if |body| < n then Incomplete else Message(body[..n], body[n..])
  }

  datatype Inbox = Inbox(messages: seq<string>, valid: bool, left: string)

  /** Everything read until the stream is used up or a read fails. */
  function ReceiveAll(stream: string): Inbox
    decreases |stream|
  {
    match Receive(stream)
    case Message(data, rest) =>
      var more := ReceiveAll(rest);
      more.(messages := [data] + more.messages)
    case Incomplete => Inbox([], true, stream)
    case Invalid => Inbox([], false, stream)
  }

  // ------------------------------------------------------------------ one header value

  function Power16(k: nat): nat { if k == 0 then 1 else 16 * Power16(k - 1) }

  lemma {:induction false} HexLength(n: nat, k: nat)
    requires k > 0
    ensures |Hex(n)| <= k <==> n < Power16(k)
  {
    if k == 1 {
      assert Power16(1) == 16;
    } else {
      if n < 16 {
        HexLength(0, k - 1);
      } else {
        HexLength(n / 16, k - 1);
        assert n == 16 * (n / 16) + n % 16;
      }
    }
  }

  lemma SizeLimit()
    ensures Power16(8) == SIZE_LIMIT
  {
    assert Power16(4) == 0x1_0000;
  }

  /** A payload is sent exactly if its size is below 16 to the 8th. */
  lemma SentExactly(data: string)
    ensures Frame(data).Some? <==> Fits(data)
    ensures Frame(data).Some? ==> |Frame(data).value| == HEADER_LENGTH + |data|
  {
    HexLength(|data|, 8);
    SizeLimit();
  }

  lemma DigitRoundTrip(d: nat)
    requires d < 16
    ensures DigitValue(DIGITS[d]) == Some(d)
    ensures !IsSpace(DIGITS[d]) && DIGITS[d] !in "+-xX"
  {
  }

  lemma {:induction false} HexIsDigits(n: nat)
    ensures forall i :: 0 <= i < |Hex(n)| ==> Hex(n)[i] in DIGITS
    ensures NumberOf(Hex(n)) == n
  {
    if n < 16 {
      DigitRoundTrip(n);
      assert Hex(n)[..0] == "";
      assert NumberOf("") == 0;
    } else {
      HexIsDigits(n / 16);
      DigitRoundTrip(n % 16);
      assert Hex(n)[..|Hex(n)| - 1] == Hex(n / 16);
    }
  }

  lemma DigitCharacter(c: char)
    requires c in DIGITS
    ensures DigitValue(c).Some? && !IsSpace(c) && c != '+' && c != '-' && c != 'x' && c != 'X'
  {
    var d :| 0 <= d < |DIGITS| && DIGITS[d] == c;
    DigitRoundTrip(d);
  }

  lemma {:induction false} PaddingSkipped(k: nat, s: string)
    requires s != "" && !IsSpace(s[0])
    ensures SkipSpace(Spaces(k) + s) == s
  {
    if k == 0 {
      assert Spaces(k) + s == s;
    } else {
      PaddingSkipped(k - 1, s);
      assert (Spaces(k) + s)[1..] == Spaces(k - 1) + s;
    }
  }

  lemma {:induction false} DigitsTaken(s: string)
    requires AllDigits(s)
    ensures LeadingDigits(s) == s
  {
    if s != "" {
      DigitsTaken(s[1..]);
    }
  }

  lemma ParseDigits(k: nat, s: string)
    requires s != "" && forall i :: 0 <= i < |s| ==> s[i] in DIGITS
    ensures Parse(Spaces(k) + s) == InRange(NumberOf(s))
  {
    forall i | 0 <= i < |s|
      ensures DigitValue(s[i]).Some? && !IsSpace(s[i]) && s[i] != '+' && s[i] != '-' && s[i] != 'x' && s[i] != 'X'
    {
      DigitCharacter(s[i]);
    }
    PaddingSkipped(k, s);
    DigitsTaken(s);
  }

  /** Every size that there is is read back. */
  lemma HeaderRoundTrip(n: nat)
    ensures Parse(Formatted(n)) == InRange(n)
  {
    HexIsDigits(n);
    var k := if |Hex(n)| < HEADER_LENGTH then HEADER_LENGTH - |Hex(n)| else 0;
    assert Formatted(n) == Spaces(k) + Hex(n);
    ParseDigits(k, Hex(n));
  }

  // -------------------------------------------------------------------- whole messages

  /** A message is received whole, whatever follows it on the stream. */
  lemma FrameRoundTrip(data: string, tail: string)
    requires Fits(data)
    ensures Frame(data).Some? && Receive(Frame(data).value + tail) == Message(data, tail)
  {
    SentExactly(data);
    HeaderRoundTrip(|data|);
    ReceiveWith(Formatted(|data|), data, tail);
  }

  /** Any header that reads as the size of the data will do. */
  lemma ReceiveWith(header: string, data: string, tail: string)
    requires |header| == HEADER_LENGTH && Parse(header) == Some(|data|)
    ensures Receive(header + data + tail) == Message(data, tail)
  {
    var stream := header + data + tail;
    assert stream[..HEADER_LENGTH] == header;
    assert stream[HEADER_LENGTH..] == data + tail;
  }

  /** Any proper prefix of a message is recognised as unfinished. */
  lemma CutFrameWaits(data: string, cut: nat)
    requires Fits(data) && Frame(data).Some? && cut < |Frame(data).value|
    ensures Receive(Frame(data).value[..cut]) == Incomplete
  {
    HeaderRoundTrip(|data|);
    var part := Frame(data).value[..cut];
    if cut >= HEADER_LENGTH {
      assert part[..HEADER_LENGTH] == Formatted(|data|);
    }
  }

  /** No message is a proper prefix of another, and different payloads differ on the wire. */
  lemma PrefixFree(a: string, b: string)
    requires Fits(a) && Fits(b) && Frame(a).Some? && Frame(b).Some?
    requires Frame(a).value <= Frame(b).value
    ensures a == b
  {
    FrameRoundTrip(a, "");
    FrameRoundTrip(b, "");
    assert Frame(a).value + "" == Frame(a).value && Frame(b).value + "" == Frame(b).value;
    var cut := |Frame(a).value|;
    assert Frame(b).value[..cut] == Frame(a).value;
    if cut < |Frame(b).value| {
      CutFrameWaits(b, cut);
    }
  }

  function FrameAll(payloads: seq<string>): Option<string> {
    if payloads == [] then Some("") else
      var first := Frame(payloads[0]);
      var others := FrameAll(payloads[1..]);
      if first.Some? && others.Some? then Some(first.value + others.value) else None
  }

  predicate Arrives(payloads: seq<string>, tail: string, r: Inbox) {
    && FrameAll(payloads).Some?
    && ReceiveAll(FrameAll(payloads).value + tail) == Inbox(payloads + r.messages, r.valid, r.left)
  }

  lemma NothingArrives(tail: string)
    ensures Arrives([], tail, ReceiveAll(tail))
  {
    assert "" + tail == tail;
  }

  lemma OneMoreArrives(payloads: seq<string>, tail: string, r: Inbox)
    requires payloads != [] && Fits(payloads[0]) && Arrives(payloads[1..], tail, r)
    ensures Arrives(payloads, tail, r)
  {
    FrameFirst(payloads);
    StreamStep(payloads[0], payloads[1..], FrameAll(payloads[1..]).value, tail, r);
    assert [payloads[0]] + payloads[1..] == payloads;
  }

  lemma {:induction false} AllArrive(payloads: seq<string>, tail: string, r: Inbox)
    requires (forall i :: 0 <= i < |payloads| ==> Fits(payloads[i])) && Arrives([], tail, r)
    ensures Arrives(payloads, tail, r)
  {
    if payloads != [] {
      AllArrive(payloads[1..], tail, r);
      OneMoreArrives(payloads, tail, r);
    }
  }

  /** A list of payloads arrives as that list, and what follows is read as if it came alone. */
  lemma StreamRoundTrip(payloads: seq<string>, tail: string)
    requires forall i :: 0 <= i < |payloads| ==> Fits(payloads[i])
    ensures FrameAll(payloads).Some?
    ensures var r := ReceiveAll(tail);
            ReceiveAll(FrameAll(payloads).value + tail) == Inbox(payloads + r.messages, r.valid, r.left)
  {
    NothingArrives(tail);
    AllArrive(payloads, tail, ReceiveAll(tail));
  }

  lemma FrameFirst(payloads: seq<string>)
    requires payloads != [] && Fits(payloads[0]) && FrameAll(payloads[1..]).Some?
    ensures Frame(payloads[0]).Some?
    ensures FrameAll(payloads) == Some(Frame(payloads[0]).value + FrameAll(payloads[1..]).value)
  {
    SentExactly(payloads[0]);
  }

  lemma StreamStep(data: string, payloads: seq<string>, others: string, tail: string, r: Inbox)
    requires Fits(data) && ReceiveAll(others + tail) == Inbox(payloads + r.messages, r.valid, r.left)
    ensures Frame(data).Some?
    ensures ReceiveAll(Frame(data).value + others + tail) == Inbox([data] + payloads + r.messages, r.valid, r.left)
  {
    ReceiveFirst(data, others, tail);
    assert [data] + (payloads + r.messages) == [data] + payloads + r.messages;
  }

  lemma ReceiveFirst(data: string, others: string, tail: string)
    requires Fits(data)
    ensures Frame(data).Some?
    ensures var more := ReceiveAll(others + tail);
            ReceiveAll(Frame(data).value + others + tail) == Inbox([data] + more.messages, more.valid, more.left)
  {
    FrameRoundTrip(data, others + tail);
    assert Frame(data).value + others + tail == Frame(data).value + (others + tail);
    ReceiveStep(Frame(data).value + (others + tail), data, others + tail);
  }

  lemma ReceiveStep(stream: string, data: string, rest: string)
    requires Receive(stream) == Message(data, rest)
    ensures var more := ReceiveAll(rest);
            ReceiveAll(stream) == Inbox([data] + more.messages, more.valid, more.left)
  {
  }

  /** A stream cut anywhere inside its next message yields exactly the messages before. */
  lemma CutStream(payloads: seq<string>, next: string, cut: nat)
    requires forall i :: 0 <= i < |payloads| ==> Fits(payloads[i])
    requires Fits(next) && Frame(next).Some? && cut < |Frame(next).value|
    ensures FrameAll(payloads).Some?
    ensures ReceiveAll(FrameAll(payloads).value + Frame(next).value[..cut])
         == Inbox(payloads, true, Frame(next).value[..cut])
  {
    StreamRoundTrip(payloads, Frame(next).value[..cut]);
    CutFrameWaits(next, cut);
    assert payloads + [] == payloads;
  }

  /** Serialized objects arrive as they were sent, for every archive that restores them. */
  lemma {:induction false} ObjectsRoundTrip<T>(objects: seq<T>, save: T -> string, load: string -> Option<T>)
    requires forall t :: load(save(t)) == Some(t)
    requires forall i :: 0 <= i < |objects| ==> Fits(save(objects[i]))
    ensures var wire := FrameAll(seq(|objects|, i requires 0 <= i < |objects| => save(objects[i])));
            && wire.Some?
            && var got := ReceiveAll(wire.value).messages;
               |got| == |objects| && forall i :: 0 <= i < |objects| ==> load(got[i]) == Some(objects[i])
  {
    var payloads := seq(|objects|, i requires 0 <= i < |objects| => save(objects[i]));
    StreamRoundTrip(payloads, "");
    var wire := FrameAll(payloads).value;
    assert wire + "" == wire;
    assert ReceiveAll("").messages == [];
    assert payloads + [] == payloads;
  }

  lemma {:induction false} DigitsThenSpaces(s: string, k: nat)
    requires AllDigits(s)
    ensures LeadingDigits(s + Spaces(k)) == s
  {
    if s != "" {
      DigitsThenSpaces(s[1..], k);
      assert (s + Spaces(k))[1..] == s[1..] + Spaces(k);
    }
  }

  predicate AllSpace(s: string) { forall i :: 0 <= i < |s| ==> IsSpace(s[i]) }

  predicate NoDigitFirst(s: string) { s != "" ==> DigitValue(s[0]) == None }

  /** The sixteen digits, in either case. */
  lemma DigitsExactly(c: char, v: nat)
    ensures DigitValue(c) == Some(v) <==> v < 16 && (c == "0123456789abcdef"[v] || c == "0123456789ABCDEF"[v])
  {
  }

  lemma {:induction false} SkipAll(blanks: string, s: string)
    requires AllSpace(blanks) && (s == "" || !IsSpace(s[0]))
    ensures SkipSpace(blanks + s) == s
  {
    if blanks == "" {
      assert blanks + s == s;
    } else {
      SkipAll(blanks[1..], s);
      assert (blanks + s)[1..] == blanks[1..] + s;
    }
  }

  lemma {:induction false} DigitsThen(digits: string, junk: string)
    requires AllDigits(digits) && NoDigitFirst(junk)
    ensures LeadingDigits(digits + junk) == digits
  {
    if digits == "" {
      assert digits + junk == junk;
    } else {
      DigitsThen(digits[1..], junk);
      assert (digits + junk)[1..] == digits[1..] + junk;
    }
  }

  predicate IsBase(base: string) { base == "" || base == "0x" || base == "0X" }

  /** What is left after an optional base prefix is not itself read as one. */
  predicate NoBase(base: string, digits: string, junk: string) {
    base == "" && digits == "0" && junk != "" ==> junk[0] != 'x' && junk[0] != 'X'
  }

  lemma MagnitudeOf(base: string, digits: string, junk: string)
    requires IsBase(base) && AllDigits(digits) && NoDigitFirst(junk) && NoBase(base, digits, junk)
    ensures Magnitude(base + (digits + junk)) == if digits == "" then None else InRange(NumberOf(digits))
  {
    var t := base + (digits + junk);
    DigitsThen(digits, junk);
    if base == "" {
      assert t == digits + junk;
      PlainBase(digits, junk);
    } else {
      assert t[2..] == digits + junk && t[0] == base[0] && t[1] == base[1];
    }
  }

  lemma PlainBase(digits: string, junk: string)
    requires AllDigits(digits) && NoDigitFirst(junk) && NoBase("", digits, junk)
    ensures var t := digits + junk;
            !(|t| >= 2 && t[0] == '0' && (t[1] == 'x' || t[1] == 'X'))
  {
    var t := digits + junk;
    assert digits == "" ==> t == junk;
    if digits != "" && |t| >= 2 {
      assert t[0] == digits[0] && t[1] == if |digits| == 1 then junk[0] else digits[1];
    }
  }

  /** Every header there is: blanks, a sign, a base, digits and anything else. It is read as
      the number of the digits, after a minus sign modulo 2 to the 64th, and refused if there
      are no digits or too many. */
  lemma HeaderExactly(blanks: string, sign: string, base: string, digits: string, junk: string)
    requires AllSpace(blanks) && IsBase(base) && AllDigits(digits) && NoDigitFirst(junk) && NoBase(base, digits, junk)
    requires sign == "" || sign == "+" || sign == "-"
    requires sign + base + digits == "" && junk != "" ==> !IsSpace(junk[0]) && junk[0] != '+' && junk[0] != '-'
    ensures var n := NumberOf(digits);
            Parse(blanks + (sign + (base + (digits + junk))))
            == if digits == "" || n >= SIZE_MODULUS then None
               else Some(if sign == "-" && n > 0 then SIZE_MODULUS - n else n)
  {
    var t := base + (digits + junk);
    var s := sign + t;
    MagnitudeOf(base, digits, junk);
    if sign == "" {
      assert s == t;
      FirstOf(base, digits, junk);
    } else {
      assert s[0] == sign[0] && s[1..] == t;
    }
    SkipAll(blanks, s);
    ParseSkips(blanks + s, s);
  }

  lemma ParseSkips(h: string, s: string)
    requires SkipSpace(h) == s
    ensures Parse(h) == if s != "" && s[0] == '-' then
                          (var m := Magnitude(s[1..]); if m.Some? then Some(Negated(m.value)) else None)
                        else Magnitude(if s != "" && s[0] == '+' then s[1..] else s)
  {
  }

  lemma FirstOf(base: string, digits: string, junk: string)
    requires IsBase(base) && AllDigits(digits)
    requires base + digits == "" && junk != "" ==> !IsSpace(junk[0]) && junk[0] != '+' && junk[0] != '-'
    ensures var t := base + (digits + junk);
            t != "" ==> !IsSpace(t[0]) && t[0] != '+' && t[0] != '-'
  {
    var t := base + (digits + junk);
    if base != "" {
      assert t[0] == base[0];
    } else if digits != "" {
      assert t[0] == digits[0];
    } else {
      assert t == junk;
    }
  }

  // ----------------------------------------------- which headers are the written ones

  /** Lower-case digits without a leading zero, but for zero itself. */
  predicate Shortest(d: string) {
    && d != "" && (d[0] == '0' ==> |d| == 1)
    && forall i :: 0 <= i < |d| ==> '0' <= d[i] <= '9' || 'a' <= d[i] <= 'f'
  }

  /** Blanks and then the shortest digits of a number. */
  predicate BlanksThenNumber(h: string, k: nat) {
    k < |h| && (forall i :: 0 <= i < k ==> h[i] == ' ') && Shortest(h[k..])
  }

  lemma {:induction false} SpacesAreBlank(k: nat, i: nat)
    requires i < k
    ensures Spaces(k)[i] == ' '
  {
    if i > 0 {
      SpacesAreBlank(k - 1, i - 1);
    }
  }

  lemma {:induction false} BlanksAreSpaces(s: string)
    requires forall i :: 0 <= i < |s| ==> s[i] == ' '
    ensures s == Spaces(|s|)
  {
    if s != "" {
      BlanksAreSpaces(s[1..]);
    }
  }

  lemma {:induction false} HexIsShortest(n: nat)
    ensures Shortest(Hex(n))
    ensures Hex(n)[0] == '0' ==> n == 0
  {
    HexIsDigits(n);
    if n >= 16 {
      HexIsShortest(n / 16);
      assert Hex(n)[0] == Hex(n / 16)[0];
    }
  }

  lemma LowerDigit(c: char) returns (v: nat)
    requires '0' <= c <= '9' || 'a' <= c <= 'f'
    ensures v < 16 && DigitValue(c) == Some(v) && DIGITS[v] == c
  {
    v := DigitValue(c).value;
  }

  /** The shortest digits of a number are what it is formatted as. */
  lemma {:induction false} HexOfNumber(d: string)
    requires Shortest(d)
    ensures Hex(NumberOf(d)) == d
  {
    var n := |d| - 1;
    var v := LowerDigit(d[n]);
    if n == 0 {
      assert d[..0] == "" && NumberOf("") == 0 && NumberOf(d) == v;
    } else {
      HexOfNumber(d[..n]);
      OneMoreDigit(d, NumberOf(d[..n]), v);
    }
  }

  lemma OneMoreDigit(d: string, m: nat, v: nat)
    requires |d| > 1 && d[0] != '0' && Hex(m) == d[..|d| - 1] && m == NumberOf(d[..|d| - 1])
    requires v < 16 && DigitValue(d[|d| - 1]) == Some(v) && DIGITS[v] == d[|d| - 1]
    ensures Hex(NumberOf(d)) == d
  {
    var n := |d| - 1;
    HexZero(m);
    assert d[..n][0] == d[0];
    assert NumberOf(d) == 16 * m + v;
    HexUnfold(NumberOf(d), m, v);
    assert d == d[..n] + [d[n]];
  }

  lemma HexZero(m: nat)
    ensures m == 0 ==> Hex(m)[0] == '0'
  {
  }

  lemma HexUnfold(n: nat, m: nat, v: nat)
    requires n >= 16 && v < 16 && n == 16 * m + v
    ensures Hex(n) == Hex(m) + [DIGITS[v]]
  {
    assert n / 16 == m && n % 16 == v;
  }

  /** Of the headers that are read, exactly those are written that are blanks followed by the
      shortest lower-case digits of the size. */
  lemma WrittenExactly(h: string)
    requires |h| == HEADER_LENGTH
    ensures Parse(h).Some? && Formatted(Parse(h).value) == h <==> exists k: nat :: BlanksThenNumber(h, k)
    ensures (exists n: nat :: Formatted(n) == h) <==> exists k: nat :: BlanksThenNumber(h, k)
  {
    if k: nat :| BlanksThenNumber(h, k) {
      BlanksAreWritten(h, k);
    }
    if n: nat :| Formatted(n) == h {
      WrittenIsBlanks(h, n);
    }
  }

  lemma BlanksAreWritten(h: string, k: nat)
    requires |h| == HEADER_LENGTH && BlanksThenNumber(h, k)
    ensures Parse(h).Some? && Formatted(Parse(h).value) == h
  {
    var d := h[k..];
    BlanksAreSpaces(h[..k]);
    assert h == Spaces(k) + d;
    ShortestIsRead(d, k);
    ShortestIsFormatted(d, k);
  }

  lemma ShortestIsRead(d: string, k: nat)
    requires Shortest(d) && |d| + k == HEADER_LENGTH
    ensures Parse(Spaces(k) + d) == Some(NumberOf(d))
  {
    HexOfNumber(d);
    HexIsDigits(NumberOf(d));
    ParseDigits(k, d);
    HexLength(NumberOf(d), 8);
    SizeLimit();
  }

  lemma ShortestIsFormatted(d: string, k: nat)
    requires Shortest(d) && |d| + k == HEADER_LENGTH
    ensures Formatted(NumberOf(d)) == Spaces(k) + d
  {
    HexOfNumber(d);
    assert k == 0 ==> Spaces(k) + d == d;
  }

  lemma WrittenIsBlanks(h: string, n: nat)
    requires |h| == HEADER_LENGTH && Formatted(n) == h
    ensures exists k: nat :: BlanksThenNumber(h, k)
  {
    HexIsShortest(n);
    var k := HEADER_LENGTH - |Hex(n)|;
    forall i | 0 <= i < k
      ensures h[i] == ' '
    {
      SpacesAreBlank(k, i);
    }
    assert h[k..] == Hex(n);
    assert BlanksThenNumber(h, k);
  }

  // -------------------------------------------------------------------- the connection

  datatype Outcome<+T> = Delivered(item: T) | ReadError | InvalidArgument

  function Resized(data: string, n: nat): (r: string)
    ensures |r| == n
  {
    if n <= |data| then data[..n] else data + seq(n - |data|, _ => '\0')
  }

  class Connection {
    var outboundHeader: string
    var outboundData: string
    const inboundHeader: array<char>
    var inboundData: string

    ghost predicate Valid() reads this { inboundHeader.Length == HEADER_LENGTH }

    constructor ()
      ensures Valid() && fresh(inboundHeader)
      ensures outboundHeader == "" && outboundData == "" && inboundData == ""
    {
      outboundHeader, outboundData, inboundData := "", "", "";
      inboundHeader := new char[HEADER_LENGTH];
    }

    /** Sends header and data together, or reports an invalid argument (None); the data
        field is already overwritten then, the header field is not. */
    method AsyncWrite(data: string) returns (sent: Option<string>)
      requires Valid()
      modifies this
      ensures Valid() && sent == Frame(data) && (sent.Some? <==> Fits(data))
      ensures outboundData == data && inboundData == old(inboundData)
      ensures if sent.Some? then sent.value == outboundHeader + outboundData && |outboundHeader| == HEADER_LENGTH
              else outboundHeader == old(outboundHeader)
    {
      SentExactly(data);
      outboundData := data;
      var header := Formatted(|outboundData|);
      if |header| != HEADER_LENGTH {
        return None;
      }
      outboundHeader := header;
      return Some(outboundHeader + outboundData);
    }

    /** A header has been read: how much data to ask for; None if the caller is told of an
        error. */
    method HandleReadHeader(failed: bool) returns (size: Option<nat>)
      requires Valid()
      modifies this
      ensures Valid() && outboundHeader == old(outboundHeader) && outboundData == old(outboundData)
      ensures size == if failed then None else Parse(inboundHeader[..])
      ensures if size.Some? then inboundData == Resized(old(inboundData), size.value)
              else inboundData == old(inboundData)
    {
      if failed {
        return None;
      }
      size := Parse(inboundHeader[..]);
      if size.Some? {
        inboundData := Resized(inboundData, size.value);
      }
    }

    /** The last step of AsyncRead, which says what it means. */
    method HandleReadData<T>(failed: bool, load: string -> Option<T>) returns (r: Outcome<T>)
      requires Valid()
      ensures r == if failed then ReadError
                   else if load(inboundData).Some? then Delivered(load(inboundData).value)
                   else InvalidArgument
    {
      if failed {
        return ReadError;
      }
      var loaded := load(inboundData);
      return if loaded.Some? then Delivered(loaded.value) else InvalidArgument;
    }

    /** Both reads of one message from the bytes that will arrive. */
    method AsyncRead<T>(stream: string, load: string -> Option<T>) returns (r: Outcome<T>, rest: string)
      requires Valid()
      modifies this, inboundHeader
      ensures Valid() && outboundHeader == old(outboundHeader) && outboundData == old(outboundData)
      ensures match Receive(stream)
              case Message(data, others) =>
                && rest == others && inboundData == data
                && r == if load(data).Some? then Delivered(load(data).value) else InvalidArgument
              case Incomplete => r == ReadError
              case Invalid => r == InvalidArgument && inboundData == old(inboundData)
    {
      rest := stream;
      if |stream| < HEADER_LENGTH {
        return ReadError, stream;
      }
      forall i | 0 <= i < HEADER_LENGTH {
        inboundHeader[i] := stream[i];
      }
      assert inboundHeader[..] == stream[..HEADER_LENGTH];
      var size := HandleReadHeader(false);
      if size == None {
        return InvalidArgument, stream[HEADER_LENGTH..];
      }
      var body := stream[HEADER_LENGTH..];
      if |body| < size.value {
        r := HandleReadData(true, load);
        return r, "";
      }
      inboundData := body[..size.value];
      r := HandleReadData(false, load);
      rest := body[size.value..];
    }
  }

  /** What one connection writes another one reads. */
  method Transfer<T>(sender: Connection, receiver: Connection, item: T, save: T -> string, load: string -> Option<T>)
    returns (sent: bool, r: Outcome<T>)
    requires sender.Valid() && receiver.Valid() && sender != receiver
    requires load(save(item)) == Some(item)
    modifies sender, receiver, receiver.inboundHeader
    ensures sent <==> Fits(save(item))
    ensures sent ==> r == Delivered(item)
  {
    r := ReadError;
    var wire := sender.AsyncWrite(save(item));
    sent := wire.Some?;
    if sent {
      FrameRoundTrip(save(item), "");
      assert wire.value + "" == wire.value;
      var rest;
      r, rest := receiver.AsyncRead(wire.value, load);
    }
  }
}
