/** Character classes and the one look-behind pattern the scanners share. */
module TextClasses {

  /** The class `\s` of a Python 2 pattern compiled without flags. */
  predicate IsSpace(c: char) {
    c == ' ' || 9 <= c as int <= 13
  }

  /** The class `\w` of a Python 2 pattern compiled without flags. */
  predicate IsWord(c: char) {
    'a' <= c <= 'z' || 'A' <= c <= 'Z' || '0' <= c <= '9' || c == '_'
  }

  function RTrim(s: string): string {
    if s != [] && IsSpace(s[|s| - 1]) then RTrim(s[..|s| - 1]) else s
  }

  /** The search for `\boperator\s*$`. */
  predicate EndsWithOperator(s: string) {
    var t := RTrim(s);
    && |t| >= 8
    && t[|t| - 8..] == "operator"
    && (|t| == 8 || !IsWord(t[|t| - 9]))
  }

  /** What lets the backward matcher step over the character before an `operator>`. */
  lemma OperatorLastChar(s: string)
    requires EndsWithOperator(s)
    ensures s != [] && (IsSpace(s[|s| - 1]) || s[|s| - 1] == 'r')
  {
    if !IsSpace(s[|s| - 1]) {
      assert s[|s| - 1] == s[|s| - 8..][7];
    }
  }
}
