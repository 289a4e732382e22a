/** Character classes of the lexer's regular expressions, maximal runs, literal
    prefixes and the `\b` word boundary.

    `\s`, `\d` and the word characters behind `\b` are read in their ASCII sense;
    Python's Unicode reading of them is not modelled. */
module Chars {

  predicate IsDigit(c: char) { '0' <= c <= '9' }

  predicate IsHexDigit(c: char) { IsDigit(c) || 'a' <= c <= 'f' || 'A' <= c <= 'F' }

  predicate IsUpper(c: char) { 'A' <= c <= 'Z' }

  predicate IsLower(c: char) { 'a' <= c <= 'z' }

  /** `\w`: the characters on one side of a `\b`. */
  predicate IsWordChar(c: char) { IsDigit(c) || IsUpper(c) || IsLower(c) || c == '_' }

  /** `\s`: space, tab, newline, carriage return, vertical tab, form feed. */
  predicate IsSpace(c: char)
  {
    c == ' ' || c == '\t' || c == '\n' || c == '\r' || c == '\U{000B}' || c == '\U{000C}'
  }

  /** `[/<=>+\-*\\?&@|:;~k.!]`: the operator class, letter `k` included. */
  predicate IsOperatorChar(c: char)
  {
    || c == '/' || c == '<' || c == '=' || c == '>' || c == '+' || c == '-' || c == '*'
    || c == '\\' || c == '?' || c == '&' || c == '@' || c == '|' || c == ':' || c == ';'
    || c == '~' || c == 'k' || c == '.' || c == '!'
  }

  /** `[\[\](){}]` */
  predicate IsBracket(c: char) { c == '[' || c == ']' || c == '(' || c == ')' || c == '{' || c == '}' }

  /** The character classes that the lexer's patterns repeat with `*` or `+`. */
  datatype Class =
    | Digits        // \d
    | HexDigits     // [0-9a-fA-F]
    | Spaces        // \s
    | LineChars     // . without DOTALL: anything but a newline
    | OperatorChars // the operator class
    | IdentChars    // [0-9a-zA-Z'_]
    | TheoryChars   // [a-zA-Z_]
    | Underscores   // [_]
    | Leaders       // [_']
    | CommentChars  // [^*%]

  predicate InClass(c: char, k: Class)
  {
    match k
    case Digits => IsDigit(c)
    case HexDigits => IsHexDigit(c)
    case Spaces => IsSpace(c)
    case LineChars => c != '\n'
    case OperatorChars => IsOperatorChar(c)
    case IdentChars => IsDigit(c) || IsUpper(c) || IsLower(c) || c == '\'' || c == '_'
    case TheoryChars => IsUpper(c) || IsLower(c) || c == '_'
    case Underscores => c == '_'
    case Leaders => c == '_' || c == '\''
    case CommentChars => c != '*' && c != '%'
  }

  /** Every character of `text[a..b]` is in class `k`. */
  predicate AllIn(text: string, a: nat, b: nat, k: Class)
    requires a <= b <= |text|
  {
    forall j | a <= j < b :: InClass(text[j], k)
  }

  /** The length of the longest run of class-`k` characters starting at `i`:
      what a greedy `k*` consumes there. */
  function Span(text: string, i: nat, k: Class): (n: nat)
    requires i <= |text|
    ensures i + n <= |text|
    ensures AllIn(text, i, i + n, k)
    ensures i + n == |text| || !InClass(text[i + n], k)
    decreases |text| - i
  {
    if i < |text| && InClass(text[i], k) then 1 + Span(text, i + 1, k) else 0
  }

  /** A run of class-`k` characters that stops at a character outside the
      class (or at the end) is exactly the greedy run. */
  lemma SpanUnique(text: string, i: nat, b: nat, k: Class)
    requires i <= b <= |text|
    requires AllIn(text, i, b, k)
    requires b == |text| || !InClass(text[b], k)
    ensures b == i + Span(text, i, k)
  {
  }

  /** A run of class-`k` characters never reaches past the greedy run. */
  lemma SpanBounds(text: string, i: nat, b: nat, k: Class)
    requires i <= b <= |text|
    requires AllIn(text, i, b, k)
    ensures b <= i + Span(text, i, k)
  {
  }

  /** The literal `w` occurs in `text` at `pos`. */
  predicate StartsWith(text: string, pos: nat, w: string)
  {
    pos + |w| <= |text| && text[pos..pos + |w|] == w
  }

  /** Python's `\b` at position `p`: a word character on exactly one side. */
  predicate WordBoundary(text: string, p: nat)
    requires p <= |text|
  {
    (0 < p && IsWordChar(text[p - 1])) != (p < |text| && IsWordChar(text[p]))
  }
}
