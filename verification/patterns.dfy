/** One hand-written matcher per regular expression of the Clingo lexer
    (pygments_clingo/clingo.py). Each takes the whole text and the cursor,
    because `(?<!:)` and `\b` look at the character before the cursor, and
    answers the length of the match at the cursor, or `None`. */
module Patterns {
  import opened Tokens
  import opened Chars

  /** A fixed literal such as `%\*`, `:-` or `#script`. */
  function Literal(text: string, pos: nat, w: string): (r: Option<nat>)
    ensures r.Some? <==> StartsWith(text, pos, w)
    ensures r.Some? ==> r.value == |w|
  {
    if StartsWith(text, pos, w) then Some(|w|) else None
  }

  /** `%.*`: a percent sign and the rest of the line, newline excluded. */
  function LineComment(text: string, pos: nat): (r: Option<nat>)
    requires pos <= |text|
    ensures r.Some? <==> pos < |text| && text[pos] == '%'
    ensures r.Some? ==> 1 <= r.value && pos + r.value <= |text|
  {
    if pos < |text| && text[pos] == '%' then Some(1 + Span(text, pos + 1, LineChars)) else None
  }

  /** A line comment runs to the end of its line: no newline inside, and a
      newline or the end of the text right after it. */
  lemma LineCommentExtent(text: string, pos: nat)
    requires pos <= |text| && LineComment(text, pos).Some?
    ensures
      var n := LineComment(text, pos).value;
      && (forall j | pos < j < pos + n :: text[j] != '\n')
      && (pos + n == |text| || text[pos + n] == '\n')
  {
  }

  /** `0x[0-9a-fA-F]+`: `0x` and the longest run of hexadecimal digits, at least one. */
  function HexNumber(text: string, pos: nat): (r: Option<nat>)
    requires pos <= |text|
    ensures r.Some? <==> StartsWith(text, pos, "0x") && pos + 2 < |text| && IsHexDigit(text[pos + 2])
    ensures r.Some? ==> 3 <= r.value && pos + r.value <= |text|
  {
    if StartsWith(text, pos, "0x") && pos + 2 < |text| && IsHexDigit(text[pos + 2])
    then Some(2 + Span(text, pos + 2, HexDigits))
    else None
  }

  /** A hexadecimal literal takes every hexadecimal digit after `0x`. */
  lemma HexNumberExtent(text: string, pos: nat)
    requires pos <= |text| && HexNumber(text, pos).Some?
    ensures
      var n := HexNumber(text, pos).value;
      && (forall j | pos + 2 <= j < pos + n :: IsHexDigit(text[j]))
      && (pos + n == |text| || !IsHexDigit(text[pos + n]))
  {
  }

  /** `\d+`: the longest run of decimal digits, at least one. */
  function DecimalNumber(text: string, pos: nat): (r: Option<nat>)
    requires pos <= |text|
    ensures r.Some? <==> pos < |text| && IsDigit(text[pos])
    ensures r.Some? ==> 1 <= r.value && pos + r.value <= |text|
  {
    var n := Span(text, pos, Digits);
    if n > 0 then Some(n) else None
  }

  /** A decimal literal takes every digit that follows. */
  lemma DecimalNumberExtent(text: string, pos: nat)
    requires pos <= |text| && DecimalNumber(text, pos).Some?
    ensures
      var n := DecimalNumber(text, pos).value;
      && (forall j | pos <= j < pos + n :: IsDigit(text[j]))
      && (pos + n == |text| || !IsDigit(text[pos + n]))
  {
  }

  /** The two delimited forms: a double-quoted string and an include path in angle brackets. */
  datatype Delimiter = Quote | Angle

  function Opener(d: Delimiter): char
  {
    match d
    case Quote => '"'
    case Angle => '<'
  }

  function Closer(d: Delimiter): char
  {
    match d
    case Quote => '"'
    case Angle => '>'
  }

  /** The characters a backslash may escape: `n`, `"`, `\` in a string;
      `>`, `"`, `\` in an include path. */
  predicate Escapable(d: Delimiter, c: char)
  {
    match d
    case Quote => c == 'n' || c == '"' || c == '\\'
    case Angle => c == '>' || c == '"' || c == '\\'
  }

  /** `(\\n|\\"|\\\\|[^\\"])*` (resp. the angle form): `s` splits into escape
      pairs and plain characters, a plain character being neither a backslash
      nor the closing delimiter. */
  predicate Body(s: string, d: Delimiter)
    decreases |s|
  {
    || |s| == 0
    || (s[0] != '\\' && s[0] != Closer(d) && Body(s[1..], d))
    || (|s| >= 2 && s[0] == '\\' && Escapable(d, s[1]) && Body(s[2..], d))
  }

  /** Scans a delimited body from `i` to its closing delimiter, left to right.
      The repetition never profits from backtracking, so this scan finds a
      closing delimiter exactly when the regular expression does. */
  function CloseFrom(text: string, i: nat, d: Delimiter): (r: Option<nat>)
    requires i <= |text|
    ensures r.Some? ==> i <= r.value < |text| && text[r.value] == Closer(d) && Body(text[i..r.value], d)
    ensures r.None? ==> forall j | i <= j < |text| && text[j] == Closer(d) :: !Body(text[i..j], d)
    decreases |text| - i
  {
    if i == |text| then None
    else if text[i] == Closer(d) then Some(i)
    else if text[i] == '\\' then
      if i + 1 < |text| && Escapable(d, text[i + 1]) then
        var r := CloseFrom(text, i + 2, d);
        BodyEscape(text, i, d, r);
        r
      else
        BodyBadEscape(text, i, d);
        None
    else
      var r := CloseFrom(text, i + 1, d);
      BodyPlain(text, i, d, r);
      r
  }

  lemma BodyEscape(text: string, i: nat, d: Delimiter, r: Option<nat>)
    requires i + 2 <= |text| && text[i] == '\\' && Escapable(d, text[i + 1])
    requires r.Some? ==> i + 2 <= r.value < |text| && Body(text[i + 2..r.value], d)
    requires r.None? ==> forall j | i + 2 <= j < |text| && text[j] == Closer(d) :: !Body(text[i + 2..j], d)
    requires Closer(d) != '\\'
    ensures r.Some? ==> Body(text[i..r.value], d)
    ensures r.None? ==> forall j | i <= j < |text| && text[j] == Closer(d) :: !Body(text[i..j], d)
  {
    if r.Some? {
      assert text[i..r.value][2..] == text[i + 2..r.value];
    }
    forall j | i <= j < |text| && text[j] == Closer(d) && Body(text[i..j], d)
      ensures r.Some?
    {
      if j >= i + 2 {
        assert text[i..j][2..] == text[i + 2..j];
      }
    }
  }

  lemma BodyBadEscape(text: string, i: nat, d: Delimiter)
    requires i < |text| && text[i] == '\\'
    requires !(i + 1 < |text| && Escapable(d, text[i + 1]))
    ensures forall j | i <= j < |text| && text[j] == Closer(d) :: !Body(text[i..j], d)
  {
    forall j | i <= j < |text| && text[j] == Closer(d)
      ensures !Body(text[i..j], d)
    {
      if j > i + 1 {
        assert text[i..j][1] == text[i + 1];
      }
    }
  }

  lemma BodyPlain(text: string, i: nat, d: Delimiter, r: Option<nat>)
    requires i < |text| && text[i] != '\\' && text[i] != Closer(d)
    requires r.Some? ==> i + 1 <= r.value < |text| && Body(text[i + 1..r.value], d)
    requires r.None? ==> forall j | i + 1 <= j < |text| && text[j] == Closer(d) :: !Body(text[i + 1..j], d)
    ensures r.Some? ==> Body(text[i..r.value], d)
    ensures r.None? ==> forall j | i <= j < |text| && text[j] == Closer(d) :: !Body(text[i..j], d)
  {
    if r.Some? {
      assert text[i..r.value][1..] == text[i + 1..r.value];
    }
    forall j | i <= j < |text| && text[j] == Closer(d) && Body(text[i..j], d)
      ensures r.Some?
    {
      assert j > i;
      assert text[i..j][1..] == text[i + 1..j];
    }
  }

  /** A delimited literal, `"(\\n|\\"|\\\\|[^\\"])*"` or `<(\\>|\\"|\\\\|[^\\>])*>`:
      the opener, a body, and the closer. */
  function Delimited(text: string, pos: nat, d: Delimiter): (r: Option<nat>)
    requires pos <= |text|
    ensures r.Some? ==> 2 <= r.value && pos + r.value <= |text| && text[pos] == Opener(d)
  {
    if pos < |text| && text[pos] == Opener(d) then
      match CloseFrom(text, pos + 1, d)
      case None => None
      case Some(j) => Some(j + 1 - pos)
    else None
  }

  /** A delimited literal is the opener, a body and the closer; it is missing
      only when no closer after the opener ends a body. */
  lemma DelimitedForm(text: string, pos: nat, d: Delimiter)
    requires pos <= |text|
    ensures
      var r := Delimited(text, pos, d);
      && (r.Some? ==> text[pos + r.value - 1] == Closer(d) && Body(text[pos + 1..pos + r.value - 1], d))
      && (r.None? ==>
            || pos == |text| || text[pos] != Opener(d)
            || forall j | pos < j < |text| && text[j] == Closer(d) :: !Body(text[pos + 1..j], d))
  {
  }

  /** The first closing delimiter after a body is the only one: an escaped
      quote (or `\>`) never ends the literal. */
  lemma {:induction false} BodyCloseUnique(text: string, i: nat, j: nat, k: nat, d: Delimiter)
    requires i <= j < |text| && i <= k < |text|
    requires text[j] == Closer(d) && Body(text[i..j], d)
    requires text[k] == Closer(d) && Body(text[i..k], d)
    ensures j == k
    decreases |text| - i
  {
    if i == j || i == k {
      // A body never starts with the closing delimiter.
    } else if text[i] == '\\' {
      assert text[i..j][1] == text[i + 1] && text[i..k][1] == text[i + 1];
      assert text[i..j][2..] == text[i + 2..j];
      assert text[i..k][2..] == text[i + 2..k];
      BodyCloseUnique(text, i + 2, j, k, d);
    } else {
      assert text[i..j][0] == text[i] && text[i..k][0] == text[i];
      assert text[i..j][1..] == text[i + 1..j];
      assert text[i..k][1..] == text[i + 1..k];
      BodyCloseUnique(text, i + 1, j, k, d);
    }
  }

  /** `((?<!:):-|(?<!:):~|\.(?!\.)|,(?!;)|;(?!;)|:(?!:))`, alternatives tried in order. */
  function Separator(text: string, pos: nat): (r: Option<nat>)
    requires pos <= |text|
    ensures r.Some? ==> 1 <= r.value <= 2 && pos + r.value <= |text|
  {
    var colonBefore := 0 < pos && text[pos - 1] == ':';
    var next := if pos + 1 < |text| then text[pos + 1] else '\0';
    var more := pos + 1 < |text|;
    if StartsWith(text, pos, ":-") && !colonBefore then Some(2)
    else if StartsWith(text, pos, ":~") && !colonBefore then Some(2)
    else if pos == |text| then None
    else if text[pos] == '.' && !(more && next == '.') then Some(1)
    else if text[pos] == ',' && !(more && next == ';') then Some(1)
    else if text[pos] == ';' && !(more && next == ';') then Some(1)
    else if text[pos] == ':' && !(more && next == ':') then Some(1)
    else None
  }

  /** Some position `e` at or after `i` holds a lower-case letter preceded only by underscores. */
  predicate LowerAfterUnderscores(text: string, i: nat)
    requires i <= |text|
  {
    exists e | i <= e < |text| :: AllIn(text, i, e, Underscores) && IsLower(text[e])
  }

  /** `\&[_]*[a-z][a-zA-Z_]*`: an ampersand, then a run of letters and
      underscores whose first letter is lower case. */
  function TheoryOperator(text: string, pos: nat): (r: Option<nat>)
    requires pos <= |text|
    ensures r.Some? ==> pos < |text| && text[pos] == '&' && 2 <= r.value && pos + r.value <= |text|
  {
    if pos < |text| && text[pos] == '&' then
      var u := Span(text, pos + 1, Underscores);
      if pos + 1 + u < |text| && IsLower(text[pos + 1 + u]) then
        Some(1 + u + 1 + Span(text, pos + 2 + u, TheoryChars))
      else None
    else None
  }

  /** The theory operator matches exactly after `&` followed by underscores
      and a lower-case letter, and then takes every letter and underscore. */
  lemma TheoryOperatorSpec(text: string, pos: nat)
    requires pos <= |text|
    ensures TheoryOperator(text, pos).Some? <==> pos < |text| && text[pos] == '&' && LowerAfterUnderscores(text, pos + 1)
    ensures
      var r := TheoryOperator(text, pos);
      r.Some? ==>
        && AllIn(text, pos + 1, pos + r.value, TheoryChars)
        && (pos + r.value == |text| || !InClass(text[pos + r.value], TheoryChars))
  {
    if pos < |text| {
      FirstAfterRun(text, pos + 1, Underscores);
    }
  }

  /** The first character after a greedy run is the only candidate for the
      character that ends a run of that class. */
  lemma FirstAfterRun(text: string, i: nat, k: Class)
    requires i <= |text|
    ensures forall e | i <= e < |text| && AllIn(text, i, e, k) && !InClass(text[e], k) :: e == i + Span(text, i, k)
  {
    forall e | i <= e < |text| && AllIn(text, i, e, k) && !InClass(text[e], k)
      ensures e == i + Span(text, i, k)
    {
      SpanUnique(text, i, e, k);
    }
  }

  /** `[/<=>+\-*\\?&@|:;~k.!]+`: the longest run of operator characters. */
  function OperatorRun(text: string, pos: nat): (r: Option<nat>)
    requires pos <= |text|
    ensures r.Some? <==> pos < |text| && IsOperatorChar(text[pos])
    ensures r.Some? ==> 1 <= r.value && pos + r.value <= |text|
  {
    var n := Span(text, pos, OperatorChars);
    if n > 0 then Some(n) else None
  }

  /** An operator run is maximal: every character of it is an operator
      character, and the one after it is not. */
  lemma OperatorRunExtent(text: string, pos: nat)
    requires pos <= |text| && OperatorRun(text, pos).Some?
    ensures
      var n := OperatorRun(text, pos).value;
      && AllIn(text, pos, pos + n, OperatorChars)
      && (pos + n == |text| || !IsOperatorChar(text[pos + n]))
  {
  }

  /** The directive keywords of the `Keyword` rule, in the order of its alternation. */
  const Directives: seq<string> :=
    ["#count", "#sum", "#min", "#max", "#show", "#const", "#edge", "#minimize",
     "#maximize", "#defined", "#heuristic", "#project", "#program", "#external",
     "#theory", "#end", "not"]

  /** The constants of the `Keyword.Constant` rule. */
  const Constants: seq<string> := ["#inf", "#sup", "#true", "#false"]

  /** The word `w` occurs at `pos` and is followed by a `\b`. */
  predicate WordAt(text: string, pos: nat, w: string)
  {
    StartsWith(text, pos, w) && WordBoundary(text, pos + |w|)
  }

  /** `(w0|w1|...)\b`: the alternation backtracks into the next alternative
      when `\b` fails, so the match is the first listed word that occurs at
      `pos` followed by a boundary. */
  function FirstWord(text: string, pos: nat, words: seq<string>, i: nat): (r: Option<nat>)
    requires i <= |words|
    ensures r.Some? ==> pos + r.value <= |text|
    decreases |words| - i
  {
    if i == |words| then None
    else if WordAt(text, pos, words[i]) then Some(|words[i]|)
    else FirstWord(text, pos, words, i + 1)
  }

  /** The alternation picks the first listed word that occurs at `pos`
      followed by a boundary, and fails only when no word does. */
  lemma {:induction false} FirstWordSpec(text: string, pos: nat, words: seq<string>, i: nat)
    requires i <= |words|
    ensures
      var r := FirstWord(text, pos, words, i);
      && (r.Some? ==> exists k | i <= k < |words| ::
            && WordAt(text, pos, words[k]) && r.value == |words[k]|
            && forall j | i <= j < k :: !WordAt(text, pos, words[j]))
      && (r.None? ==> forall k | i <= k < |words| :: !WordAt(text, pos, words[k]))
    decreases |words| - i
  {
    if i < |words| && !WordAt(text, pos, words[i]) {
      FirstWordSpec(text, pos, words, i + 1);
    }
  }

  /** Some position at or after `pos` holds a letter of the wanted case
      (`upper`) preceded only by underscores and apostrophes. */
  predicate LetterAfterLeaders(text: string, pos: nat, upper: bool)
    requires pos <= |text|
  {
    exists e | pos <= e < |text| ::
      AllIn(text, pos, e, Leaders) && (if upper then IsUpper(text[e]) else IsLower(text[e]))
  }

  /** `[_']*[A-Z][0-9a-zA-Z'_]*` (upper) and `[_']*[a-z][0-9a-zA-Z'_]*` (lower):
      underscores and apostrophes, a letter of the wanted case, then the
      longest run of identifier characters. */
  function Name(text: string, pos: nat, upper: bool): (r: Option<nat>)
    requires pos <= |text|
    ensures r.Some? ==> 1 <= r.value && pos + r.value <= |text|
  {
    var u := Span(text, pos, Leaders);
    if pos + u < |text| && (if upper then IsUpper(text[pos + u]) else IsLower(text[pos + u])) then
      Some(u + 1 + Span(text, pos + u + 1, IdentChars))
    else None
  }

  /** A name matches exactly where leaders and a letter of the wanted case
      begin, and then takes every identifier character. */
  lemma NameSpec(text: string, pos: nat, upper: bool)
    requires pos <= |text|
    ensures Name(text, pos, upper).Some? <==> LetterAfterLeaders(text, pos, upper)
    ensures
      var r := Name(text, pos, upper);
      r.Some? ==>
        && AllIn(text, pos, pos + r.value, IdentChars)
        && (pos + r.value == |text| || !InClass(text[pos + r.value], IdentChars))
  {
    FirstAfterRun(text, pos, Leaders);
  }

  /** `[^*%]+`: the longest run of comment text free of `*` and `%`. */
  function CommentChunk(text: string, pos: nat): (r: Option<nat>)
    requires pos <= |text|
    ensures r.Some? <==> pos < |text| && text[pos] != '*' && text[pos] != '%'
    ensures r.Some? ==>
      && 1 <= r.value && pos + r.value <= |text|
      && AllIn(text, pos, pos + r.value, CommentChars)
      && (pos + r.value == |text| || text[pos + r.value] == '*' || text[pos + r.value] == '%')
  {
    var n := Span(text, pos, CommentChars);
    if n > 0 then Some(n) else None
  }

  /** A one-character class such as `\s`, `_` or `[*%]`. */
  function OneChar(text: string, pos: nat, ok: char -> bool): (r: Option<nat>)
    requires pos <= |text|
    ensures r.Some? <==> pos < |text| && ok(text[pos])
    ensures r.Some? ==> r.value == 1
  {
    if pos < |text| && ok(text[pos]) then Some(1) else None
  }

  // ---------------------------------------------------------------------
  // The script rule: (?s)(\s*)(\()(python)(\))(\s*)(.*)(#end)(\s*)(\.)
  // ---------------------------------------------------------------------

  function LangName(lang: Language): string
  {
    match lang
    case Python => "python"
    case Lua => "lua"
  }

  /** Where the groups of a script-rule match sit: `open` is the `(`,
      `bodyStart..endKw` the body handed to the embedded lexer, `endKw` the
      `#end`, `dot` the final `.`. */
  datatype ScriptMatch = ScriptMatch(open: nat, bodyStart: nat, endKw: nat, dot: nat)

  /** The groups of `m` follow each other in the order of the pattern and
      leave room for its fixed parts. */
  predicate Ordered(lang: Language, text: string, pos: nat, m: ScriptMatch)
  {
    pos <= m.open && m.open + |LangName(lang)| + 2 <= m.bodyStart <= m.endKw && m.endKw + 4 <= m.dot < |text|
  }

  /** `m` is a way for the script rule to match at `pos`: every group holds
      what the pattern allows there. */
  predicate ScriptForm(lang: Language, text: string, pos: nat, m: ScriptMatch)
  {
    var name := LangName(lang);
    var after := m.open + |name| + 2;
    && Ordered(lang, text, pos, m)
    && AllIn(text, pos, m.open, Spaces)
    && StartsWith(text, m.open, "(" + name + ")")
    && AllIn(text, after, m.bodyStart, Spaces)
    && StartsWith(text, m.endKw, "#end")
    && AllIn(text, m.endKw + 4, m.dot, Spaces)
    && text[m.dot] == '.'
  }

  /** `#end\s*\.` occurs at `e`. */
  predicate EndsBlockAt(text: string, e: nat)
  {
    StartsWith(text, e, "#end") &&
    var f := e + 4 + Span(text, e + 4, Spaces);
    f < |text| && text[f] == '.'
  }

  /** The last `e` in `lo..hi` where `#end\s*\.` occurs: where the greedy `.*`
      of the body, backtracking from the end of the text, first lets the
      rest of the pattern match. */
  function LastBlockEnd(text: string, lo: nat, hi: nat): (r: Option<nat>)
    requires lo <= hi <= |text|
    ensures r.Some? ==>
      && lo <= r.value < hi && EndsBlockAt(text, r.value)
      && forall e | r.value < e < hi :: !EndsBlockAt(text, e)
    ensures r.None? ==> forall e | lo <= e < hi :: !EndsBlockAt(text, e)
    decreases hi - lo
  {
    if hi == lo then None
    else if EndsBlockAt(text, hi - 1) then Some(hi - 1)
    else LastBlockEnd(text, lo, hi - 1)
  }

  /** Whatever way the script rule matches, its `(` is the first non-space
      character at or after `pos`. */
  lemma OpenIsFirstNonSpace(lang: Language, text: string, pos: nat, m: ScriptMatch)
    requires pos <= |text| && ScriptForm(lang, text, pos, m)
    ensures m.open == pos + Span(text, pos, Spaces)
  {
    assert text[m.open] == ("(" + LangName(lang) + ")")[0];
    SpanUnique(text, pos, m.open, Spaces);
  }

  /** Whatever way the script rule matches, its body starts inside or right
      after the greedy run of spaces behind `)`, and its `#end` lies beyond
      that run. */
  lemma BodyAfterSpaces(lang: Language, text: string, pos: nat, m: ScriptMatch)
    requires pos <= |text| && ScriptForm(lang, text, pos, m)
    ensures
      var after := m.open + |LangName(lang)| + 2;
      && m.bodyStart <= after + Span(text, after, Spaces)
      && after + Span(text, after, Spaces) <= m.endKw
  {
    var after := m.open + |LangName(lang)| + 2;
    SpanBounds(text, after, m.bodyStart, Spaces);
    assert text[m.endKw] == "#end"[0];
    assert !InClass(text[m.endKw], Spaces);
  }

  /** Whatever way the script rule matches, `#end\s*\.` occurs at its `#end`. */
  lemma EndKeywordEndsBlock(lang: Language, text: string, pos: nat, m: ScriptMatch)
    requires pos <= |text| && ScriptForm(lang, text, pos, m)
    ensures EndsBlockAt(text, m.endKw)
  {
    SpanUnique(text, m.endKw + 4, m.dot, Spaces);
  }

  /** The script rule for `lang` at `pos`: the `(` after the leading spaces,
      then the rest of the block as `MatchBlock` finds it. */
  function MatchScript(lang: Language, text: string, pos: nat): Option<ScriptMatch>
    requires pos <= |text|
  {
    var open := pos + Span(text, pos, Spaces);
    if StartsWith(text, open, "(" + LangName(lang) + ")") then
      MatchBlock(text, open, open + |LangName(lang)| + 2)
    else None
  }

  /** The script rule once `(name)` has matched up to `after`: the body
      starts behind the greedy spaces and ends at the last `#end\s*\.` of
      the text, where Python's backtracking out of the greedy `.*` stops. */
  function MatchBlock(text: string, open: nat, after: nat): Option<ScriptMatch>
    requires after <= |text|
  {
    var bodyStart := after + Span(text, after, Spaces);
    match LastBlockEnd(text, bodyStart, |text|)
    case None => None
    case Some(e) =>
      Some(ScriptMatch(open, bodyStart, e, e + 4 + Span(text, e + 4, Spaces)))
  }

  /** What the script rule matches is a way for it to match. */
  lemma MatchScriptForm(lang: Language, text: string, pos: nat)
    requires pos <= |text|
    ensures MatchScript(lang, text, pos).Some? ==> ScriptForm(lang, text, pos, MatchScript(lang, text, pos).value)
  {
    hide LastBlockEnd;
  }

  /** The script rule matches whenever some way of matching exists, and of all
      the ways it picks the one with the longest leading body whitespace and
      the last `#end\s*\.`: a greedy group never gives back more than the
      rest of the pattern needs. */
  lemma MatchScriptGreedy(lang: Language, text: string, pos: nat, m: ScriptMatch)
    requires pos <= |text| && ScriptForm(lang, text, pos, m)
    ensures MatchScript(lang, text, pos).Some?
    ensures m.bodyStart <= MatchScript(lang, text, pos).value.bodyStart
    ensures m.endKw <= MatchScript(lang, text, pos).value.endKw
  {
    OpenIsFirstNonSpace(lang, text, pos, m);
    BodyAfterSpaces(lang, text, pos, m);
    EndKeywordEndsBlock(lang, text, pos, m);
    GreedyChoice(lang, text, pos, m.open, m.bodyStart, m.endKw);
  }

  lemma GreedyChoice(lang: Language, text: string, pos: nat, open: nat, bodyStart: nat, endKw: nat)
    requires pos <= |text| && open == pos + Span(text, pos, Spaces)
    requires StartsWith(text, open, "(" + LangName(lang) + ")")
    requires
      var after := open + |LangName(lang)| + 2;
      bodyStart <= after + Span(text, after, Spaces) <= endKw < |text|
    requires EndsBlockAt(text, endKw)
    ensures MatchScript(lang, text, pos).Some?
    ensures bodyStart <= MatchScript(lang, text, pos).value.bodyStart
    ensures endKw <= MatchScript(lang, text, pos).value.endKw
  {
    hide StartsWith, Span, MatchBlock, LastBlockEnd, EndsBlockAt, AllIn, InClass;
    var after := open + |LangName(lang)| + 2;
    BlockChoice(text, open, after, endKw);
    assert MatchScript(lang, text, pos) == MatchBlock(text, open, after);
  }

  /** Behind `(name)` the block is found as soon as some `#end\s*\.`
      follows the spaces, and its `#end` is the last one. */
  lemma BlockChoice(text: string, open: nat, after: nat, endKw: nat)
    requires after <= |text| && after + Span(text, after, Spaces) <= endKw < |text| && EndsBlockAt(text, endKw)
    ensures MatchBlock(text, open, after).Some?
    ensures MatchBlock(text, open, after).value.bodyStart == after + Span(text, after, Spaces)
    ensures endKw <= MatchBlock(text, open, after).value.endKw
  {
    LastBlockEndIsLast(text, after + Span(text, after, Spaces), |text|, endKw);
  }


  /** Every occurrence of `#end\s*\.` in the range is at or before the last one. */
  lemma LastBlockEndIsLast(text: string, lo: nat, hi: nat, e: nat)
    requires lo <= e < hi <= |text| && EndsBlockAt(text, e)
    ensures LastBlockEnd(text, lo, hi).Some? && e <= LastBlockEnd(text, lo, hi).value
  {
  }
}
