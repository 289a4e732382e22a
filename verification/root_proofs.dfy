/** How the `root` state classifies what it sees: which rule fires on which
    characters, given that the first rule of the table that matches wins. */
module RootProofs {
  import opened Tokens
  import opened Chars
  import Patterns
  import opened Lexer
  import opened LexerProofs

  /** The characters a match of `p` can begin with. */
  predicate MayStart(p: Pattern, c: char)
  {
    match p
    case CommentOpen => c == '%'
    case LineComment => c == '%'
    case HexNumber => c == '0'
    case DecimalNumber => IsDigit(c)
    case QuotedString => c == '"'
    case RuleArrow => c == ':'
    case Bracket => IsBracket(c)
    case Separator => c == '.' || c == ',' || c == ';' || c == ':'
    case TheoryOperator => c == '&'
    case OperatorRun => IsOperatorChar(c)
    case Directive => c == '#' || c == 'n'
    case ScriptDirective => c == '#'
    case IncludeDirective => c == '#'
    case ConstantWord => c == '#'
    case Variable => c == '_' || c == '\'' || IsUpper(c)
    case Anonymous => c == '_'
    case Identifier => c == '_' || c == '\'' || IsLower(c)
    case Whitespace => IsSpace(c)
    case AnglePath => c == '<'
    case Nothing => true
    case CommentClose => c == '*'
    case CommentChunk => c != '*' && c != '%'
    case CommentMarker => c == '*' || c == '%'
  }

  lemma StartsWithHead(text: string, pos: nat, w: string)
    requires StartsWith(text, pos, w) && |w| > 0
    ensures pos < |text| && text[pos] == w[0]
  {
    assert text[pos..pos + |w|][0] == text[pos];
  }

  /** A literal that occurs at `pos` fixes the characters there. */
  lemma StartsWithAt(text: string, pos: nat, w: string, i: nat)
    requires StartsWith(text, pos, w) && i < |w|
    ensures pos + i < |text| && text[pos + i] == w[i]
  {
    assert text[pos..pos + |w|][i] == text[pos + i];
  }

  /** A literal does not occur where one of its characters is missing. */
  lemma NotStartsWith(text: string, pos: nat, w: string, i: nat)
    requires i < |w| && pos + i < |text| && text[pos + i] != w[i]
    ensures !StartsWith(text, pos, w)
  {
    assert pos + |w| <= |text| ==> text[pos..pos + |w|][i] == text[pos + i];
  }

  /** `a` and `b` differ at some index from `i` on that both reach. */
  predicate Disagree(a: string, b: string, i: nat)
    decreases |a| - i
  {
    i < |a| && i < |b| && (a[i] != b[i] || Disagree(a, b, i + 1))
  }

  lemma {:induction false} DisagreeIndex(a: string, b: string, i: nat)
    requires Disagree(a, b, i)
    ensures exists j | i <= j < |a| && j < |b| :: a[j] != b[j]
    decreases |a| - i
  {
    if a[i] == b[i] {
      DisagreeIndex(a, b, i + 1);
    }
  }

  /** Two literals that disagree cannot both occur at the same place. */
  lemma DisagreeExcludes(text: string, pos: nat, a: string, b: string)
    requires StartsWith(text, pos, a) && Disagree(a, b, 0)
    ensures !StartsWith(text, pos, b)
  {
    DisagreeIndex(a, b, 0);
    var j :| 0 <= j < |a| && j < |b| && a[j] != b[j];
    StartsWithAt(text, pos, a, j);
    NotStartsWith(text, pos, b, j);
  }

  /** No word of an alternation matches where a literal disagreeing with
      all of them occurs. */
  lemma WordsExcluded(text: string, pos: nat, a: string, words: seq<string>)
    requires StartsWith(text, pos, a)
    requires forall k | 0 <= k < |words| :: Disagree(a, words[k], 0)
    ensures Patterns.FirstWord(text, pos, words, 0).None?
  {
    Patterns.FirstWordSpec(text, pos, words, 0);
    forall k | 0 <= k < |words|
      ensures !Patterns.WordAt(text, pos, words[k])
    {
      DisagreeExcludes(text, pos, a, words[k]);
    }
  }

  /** Every directive but `not` starts with `#`; every constant does. */
  lemma WordHeads()
    ensures forall k | 0 <= k < |Patterns.Directives| ::
      (|Patterns.Directives[k]| > 0 && (Patterns.Directives[k][0] == '#' || Patterns.Directives[k] == "not"))
    ensures forall k | 0 <= k < |Patterns.Constants| :: |Patterns.Constants[k]| > 0 && Patterns.Constants[k][0] == '#'
  {
  }

  /** A word of the alternation that matches begins the text at `pos`. */
  lemma FirstWordHead(text: string, pos: nat, words: seq<string>)
    requires forall k | 0 <= k < |words| :: |words[k]| > 0
    requires Patterns.FirstWord(text, pos, words, 0).Some?
    ensures exists k | 0 <= k < |words| :: pos < |text| && text[pos] == words[k][0]
  {
    Patterns.FirstWordSpec(text, pos, words, 0);
    var k :| 0 <= k < |words| && Patterns.WordAt(text, pos, words[k]);
    StartsWithHead(text, pos, words[k]);
  }

  /** A name begins with a leader or with its letter. */
  lemma NameHead(text: string, pos: nat, upper: bool)
    requires pos <= |text| && Patterns.LetterAfterLeaders(text, pos, upper)
    ensures pos < |text| && (InClass(text[pos], Leaders) || (if upper then IsUpper(text[pos]) else IsLower(text[pos])))
  {
    var e :| pos <= e < |text| && AllIn(text, pos, e, Leaders) && (if upper then IsUpper(text[e]) else IsLower(text[e]));
  }

  /** Whatever `p` matches at `pos` begins with one of its first characters. */
  lemma MatchHead(p: Pattern, text: string, pos: nat)
    requires pos < |text| && MatchPattern(p, text, pos).Some?
    ensures MayStart(p, text[pos])
  {
    match p
    case CommentOpen => StartsWithHead(text, pos, "%*");
    case HexNumber => StartsWithHead(text, pos, "0x");
    case RuleArrow => StartsWithHead(text, pos, ":-");
    case Separator =>
      if StartsWith(text, pos, ":-") { StartsWithHead(text, pos, ":-"); }
      if StartsWith(text, pos, ":~") { StartsWithHead(text, pos, ":~"); }
    case Directive =>
      WordHeads();
      FirstWordHead(text, pos, Patterns.Directives);
    case ScriptDirective => StartsWithHead(text, pos, "#script");
    case IncludeDirective => StartsWithHead(text, pos, "#include");
    case ConstantWord =>
      WordHeads();
      FirstWordHead(text, pos, Patterns.Constants);
    case Variable =>
      Patterns.NameSpec(text, pos, true);
      NameHead(text, pos, true);
    case Identifier =>
      Patterns.NameSpec(text, pos, false);
      NameHead(text, pos, false);
    case CommentClose => StartsWithHead(text, pos, "*%");
    case _ =>
  }

  // ---------------------------------------------------------------------
  // First match in `root`
  // ---------------------------------------------------------------------

  /** The characters a match of rule `r` can begin with; a script block
      begins with white space or its `(`. */
  predicate RuleMayStart(r: Rule, c: char)
  {
    match r
    case Simple(p, _, _) => MayStart(p, c)
    case ScriptBlock(_) => IsSpace(c) || c == '('
  }

  /** A script block begins with white space or with the `(` of its language name. */
  lemma ScriptHead(lang: Language, text: string, pos: nat)
    requires pos < |text| && Patterns.MatchScript(lang, text, pos).Some?
    ensures IsSpace(text[pos]) || text[pos] == '('
  {
    Patterns.MatchScriptForm(lang, text, pos);
    var m := Patterns.MatchScript(lang, text, pos).value;
    if m.open == pos {
      StartsWithHead(text, pos, "(" + Patterns.LangName(lang) + ")");
    }
  }

  /** A rule that cannot begin with the character at `pos` does not match there. */
  lemma RuleMisses(r: Rule, text: string, pos: nat, sub: SubLexer)
    requires pos < |text| && !RuleMayStart(r, text[pos])
    ensures ApplyRule(r, text, pos, sub).None?
  {
    match r
    case Simple(p, _, _) =>
      if MatchPattern(p, text, pos).Some? {
        MatchHead(p, text, pos);
      }
    case ScriptBlock(lang) =>
      if Patterns.MatchScript(lang, text, pos).Some? {
        ScriptHead(lang, text, pos);
      }
  }

  /** A plain rule whose pattern matches `n` characters emits them as one
      token of its kind and makes its transition. */
  lemma SimpleFire(r: Rule, n: nat, text: string, pos: nat, stack: seq<State>, sub: SubLexer)
    requires pos <= |text| && |stack| > 0 && r.Simple? && MatchPattern(r.pattern, text, pos) == Some(n)
    ensures pos + n <= |text| && ApplyRule(r, text, pos, sub).Some?
    ensures Fire(ApplyRule(r, text, pos, sub).value, pos, stack)
         == Move([Token(pos, r.kind, text[pos..pos + n])], pos + n, Transit(stack, r.transition))
  {
  }

  /** No rule of `root` before the `k`-th matches when each either cannot
      begin with the character at `pos` or is one of the rules `xs`, which
      do not match. */
  lemma MissesBelow(k: nat, xs: set<nat>, text: string, pos: nat, sub: SubLexer)
    requires pos < |text| && k <= |RootRules()|
    requires forall j | 0 <= j < k && j !in xs :: !RuleMayStart(RootRules()[j], text[pos])
    requires forall x | x in xs && x < k :: ApplyRule(RootRules()[x], text, pos, sub).None?
    ensures forall j | 0 <= j < k :: ApplyRule(Rules(Root)[j], text, pos, sub).None?
  {
    forall j | 0 <= j < k
      ensures ApplyRule(RootRules()[j], text, pos, sub).None?
    {
      if j !in xs {
        RuleMisses(RootRules()[j], text, pos, sub);
      }
    }
  }

  /** In `root`, rule `k` fires when it matches and no earlier rule does. */
  lemma RootAt(k: nat, xs: set<nat>, text: string, pos: nat, stack: seq<State>, sub: SubLexer)
    requires pos < |text| && ValidStack(stack) && Top(stack) == Root && k < |RootRules()|
    requires forall j | 0 <= j < k && j !in xs :: !RuleMayStart(RootRules()[j], text[pos])
    requires forall x | x in xs && x < k :: ApplyRule(RootRules()[x], text, pos, sub).None?
    requires ApplyRule(Rules(Root)[k], text, pos, sub).Some?
    ensures Step(text, pos, stack, sub) == Some(Fire(ApplyRule(Rules(Root)[k], text, pos, sub).value, pos, stack))
  {
    MissesBelow(k, xs, text, pos, sub);
    DispatchFires(Root, 0, k, text, pos, stack, sub);
  }

  /** In `root`, when the `k`-th rule is the plain rule `(p, kind, t)`, its
      pattern matches `n` characters, and every earlier rule either cannot
      begin with the character at `pos` or is one of the rules `xs`, which do
      not match, the turn emits those characters as one token of kind `kind`
      and makes transition `t`. */
  lemma RootFire(k: nat, p: Pattern, kind: Kind, t: Transition, xs: set<nat>, n: nat,
                 text: string, pos: nat, stack: seq<State>, sub: SubLexer)
    requires pos < |text| && ValidStack(stack) && Top(stack) == Root && k < |RootRules()|
    requires RootRules()[k] == Simple(p, kind, t)
    requires forall j | 0 <= j < k && j !in xs :: !RuleMayStart(RootRules()[j], text[pos])
    requires forall x | x in xs && x < k :: ApplyRule(RootRules()[x], text, pos, sub).None?
    requires MatchPattern(p, text, pos) == Some(n)
    ensures pos + n <= |text|
    ensures Step(text, pos, stack, sub) == Some(Move([Token(pos, kind, text[pos..pos + n])], pos + n, Transit(stack, t)))
  {
    hide Step, ApplyRule, RuleMayStart, MatchPattern;
    SimpleFire(RootRules()[k], n, text, pos, stack, sub);
    RootAt(k, xs, text, pos, stack, sub);
  }

  /** In `root`, a character that no rule can begin with, apart from the
      rules `xs`, which do not match, becomes one `Error` token. */
  lemma RootFails(xs: set<nat>, text: string, pos: nat, stack: seq<State>, sub: SubLexer)
    requires pos < |text| && ValidStack(stack) && Top(stack) == Root
    requires forall j | 0 <= j < |RootRules()| && j !in xs :: !RuleMayStart(RootRules()[j], text[pos])
    requires forall x | x in xs && x < |RootRules()| :: ApplyRule(RootRules()[x], text, pos, sub).None?
    ensures Step(text, pos, stack, sub) == Some(Move([Token(pos, Error, [text[pos]])], pos + 1, stack))
  {
    hide Step, Dispatch, ApplyRule, RuleMayStart;
    MissesBelow(|RootRules()|, xs, text, pos, sub);
    StepFails(text, pos, stack, sub);
    assert text[pos..pos + 1] == [text[pos]];
  }

  /** No pattern but the empty one matches at the end of the text. */
  lemma MatchAtEnd(p: Pattern, text: string)
    requires p != Nothing
    ensures MatchPattern(p, text, |text|).None?
  {
    match p
    case Directive =>
      WordHeads();
      Patterns.FirstWordSpec(text, |text|, Patterns.Directives, 0);
    case ConstantWord =>
      WordHeads();
      Patterns.FirstWordSpec(text, |text|, Patterns.Constants, 0);
    case Variable => Patterns.NameSpec(text, |text|, true);
    case Identifier => Patterns.NameSpec(text, |text|, false);
    case _ =>
  }

  /** Only an empty fallback matches at the end of the text. */
  lemma RuleMissesAtEnd(r: Rule, text: string, sub: SubLexer)
    requires !(r.Simple? && r.pattern == Nothing)
    ensures ApplyRule(r, text, |text|, sub).None?
  {
    match r
    case Simple(p, _, _) => MatchAtEnd(p, text);
    case ScriptBlock(lang) => Patterns.MatchScriptForm(lang, text, |text|);
  }

  /** `root` has no empty fallback. */
  lemma RootHasNoFallback()
    ensures forall j | 0 <= j < |RootRules()| :: !(RootRules()[j].Simple? && RootRules()[j].pattern == Nothing)
  {
  }

  /** No rule of `root` matches at the end of the text. */
  lemma MissesAtEnd(text: string, stack: seq<State>, sub: SubLexer)
    requires ValidStack(stack) && Top(stack) == Root
    ensures forall j | 0 <= j < |Rules(Top(stack))| :: ApplyRule(Rules(Top(stack))[j], text, |text|, sub).None?
  {
    RootHasNoFallback();
    forall j | 0 <= j < |RootRules()|
      ensures ApplyRule(RootRules()[j], text, |text|, sub).None?
    {
      RuleMissesAtEnd(RootRules()[j], text, sub);
    }
  }

  /** In `root` the loop stops at the end of the text: nothing is emitted
      there, not even an empty token. */
  lemma RootEnd(text: string, stack: seq<State>, sub: SubLexer)
    requires ValidStack(stack) && Top(stack) == Root
    ensures Step(text, |text|, stack, sub).None?
    ensures Lex(text, |text|, stack, sub) == []
  {
    hide *;
    MissesAtEnd(text, stack, sub);
    StepAtEnd(text, stack, sub);
    LexStops(text, |text|, stack, sub);
  }

  // ---------------------------------------------------------------------
  // The rows of the `root` table, one at a time
  // ---------------------------------------------------------------------

  lemma Row0() ensures RootRules()[0] == Simple(CommentOpen, CommentMultiline, Enter(NestedComment)) { }
  lemma Row1() ensures RootRules()[1] == Simple(LineComment, CommentSingle, Stay) { }
  lemma Row2() ensures RootRules()[2] == Simple(HexNumber, NumberHex, Stay) { }
  lemma Row3() ensures RootRules()[3] == Simple(DecimalNumber, NumberInteger, Stay) { }
  lemma Row4() ensures RootRules()[4] == Simple(QuotedString, StringDouble, Stay) { }
  lemma Row5() ensures RootRules()[5] == Simple(RuleArrow, Punctuation, Stay) { }
  lemma Row6() ensures RootRules()[6] == Simple(Bracket, Punctuation, Stay) { }
  lemma Row7() ensures RootRules()[7] == Simple(Separator, Punctuation, Stay) { }
  lemma Row8() ensures RootRules()[8] == Simple(TheoryOperator, Keyword, Stay) { }
  lemma Row9() ensures RootRules()[9] == Simple(OperatorRun, Operator, Stay) { }
  lemma Row10() ensures RootRules()[10] == Simple(Directive, Keyword, Stay) { }
  lemma Row11() ensures RootRules()[11] == Simple(ScriptDirective, Keyword, Enter(Script)) { }
  lemma Row12() ensures RootRules()[12] == Simple(IncludeDirective, Keyword, Enter(Include)) { }
  lemma Row13() ensures RootRules()[13] == Simple(ConstantWord, KeywordConstant, Stay) { }
  lemma Row14() ensures RootRules()[14] == Simple(Variable, NameVariable, Stay) { }
  lemma Row15() ensures RootRules()[15] == Simple(Anonymous, NameVariable, Stay) { }
  lemma Row16() ensures RootRules()[16] == Simple(Identifier, Text, Stay) { }
  lemma Row17() ensures RootRules()[17] == Simple(Whitespace, Text, Stay) { }

  // ---------------------------------------------------------------------
  // Which earlier rules a character rules out
  // ---------------------------------------------------------------------

  lemma ZeroHeads()
    ensures forall j | 0 <= j < 2 :: !RuleMayStart(RootRules()[j], '0')
  {
  }

  lemma DigitHeads(c: char)
    requires IsDigit(c)
    ensures forall j | 0 <= j < 3 && j !in {2} :: !RuleMayStart(RootRules()[j], c)
  {
  }

  lemma QuoteHeads()
    ensures forall j | 0 <= j < 4 :: !RuleMayStart(RootRules()[j], '"')
  {
  }

  lemma StrayQuoteHeads()
    ensures forall j | 0 <= j < |RootRules()| && j !in {4} :: !RuleMayStart(RootRules()[j], '"')
  {
  }

  lemma ColonHeads()
    ensures forall j | 0 <= j < 5 :: !RuleMayStart(RootRules()[j], ':')
  {
  }

  lemma BracketHeads(c: char)
    requires IsBracket(c)
    ensures forall j | 0 <= j < 6 :: !RuleMayStart(RootRules()[j], c)
  {
  }

  lemma SeparatorHeads(c: char)
    requires c == '.' || c == ',' || c == ';' || c == ':'
    ensures forall j | 0 <= j < 7 && j !in {5} :: !RuleMayStart(RootRules()[j], c)
  {
  }

  lemma CommaHeads()
    ensures forall j | 0 <= j < |RootRules()| && j !in {7} :: !RuleMayStart(RootRules()[j], ',')
  {
  }

  lemma AmpersandHeads()
    ensures forall j | 0 <= j < 8 :: !RuleMayStart(RootRules()[j], '&')
  {
  }

  lemma AmpersandRunHeads()
    ensures forall j | 0 <= j < 9 && j !in {8} :: !RuleMayStart(RootRules()[j], '&')
  {
  }

  lemma OperatorHeads(c: char)
    requires IsOperatorChar(c) && c != '.' && c != ':' && c != ';' && c != '&'
    ensures forall j | 0 <= j < 9 :: !RuleMayStart(RootRules()[j], c)
  {
  }

  lemma DoubledHeads(c: char)
    requires c == '.' || c == ':' || c == ';'
    ensures forall j | 0 <= j < 9 && j !in {5, 7} :: !RuleMayStart(RootRules()[j], c)
  {
  }

  lemma DirectiveHeads(c: char)
    requires c == '#' || c == 'n'
    ensures forall j | 0 <= j < 10 :: !RuleMayStart(RootRules()[j], c)
  {
  }

  lemma ScriptHashHeads()
    ensures forall j | 0 <= j < 11 && j !in {10} :: !RuleMayStart(RootRules()[j], '#')
  {
  }

  lemma IncludeHashHeads()
    ensures forall j | 0 <= j < 12 && j !in {10, 11} :: !RuleMayStart(RootRules()[j], '#')
  {
  }

  lemma ConstantHashHeads()
    ensures forall j | 0 <= j < 13 && j !in {10, 11, 12} :: !RuleMayStart(RootRules()[j], '#')
  {
  }

  lemma StrayHashHeads()
    ensures forall j | 0 <= j < |RootRules()| && j !in {10, 11, 12, 13} :: !RuleMayStart(RootRules()[j], '#')
  {
  }

  lemma VariableHeads(c: char)
    requires c == '_' || c == '\'' || IsUpper(c)
    ensures forall j | 0 <= j < 14 :: !RuleMayStart(RootRules()[j], c)
  {
  }

  lemma UnderscoreHeads()
    ensures forall j | 0 <= j < 15 && j !in {14} :: !RuleMayStart(RootRules()[j], '_')
  {
  }

  lemma IdentifierHeads(c: char)
    requires (c == '\'' || IsLower(c)) && c != 'k'
    ensures forall j | 0 <= j < 16 && j !in {10, 14} :: !RuleMayStart(RootRules()[j], c)
  {
  }

  lemma SpaceHeads(c: char)
    requires IsSpace(c)
    ensures forall j | 0 <= j < 17 :: !RuleMayStart(RootRules()[j], c)
  {
  }

  /** The characters that begin no token of `root`. */
  predicate Stray(c: char)
  {
    && !IsOperatorChar(c) && !IsBracket(c) && !IsDigit(c) && !IsUpper(c) && !IsLower(c) && !IsSpace(c)
    && c != '%' && c != '"' && c != '#' && c != ',' && c != '_' && c != '\''
  }

  lemma StrayHeads(c: char)
    requires Stray(c)
    ensures forall j | 0 <= j < |RootRules()| :: !RuleMayStart(RootRules()[j], c)
  {
  }


  // ---------------------------------------------------------------------
  // Single rows of `root`: when each matches, and when it misses
  // ---------------------------------------------------------------------

  lemma TransitStay(stack: seq<State>)
    requires |stack| > 0
    ensures Transit(stack, Stay) == stack
  {
  }

  lemma TransitEnter(stack: seq<State>, s: State)
    requires |stack| > 0
    ensures Transit(stack, Enter(s)) == stack + [s]
  {
  }

  lemma Hit0(text: string, pos: nat)
    requires StartsWith(text, pos, "%*")
    ensures pos + 2 <= |text| && MatchPattern(CommentOpen, text, pos) == Some(2)
  {
  }

  lemma Hit1(n: nat, text: string, pos: nat)
    requires pos <= |text| && Patterns.LineComment(text, pos) == Some(n)
    ensures MatchPattern(LineComment, text, pos) == Some(n)
  {
  }

  lemma Hit2(n: nat, text: string, pos: nat)
    requires pos <= |text| && Patterns.HexNumber(text, pos) == Some(n)
    ensures MatchPattern(HexNumber, text, pos) == Some(n)
  {
  }

  lemma Hit3(n: nat, text: string, pos: nat)
    requires pos <= |text| && Patterns.DecimalNumber(text, pos) == Some(n)
    ensures MatchPattern(DecimalNumber, text, pos) == Some(n)
  {
  }

  lemma Hit4(n: nat, text: string, pos: nat)
    requires pos <= |text| && Patterns.Delimited(text, pos, Patterns.Quote) == Some(n)
    ensures MatchPattern(QuotedString, text, pos) == Some(n)
  {
  }

  lemma Hit5(text: string, pos: nat)
    requires StartsWith(text, pos, ":-")
    ensures pos + 2 <= |text| && MatchPattern(RuleArrow, text, pos) == Some(2)
  {
  }

  lemma Hit6(text: string, pos: nat)
    requires pos < |text| && IsBracket(text[pos])
    ensures MatchPattern(Bracket, text, pos) == Some(1)
  {
  }

  lemma Hit7(n: nat, text: string, pos: nat)
    requires pos <= |text| && Patterns.Separator(text, pos) == Some(n)
    ensures MatchPattern(Separator, text, pos) == Some(n)
  {
  }

  lemma Hit8(n: nat, text: string, pos: nat)
    requires pos <= |text| && Patterns.TheoryOperator(text, pos) == Some(n)
    ensures MatchPattern(TheoryOperator, text, pos) == Some(n)
  {
  }

  lemma Hit9(text: string, pos: nat)
    requires pos < |text| && IsOperatorChar(text[pos])
    ensures
      var n := Span(text, pos, OperatorChars);
      && 1 <= n && AllIn(text, pos, pos + n, OperatorChars)
      && (pos + n == |text| || !IsOperatorChar(text[pos + n]))
      && MatchPattern(OperatorRun, text, pos) == Some(n)
  {
    assert InClass(text[pos], OperatorChars);
  }

  lemma Hit10(n: nat, text: string, pos: nat)
    requires pos <= |text| && Patterns.FirstWord(text, pos, Patterns.Directives, 0) == Some(n)
    ensures MatchPattern(Directive, text, pos) == Some(n)
  {
  }

  lemma Hit11(text: string, pos: nat)
    requires StartsWith(text, pos, "#script")
    ensures pos + 7 <= |text| && MatchPattern(ScriptDirective, text, pos) == Some(7)
  {
  }

  lemma Hit12(text: string, pos: nat)
    requires pos <= |text| && Patterns.WordAt(text, pos, "#include")
    ensures MatchPattern(IncludeDirective, text, pos) == Some(8)
  {
  }

  lemma Hit13(n: nat, text: string, pos: nat)
    requires pos <= |text| && Patterns.FirstWord(text, pos, Patterns.Constants, 0) == Some(n)
    ensures MatchPattern(ConstantWord, text, pos) == Some(n)
  {
  }

  lemma Hit14(n: nat, text: string, pos: nat)
    requires pos <= |text| && Patterns.Name(text, pos, true) == Some(n)
    ensures MatchPattern(Variable, text, pos) == Some(n)
  {
  }

  lemma Hit15(text: string, pos: nat)
    requires pos < |text| && text[pos] == '_'
    ensures MatchPattern(Anonymous, text, pos) == Some(1)
  {
  }

  lemma Hit16(n: nat, text: string, pos: nat)
    requires pos <= |text| && Patterns.Name(text, pos, false) == Some(n)
    ensures MatchPattern(Identifier, text, pos) == Some(n)
  {
  }

  lemma Hit17(text: string, pos: nat)
    requires pos < |text| && IsSpace(text[pos])
    ensures MatchPattern(Whitespace, text, pos) == Some(1)
  {
  }

  lemma Miss0(text: string, pos: nat, sub: SubLexer)
    requires pos <= |text| && !StartsWith(text, pos, "%*")
    ensures ApplyRule(RootRules()[0], text, pos, sub).None?
  {
    Row0();
  }

  lemma Miss2(text: string, pos: nat, sub: SubLexer)
    requires pos <= |text| && !(StartsWith(text, pos, "0x") && pos + 2 < |text| && IsHexDigit(text[pos + 2]))
    ensures ApplyRule(RootRules()[2], text, pos, sub).None?
  {
    Row2();
  }

  lemma Miss4(text: string, pos: nat, sub: SubLexer)
    requires pos <= |text| && Patterns.Delimited(text, pos, Patterns.Quote).None?
    ensures ApplyRule(RootRules()[4], text, pos, sub).None?
  {
    Row4();
  }

  lemma Miss5(text: string, pos: nat, sub: SubLexer)
    requires pos <= |text| && !StartsWith(text, pos, ":-")
    ensures ApplyRule(RootRules()[5], text, pos, sub).None?
  {
    Row5();
  }

  lemma Miss7(text: string, pos: nat, sub: SubLexer)
    requires pos <= |text| && Patterns.Separator(text, pos).None?
    ensures ApplyRule(RootRules()[7], text, pos, sub).None?
  {
    Row7();
  }

  lemma Miss8(text: string, pos: nat, sub: SubLexer)
    requires pos <= |text| && Patterns.TheoryOperator(text, pos).None?
    ensures ApplyRule(RootRules()[8], text, pos, sub).None?
  {
    Row8();
  }

  lemma Miss10(text: string, pos: nat, sub: SubLexer)
    requires pos <= |text| && Patterns.FirstWord(text, pos, Patterns.Directives, 0).None?
    ensures ApplyRule(RootRules()[10], text, pos, sub).None?
  {
    Row10();
  }

  lemma Miss11(text: string, pos: nat, sub: SubLexer)
    requires pos <= |text| && !StartsWith(text, pos, "#script")
    ensures ApplyRule(RootRules()[11], text, pos, sub).None?
  {
    Row11();
  }

  lemma Miss12(text: string, pos: nat, sub: SubLexer)
    requires pos <= |text| && !Patterns.WordAt(text, pos, "#include")
    ensures ApplyRule(RootRules()[12], text, pos, sub).None?
  {
    Row12();
  }

  lemma Miss13(text: string, pos: nat, sub: SubLexer)
    requires pos <= |text| && Patterns.FirstWord(text, pos, Patterns.Constants, 0).None?
    ensures ApplyRule(RootRules()[13], text, pos, sub).None?
  {
    Row13();
  }

  lemma Miss14(text: string, pos: nat, sub: SubLexer)
    requires pos <= |text| && Patterns.Name(text, pos, true).None?
    ensures ApplyRule(RootRules()[14], text, pos, sub).None?
  {
    Row14();
  }

  // ---------------------------------------------------------------------
  // Comments
  // ---------------------------------------------------------------------

  /** `%*` opens a block comment: one `Comment.Multiline` token, and the
      lexer enters `nested-comment`. */
  lemma CommentOpenStep(text: string, pos: nat, stack: seq<State>, sub: SubLexer)
    requires ValidStack(stack) && Top(stack) == Root && StartsWith(text, pos, "%*")
    ensures Step(text, pos, stack, sub) == Some(Move([Token(pos, CommentMultiline, "%*")], pos + 2, stack + [NestedComment]))
  {
    hide Step, ApplyRule, RuleMayStart, MatchPattern;
    StartsWithHead(text, pos, "%*");
    Row0();
    Hit0(text, pos);
    TransitEnter(stack, NestedComment);
    RootFire(0, CommentOpen, CommentMultiline, Enter(NestedComment), {}, 2, text, pos, stack, sub);
  }

  /** In `root`, a `%` that does not open a block comment, where the line
      comment pattern matches `n` characters: one `Comment.Single` token. */
  lemma LineCommentFire(n: nat, text: string, pos: nat, stack: seq<State>, sub: SubLexer)
    requires ValidStack(stack) && Top(stack) == Root
    requires pos < |text| && text[pos] == '%' && !StartsWith(text, pos, "%*")
    requires Patterns.LineComment(text, pos) == Some(n)
    ensures pos + n <= |text|
    ensures Step(text, pos, stack, sub) == Some(Move([Token(pos, CommentSingle, text[pos..pos + n])], pos + n, stack))
  {
    hide Step, ApplyRule, RuleMayStart, MatchPattern;
    Row1();
    Miss0(text, pos, sub);
    Hit1(n, text, pos);
    TransitStay(stack);
    RootFire(1, LineComment, CommentSingle, Stay, {0}, n, text, pos, stack, sub);
  }

  /** Any other `%` starts a line comment, one `Comment.Single` token that
      runs up to the next newline (which it leaves out) or to the end of
      the text. */
  lemma LineCommentStep(text: string, pos: nat, stack: seq<State>, sub: SubLexer)
    requires ValidStack(stack) && Top(stack) == Root
    requires pos < |text| && text[pos] == '%' && !StartsWith(text, pos, "%*")
    ensures Patterns.LineComment(text, pos).Some?
    ensures
      var n := Patterns.LineComment(text, pos).value;
      && (forall j | pos < j < pos + n :: text[j] != '\n')
      && (pos + n == |text| || text[pos + n] == '\n')
      && Step(text, pos, stack, sub) == Some(Move([Token(pos, CommentSingle, text[pos..pos + n])], pos + n, stack))
  {
    hide Step, ApplyRule, RuleMayStart, MatchPattern;
    var n := Patterns.LineComment(text, pos).value;
    assert (forall j | pos < j < pos + n :: text[j] != '\n') && (pos + n == |text| || text[pos + n] == '\n') by {
      Patterns.LineCommentExtent(text, pos);
    }
    LineCommentFire(n, text, pos, stack, sub);
  }

  // ---------------------------------------------------------------------
  // Numbers and strings
  // ---------------------------------------------------------------------

  /** In `root`, where the hexadecimal pattern matches `n` characters: one `Number.Hex` token. */
  lemma HexFire(n: nat, text: string, pos: nat, stack: seq<State>, sub: SubLexer)
    requires ValidStack(stack) && Top(stack) == Root
    requires pos < |text| && text[pos] == '0' && Patterns.HexNumber(text, pos) == Some(n)
    ensures pos + n <= |text|
    ensures Step(text, pos, stack, sub) == Some(Move([Token(pos, NumberHex, text[pos..pos + n])], pos + n, stack))
  {
    hide Step, ApplyRule, RuleMayStart, MatchPattern;
    ZeroHeads();
    Row2();
    Hit2(n, text, pos);
    TransitStay(stack);
    RootFire(2, HexNumber, NumberHex, Stay, {}, n, text, pos, stack, sub);
  }

  /** `0x` and a hexadecimal digit: one `Number.Hex` token over every
      hexadecimal digit that follows. The hexadecimal rule is tried before
      the decimal one, which would otherwise take the `0` alone. */
  lemma HexStep(text: string, pos: nat, stack: seq<State>, sub: SubLexer)
    requires ValidStack(stack) && Top(stack) == Root
    requires StartsWith(text, pos, "0x") && pos + 2 < |text| && IsHexDigit(text[pos + 2])
    ensures Patterns.HexNumber(text, pos).Some?
    ensures
      var n := Patterns.HexNumber(text, pos).value;
      && 3 <= n
      && (forall j | pos + 2 <= j < pos + n :: IsHexDigit(text[j]))
      && (pos + n == |text| || !IsHexDigit(text[pos + n]))
      && Step(text, pos, stack, sub) == Some(Move([Token(pos, NumberHex, text[pos..pos + n])], pos + n, stack))
  {
    hide Step, ApplyRule, RuleMayStart, MatchPattern;
    var n := Patterns.HexNumber(text, pos).value;
    assert (forall j | pos + 2 <= j < pos + n :: IsHexDigit(text[j])) && (pos + n == |text| || !IsHexDigit(text[pos + n])) by {
      Patterns.HexNumberExtent(text, pos);
    }
    StartsWithHead(text, pos, "0x");
    HexFire(n, text, pos, stack, sub);
  }

  /** In `root`, a digit that does not start a hexadecimal number, where the
      decimal pattern matches `n` characters: one `Number.Integer` token. */
  lemma DecimalFire(n: nat, text: string, pos: nat, stack: seq<State>, sub: SubLexer)
    requires ValidStack(stack) && Top(stack) == Root
    requires pos < |text| && IsDigit(text[pos])
    requires !(StartsWith(text, pos, "0x") && pos + 2 < |text| && IsHexDigit(text[pos + 2]))
    requires Patterns.DecimalNumber(text, pos) == Some(n)
    ensures pos + n <= |text|
    ensures Step(text, pos, stack, sub) == Some(Move([Token(pos, NumberInteger, text[pos..pos + n])], pos + n, stack))
  {
    hide Step, ApplyRule, RuleMayStart, MatchPattern;
    DigitHeads(text[pos]);
    Row3();
    Miss2(text, pos, sub);
    Hit3(n, text, pos);
    TransitStay(stack);
    RootFire(3, DecimalNumber, NumberInteger, Stay, {2}, n, text, pos, stack, sub);
  }

  /** Any other digit starts one `Number.Integer` token over the longest run of digits. */
  lemma DecimalStep(text: string, pos: nat, stack: seq<State>, sub: SubLexer)
    requires ValidStack(stack) && Top(stack) == Root
    requires pos < |text| && IsDigit(text[pos])
    requires !(StartsWith(text, pos, "0x") && pos + 2 < |text| && IsHexDigit(text[pos + 2]))
    ensures Patterns.DecimalNumber(text, pos).Some?
    ensures
      var n := Patterns.DecimalNumber(text, pos).value;
      && 1 <= n
      && (forall j | pos <= j < pos + n :: IsDigit(text[j]))
      && (pos + n == |text| || !IsDigit(text[pos + n]))
      && Step(text, pos, stack, sub) == Some(Move([Token(pos, NumberInteger, text[pos..pos + n])], pos + n, stack))
  {
    hide Step, ApplyRule, RuleMayStart, MatchPattern;
    var n := Patterns.DecimalNumber(text, pos).value;
    assert (forall j | pos <= j < pos + n :: IsDigit(text[j])) && (pos + n == |text| || !IsDigit(text[pos + n])) by {
      Patterns.DecimalNumberExtent(text, pos);
    }
    DecimalFire(n, text, pos, stack, sub);
  }

  /** In `root`, where the string pattern matches `n` characters: one `String.Double` token. */
  lemma QuotedStringFire(n: nat, text: string, pos: nat, stack: seq<State>, sub: SubLexer)
    requires ValidStack(stack) && Top(stack) == Root
    requires pos < |text| && text[pos] == '"' && Patterns.Delimited(text, pos, Patterns.Quote) == Some(n)
    ensures pos + n <= |text|
    ensures Step(text, pos, stack, sub) == Some(Move([Token(pos, StringDouble, text[pos..pos + n])], pos + n, stack))
  {
    hide Step, ApplyRule, RuleMayStart, MatchPattern;
    QuoteHeads();
    Row4();
    Hit4(n, text, pos);
    TransitStay(stack);
    RootFire(4, QuotedString, StringDouble, Stay, {}, n, text, pos, stack, sub);
  }

  /** A `"` that some later `"` closes, with only escapes `\n`, `\"`, `\\`
      and plain characters between them, starts one `String.Double` token
      that begins and ends with a quote and holds such a body. */
  lemma QuotedStringStep(text: string, pos: nat, stack: seq<State>, sub: SubLexer)
    requires ValidStack(stack) && Top(stack) == Root
    requires pos < |text| && text[pos] == '"'
    requires exists j | pos < j < |text| && text[j] == '"' :: Patterns.Body(text[pos + 1..j], Patterns.Quote)
    ensures Patterns.Delimited(text, pos, Patterns.Quote).Some?
    ensures
      var n := Patterns.Delimited(text, pos, Patterns.Quote).value;
      && 2 <= n && text[pos + n - 1] == '"' && Patterns.Body(text[pos + 1..pos + n - 1], Patterns.Quote)
      && Step(text, pos, stack, sub) == Some(Move([Token(pos, StringDouble, text[pos..pos + n])], pos + n, stack))
  {
    hide Step, ApplyRule, RuleMayStart, MatchPattern;
    assert Patterns.Delimited(text, pos, Patterns.Quote).Some? by {
      Patterns.DelimitedForm(text, pos, Patterns.Quote);
    }
    var n := Patterns.Delimited(text, pos, Patterns.Quote).value;
    assert text[pos + n - 1] == '"' && Patterns.Body(text[pos + 1..pos + n - 1], Patterns.Quote) by {
      Patterns.DelimitedForm(text, pos, Patterns.Quote);
    }
    QuotedStringFire(n, text, pos, stack, sub);
  }

  /** In `root`, a `"` where the string pattern fails is an `Error` character. */
  lemma StrayQuoteFails(text: string, pos: nat, stack: seq<State>, sub: SubLexer)
    requires ValidStack(stack) && Top(stack) == Root
    requires pos < |text| && text[pos] == '"' && Patterns.Delimited(text, pos, Patterns.Quote).None?
    ensures Step(text, pos, stack, sub) == Some(Move([Token(pos, Error, "\"")], pos + 1, stack))
  {
    hide Step, ApplyRule, RuleMayStart, MatchPattern;
    StrayQuoteHeads();
    Miss4(text, pos, sub);
    RootFails({4}, text, pos, stack, sub);
  }

  /** A `"` that nothing closes is an `Error` character. */
  lemma StrayQuoteStep(text: string, pos: nat, stack: seq<State>, sub: SubLexer)
    requires ValidStack(stack) && Top(stack) == Root
    requires pos < |text| && text[pos] == '"'
    requires forall j | pos < j < |text| && text[j] == '"' :: !Patterns.Body(text[pos + 1..j], Patterns.Quote)
    ensures Step(text, pos, stack, sub) == Some(Move([Token(pos, Error, "\"")], pos + 1, stack))
  {
    hide Step, ApplyRule, RuleMayStart, MatchPattern;
    assert Patterns.Delimited(text, pos, Patterns.Quote).None? by {
      Patterns.DelimitedForm(text, pos, Patterns.Quote);
    }
    StrayQuoteFails(text, pos, stack, sub);
  }

  // ---------------------------------------------------------------------
  // Punctuation and operators
  // ---------------------------------------------------------------------

  /** A root turn that starts at `:-` emits it as one `Punctuation` token:
      its own rule comes before the separator rule, whose `(?<!:):-`
      alternative therefore never fires. An operator run that starts earlier
      (`k:-`, `<:-`) still swallows the arrow; see `Examples.KArrowExample`. */
  lemma RuleArrowStep(text: string, pos: nat, stack: seq<State>, sub: SubLexer)
    requires ValidStack(stack) && Top(stack) == Root && StartsWith(text, pos, ":-")
    ensures Step(text, pos, stack, sub) == Some(Move([Token(pos, Punctuation, ":-")], pos + 2, stack))
  {
    hide Step, ApplyRule, RuleMayStart, MatchPattern;
    StartsWithHead(text, pos, ":-");
    ColonHeads();
    Row5();
    Hit5(text, pos);
    TransitStay(stack);
    RootFire(5, RuleArrow, Punctuation, Stay, {}, 2, text, pos, stack, sub);
  }

  /** Each bracket is a one-character `Punctuation` token. */
  lemma BracketStep(text: string, pos: nat, stack: seq<State>, sub: SubLexer)
    requires ValidStack(stack) && Top(stack) == Root
    requires pos < |text| && IsBracket(text[pos])
    ensures Step(text, pos, stack, sub) == Some(Move([Token(pos, Punctuation, [text[pos]])], pos + 1, stack))
  {
    hide Step, ApplyRule, RuleMayStart, MatchPattern;
    BracketHeads(text[pos]);
    Row6();
    Hit6(text, pos);
    TransitStay(stack);
    SingleChar(text, pos);
    RootFire(6, Bracket, Punctuation, Stay, {}, 1, text, pos, stack, sub);
  }

  /** A one-character slice is that character. */
  lemma SingleChar(text: string, pos: nat)
    requires pos < |text|
    ensures text[pos..pos + 1] == [text[pos]]
  {
  }

  /** The separator rule fires on `.`, `,`, `;` and `:` whenever it matches,
      `:-` aside. */
  lemma SeparatorHit(n: nat, text: string, pos: nat, stack: seq<State>, sub: SubLexer)
    requires pos < |text| && ValidStack(stack) && Top(stack) == Root
    requires text[pos] == '.' || text[pos] == ',' || text[pos] == ';' || text[pos] == ':'
    requires !StartsWith(text, pos, ":-") && Patterns.Separator(text, pos) == Some(n)
    ensures pos + n <= |text|
    ensures Step(text, pos, stack, sub) == Some(Move([Token(pos, Punctuation, text[pos..pos + n])], pos + n, stack))
  {
    hide Step, ApplyRule, RuleMayStart, MatchPattern;
    SeparatorHeads(text[pos]);
    Row7();
    Miss5(text, pos, sub);
    Hit7(n, text, pos);
    TransitStay(stack);
    RootFire(7, Separator, Punctuation, Stay, {5}, n, text, pos, stack, sub);
  }

  /** A `.`, `,` or `;` that the separator pattern takes alone. */
  lemma SingleSeparator(text: string, pos: nat)
    requires pos < |text|
    requires || (text[pos] == '.' && !(pos + 1 < |text| && text[pos + 1] == '.'))
             || ((text[pos] == ',' || text[pos] == ';') && !(pos + 1 < |text| && text[pos + 1] == ';'))
    ensures !StartsWith(text, pos, ":-") && Patterns.Separator(text, pos) == Some(1)
  {
    NotStartsWith(text, pos, ":-", 0);
    NotStartsWith(text, pos, ":~", 0);
  }

  /** What the separator pattern takes at a `:` that does not begin `::` or `:-`. */
  lemma ColonSeparator(text: string, pos: nat)
    requires pos < |text| && text[pos] == ':' && !(pos + 1 < |text| && text[pos + 1] == ':')
    requires !StartsWith(text, pos, ":-")
    ensures
      var colonBefore := 0 < pos && text[pos - 1] == ':';
      Patterns.Separator(text, pos) == Some(if StartsWith(text, pos, ":~") && !colonBefore then 2 else 1)
  {
  }

  /** A `.` that is not followed by another `.` is a one-character `Punctuation` token. */
  lemma DotStep(text: string, pos: nat, stack: seq<State>, sub: SubLexer)
    requires ValidStack(stack) && Top(stack) == Root
    requires pos < |text| && text[pos] == '.' && !(pos + 1 < |text| && text[pos + 1] == '.')
    ensures Step(text, pos, stack, sub) == Some(Move([Token(pos, Punctuation, ".")], pos + 1, stack))
  {
    hide Step, ApplyRule, RuleMayStart, MatchPattern;
    SingleSeparator(text, pos);
    SingleChar(text, pos);
    SeparatorHit(1, text, pos, stack, sub);
  }

  /** A `,` or `;` not followed by `;` is a one-character `Punctuation` token. */
  lemma CommaSemicolonStep(text: string, pos: nat, stack: seq<State>, sub: SubLexer)
    requires ValidStack(stack) && Top(stack) == Root
    requires pos < |text| && (text[pos] == ',' || text[pos] == ';') && !(pos + 1 < |text| && text[pos + 1] == ';')
    ensures Step(text, pos, stack, sub) == Some(Move([Token(pos, Punctuation, [text[pos]])], pos + 1, stack))
  {
    hide Step, ApplyRule, RuleMayStart, MatchPattern;
    SingleSeparator(text, pos);
    SingleChar(text, pos);
    SeparatorHit(1, text, pos, stack, sub);
  }

  /** A `:` not followed by another `:` is one `Punctuation` token: `:-`,
      `:~` (unless a `:` comes right before it), or the `:` alone. */
  lemma ColonStep(text: string, pos: nat, stack: seq<State>, sub: SubLexer)
    requires ValidStack(stack) && Top(stack) == Root
    requires pos < |text| && text[pos] == ':' && !(pos + 1 < |text| && text[pos + 1] == ':')
    ensures
      var colonBefore := 0 < pos && text[pos - 1] == ':';
      var n := if StartsWith(text, pos, ":-") || (StartsWith(text, pos, ":~") && !colonBefore) then 2 else 1;
      Step(text, pos, stack, sub) == Some(Move([Token(pos, Punctuation, text[pos..pos + n])], pos + n, stack))
  {
    hide Step, ApplyRule, RuleMayStart, MatchPattern;
    var colonBefore := 0 < pos && text[pos - 1] == ':';
    if StartsWith(text, pos, ":-") {
      RuleArrowStep(text, pos, stack, sub);
    } else {
      ColonSeparator(text, pos);
      var n := if StartsWith(text, pos, ":~") && !colonBefore then 2 else 1;
      SeparatorHit(n, text, pos, stack, sub);
    }
  }

  /** A `,` followed by `;` matches no rule of `root`: the separator rule
      excludes it and `,` is no operator character, so it is an `Error`. */
  lemma CommaBeforeSemicolonStep(text: string, pos: nat, stack: seq<State>, sub: SubLexer)
    requires ValidStack(stack) && Top(stack) == Root
    requires pos + 1 < |text| && text[pos] == ',' && text[pos + 1] == ';'
    ensures Step(text, pos, stack, sub) == Some(Move([Token(pos, Error, ",")], pos + 1, stack))
  {
    hide Step, ApplyRule, RuleMayStart, MatchPattern;
    NotStartsWith(text, pos, ":-", 0);
    NotStartsWith(text, pos, ":~", 0);
    assert Patterns.Separator(text, pos).None?;
    CommaHeads();
    Miss7(text, pos, sub);
    RootFails({7}, text, pos, stack, sub);
  }

  /** In `root`, where `..`, `::` or `;;` begins, the separator rule misses. */
  lemma DoubledMisses(text: string, pos: nat, sub: SubLexer)
    requires pos + 1 < |text| && (text[pos] == '.' || text[pos] == ':' || text[pos] == ';') && text[pos + 1] == text[pos]
    ensures ApplyRule(RootRules()[5], text, pos, sub).None?
    ensures ApplyRule(RootRules()[7], text, pos, sub).None?
  {
    NotStartsWith(text, pos, ":-", 1);
    NotStartsWith(text, pos, ":~", 1);
    assert Patterns.Separator(text, pos).None?;
    Miss5(text, pos, sub);
    Miss7(text, pos, sub);
  }

  /** A doubled `.`, `:` or `;` starts an operator run of at least two characters. */
  lemma DoubledRun(text: string, pos: nat)
    requires pos + 1 < |text| && (text[pos] == '.' || text[pos] == ':' || text[pos] == ';') && text[pos + 1] == text[pos]
    ensures 2 <= Span(text, pos, OperatorChars)
  {
    assert InClass(text[pos], OperatorChars) && InClass(text[pos + 1], OperatorChars);
  }

  /** `..`, `::` and `;;` are not separators: they start an operator run,
      which takes every operator character that follows. */
  lemma DoubledStep(text: string, pos: nat, stack: seq<State>, sub: SubLexer)
    requires ValidStack(stack) && Top(stack) == Root
    requires pos + 1 < |text| && (text[pos] == '.' || text[pos] == ':' || text[pos] == ';') && text[pos + 1] == text[pos]
    ensures
      var n := Span(text, pos, OperatorChars);
      && 2 <= n
      && Step(text, pos, stack, sub) == Some(Move([Token(pos, Operator, text[pos..pos + n])], pos + n, stack))
  {
    hide Step, Span, ApplyRule, RuleMayStart, MatchPattern;
    var n := Span(text, pos, OperatorChars);
    DoubledRun(text, pos);
    DoubledHeads(text[pos]);
    DoubledMisses(text, pos, sub);
    Row9();
    Hit9(text, pos);
    TransitStay(stack);
    RootFire(9, OperatorRun, Operator, Stay, {5, 7}, n, text, pos, stack, sub);
  }

  /** An operator character that no earlier rule claims starts an operator
      run, and the run is maximal: it stops at the first character outside
      the class, or at the end of the text. */
  lemma OperatorStep(text: string, pos: nat, stack: seq<State>, sub: SubLexer)
    requires ValidStack(stack) && Top(stack) == Root
    requires pos < |text| && IsOperatorChar(text[pos])
    requires text[pos] != '.' && text[pos] != ':' && text[pos] != ';' && text[pos] != '&'
    ensures
      var n := Span(text, pos, OperatorChars);
      && 1 <= n && AllIn(text, pos, pos + n, OperatorChars)
      && (pos + n == |text| || !IsOperatorChar(text[pos + n]))
      && Step(text, pos, stack, sub) == Some(Move([Token(pos, Operator, text[pos..pos + n])], pos + n, stack))
  {
    hide Step, ApplyRule, RuleMayStart, MatchPattern;
    var n := Span(text, pos, OperatorChars);
    OperatorHeads(text[pos]);
    Row9();
    Hit9(text, pos);
    TransitStay(stack);
    RootFire(9, OperatorRun, Operator, Stay, {}, n, text, pos, stack, sub);
  }

  /** The letter `k` belongs to the operator class, so it always starts an
      operator run, never a name. */
  lemma LetterKStep(text: string, pos: nat, stack: seq<State>, sub: SubLexer)
    requires ValidStack(stack) && Top(stack) == Root
    requires pos < |text| && text[pos] == 'k'
    ensures
      var n := Span(text, pos, OperatorChars);
      && 1 <= n
      && Step(text, pos, stack, sub) == Some(Move([Token(pos, Operator, text[pos..pos + n])], pos + n, stack))
  {
    hide Step, ApplyRule, RuleMayStart, MatchPattern;
    OperatorStep(text, pos, stack, sub);
  }

  /** In `root`, an `&` where the theory-operator pattern matches `n`
      characters is one `Keyword` token over them. */
  lemma TheoryFire(n: nat, text: string, pos: nat, stack: seq<State>, sub: SubLexer)
    requires ValidStack(stack) && Top(stack) == Root
    requires pos < |text| && text[pos] == '&' && Patterns.TheoryOperator(text, pos) == Some(n)
    ensures pos + n <= |text|
    ensures Step(text, pos, stack, sub) == Some(Move([Token(pos, Keyword, text[pos..pos + n])], pos + n, stack))
  {
    hide Step, ApplyRule, RuleMayStart, MatchPattern;
    AmpersandHeads();
    Row8();
    Hit8(n, text, pos);
    TransitStay(stack);
    RootFire(8, TheoryOperator, Keyword, Stay, {}, n, text, pos, stack, sub);
  }

  /** `&` followed by underscores and a lower-case letter is a theory
      operator, one `Keyword` token running over letters and underscores. */
  lemma TheoryOperatorStep(text: string, pos: nat, stack: seq<State>, sub: SubLexer)
    requires ValidStack(stack) && Top(stack) == Root
    requires pos < |text| && text[pos] == '&' && Patterns.LowerAfterUnderscores(text, pos + 1)
    ensures Patterns.TheoryOperator(text, pos).Some?
    ensures
      var n := Patterns.TheoryOperator(text, pos).value;
      && 2 <= n
      && AllIn(text, pos + 1, pos + n, TheoryChars)
      && (pos + n == |text| || !InClass(text[pos + n], TheoryChars))
      && Step(text, pos, stack, sub) == Some(Move([Token(pos, Keyword, text[pos..pos + n])], pos + n, stack))
  {
    hide Step, ApplyRule, RuleMayStart, MatchPattern;
    assert Patterns.TheoryOperator(text, pos).Some? by {
      Patterns.TheoryOperatorSpec(text, pos);
    }
    var n := Patterns.TheoryOperator(text, pos).value;
    assert AllIn(text, pos + 1, pos + n, TheoryChars) && (pos + n == |text| || !InClass(text[pos + n], TheoryChars)) by {
      Patterns.TheoryOperatorSpec(text, pos);
    }
    TheoryFire(n, text, pos, stack, sub);
  }

  /** In `root`, an `&` where the theory-operator pattern fails starts an operator run. */
  lemma AmpersandFire(text: string, pos: nat, stack: seq<State>, sub: SubLexer)
    requires ValidStack(stack) && Top(stack) == Root
    requires pos < |text| && text[pos] == '&' && Patterns.TheoryOperator(text, pos).None?
    ensures
      var n := Span(text, pos, OperatorChars);
      && 1 <= n
      && Step(text, pos, stack, sub) == Some(Move([Token(pos, Operator, text[pos..pos + n])], pos + n, stack))
  {
    hide Step, ApplyRule, RuleMayStart, MatchPattern;
    var n := Span(text, pos, OperatorChars);
    AmpersandRunHeads();
    Miss8(text, pos, sub);
    Row9();
    Hit9(text, pos);
    TransitStay(stack);
    RootFire(9, OperatorRun, Operator, Stay, {8}, n, text, pos, stack, sub);
  }

  /** Any other `&` starts an operator run. */
  lemma AmpersandStep(text: string, pos: nat, stack: seq<State>, sub: SubLexer)
    requires ValidStack(stack) && Top(stack) == Root
    requires pos < |text| && text[pos] == '&' && !Patterns.LowerAfterUnderscores(text, pos + 1)
    ensures
      var n := Span(text, pos, OperatorChars);
      && 1 <= n
      && Step(text, pos, stack, sub) == Some(Move([Token(pos, Operator, text[pos..pos + n])], pos + n, stack))
  {
    hide Step, ApplyRule, RuleMayStart, MatchPattern;
    assert Patterns.TheoryOperator(text, pos).None? by {
      Patterns.TheoryOperatorSpec(text, pos);
    }
    AmpersandFire(text, pos, stack, sub);
  }

  // ---------------------------------------------------------------------
  // Keywords
  // ---------------------------------------------------------------------

  /** In `root`, where the directive alternation matches `n` characters,
      they are one `Keyword` token. */
  lemma DirectiveFire(n: nat, text: string, pos: nat, stack: seq<State>, sub: SubLexer)
    requires ValidStack(stack) && Top(stack) == Root
    requires pos < |text| && (text[pos] == '#' || text[pos] == 'n')
    requires Patterns.FirstWord(text, pos, Patterns.Directives, 0) == Some(n)
    ensures pos + n <= |text|
    ensures Step(text, pos, stack, sub) == Some(Move([Token(pos, Keyword, text[pos..pos + n])], pos + n, stack))
  {
    hide Step, ApplyRule, RuleMayStart, MatchPattern;
    DirectiveHeads(text[pos]);
    Row10();
    Hit10(n, text, pos);
    TransitStay(stack);
    RootFire(10, Directive, Keyword, Stay, {}, n, text, pos, stack, sub);
  }

  /** The first directive word that occurs at `pos` followed by a boundary. */
  lemma FirstDirective(text: string, pos: nat) returns (i: nat)
    requires exists i | 0 <= i < |Patterns.Directives| :: Patterns.WordAt(text, pos, Patterns.Directives[i])
    ensures i < |Patterns.Directives| && Patterns.WordAt(text, pos, Patterns.Directives[i])
    ensures forall j | 0 <= j < i :: !Patterns.WordAt(text, pos, Patterns.Directives[j])
    ensures Patterns.FirstWord(text, pos, Patterns.Directives, 0) == Some(|Patterns.Directives[i]|)
    ensures pos < |text| && (text[pos] == '#' || text[pos] == 'n')
    ensures text[pos..pos + |Patterns.Directives[i]|] == Patterns.Directives[i]
  {
    Patterns.FirstWordSpec(text, pos, Patterns.Directives, 0);
    i :| 0 <= i < |Patterns.Directives|
      && Patterns.WordAt(text, pos, Patterns.Directives[i])
      && Patterns.FirstWord(text, pos, Patterns.Directives, 0) == Some(|Patterns.Directives[i]|)
      && forall j | 0 <= j < i :: !Patterns.WordAt(text, pos, Patterns.Directives[j]);
    WordHeads();
    StartsWithHead(text, pos, Patterns.Directives[i]);
  }

  /** Where a directive word occurs followed by a word boundary, the first
      such word in the listed order is one `Keyword` token. */
  lemma DirectiveStep(text: string, pos: nat, stack: seq<State>, sub: SubLexer)
    requires ValidStack(stack) && Top(stack) == Root
    requires exists i | 0 <= i < |Patterns.Directives| :: Patterns.WordAt(text, pos, Patterns.Directives[i])
    ensures exists i | 0 <= i < |Patterns.Directives| ::
      && Patterns.WordAt(text, pos, Patterns.Directives[i])
      && (forall j | 0 <= j < i :: !Patterns.WordAt(text, pos, Patterns.Directives[j]))
      && Step(text, pos, stack, sub)
         == Some(Move([Token(pos, Keyword, Patterns.Directives[i])], pos + |Patterns.Directives[i]|, stack))
  {
    hide Step, Patterns.WordAt, Patterns.FirstWord;
    var i := FirstDirective(text, pos);
    var w := Patterns.Directives[i];
    DirectiveFire(|w|, text, pos, stack, sub);
    assert Step(text, pos, stack, sub) == Some(Move([Token(pos, Keyword, w)], pos + |w|, stack));
  }

  /** The words listed before `#minimize` that differ from it within their length. */
  lemma MinimizeDisagrees()
    ensures forall j | 0 <= j < 7 && j != 2 :: Disagree("#minimize", Patterns.Directives[j], 0)
  {
  }

  /** No directive listed before `#minimize` occurs, followed by a word
      boundary, where `#minimize` does. */
  lemma MinimizeFirst(text: string, pos: nat)
    requires Patterns.WordAt(text, pos, "#minimize")
    ensures forall j | 0 <= j < 7 :: !Patterns.WordAt(text, pos, Patterns.Directives[j])
  {
    assert Patterns.Directives[2] == "#min";
    StartsWithAt(text, pos, "#minimize", 3);
    StartsWithAt(text, pos, "#minimize", 4);
    MinimizeDisagrees();
    forall j | 0 <= j < 7
      ensures !Patterns.WordAt(text, pos, Patterns.Directives[j])
    {
      if j != 2 {
        DisagreeExcludes(text, pos, "#minimize", Patterns.Directives[j]);
      }
    }
  }

  /** The alternation backtracks: at `#minimize`, `#min` occurs first but is
      not followed by a word boundary, so the next alternatives are tried
      and `#minimize` becomes the `Keyword` token. */
  lemma MinimizeStep(text: string, pos: nat, stack: seq<State>, sub: SubLexer)
    requires ValidStack(stack) && Top(stack) == Root && Patterns.WordAt(text, pos, "#minimize")
    ensures Step(text, pos, stack, sub) == Some(Move([Token(pos, Keyword, "#minimize")], pos + 9, stack))
  {
    hide Step, ApplyRule, RuleMayStart, MatchPattern;
    MinimizeFirst(text, pos);
    assert Patterns.Directives[7] == "#minimize";
    var i := FirstDirective(text, pos);
    assert i == 7;
    DirectiveFire(9, text, pos, stack, sub);
  }

  /** `#script` disagrees with every directive word. */
  lemma ScriptDisagrees()
    ensures forall k | 0 <= k < |Patterns.Directives| :: Disagree("#script", Patterns.Directives[k], 0)
  {
  }

  /** At `#script` the directive alternation does not match. */
  lemma ScriptMatches(text: string, pos: nat)
    requires StartsWith(text, pos, "#script")
    ensures pos < |text| && text[pos] == '#'
    ensures Patterns.FirstWord(text, pos, Patterns.Directives, 0).None?
  {
    StartsWithHead(text, pos, "#script");
    ScriptDisagrees();
    WordsExcluded(text, pos, "#script", Patterns.Directives);
  }

  /** `#script` is a `Keyword` token that enters `script`, with no word
      boundary required after it. */
  lemma ScriptDirectiveStep(text: string, pos: nat, stack: seq<State>, sub: SubLexer)
    requires ValidStack(stack) && Top(stack) == Root && StartsWith(text, pos, "#script")
    ensures Step(text, pos, stack, sub) == Some(Move([Token(pos, Keyword, "#script")], pos + 7, stack + [Script]))
  {
    hide Step, ApplyRule, RuleMayStart, MatchPattern;
    ScriptMatches(text, pos);
    ScriptHashHeads();
    Miss10(text, pos, sub);
    Row11();
    Hit11(text, pos);
    TransitEnter(stack, Script);
    RootFire(11, ScriptDirective, Keyword, Enter(Script), {10}, 7, text, pos, stack, sub);
  }

  /** `#include` disagrees with every directive word and with `#script`. */
  lemma IncludeDisagrees()
    ensures forall k | 0 <= k < |Patterns.Directives| :: Disagree("#include", Patterns.Directives[k], 0)
    ensures Disagree("#include", "#script", 0)
  {
  }

  /** At `#include` neither the directive alternation nor `#script` matches. */
  lemma IncludeMatches(text: string, pos: nat)
    requires StartsWith(text, pos, "#include")
    ensures pos < |text| && text[pos] == '#' && pos + 8 <= |text|
    ensures Patterns.FirstWord(text, pos, Patterns.Directives, 0).None?
    ensures !StartsWith(text, pos, "#script")
    ensures text[pos..pos + 8] == "#include"
  {
    StartsWithHead(text, pos, "#include");
    IncludeDisagrees();
    WordsExcluded(text, pos, "#include", Patterns.Directives);
    DisagreeExcludes(text, pos, "#include", "#script");
  }

  /** `#include` followed by a word boundary is a `Keyword` token that enters `include`. */
  lemma IncludeStep(text: string, pos: nat, stack: seq<State>, sub: SubLexer)
    requires ValidStack(stack) && Top(stack) == Root && Patterns.WordAt(text, pos, "#include")
    ensures Step(text, pos, stack, sub) == Some(Move([Token(pos, Keyword, "#include")], pos + 8, stack + [Include]))
  {
    hide Step, ApplyRule, RuleMayStart, MatchPattern;
    IncludeMatches(text, pos);
    IncludeHashHeads();
    Miss10(text, pos, sub);
    Miss11(text, pos, sub);
    Row12();
    Hit12(text, pos);
    TransitEnter(stack, Include);
    RootFire(12, IncludeDirective, Keyword, Enter(Include), {10, 11}, 8, text, pos, stack, sub);
  }

  /** Every constant disagrees with every directive word, `#script` and `#include`. */
  lemma ConstantDisagrees()
    ensures forall i, k | 0 <= i < |Patterns.Constants| && 0 <= k < |Patterns.Directives| ::
      Disagree(Patterns.Constants[i], Patterns.Directives[k], 0)
    ensures forall i | 0 <= i < |Patterns.Constants| ::
      Disagree(Patterns.Constants[i], "#script", 0) && Disagree(Patterns.Constants[i], "#include", 0)
  {
  }

  /** At a constant neither the directive alternation, `#script` nor `#include` matches. */
  lemma ConstantMatches(text: string, pos: nat, w: string)
    requires w in Patterns.Constants && StartsWith(text, pos, w)
    ensures pos < |text| && text[pos] == '#'
    ensures Patterns.FirstWord(text, pos, Patterns.Directives, 0).None?
    ensures !StartsWith(text, pos, "#script") && !StartsWith(text, pos, "#include")
  {
    WordHeads();
    StartsWithHead(text, pos, w);
    ConstantDisagrees();
    WordsExcluded(text, pos, w, Patterns.Directives);
    DisagreeExcludes(text, pos, w, "#script");
    DisagreeExcludes(text, pos, w, "#include");
  }

  /** In `root`, a `#` where no earlier keyword matches and the constant
      alternation matches `n` characters is one `Keyword.Constant` token. */
  lemma ConstantFire(n: nat, text: string, pos: nat, stack: seq<State>, sub: SubLexer)
    requires ValidStack(stack) && Top(stack) == Root && pos < |text| && text[pos] == '#'
    requires Patterns.FirstWord(text, pos, Patterns.Directives, 0).None?
    requires !StartsWith(text, pos, "#script") && !StartsWith(text, pos, "#include")
    requires Patterns.FirstWord(text, pos, Patterns.Constants, 0) == Some(n)
    ensures pos + n <= |text|
    ensures Step(text, pos, stack, sub) == Some(Move([Token(pos, KeywordConstant, text[pos..pos + n])], pos + n, stack))
  {
    hide Step, ApplyRule, RuleMayStart, MatchPattern;
    ConstantHashHeads();
    Miss10(text, pos, sub);
    Miss11(text, pos, sub);
    Miss12(text, pos, sub);
    Row13();
    Hit13(n, text, pos);
    TransitStay(stack);
    RootFire(13, ConstantWord, KeywordConstant, Stay, {10, 11, 12}, n, text, pos, stack, sub);
  }

  /** The first constant that occurs at `pos` followed by a boundary, and
      what that rules out. */
  lemma FirstConstant(text: string, pos: nat) returns (i: nat)
    requires exists i | 0 <= i < |Patterns.Constants| :: Patterns.WordAt(text, pos, Patterns.Constants[i])
    ensures i < |Patterns.Constants| && Patterns.WordAt(text, pos, Patterns.Constants[i])
    ensures Patterns.FirstWord(text, pos, Patterns.Constants, 0) == Some(|Patterns.Constants[i]|)
    ensures pos < |text| && text[pos] == '#'
    ensures Patterns.FirstWord(text, pos, Patterns.Directives, 0).None?
    ensures !StartsWith(text, pos, "#script") && !StartsWith(text, pos, "#include")
    ensures text[pos..pos + |Patterns.Constants[i]|] == Patterns.Constants[i]
  {
    Patterns.FirstWordSpec(text, pos, Patterns.Constants, 0);
    i :| 0 <= i < |Patterns.Constants|
      && Patterns.WordAt(text, pos, Patterns.Constants[i])
      && Patterns.FirstWord(text, pos, Patterns.Constants, 0) == Some(|Patterns.Constants[i]|);
    ConstantMatches(text, pos, Patterns.Constants[i]);
  }

  /** Where a constant occurs followed by a word boundary, it is one
      `Keyword.Constant` token. */
  lemma ConstantStep(text: string, pos: nat, stack: seq<State>, sub: SubLexer)
    requires ValidStack(stack) && Top(stack) == Root
    requires exists i | 0 <= i < |Patterns.Constants| :: Patterns.WordAt(text, pos, Patterns.Constants[i])
    ensures exists i | 0 <= i < |Patterns.Constants| ::
      && Patterns.WordAt(text, pos, Patterns.Constants[i])
      && Step(text, pos, stack, sub)
         == Some(Move([Token(pos, KeywordConstant, Patterns.Constants[i])], pos + |Patterns.Constants[i]|, stack))
  {
    hide Step, Patterns.WordAt, Patterns.FirstWord, StartsWith;
    var i := FirstConstant(text, pos);
    var w := Patterns.Constants[i];
    ConstantFire(|w|, text, pos, stack, sub);
    assert Step(text, pos, stack, sub) == Some(Move([Token(pos, KeywordConstant, w)], pos + |w|, stack));
  }

  /** In `root`, a `#` where no keyword pattern matches is an `Error` character. */
  lemma StrayHashFails(text: string, pos: nat, stack: seq<State>, sub: SubLexer)
    requires ValidStack(stack) && Top(stack) == Root && pos < |text| && text[pos] == '#'
    requires Patterns.FirstWord(text, pos, Patterns.Directives, 0).None?
    requires Patterns.FirstWord(text, pos, Patterns.Constants, 0).None?
    requires !StartsWith(text, pos, "#script") && !Patterns.WordAt(text, pos, "#include")
    ensures Step(text, pos, stack, sub) == Some(Move([Token(pos, Error, "#")], pos + 1, stack))
  {
    hide Step, ApplyRule, RuleMayStart, MatchPattern;
    StrayHashHeads();
    Miss10(text, pos, sub);
    Miss11(text, pos, sub);
    Miss12(text, pos, sub);
    Miss13(text, pos, sub);
    RootFails({10, 11, 12, 13}, text, pos, stack, sub);
  }

  /** A `#` that starts no keyword is an `Error` character. */
  lemma StrayHashStep(text: string, pos: nat, stack: seq<State>, sub: SubLexer)
    requires ValidStack(stack) && Top(stack) == Root
    requires pos < |text| && text[pos] == '#'
    requires forall i | 0 <= i < |Patterns.Directives| :: !Patterns.WordAt(text, pos, Patterns.Directives[i])
    requires forall i | 0 <= i < |Patterns.Constants| :: !Patterns.WordAt(text, pos, Patterns.Constants[i])
    requires !StartsWith(text, pos, "#script") && !Patterns.WordAt(text, pos, "#include")
    ensures Step(text, pos, stack, sub) == Some(Move([Token(pos, Error, "#")], pos + 1, stack))
  {
    hide Step, ApplyRule, RuleMayStart, MatchPattern;
    assert Patterns.FirstWord(text, pos, Patterns.Directives, 0).None? by {
      Patterns.FirstWordSpec(text, pos, Patterns.Directives, 0);
    }
    assert Patterns.FirstWord(text, pos, Patterns.Constants, 0).None? by {
      Patterns.FirstWordSpec(text, pos, Patterns.Constants, 0);
    }
    StrayHashFails(text, pos, stack, sub);
  }

  // ---------------------------------------------------------------------
  // Names
  // ---------------------------------------------------------------------

  /** After the leading underscores and apostrophes, one letter decides the
      case: a name cannot be both upper- and lower-case. */
  lemma CaseExclusive(text: string, pos: nat)
    requires pos <= |text| && Patterns.LetterAfterLeaders(text, pos, false)
    ensures !Patterns.LetterAfterLeaders(text, pos, true)
  {
    Patterns.FirstAfterRun(text, pos, Leaders);
  }

  /** A name matcher's match is the whole run of identifier characters. */
  lemma NameIsIdentRun(text: string, pos: nat, upper: bool)
    requires pos <= |text| && Patterns.LetterAfterLeaders(text, pos, upper)
    ensures Patterns.Name(text, pos, upper).Some?
    ensures Patterns.Name(text, pos, upper).value == Span(text, pos, IdentChars)
  {
    Patterns.NameSpec(text, pos, upper);
    SpanUnique(text, pos, pos + Patterns.Name(text, pos, upper).value, IdentChars);
  }

  /** In `root`, where the variable pattern matches `n` characters, they are
      one `Name.Variable` token. */
  lemma VariableFire(n: nat, text: string, pos: nat, stack: seq<State>, sub: SubLexer)
    requires ValidStack(stack) && Top(stack) == Root
    requires pos < |text| && (text[pos] == '_' || text[pos] == '\'' || IsUpper(text[pos]))
    requires Patterns.Name(text, pos, true) == Some(n)
    ensures pos + n <= |text|
    ensures Step(text, pos, stack, sub) == Some(Move([Token(pos, NameVariable, text[pos..pos + n])], pos + n, stack))
  {
    hide Step, ApplyRule, RuleMayStart, MatchPattern;
    VariableHeads(text[pos]);
    Row14();
    Hit14(n, text, pos);
    TransitStay(stack);
    RootFire(14, Variable, NameVariable, Stay, {}, n, text, pos, stack, sub);
  }

  /** Underscores and apostrophes, then an upper-case letter: one
      `Name.Variable` token over the whole run of identifier characters. */
  lemma VariableStep(text: string, pos: nat, stack: seq<State>, sub: SubLexer)
    requires ValidStack(stack) && Top(stack) == Root
    requires pos <= |text| && Patterns.LetterAfterLeaders(text, pos, true)
    ensures pos < |text|
    ensures
      var n := Span(text, pos, IdentChars);
      Step(text, pos, stack, sub) == Some(Move([Token(pos, NameVariable, text[pos..pos + n])], pos + n, stack))
  {
    hide Step, ApplyRule, RuleMayStart, MatchPattern;
    var n := Span(text, pos, IdentChars);
    assert Patterns.Name(text, pos, true) == Some(n) by {
      NameIsIdentRun(text, pos, true);
    }
    assert pos < |text| && (text[pos] == '_' || text[pos] == '\'' || IsUpper(text[pos])) by {
      NameHead(text, pos, true);
    }
    VariableFire(n, text, pos, stack, sub);
  }

  /** In `root`, an `_` where the variable pattern fails is a `Name.Variable` token of its own. */
  lemma AnonymousFire(text: string, pos: nat, stack: seq<State>, sub: SubLexer)
    requires ValidStack(stack) && Top(stack) == Root
    requires pos < |text| && text[pos] == '_' && Patterns.Name(text, pos, true).None?
    ensures Step(text, pos, stack, sub) == Some(Move([Token(pos, NameVariable, "_")], pos + 1, stack))
  {
    hide Step, ApplyRule, RuleMayStart, MatchPattern;
    UnderscoreHeads();
    Miss14(text, pos, sub);
    Row15();
    Hit15(text, pos);
    TransitStay(stack);
    SingleChar(text, pos);
    RootFire(15, Anonymous, NameVariable, Stay, {14}, 1, text, pos, stack, sub);
  }

  /** Any other `_` is a `Name.Variable` token of its own, even when letters
      follow: `_x` is `_` and then the name `x`. */
  lemma AnonymousStep(text: string, pos: nat, stack: seq<State>, sub: SubLexer)
    requires ValidStack(stack) && Top(stack) == Root
    requires pos < |text| && text[pos] == '_' && !Patterns.LetterAfterLeaders(text, pos, true)
    ensures Step(text, pos, stack, sub) == Some(Move([Token(pos, NameVariable, "_")], pos + 1, stack))
  {
    hide Step, ApplyRule, RuleMayStart, MatchPattern;
    assert Patterns.Name(text, pos, true).None? by {
      Patterns.NameSpec(text, pos, true);
    }
    AnonymousFire(text, pos, stack, sub);
  }

  /** Only `not` among the directives can start where no `#` is. */
  lemma NotDirective(text: string, pos: nat)
    requires pos < |text| && text[pos] != '#' && !Patterns.WordAt(text, pos, "not")
    ensures Patterns.FirstWord(text, pos, Patterns.Directives, 0).None?
  {
    Patterns.FirstWordSpec(text, pos, Patterns.Directives, 0);
    WordHeads();
    forall k | 0 <= k < |Patterns.Directives|
      ensures !Patterns.WordAt(text, pos, Patterns.Directives[k])
    {
      if Patterns.Directives[k][0] == '#' {
        NotStartsWith(text, pos, Patterns.Directives[k], 0);
      }
    }
  }

  /** In `root`, where the identifier pattern matches `n` characters and
      neither a directive nor a variable does, they are one `Text` token. */
  lemma IdentifierFire(n: nat, text: string, pos: nat, stack: seq<State>, sub: SubLexer)
    requires ValidStack(stack) && Top(stack) == Root
    requires pos < |text| && text[pos] != 'k' && (text[pos] == '\'' || IsLower(text[pos]))
    requires Patterns.FirstWord(text, pos, Patterns.Directives, 0).None? && Patterns.Name(text, pos, true).None?
    requires Patterns.Name(text, pos, false) == Some(n)
    ensures pos + n <= |text|
    ensures Step(text, pos, stack, sub) == Some(Move([Token(pos, Text, text[pos..pos + n])], pos + n, stack))
  {
    hide Step, ApplyRule, RuleMayStart, MatchPattern;
    IdentifierHeads(text[pos]);
    Miss10(text, pos, sub);
    Miss14(text, pos, sub);
    Row16();
    Hit16(n, text, pos);
    TransitStay(stack);
    RootFire(16, Identifier, Text, Stay, {10, 14}, n, text, pos, stack, sub);
  }

  /** What the earlier root rules see at a lower-case name: the identifier pattern
      takes the whole run of identifier characters, while neither the
      variable pattern nor any directive (the word `not` included) matches. */
  lemma IdentifierConditions(text: string, pos: nat)
    requires pos < |text| && text[pos] != '_' && text[pos] != 'k'
    requires Patterns.LetterAfterLeaders(text, pos, false) && !Patterns.WordAt(text, pos, "not")
    ensures Patterns.Name(text, pos, false) == Some(Span(text, pos, IdentChars))
    ensures text[pos] == '\'' || IsLower(text[pos])
    ensures Patterns.Name(text, pos, true).None?
    ensures Patterns.FirstWord(text, pos, Patterns.Directives, 0).None?
  {
    NameIsIdentRun(text, pos, false);
    NameHead(text, pos, false);
    CaseExclusive(text, pos);
    Patterns.NameSpec(text, pos, true);
    NotDirective(text, pos);
  }

  /** A name that starts with an apostrophe or a lower-case letter other
      than `k`, and is not the keyword `not`, is one `Text` token over the
      whole run of identifier characters. */
  lemma IdentifierStep(text: string, pos: nat, stack: seq<State>, sub: SubLexer)
    requires ValidStack(stack) && Top(stack) == Root
    requires pos < |text| && text[pos] != '_' && text[pos] != 'k'
    requires Patterns.LetterAfterLeaders(text, pos, false) && !Patterns.WordAt(text, pos, "not")
    ensures
      var n := Span(text, pos, IdentChars);
      Step(text, pos, stack, sub) == Some(Move([Token(pos, Text, text[pos..pos + n])], pos + n, stack))
  {
    hide Step, Patterns.LetterAfterLeaders, Patterns.WordAt, Patterns.Name, Span;
    IdentifierConditions(text, pos);
    IdentifierFire(Span(text, pos, IdentChars), text, pos, stack, sub);
  }


  // ---------------------------------------------------------------------
  // White space and stray characters
  // ---------------------------------------------------------------------

  /** Each white-space character is a `Text` token of its own. */
  lemma WhitespaceStep(text: string, pos: nat, stack: seq<State>, sub: SubLexer)
    requires ValidStack(stack) && Top(stack) == Root
    requires pos < |text| && IsSpace(text[pos])
    ensures Step(text, pos, stack, sub) == Some(Move([Token(pos, Text, [text[pos]])], pos + 1, stack))
  {
    hide Step, ApplyRule, RuleMayStart, MatchPattern;
    SpaceHeads(text[pos]);
    Row17();
    Hit17(text, pos);
    TransitStay(stack);
    SingleChar(text, pos);
    RootFire(17, Whitespace, Text, Stay, {}, 1, text, pos, stack, sub);
  }

  /** A character that begins no token is an `Error` character. */
  lemma StrayStep(text: string, pos: nat, stack: seq<State>, sub: SubLexer)
    requires ValidStack(stack) && Top(stack) == Root
    requires pos < |text| && Stray(text[pos])
    ensures Step(text, pos, stack, sub) == Some(Move([Token(pos, Error, [text[pos]])], pos + 1, stack))
  {
    hide Step, ApplyRule, RuleMayStart, MatchPattern;
    StrayHeads(text[pos]);
    RootFails({}, text, pos, stack, sub);
  }
}
