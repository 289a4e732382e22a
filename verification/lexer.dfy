/** The Clingo lexer as a pushdown automaton: the four rule tables of
    `ClingoLexer.tokens` and the first-match dispatch loop of pygments'
    `RegexLexer` that runs them. */
module Lexer {
  import opened Tokens
  import opened Chars
  import Patterns
  import Scripts

  /** The patterns of the rule tables, one per regular expression. */
  datatype Pattern =
    | CommentOpen      // %\*
    | LineComment      // %.*
    | HexNumber        // 0x[0-9a-fA-F]+
    | DecimalNumber    // \d+
    | QuotedString     // "(\\n|\\"|\\\\|[^\\"])*"
    | RuleArrow        // :-
    | Bracket          // [\[\](){}]
    | Separator        // ((?<!:):-|(?<!:):~|\.(?!\.)|,(?!;)|;(?!;)|:(?!:))
    | TheoryOperator   // \&[_]*[a-z][a-zA-Z_]*
    | OperatorRun      // [/<=>+\-*\\?&@|:;~k.!]+
    | Directive        // (#count|...|#end|not)\b
    | ScriptDirective  // #script
    | IncludeDirective // #include\b
    | ConstantWord     // (#inf|#sup|#true|#false)\b
    | Variable         // [_']*[A-Z][0-9a-zA-Z'_]*
    | Anonymous        // _
    | Identifier       // [_']*[a-z][0-9a-zA-Z'_]*
    | Whitespace       // \s
    | AnglePath        // <(\\>|\\"|\\\\|[^\\>])*>
    | Nothing          // the empty pattern ''
    | CommentClose     // \*%
    | CommentChunk     // [^*%]+
    | CommentMarker    // [*%]

  /** `None` stays, `#pop`, `#push` (re-push the current state), or a state name. */
  datatype Transition = Stay | Pop | PushSelf | Enter(state: State)

  /** A table entry: a pattern whose whole match becomes one token, or the
      script rule for one embedded language, whose groups become several. */
  datatype Rule =
    | Simple(pattern: Pattern, kind: Kind, transition: Transition)
    | ScriptBlock(lang: Language)

  /** What a matching rule produces: its tokens, the match length, the transition. */
  datatype Emission = Emission(tokens: seq<Token>, len: nat, transition: Transition)

  /** One turn of the dispatch loop: tokens emitted, new cursor, new stack. */
  datatype Move = Move(tokens: seq<Token>, pos: nat, stack: seq<State>)

  function RootRules(): seq<Rule>
  {
    [ Simple(CommentOpen, CommentMultiline, Enter(NestedComment)),
      Simple(LineComment, CommentSingle, Stay),
      Simple(HexNumber, NumberHex, Stay),
      Simple(DecimalNumber, NumberInteger, Stay),
      Simple(QuotedString, StringDouble, Stay),
      Simple(RuleArrow, Punctuation, Stay),
      Simple(Bracket, Punctuation, Stay),
      Simple(Separator, Punctuation, Stay),
      Simple(TheoryOperator, Keyword, Stay),
      Simple(OperatorRun, Operator, Stay),
      Simple(Directive, Keyword, Stay),
      Simple(ScriptDirective, Keyword, Enter(Script)),
      Simple(IncludeDirective, Keyword, Enter(Include)),
      Simple(ConstantWord, KeywordConstant, Stay),
      Simple(Variable, NameVariable, Stay),
      Simple(Anonymous, NameVariable, Stay),
      Simple(Identifier, Text, Stay),
      Simple(Whitespace, Text, Stay) ]
  }

  function IncludeRules(): seq<Rule>
  {
    [ Simple(AnglePath, StringDouble, Pop),
      Simple(QuotedString, StringDouble, Pop),
      Simple(Whitespace, Text, Stay),
      Simple(Nothing, Text, Pop) ]
  }

  function ScriptRules(): seq<Rule>
  {
    [ ScriptBlock(Python),
      ScriptBlock(Lua),
      Simple(Nothing, Text, Pop) ]
  }

  function CommentRules(): seq<Rule>
  {
    [ Simple(CommentClose, CommentMultiline, Pop),
      Simple(CommentOpen, CommentMultiline, PushSelf),
      Simple(CommentChunk, CommentMultiline, Stay),
      Simple(CommentMarker, CommentMultiline, Stay) ]
  }

  function Rules(s: State): seq<Rule>
  {
    match s
    case Root => RootRules()
    case Include => IncludeRules()
    case Script => ScriptRules()
    case NestedComment => CommentRules()
  }

  predicate IsStarOrPercent(c: char) { c == '*' || c == '%' }

  predicate IsUnderscore(c: char) { c == '_' }

  /** The length of `p`'s match at `pos`, if it matches there. */
  function MatchPattern(p: Pattern, text: string, pos: nat): (r: Option<nat>)
    requires pos <= |text|
    ensures r.Some? ==> pos + r.value <= |text|
  {
    match p
    case CommentOpen => Patterns.Literal(text, pos, "%*")
    case LineComment => Patterns.LineComment(text, pos)
    case HexNumber => Patterns.HexNumber(text, pos)
    case DecimalNumber => Patterns.DecimalNumber(text, pos)
    case QuotedString => Patterns.Delimited(text, pos, Patterns.Quote)
    case RuleArrow => Patterns.Literal(text, pos, ":-")
    case Bracket => Patterns.OneChar(text, pos, IsBracket)
    case Separator => Patterns.Separator(text, pos)
    case TheoryOperator => Patterns.TheoryOperator(text, pos)
    case OperatorRun => Patterns.OperatorRun(text, pos)
    case Directive => Patterns.FirstWord(text, pos, Patterns.Directives, 0)
    case ScriptDirective => Patterns.Literal(text, pos, "#script")
    case IncludeDirective => if Patterns.WordAt(text, pos, "#include") then Some(8) else None
    case ConstantWord => Patterns.FirstWord(text, pos, Patterns.Constants, 0)
    case Variable => Patterns.Name(text, pos, true)
    case Anonymous => Patterns.OneChar(text, pos, IsUnderscore)
    case Identifier => Patterns.Name(text, pos, false)
    case Whitespace => Patterns.OneChar(text, pos, IsSpace)
    case AnglePath => Patterns.Delimited(text, pos, Patterns.Angle)
    case Nothing => Some(0)
    case CommentClose => Patterns.Literal(text, pos, "*%")
    case CommentChunk => Patterns.CommentChunk(text, pos)
    case CommentMarker => Patterns.OneChar(text, pos, IsStarOrPercent)
  }

  /** Only the empty pattern matches the empty string. */
  lemma OnlyNothingMatchesEmpty(p: Pattern, text: string, pos: nat)
    requires pos <= |text|
    ensures MatchPattern(p, text, pos) == Some(0) ==> p == Nothing
  {
    match p
    case Directive =>
      Patterns.FirstWordSpec(text, pos, Patterns.Directives, 0);
      var r := Patterns.FirstWord(text, pos, Patterns.Directives, 0);
      if r.Some? {
        var k :| 0 <= k < |Patterns.Directives| && r.value == |Patterns.Directives[k]|;
      }
    case ConstantWord =>
      Patterns.FirstWordSpec(text, pos, Patterns.Constants, 0);
      var r := Patterns.FirstWord(text, pos, Patterns.Constants, 0);
      if r.Some? {
        var k :| 0 <= k < |Patterns.Constants| && r.value == |Patterns.Constants[k]|;
      }
    case _ =>
  }

  /** The transition a rule makes when it fires; the script rule always pops. */
  function TransitionOf(r: Rule): Transition
  {
    match r
    case Simple(_, _, t) => t
    case ScriptBlock(_) => Pop
  }

  /** What rule `r` produces at `pos`, if its pattern matches there: a plain
      rule's whole match as one token of its kind; the script rule's groups. */
  function ApplyRule(r: Rule, text: string, pos: nat, sub: SubLexer): (e: Option<Emission>)
    requires pos <= |text|
    ensures e.Some? ==> pos + e.value.len <= |text| && e.value.transition == TransitionOf(r)
    ensures e.Some? && r.Simple? ==> e.value.tokens == [Token(pos, r.kind, text[pos..pos + e.value.len])]
    ensures e.Some? && e.value.len == 0 ==> r.Simple? && r.pattern == Nothing
  {
    match r
    case Simple(p, kind, t) => ApplySimple(p, kind, t, text, pos)
    case ScriptBlock(lang) => ApplyScript(lang, text, pos, sub)
  }

  /** A plain rule: the whole match becomes one token of the rule's kind. */
  function ApplySimple(p: Pattern, kind: Kind, t: Transition, text: string, pos: nat): (e: Option<Emission>)
    requires pos <= |text|
    ensures e.Some? ==> pos + e.value.len <= |text| && e.value.transition == t
    ensures e.Some? ==> e.value.tokens == [Token(pos, kind, text[pos..pos + e.value.len])]
    ensures e.Some? && e.value.len == 0 ==> p == Nothing
  {
    OnlyNothingMatchesEmpty(p, text, pos);
    match MatchPattern(p, text, pos)
    case None => None
    case Some(n) => Some(Emission([Token(pos, kind, text[pos..pos + n])], n, t))
  }

  /** The script rule for `lang`: its groups' tokens, then `#pop`. */
  function ApplyScript(lang: Language, text: string, pos: nat, sub: SubLexer): (e: Option<Emission>)
    requires pos <= |text|
    ensures e.Some? ==> pos < pos + e.value.len <= |text| && e.value.transition == Pop
  {
    Patterns.MatchScriptForm(lang, text, pos);
    match Patterns.MatchScript(lang, text, pos)
    case None => None
    case Some(m) => Some(Emission(Scripts.ScriptTokens(lang, m, text, pos, sub), m.dot + 1 - pos, Pop))
  }

  /** The index of the first rule of `rules[i..]` that matches at `pos`, or
      `|rules|` when none does: the first match wins, whatever the length of
      later matches. */
  function Winner(rules: seq<Rule>, i: nat, text: string, pos: nat, sub: SubLexer): (k: nat)
    requires i <= |rules| && pos <= |text|
    ensures i <= k <= |rules|
    decreases |rules| - i
  {
    if i == |rules| || ApplyRule(rules[i], text, pos, sub).Some? then i
    else Winner(rules, i + 1, text, pos, sub)
  }

  /** The rule `Winner` picks matches, and none before it does. */
  lemma {:induction false} WinnerSpec(rules: seq<Rule>, i: nat, text: string, pos: nat, sub: SubLexer)
    requires i <= |rules| && pos <= |text|
    ensures Winner(rules, i, text, pos, sub) < |rules| ==> ApplyRule(rules[Winner(rules, i, text, pos, sub)], text, pos, sub).Some?
    ensures forall j | i <= j < Winner(rules, i, text, pos, sub) :: ApplyRule(rules[j], text, pos, sub).None?
    decreases |rules| - i
  {
    hide ApplyRule;
    if i < |rules| && ApplyRule(rules[i], text, pos, sub).None? {
      WinnerSpec(rules, i + 1, text, pos, sub);
    }
  }

  function Top(stack: seq<State>): State
    requires |stack| > 0
  {
    stack[|stack| - 1]
  }

  /** Applies a transition; `#pop` on a single state leaves it in place. */
  function Transit(stack: seq<State>, t: Transition): seq<State>
    requires |stack| > 0
  {
    match t
    case Stay => stack
    case Pop => if |stack| > 1 then stack[..|stack| - 1] else stack
    case PushSelf => stack + [Top(stack)]
    case Enter(s) => stack + [s]
  }

  /** A stack the lexer can run from: non-empty, with neither `include` nor
      `script` at the bottom (their empty fallback would pop nothing and
      match again at the same place forever). */
  predicate ValidStack(stack: seq<State>)
  {
    |stack| > 0 && stack[0] != Include && stack[0] != Script
  }

  /** `root` at the bottom; above it nothing, one `include`, one `script`, or
      one or more `nested-comment`. */
  predicate WellShaped(stack: seq<State>)
  {
    && |stack| > 0 && stack[0] == Root
    && ( (forall i | 1 <= i < |stack| :: stack[i] == NestedComment)
       || (|stack| == 2 && (stack[1] == Include || stack[1] == Script)) )
  }

  /** The transitions the table of state `s` contains. */
  predicate Permitted(s: State, t: Transition)
  {
    match s
    case Root => t == Stay || (t.Enter? && t.state != Root)
    case Include => t == Stay || t == Pop
    case Script => t == Pop
    case NestedComment => t == Stay || t == Pop || t == PushSelf
  }

  /** Where each table may send the automaton, and which rules may match the
      empty string: only the `include` and `script` fallbacks, which pop. */
  lemma TableTransitions(s: State, k: nat)
    requires k < |Rules(s)|
    ensures Permitted(s, TransitionOf(Rules(s)[k]))
    ensures Rules(s)[k].Simple? && Rules(s)[k].pattern == Nothing ==> s == Include || s == Script
  {
  }

  /** A permitted transition keeps a stack valid (and a well-shaped stack
      well shaped), and a move that consumes nothing pops. */
  lemma TransitKeepsShape(stack: seq<State>, t: Transition, len: nat)
    requires ValidStack(stack) && Permitted(Top(stack), t)
    requires len == 0 ==> t == Pop && (Top(stack) == Include || Top(stack) == Script)
    ensures ValidStack(Transit(stack, t))
    ensures len > 0 || |Transit(stack, t)| < |stack|
    ensures WellShaped(stack) ==> WellShaped(Transit(stack, t))
  {
    var next := Transit(stack, t);
    if WellShaped(stack) && t == Pop && |stack| > 1 {
      assert forall i | 1 <= i < |next| :: next[i] == stack[i];
    }
  }

  /** The rule loop of one turn, from the `i`-th rule of state `s`'s table
      on: the first rule that matches fires; when none does, one character
      becomes an `Error` token, and at the end of the text nothing happens.
      Every turn advances the cursor or shrinks the stack, and keeps the
      stack valid and well shaped. */
  function Dispatch(s: State, i: nat, text: string, pos: nat, stack: seq<State>, sub: SubLexer): (r: Option<Move>)
    requires i <= |Rules(s)| && pos <= |text| && ValidStack(stack) && Top(stack) == s
    ensures r.None? ==> pos == |text|
    ensures r.Some? ==> pos <= r.value.pos <= |text| && ValidStack(r.value.stack)
    ensures r.Some? ==> r.value.pos > pos || |r.value.stack| < |stack|
    ensures r.Some? && WellShaped(stack) ==> WellShaped(r.value.stack)
    decreases |Rules(s)| - i
  {
    if i == |Rules(s)| then
      if pos < |text| then Some(Move([Token(pos, Error, text[pos..pos + 1])], pos + 1, stack)) else None
    else
      match ApplyRule(Rules(s)[i], text, pos, sub)
      case Some(e) =>
        TableTransitions(s, i);
        TransitKeepsShape(stack, e.transition, e.len);
        Some(Move(e.tokens, pos + e.len, Transit(stack, e.transition)))
      case None => Dispatch(s, i + 1, text, pos, stack, sub)
  }

  /** One turn of the loop, in the state on top of the stack. */
  function Step(text: string, pos: nat, stack: seq<State>, sub: SubLexer): (r: Option<Move>)
    requires pos <= |text| && ValidStack(stack)
    ensures r.None? ==> pos == |text|
    ensures r.Some? ==> pos <= r.value.pos <= |text| && ValidStack(r.value.stack)
    ensures r.Some? ==> r.value.pos > pos || |r.value.stack| < |stack|
    ensures r.Some? && WellShaped(stack) ==> WellShaped(r.value.stack)
  {
    Dispatch(Top(stack), 0, text, pos, stack, sub)
  }

  /** The token stream from `pos` on, in state `stack`: pygments'
      `RegexLexer.get_tokens_unprocessed`. */
  function Lex(text: string, pos: nat, stack: seq<State>, sub: SubLexer): seq<Token>
    requires pos <= |text| && ValidStack(stack)
    decreases |text| - pos, |stack|
  {
    match Step(text, pos, stack, sub)
    case None => []
    case Some(m) =>
      m.tokens + Lex(text, m.pos, m.stack, sub)
  }
}
