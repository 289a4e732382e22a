/** The `include` and `script` states: what one turn does there, and what a
    `#include`, `#script` or `%*` leads to, seen from `root`. Both states
    end with the empty fallback, which emits an empty `Text` token and pops
    back into the state below without consuming anything. */
module StateProofs {
  import opened Tokens
  import opened Chars
  import Patterns
  import opened Lexer
  import opened LexerProofs
  import opened Scripts
  import RootProofs
  import CommentProofs

  // ---------------------------------------------------------------------
  // The rows of the two tables
  // ---------------------------------------------------------------------

  /** The `include` table, and where its `#pop` leads: the state below. */
  lemma IncludeTable(stack: seq<State>)
    requires ValidStack(stack) && Top(stack) == Include
    ensures Rules(Top(stack)) == IncludeRules() && |IncludeRules()| == 4
    ensures |stack| > 1 && Transit(stack, Pop) == stack[..|stack| - 1]
  {
  }

  /** The `script` table, and where its `#pop` leads: the state below. */
  lemma ScriptTable(stack: seq<State>)
    requires ValidStack(stack) && Top(stack) == Script
    ensures Rules(Top(stack)) == ScriptRules() && |ScriptRules()| == 3
    ensures |stack| > 1 && Transit(stack, Pop) == stack[..|stack| - 1]
  {
  }

  /** `<(\\>|\\"|\\\\|[^\\>])*>` becomes one `String.Double` token and pops. */
  lemma AngleRule(text: string, pos: nat, sub: SubLexer)
    requires pos <= |text|
    ensures
      ApplyRule(IncludeRules()[0], text, pos, sub)
        == if Patterns.Delimited(text, pos, Patterns.Angle).Some? then
             var n := Patterns.Delimited(text, pos, Patterns.Angle).value;
             Some(Emission([Token(pos, StringDouble, text[pos..pos + n])], n, Pop))
           else None
  {
  }

  /** A double-quoted string becomes one `String.Double` token and pops. */
  lemma QuoteRule(text: string, pos: nat, sub: SubLexer)
    requires pos <= |text|
    ensures
      ApplyRule(IncludeRules()[1], text, pos, sub)
        == if Patterns.Delimited(text, pos, Patterns.Quote).Some? then
             var n := Patterns.Delimited(text, pos, Patterns.Quote).value;
             Some(Emission([Token(pos, StringDouble, text[pos..pos + n])], n, Pop))
           else None
  {
  }

  /** One white-space character becomes a `Text` token, staying in `include`. */
  lemma SpaceRule(text: string, pos: nat, sub: SubLexer)
    requires pos <= |text|
    ensures
      ApplyRule(IncludeRules()[2], text, pos, sub)
        == if pos < |text| && IsSpace(text[pos]) then Some(Emission([Token(pos, Text, text[pos..pos + 1])], 1, Stay))
           else None
  {
  }

  /** The empty fallback matches everywhere, the end of the text included. */
  lemma FallbackRule(text: string, pos: nat, sub: SubLexer)
    requires pos <= |text|
    ensures IncludeRules()[3] == ScriptRules()[2]
    ensures ApplyRule(ScriptRules()[2], text, pos, sub) == Some(Emission([Token(pos, Text, "")], 0, Pop))
  {
    assert text[pos..pos] == "";
  }

  /** The script rule for `lang` yields the groups of its match and pops. */
  lemma BlockRule(lang: Language, text: string, pos: nat, sub: SubLexer)
    requires pos <= |text|
    ensures Patterns.MatchScript(lang, text, pos).Some? ==> Patterns.ScriptForm(lang, text, pos, Patterns.MatchScript(lang, text, pos).value)
    ensures
      ApplyRule(ScriptBlock(lang), text, pos, sub)
        == if Patterns.MatchScript(lang, text, pos).Some? then
             var m := Patterns.MatchScript(lang, text, pos).value;
             Some(Emission(ScriptTokens(lang, m, text, pos, sub), m.dot + 1 - pos, Pop))
           else None
  {
    hide Patterns.MatchScript, Patterns.ScriptForm, ScriptTokens, ApplySimple;
    Patterns.MatchScriptForm(lang, text, pos);
  }

  // ---------------------------------------------------------------------
  // One turn in `include`
  // ---------------------------------------------------------------------

  /** An include path in angle brackets is one `String.Double` token, and
      the lexer returns to the state below. */
  lemma IncludePathStep(text: string, pos: nat, stack: seq<State>, sub: SubLexer)
    requires pos <= |text| && ValidStack(stack) && Top(stack) == Include
    requires Patterns.Delimited(text, pos, Patterns.Angle).Some?
    ensures
      var n := Patterns.Delimited(text, pos, Patterns.Angle).value;
      && 2 <= n && text[pos] == '<' && text[pos + n - 1] == '>'
      && Patterns.Body(text[pos + 1..pos + n - 1], Patterns.Angle)
      && Step(text, pos, stack, sub)
         == Some(Move([Token(pos, StringDouble, text[pos..pos + n])], pos + n, stack[..|stack| - 1]))
  {
    hide Step, ApplyRule, Rules;
    Patterns.DelimitedForm(text, pos, Patterns.Angle);
    IncludeTable(stack);
    AngleRule(text, pos, sub);
    StepAt(0, text, pos, stack, sub);
  }

  /** A double-quoted file name is one `String.Double` token, and the lexer
      returns to the state below. */
  lemma IncludeStringStep(text: string, pos: nat, stack: seq<State>, sub: SubLexer)
    requires pos <= |text| && ValidStack(stack) && Top(stack) == Include
    requires Patterns.Delimited(text, pos, Patterns.Angle).None?
    requires Patterns.Delimited(text, pos, Patterns.Quote).Some?
    ensures
      var n := Patterns.Delimited(text, pos, Patterns.Quote).value;
      && 2 <= n && text[pos] == '"' && text[pos + n - 1] == '"'
      && Patterns.Body(text[pos + 1..pos + n - 1], Patterns.Quote)
      && Step(text, pos, stack, sub)
         == Some(Move([Token(pos, StringDouble, text[pos..pos + n])], pos + n, stack[..|stack| - 1]))
  {
    hide Step, ApplyRule, Rules;
    Patterns.DelimitedForm(text, pos, Patterns.Quote);
    IncludeTable(stack);
    AngleRule(text, pos, sub);
    QuoteRule(text, pos, sub);
    StepAt(1, text, pos, stack, sub);
  }

  /** White space before the file name is `Text`; the lexer stays in `include`. */
  lemma IncludeSpaceStep(text: string, pos: nat, stack: seq<State>, sub: SubLexer)
    requires pos < |text| && ValidStack(stack) && Top(stack) == Include && IsSpace(text[pos])
    ensures Step(text, pos, stack, sub) == Some(Move([Token(pos, Text, [text[pos]])], pos + 1, stack))
  {
    hide Step, ApplyRule, Rules;
    IncludeTable(stack);
    assert Patterns.Delimited(text, pos, Patterns.Angle).None? && Patterns.Delimited(text, pos, Patterns.Quote).None?;
    AngleRule(text, pos, sub);
    QuoteRule(text, pos, sub);
    SpaceRule(text, pos, sub);
    StepAt(2, text, pos, stack, sub);
    assert text[pos..pos + 1] == [text[pos]];
  }

  /** Anything else, the end of the text included, takes the fallback: an
      empty `Text` token, nothing consumed, back to the state below. */
  lemma IncludeFallbackStep(text: string, pos: nat, stack: seq<State>, sub: SubLexer)
    requires pos <= |text| && ValidStack(stack) && Top(stack) == Include
    requires Patterns.Delimited(text, pos, Patterns.Angle).None?
    requires Patterns.Delimited(text, pos, Patterns.Quote).None?
    requires pos == |text| || !IsSpace(text[pos])
    ensures Step(text, pos, stack, sub) == Some(Move([Token(pos, Text, "")], pos, stack[..|stack| - 1]))
  {
    hide Step, ApplyRule, Rules;
    IncludeTable(stack);
    AngleRule(text, pos, sub);
    QuoteRule(text, pos, sub);
    SpaceRule(text, pos, sub);
    FallbackRule(text, pos, sub);
    StepAt(3, text, pos, stack, sub);
  }

  /** Whatever follows, a turn in `include` does exactly one of the four
      things above, and consumes nothing only when it pops. */
  lemma IncludeTurn(text: string, pos: nat, stack: seq<State>, sub: SubLexer)
    requires pos <= |text| && ValidStack(stack) && Top(stack) == Include
    ensures Step(text, pos, stack, sub).Some?
    ensures
      var m := Step(text, pos, stack, sub).value;
      && |m.tokens| == 1
      && (m.stack == stack || m.stack == stack[..|stack| - 1])
      && (m.pos == pos ==> m.stack == stack[..|stack| - 1] && m.tokens == [Token(pos, Text, "")])
  {
    hide Step, ApplyRule, Rules;
    if Patterns.Delimited(text, pos, Patterns.Angle).Some? {
      IncludePathStep(text, pos, stack, sub);
    } else if Patterns.Delimited(text, pos, Patterns.Quote).Some? {
      IncludeStringStep(text, pos, stack, sub);
    } else if pos < |text| && IsSpace(text[pos]) {
      IncludeSpaceStep(text, pos, stack, sub);
    } else {
      IncludeFallbackStep(text, pos, stack, sub);
    }
  }

  // ---------------------------------------------------------------------
  // One turn in `script`
  // ---------------------------------------------------------------------

  /** A Python block: the groups of the match, then back to the state below. */
  lemma PythonStep(text: string, pos: nat, stack: seq<State>, sub: SubLexer)
    requires pos <= |text| && ValidStack(stack) && Top(stack) == Script
    requires Patterns.MatchScript(Python, text, pos).Some?
    ensures
      var m := Patterns.MatchScript(Python, text, pos).value;
      && Patterns.ScriptForm(Python, text, pos, m)
      && Step(text, pos, stack, sub)
         == Some(Move(ScriptTokens(Python, m, text, pos, sub), m.dot + 1, stack[..|stack| - 1]))
  {
    hide Step, ApplyRule, Rules, Patterns.MatchScript, Patterns.ScriptForm, ScriptTokens;
    ScriptTable(stack);
    BlockRule(Python, text, pos, sub);
    StepAt(0, text, pos, stack, sub);
  }

  /** A Lua block, tried only when no Python block matches. */
  lemma LuaStep(text: string, pos: nat, stack: seq<State>, sub: SubLexer)
    requires pos <= |text| && ValidStack(stack) && Top(stack) == Script
    requires Patterns.MatchScript(Python, text, pos).None?
    requires Patterns.MatchScript(Lua, text, pos).Some?
    ensures
      var m := Patterns.MatchScript(Lua, text, pos).value;
      && Patterns.ScriptForm(Lua, text, pos, m)
      && Step(text, pos, stack, sub)
         == Some(Move(ScriptTokens(Lua, m, text, pos, sub), m.dot + 1, stack[..|stack| - 1]))
  {
    hide Step, ApplyRule, Rules, Patterns.MatchScript, Patterns.ScriptForm, ScriptTokens;
    ScriptTable(stack);
    BlockRule(Python, text, pos, sub);
    BlockRule(Lua, text, pos, sub);
    StepAt(1, text, pos, stack, sub);
  }

  /** Text that is not a script block takes the fallback and pops. */
  lemma ScriptFallbackStep(text: string, pos: nat, stack: seq<State>, sub: SubLexer)
    requires pos <= |text| && ValidStack(stack) && Top(stack) == Script
    requires Patterns.MatchScript(Python, text, pos).None? && Patterns.MatchScript(Lua, text, pos).None?
    ensures Step(text, pos, stack, sub) == Some(Move([Token(pos, Text, "")], pos, stack[..|stack| - 1]))
  {
    hide Step, ApplyRule, Rules, Patterns.MatchScript, Patterns.ScriptForm, ScriptTokens;
    ScriptTable(stack);
    BlockRule(Python, text, pos, sub);
    BlockRule(Lua, text, pos, sub);
    FallbackRule(text, pos, sub);
    StepAt(2, text, pos, stack, sub);
  }

  /** Whatever follows, a turn in `script` pops: it consumes a whole block or nothing. */
  lemma ScriptTurn(text: string, pos: nat, stack: seq<State>, sub: SubLexer)
    requires pos <= |text| && ValidStack(stack) && Top(stack) == Script
    ensures Step(text, pos, stack, sub).Some?
    ensures Step(text, pos, stack, sub).value.stack == stack[..|stack| - 1]
    ensures
      var m := Step(text, pos, stack, sub).value;
      m.pos == pos ==> m.tokens == [Token(pos, Text, "")]
  {
    hide Step, ApplyRule, Rules;
    if Patterns.MatchScript(Python, text, pos).Some? {
      PythonStep(text, pos, stack, sub);
    } else if Patterns.MatchScript(Lua, text, pos).Some? {
      LuaStep(text, pos, stack, sub);
    } else {
      ScriptFallbackStep(text, pos, stack, sub);
    }
  }

  // ---------------------------------------------------------------------
  // The directives, seen from `root`
  // ---------------------------------------------------------------------

  /** `#script` followed by a Python block: the keyword, the block's groups
      with the embedded lexer's tokens in the middle, and the lexer carries
      on in `root` right after the final `.`. */
  lemma ScriptBlockLex(text: string, pos: nat, stack: seq<State>, sub: SubLexer)
    requires ValidStack(stack) && Top(stack) == Root && StartsWith(text, pos, "#script")
    requires Patterns.MatchScript(Python, text, pos + 7).Some?
    ensures
      var m := Patterns.MatchScript(Python, text, pos + 7).value;
      && Patterns.ScriptForm(Python, text, pos + 7, m)
      && Lex(text, pos, stack, sub)
         == [Token(pos, Keyword, "#script")] + ScriptTokens(Python, m, text, pos + 7, sub) + Lex(text, m.dot + 1, stack, sub)
  {
    hide Step, Lex, Patterns.MatchScript, Patterns.ScriptForm, ScriptTokens;
    var m := Patterns.MatchScript(Python, text, pos + 7).value;
    RootProofs.ScriptDirectiveStep(text, pos, stack, sub);
    LexUnfold(text, pos, stack, sub);
    PushedTop(stack, Script);
    PythonStep(text, pos + 7, stack + [Script], sub);
    LexUnfold(text, pos + 7, stack + [Script], sub);
  }

  /** `#script` followed by anything but a block: the keyword, an empty
      `Text` token, and `root` again from the character after `#script`. */
  lemma ScriptMissLex(text: string, pos: nat, stack: seq<State>, sub: SubLexer)
    requires ValidStack(stack) && Top(stack) == Root && StartsWith(text, pos, "#script")
    requires Patterns.MatchScript(Python, text, pos + 7).None? && Patterns.MatchScript(Lua, text, pos + 7).None?
    ensures Lex(text, pos, stack, sub) == [Token(pos, Keyword, "#script"), Token(pos + 7, Text, "")] + Lex(text, pos + 7, stack, sub)
  {
    hide Step, Lex;
    RootProofs.ScriptDirectiveStep(text, pos, stack, sub);
    LexUnfold(text, pos, stack, sub);
    PushedTop(stack, Script);
    ScriptFallbackStep(text, pos + 7, stack + [Script], sub);
    LexUnfold(text, pos + 7, stack + [Script], sub);
  }

  /** `#include` right before a path in angle brackets: the keyword, the path
      as one `String.Double` token, and `root` again after the `>`. */
  lemma IncludePathLex(text: string, pos: nat, stack: seq<State>, sub: SubLexer)
    requires ValidStack(stack) && Top(stack) == Root && StartsWith(text, pos, "#include")
    requires Patterns.Delimited(text, pos + 8, Patterns.Angle).Some?
    ensures
      var n := Patterns.Delimited(text, pos + 8, Patterns.Angle).value;
      Lex(text, pos, stack, sub)
        == [Token(pos, Keyword, "#include"), Token(pos + 8, StringDouble, text[pos + 8..pos + 8 + n])]
           + Lex(text, pos + 8 + n, stack, sub)
  {
    hide Step, Lex;
    IncludeBoundary(text, pos);
    RootProofs.IncludeStep(text, pos, stack, sub);
    LexUnfold(text, pos, stack, sub);
    PushedTop(stack, Include);
    IncludePathStep(text, pos + 8, stack + [Include], sub);
    LexUnfold(text, pos + 8, stack + [Include], sub);
  }

  /** `%*` in `root` opens a block comment: the opener, then comment tokens
      up to the `*%` that closes it (nested comments included), and then
      `root` again; or comment tokens to the end of the text. */
  lemma BlockCommentLex(text: string, pos: nat, stack: seq<State>, sub: SubLexer)
    requires ValidStack(stack) && Top(stack) == Root && StartsWith(text, pos, "%*")
    ensures pos + 2 <= |text| && ValidStack(stack + [NestedComment])
    ensures
      var rest := Lex(text, pos + 2, stack + [NestedComment], sub);
      && Lex(text, pos, stack, sub) == [Token(pos, CommentMultiline, "%*")] + rest
      && CommentProofs.Outcome(rest, CommentProofs.CommentEnd(text, pos + 2, 1), text, stack, sub)
  {
    hide Step, Lex;
    RootProofs.CommentOpenStep(text, pos, stack, sub);
    LexUnfold(text, pos, stack, sub);
    assert CommentProofs.Comments(1) == [NestedComment];
    CommentProofs.CommentNesting(text, pos + 2, stack, 1, sub);
  }

  /** A pushed state is on top, and popping it gives the stack back. */
  lemma PushedTop(stack: seq<State>, s: State)
    requires ValidStack(stack)
    ensures ValidStack(stack + [s]) && Top(stack + [s]) == s
    ensures (stack + [s])[..|stack + [s]| - 1] == stack
  {
  }

  /** `#include` is a whole word when an include path follows it. */
  lemma IncludeBoundary(text: string, pos: nat)
    requires StartsWith(text, pos, "#include") && Patterns.Delimited(text, pos + 8, Patterns.Angle).Some?
    ensures Patterns.WordAt(text, pos, "#include")
  {
    assert text[pos + 7] == "#include"[7];
  }
}
