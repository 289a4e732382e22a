/** Whole token streams for a few short inputs, each pinning down one of the
    lexer's less obvious decisions. Every stream starts from the usual initial
    stack `[Root]` and holds for any embedded lexer. */
module Examples {
  import opened Tokens
  import opened Chars
  import Patterns
  import opened Lexer
  import opened LexerProofs
  import RootProofs

  /** `k` sits in the operator class, so `key` is the operator `k` and then
      the identifier `ey`. */
  lemma KeyExample(sub: SubLexer)
    ensures Lex("key", 0, [Root], sub) == [Token(0, Operator, "k"), Token(1, Text, "ey")]
  {
    hide Step, Lex, Span, Patterns.LetterAfterLeaders, Patterns.WordAt;
    var text := "key";
    KeyFacts();
    RootProofs.LetterKStep(text, 0, [Root], sub);
    LexUnfold(text, 0, [Root], sub);
    RootProofs.IdentifierStep(text, 1, [Root], sub);
    LexUnfold(text, 1, [Root], sub);
    RootProofs.RootEnd(text, [Root], sub);
  }

  /** What the matchers see in `key`. */
  lemma KeyFacts()
    ensures Span("key", 0, OperatorChars) == 1 && "key"[0..1] == "k"
    ensures Span("key", 1, IdentChars) == 2 && "key"[1..3] == "ey"
    ensures Patterns.LetterAfterLeaders("key", 1, false) && !Patterns.WordAt("key", 1, "not")
  {
    var text := "key";
    assert AllIn(text, 1, 1, Leaders) && IsLower(text[1]);
    assert Span(text, 1, OperatorChars) == 0;
    assert Span(text, 3, IdentChars) == 0;
  }

  /** A leading underscore before a lower-case letter is the anonymous
      variable: `_x` is the variable `_` and then the identifier `x`. */
  lemma UnderscoreExample(sub: SubLexer)
    ensures Lex("_x", 0, [Root], sub) == [Token(0, NameVariable, "_"), Token(1, Text, "x")]
  {
    hide Step, Lex, Span, Patterns.LetterAfterLeaders, Patterns.WordAt;
    var text := "_x";
    UnderscoreFacts();
    RootProofs.AnonymousStep(text, 0, [Root], sub);
    LexUnfold(text, 0, [Root], sub);
    RootProofs.IdentifierStep(text, 1, [Root], sub);
    LexUnfold(text, 1, [Root], sub);
    RootProofs.RootEnd(text, [Root], sub);
  }

  /** What the matchers see in `_x`. */
  lemma UnderscoreFacts()
    ensures !Patterns.LetterAfterLeaders("_x", 0, true)
    ensures Span("_x", 1, IdentChars) == 1 && "_x"[1..2] == "x"
    ensures Patterns.LetterAfterLeaders("_x", 1, false) && !Patterns.WordAt("_x", 1, "not")
  {
    var text := "_x";
    forall e | 0 <= e < |text| && AllIn(text, 0, e, Leaders)
      ensures !IsUpper(text[e])
    {
    }
    assert AllIn(text, 1, 1, Leaders) && IsLower(text[1]);
    assert Span(text, 2, IdentChars) == 0;
  }

  /** The arrow rule only fires where a turn starts: in the fact `k:-a.` the
      operator run that `k` starts swallows `:-`, so the first token is the
      operator `k:-`. */
  lemma KArrowExample(sub: SubLexer)
    ensures Step("k:-a.", 0, [Root], sub) == Some(Move([Token(0, Operator, "k:-")], 3, [Root]))
  {
    hide Step, Span;
    KArrowFacts();
    RootProofs.LetterKStep("k:-a.", 0, [Root], sub);
  }

  /** What the operator matcher sees in `k:-a.`. */
  lemma KArrowFacts()
    ensures Span("k:-a.", 0, OperatorChars) == 3 && "k:-a."[0..3] == "k:-"
  {
    var text := "k:-a.";
    assert Span(text, 3, OperatorChars) == 0;
  }

  /** A rule: `:-` is one punctuation token even though both of its
      characters are operator characters, and the final `.` is punctuation. */
  lemma RuleExample(sub: SubLexer)
    ensures
      Lex("a:-b.", 0, [Root], sub)
        == [Token(0, Text, "a"), Token(1, Punctuation, ":-"), Token(3, Text, "b"), Token(4, Punctuation, ".")]
  {
    hide Step, Lex, Span, Patterns.LetterAfterLeaders, Patterns.WordAt;
    var text := "a:-b.";
    RuleFacts();
    RootProofs.IdentifierStep(text, 0, [Root], sub);
    LexUnfold(text, 0, [Root], sub);
    RootProofs.RuleArrowStep(text, 1, [Root], sub);
    LexUnfold(text, 1, [Root], sub);
    RootProofs.IdentifierStep(text, 3, [Root], sub);
    LexUnfold(text, 3, [Root], sub);
    RootProofs.DotStep(text, 4, [Root], sub);
    LexUnfold(text, 4, [Root], sub);
    RootProofs.RootEnd(text, [Root], sub);
  }

  /** What the matchers see in `a:-b.`. */
  lemma RuleFacts()
    ensures Span("a:-b.", 0, IdentChars) == 1 && "a:-b."[0..1] == "a"
    ensures Span("a:-b.", 3, IdentChars) == 1 && "a:-b."[3..4] == "b"
    ensures StartsWith("a:-b.", 1, ":-")
    ensures Patterns.LetterAfterLeaders("a:-b.", 0, false) && !Patterns.WordAt("a:-b.", 0, "not")
    ensures Patterns.LetterAfterLeaders("a:-b.", 3, false) && !Patterns.WordAt("a:-b.", 3, "not")
  {
    var text := "a:-b.";
    assert AllIn(text, 0, 0, Leaders) && IsLower(text[0]);
    assert AllIn(text, 3, 3, Leaders) && IsLower(text[3]);
    assert Span(text, 1, IdentChars) == 0;
    assert Span(text, 4, IdentChars) == 0;
    assert text[1..3] == ":-";
  }
}
