/** The `nested-comment` state: block comments nest, and a comment opened by
    `%*` runs to its matching `*%`, or to the end of the text when there is
    none. The lexer's behaviour is compared with `CommentEnd`, a plain
    left-to-right scan that counts `%*` and `*%`. */
module CommentProofs {
  import opened Tokens
  import opened Chars
  import Patterns
  import opened Lexer
  import opened LexerProofs

  /** `n` nested-comment states. */
  function Comments(n: nat): seq<State>
    decreases n
  {
    if n == 0 then [] else Comments(n - 1) + [NestedComment]
  }

  /** Reference reading of the comment syntax: scanning from `pos` inside
      `depth` open comments, the position just after the `*%` that closes the
      outermost one, or `None` if the text ends first. `*%` is looked for
      before `%*`, one character at a time. */
  function CommentEnd(text: string, pos: nat, depth: nat): (r: Option<nat>)
    requires pos <= |text| && depth >= 1
    ensures r.Some? ==> pos + 2 <= r.value <= |text|
    decreases |text| - pos
  {
    if pos == |text| then None
    else if StartsWith(text, pos, "*%") then
      if depth == 1 then Some(pos + 2) else CommentEnd(text, pos + 2, depth - 1)
    else if StartsWith(text, pos, "%*") then CommentEnd(text, pos + 2, depth + 1)
    else CommentEnd(text, pos + 1, depth)
  }

  /** The scan stops just after a `*%`. */
  lemma {:induction false} CommentEndCloses(text: string, pos: nat, depth: nat)
    requires pos <= |text| && depth >= 1
    ensures CommentEnd(text, pos, depth).Some? ==> StartsWith(text, CommentEnd(text, pos, depth).value - 2, "*%")
    decreases |text| - pos
  {
    if pos == |text| {
    } else if StartsWith(text, pos, "*%") {
      if depth > 1 { CommentEndCloses(text, pos + 2, depth - 1); }
    } else if StartsWith(text, pos, "%*") {
      CommentEndCloses(text, pos + 2, depth + 1);
    } else {
      CommentEndCloses(text, pos + 1, depth);
    }
  }

  // ---------------------------------------------------------------------
  // The comment stack
  // ---------------------------------------------------------------------

  /** With `d >= 1` comments on top, the state is `nested-comment`, `#pop`
      removes one and `#push` adds one. */
  lemma CommentStack(base: seq<State>, d: nat)
    requires ValidStack(base) && d >= 1
    ensures ValidStack(base + Comments(d)) && Top(base + Comments(d)) == NestedComment
    ensures Transit(base + Comments(d), Pop) == base + Comments(d - 1)
    ensures Transit(base + Comments(d), PushSelf) == base + Comments(d + 1)
  {
    assert base + Comments(d) == (base + Comments(d - 1)) + [NestedComment];
    assert (base + Comments(d)) + [NestedComment] == base + Comments(d + 1);
  }

  // ---------------------------------------------------------------------
  // One turn in the comment state, rule by rule
  // ---------------------------------------------------------------------

  /** `\*%` matches exactly where the text has it. */
  lemma CloseRule(text: string, pos: nat, sub: SubLexer)
    requires pos <= |text|
    ensures ApplyRule(CommentRules()[0], text, pos, sub)
      == if StartsWith(text, pos, "*%") then Some(Emission([Token(pos, CommentMultiline, "*%")], 2, Pop)) else None
  {
  }

  /** `%\*` matches exactly where the text has it. */
  lemma OpenRule(text: string, pos: nat, sub: SubLexer)
    requires pos <= |text|
    ensures ApplyRule(CommentRules()[1], text, pos, sub)
      == if StartsWith(text, pos, "%*") then Some(Emission([Token(pos, CommentMultiline, "%*")], 2, PushSelf)) else None
  {
  }

  /** `[^*%]+` matches exactly at a character other than `*` and `%`. */
  lemma ChunkRule(text: string, pos: nat, sub: SubLexer)
    requires pos <= |text|
    ensures
      ApplyRule(CommentRules()[2], text, pos, sub)
        == if pos < |text| && text[pos] != '*' && text[pos] != '%' then
             var n := Patterns.CommentChunk(text, pos).value;
             Some(Emission([Token(pos, CommentMultiline, text[pos..pos + n])], n, Stay))
           else None
  {
  }

  /** `[*%]` matches one `*` or `%`. */
  lemma MarkerRule(text: string, pos: nat, sub: SubLexer)
    requires pos < |text| && (text[pos] == '*' || text[pos] == '%')
    ensures ApplyRule(CommentRules()[3], text, pos, sub)
      == Some(Emission([Token(pos, CommentMultiline, text[pos..pos + 1])], 1, Stay))
  {
  }

  /** The comment state's table. */
  lemma CommentTable(stack: seq<State>)
    requires ValidStack(stack) && Top(stack) == NestedComment
    ensures Rules(Top(stack)) == CommentRules() && |CommentRules()| == 4
  {
  }

  /** `\*%` is tried first: it closes one level. */
  lemma CloseStep(text: string, pos: nat, stack: seq<State>, sub: SubLexer)
    requires pos <= |text| && ValidStack(stack) && Top(stack) == NestedComment
    requires StartsWith(text, pos, "*%")
    ensures Step(text, pos, stack, sub) == Some(Move([Token(pos, CommentMultiline, "*%")], pos + 2, Transit(stack, Pop)))
  {
    hide Step, ApplyRule, Rules;
    CommentTable(stack);
    CloseRule(text, pos, sub);
    StepAt(0, text, pos, stack, sub);
  }

  /** Then `%\*`: it opens one more level. */
  lemma OpenStep(text: string, pos: nat, stack: seq<State>, sub: SubLexer)
    requires pos <= |text| && ValidStack(stack) && Top(stack) == NestedComment
    requires !StartsWith(text, pos, "*%") && StartsWith(text, pos, "%*")
    ensures Step(text, pos, stack, sub) == Some(Move([Token(pos, CommentMultiline, "%*")], pos + 2, Transit(stack, PushSelf)))
  {
    hide Step, ApplyRule, Rules;
    CommentTable(stack);
    CloseRule(text, pos, sub);
    OpenRule(text, pos, sub);
    StepAt(1, text, pos, stack, sub);
  }

  /** Then a longest run free of `*` and `%`, staying in the state. */
  lemma ChunkStep(text: string, pos: nat, stack: seq<State>, sub: SubLexer)
    requires pos < |text| && ValidStack(stack) && Top(stack) == NestedComment
    requires text[pos] != '*' && text[pos] != '%'
    ensures
      var n := Patterns.CommentChunk(text, pos).value;
      Step(text, pos, stack, sub) == Some(Move([Token(pos, CommentMultiline, text[pos..pos + n])], pos + n, stack))
  {
    hide Step, ApplyRule, Rules;
    PlainNotDelimiter(text, pos);
    CommentTable(stack);
    CloseRule(text, pos, sub);
    OpenRule(text, pos, sub);
    ChunkRule(text, pos, sub);
    StepAt(2, text, pos, stack, sub);
  }

  /** Last a lone `*` or `%`, staying in the state. */
  lemma MarkerStep(text: string, pos: nat, stack: seq<State>, sub: SubLexer)
    requires pos < |text| && ValidStack(stack) && Top(stack) == NestedComment
    requires (text[pos] == '*' || text[pos] == '%') && !StartsWith(text, pos, "*%") && !StartsWith(text, pos, "%*")
    ensures Step(text, pos, stack, sub) == Some(Move([Token(pos, CommentMultiline, text[pos..pos + 1])], pos + 1, stack))
  {
    hide Step, ApplyRule, Rules;
    CommentTable(stack);
    CloseRule(text, pos, sub);
    OpenRule(text, pos, sub);
    ChunkRule(text, pos, sub);
    MarkerRule(text, pos, sub);
    StepAt(3, text, pos, stack, sub);
  }

  /** At the end of the text no comment rule matches, and the loop stops. */
  lemma EndStep(text: string, stack: seq<State>, sub: SubLexer)
    requires ValidStack(stack) && Top(stack) == NestedComment
    ensures Step(text, |text|, stack, sub).None?
  {
    DispatchFails(NestedComment, 0, text, |text|, stack, sub);
  }

  // ---------------------------------------------------------------------
  // Nesting
  // ---------------------------------------------------------------------

  predicate AllComment(toks: seq<Token>)
  {
    forall i | 0 <= i < |toks| :: toks[i].kind == CommentMultiline
  }

  /** `all` is some comment tokens followed by `rest`. */
  predicate Continues(all: seq<Token>, rest: seq<Token>)
  {
    |rest| <= |all| && all[|all| - |rest|..] == rest && AllComment(all[..|all| - |rest|])
  }

  /** The stream from inside `d` comments: comment tokens up to the matching
      `*%` and then the stream of the state below, or comment tokens to the
      end of the text. */
  ghost predicate Outcome(all: seq<Token>, end: Option<nat>, text: string, base: seq<State>, sub: SubLexer)
    requires ValidStack(base)
  {
    match end
    case Some(e) => e <= |text| && Continues(all, Lex(text, e, base, sub))
    case None => AllComment(all)
  }

  lemma OutcomeCons(t: Token, tail: seq<Token>, end: Option<nat>, text: string, base: seq<State>, sub: SubLexer)
    requires ValidStack(base) && t.kind == CommentMultiline && Outcome(tail, end, text, base, sub)
    ensures Outcome([t] + tail, end, text, base, sub)
  {
    var all := [t] + tail;
    if end.Some? {
      var rest := Lex(text, end.value, base, sub);
      assert all[|all| - |rest|..] == tail[|tail| - |rest|..];
      assert all[..|all| - |rest|] == [t] + tail[..|tail| - |rest|];
    }
  }

  /** The closing `*%` of the outermost comment hands over to the state below. */
  lemma LastCloseCase(text: string, pos: nat, base: seq<State>, sub: SubLexer)
    requires pos <= |text| && ValidStack(base) && StartsWith(text, pos, "*%")
    ensures Outcome(Lex(text, pos, base + Comments(1), sub), CommentEnd(text, pos, 1), text, base, sub)
  {
    hide Step, Lex;
    CommentStack(base, 1);
    CloseStep(text, pos, base + Comments(1), sub);
    LexUnfold(text, pos, base + Comments(1), sub);
    var all := Lex(text, pos, base + Comments(1), sub);
    var rest := Lex(text, pos + 2, base, sub);
    assert all == [Token(pos, CommentMultiline, "*%")] + rest;
    assert all[|all| - |rest|..] == rest;
  }

  /** An inner `*%` closes one level. */
  lemma InnerCloseCase(text: string, pos: nat, base: seq<State>, d: nat, sub: SubLexer)
    requires pos <= |text| && ValidStack(base) && d > 1 && StartsWith(text, pos, "*%")
    requires Outcome(Lex(text, pos + 2, base + Comments(d - 1), sub), CommentEnd(text, pos + 2, d - 1), text, base, sub)
    ensures Outcome(Lex(text, pos, base + Comments(d), sub), CommentEnd(text, pos, d), text, base, sub)
  {
    hide Step, Lex;
    CommentStack(base, d);
    CloseStep(text, pos, base + Comments(d), sub);
    LexUnfold(text, pos, base + Comments(d), sub);
    OutcomeCons(Token(pos, CommentMultiline, "*%"), Lex(text, pos + 2, base + Comments(d - 1), sub),
                CommentEnd(text, pos + 2, d - 1), text, base, sub);
  }

  /** `%*` opens one more level. */
  lemma OpenCase(text: string, pos: nat, base: seq<State>, d: nat, sub: SubLexer)
    requires pos <= |text| && ValidStack(base) && d >= 1
    requires !StartsWith(text, pos, "*%") && StartsWith(text, pos, "%*")
    requires Outcome(Lex(text, pos + 2, base + Comments(d + 1), sub), CommentEnd(text, pos + 2, d + 1), text, base, sub)
    ensures Outcome(Lex(text, pos, base + Comments(d), sub), CommentEnd(text, pos, d), text, base, sub)
  {
    hide Step, Lex;
    CommentStack(base, d);
    OpenStep(text, pos, base + Comments(d), sub);
    LexUnfold(text, pos, base + Comments(d), sub);
    OutcomeCons(Token(pos, CommentMultiline, "%*"), Lex(text, pos + 2, base + Comments(d + 1), sub),
                CommentEnd(text, pos + 2, d + 1), text, base, sub);
  }

  /** A character other than `*` and `%` starts neither delimiter. */
  lemma PlainNotDelimiter(text: string, pos: nat)
    requires pos < |text| && text[pos] != '*' && text[pos] != '%'
    ensures !StartsWith(text, pos, "*%") && !StartsWith(text, pos, "%*")
  {
    if pos + 2 <= |text| {
      assert text[pos..pos + 2][0] == text[pos];
    }
  }

  /** Characters other than `*` and `%` do not change the scan. */
  lemma {:induction false} SkipPlain(text: string, pos: nat, n: nat, d: nat)
    requires pos + n <= |text| && d >= 1 && AllIn(text, pos, pos + n, CommentChars)
    ensures CommentEnd(text, pos, d) == CommentEnd(text, pos + n, d)
    decreases n
  {
    hide CommentEnd;
    if n > 0 {
      assert InClass(text[pos], CommentChars);
      SkipOne(text, pos, d);
      SkipPlain(text, pos + 1, n - 1, d);
    }
  }

  /** One character other than `*` and `%` does not change the scan. */
  lemma SkipOne(text: string, pos: nat, d: nat)
    requires pos < |text| && d >= 1 && text[pos] != '*' && text[pos] != '%'
    ensures CommentEnd(text, pos, d) == CommentEnd(text, pos + 1, d)
  {
    PlainNotDelimiter(text, pos);
  }

  /** A run of plain comment text stays inside the comment. */
  lemma ChunkCase(text: string, pos: nat, n: nat, base: seq<State>, d: nat, sub: SubLexer)
    requires pos < |text| && ValidStack(base) && d >= 1 && text[pos] != '*' && text[pos] != '%'
    requires Patterns.CommentChunk(text, pos) == Some(n)
    requires Outcome(Lex(text, pos + n, base + Comments(d), sub), CommentEnd(text, pos + n, d), text, base, sub)
    ensures Outcome(Lex(text, pos, base + Comments(d), sub), CommentEnd(text, pos, d), text, base, sub)
  {
    hide Step, Lex;
    CommentStack(base, d);
    ChunkStep(text, pos, base + Comments(d), sub);
    LexUnfold(text, pos, base + Comments(d), sub);
    SkipPlain(text, pos, n, d);
    OutcomeCons(Token(pos, CommentMultiline, text[pos..pos + n]), Lex(text, pos + n, base + Comments(d), sub),
                CommentEnd(text, pos + n, d), text, base, sub);
  }

  /** A lone `*` or `%` stays inside the comment. */
  lemma MarkerCase(text: string, pos: nat, base: seq<State>, d: nat, sub: SubLexer)
    requires pos < |text| && ValidStack(base) && d >= 1
    requires (text[pos] == '*' || text[pos] == '%') && !StartsWith(text, pos, "*%") && !StartsWith(text, pos, "%*")
    requires Outcome(Lex(text, pos + 1, base + Comments(d), sub), CommentEnd(text, pos + 1, d), text, base, sub)
    ensures Outcome(Lex(text, pos, base + Comments(d), sub), CommentEnd(text, pos, d), text, base, sub)
  {
    hide Step, Lex;
    CommentStack(base, d);
    MarkerStep(text, pos, base + Comments(d), sub);
    LexUnfold(text, pos, base + Comments(d), sub);
    OutcomeCons(Token(pos, CommentMultiline, text[pos..pos + 1]), Lex(text, pos + 1, base + Comments(d), sub),
                CommentEnd(text, pos + 1, d), text, base, sub);
  }

  /** Inside a comment at the end of the text the stream is empty. */
  lemma EndCase(text: string, base: seq<State>, d: nat, sub: SubLexer)
    requires ValidStack(base) && d >= 1
    ensures Outcome(Lex(text, |text|, base + Comments(d), sub), CommentEnd(text, |text|, d), text, base, sub)
  {
    hide Step, Lex;
    CommentStack(base, d);
    EndStep(text, base + Comments(d), sub);
    LexStops(text, |text|, base + Comments(d), sub);
  }

  /** Block comments nest. From inside `d` open comments, the lexer emits
      only `Comment.Multiline` tokens up to the `*%` that `CommentEnd` finds
      and then carries on in the state below the comments, exactly as if it
      had started there; when there is no such `*%` the comment swallows the
      rest of the text. */
  lemma {:induction false} CommentNesting(text: string, pos: nat, base: seq<State>, d: nat, sub: SubLexer)
    requires pos <= |text| && ValidStack(base) && d >= 1
    ensures Outcome(Lex(text, pos, base + Comments(d), sub), CommentEnd(text, pos, d), text, base, sub)
    decreases |text| - pos, 2
  {
    hide Step, Lex;
    if pos == |text| {
      EndCase(text, base, d, sub);
    } else {
      NestingAt(text, pos, base, d, sub);
    }
  }

  lemma {:induction false} NestingAt(text: string, pos: nat, base: seq<State>, d: nat, sub: SubLexer)
    requires pos < |text| && ValidStack(base) && d >= 1
    ensures Outcome(Lex(text, pos, base + Comments(d), sub), CommentEnd(text, pos, d), text, base, sub)
    decreases |text| - pos, 1
  {
    hide Step, Lex;
    if StartsWith(text, pos, "*%") {
      if d == 1 {
        LastCloseCase(text, pos, base, sub);
      } else {
        NestingClose(text, pos, base, d, sub);
      }
    } else if StartsWith(text, pos, "%*") {
      NestingOpen(text, pos, base, d, sub);
    } else if text[pos] != '*' && text[pos] != '%' {
      NestingChunk(text, pos, base, d, sub);
    } else {
      NestingMarker(text, pos, base, d, sub);
    }
  }

  lemma {:induction false} NestingClose(text: string, pos: nat, base: seq<State>, d: nat, sub: SubLexer)
    requires pos < |text| && ValidStack(base) && d > 1 && StartsWith(text, pos, "*%")
    ensures Outcome(Lex(text, pos, base + Comments(d), sub), CommentEnd(text, pos, d), text, base, sub)
    decreases |text| - pos, 0
  {
    hide Step, Lex;
    CommentNesting(text, pos + 2, base, d - 1, sub);
    InnerCloseCase(text, pos, base, d, sub);
  }

  lemma {:induction false} NestingOpen(text: string, pos: nat, base: seq<State>, d: nat, sub: SubLexer)
    requires pos < |text| && ValidStack(base) && d >= 1
    requires !StartsWith(text, pos, "*%") && StartsWith(text, pos, "%*")
    ensures Outcome(Lex(text, pos, base + Comments(d), sub), CommentEnd(text, pos, d), text, base, sub)
    decreases |text| - pos, 0
  {
    hide Step, Lex;
    CommentNesting(text, pos + 2, base, d + 1, sub);
    OpenCase(text, pos, base, d, sub);
  }

  lemma {:induction false} NestingChunk(text: string, pos: nat, base: seq<State>, d: nat, sub: SubLexer)
    requires pos < |text| && ValidStack(base) && d >= 1 && text[pos] != '*' && text[pos] != '%'
    ensures Outcome(Lex(text, pos, base + Comments(d), sub), CommentEnd(text, pos, d), text, base, sub)
    decreases |text| - pos, 0
  {
    hide Step, Lex;
    var n := Patterns.CommentChunk(text, pos).value;
    CommentNesting(text, pos + n, base, d, sub);
    ChunkCase(text, pos, n, base, d, sub);
  }

  lemma {:induction false} NestingMarker(text: string, pos: nat, base: seq<State>, d: nat, sub: SubLexer)
    requires pos < |text| && ValidStack(base) && d >= 1
    requires (text[pos] == '*' || text[pos] == '%') && !StartsWith(text, pos, "*%") && !StartsWith(text, pos, "%*")
    ensures Outcome(Lex(text, pos, base + Comments(d), sub), CommentEnd(text, pos, d), text, base, sub)
    decreases |text| - pos, 0
  {
    hide Step, Lex;
    CommentNesting(text, pos + 1, base, d, sub);
    MarkerCase(text, pos, base, d, sub);
  }
}
