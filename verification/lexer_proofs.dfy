/** Properties of the Clingo lexer as a whole: it preserves the text and its
    stack keeps one of a few shapes. */
module LexerProofs {
  import opened Tokens
  import opened Chars
  import Patterns
  import Scripts
  import opened Lexer

  // ---------------------------------------------------------------------
  // One turn of the loop, unfolded
  // ---------------------------------------------------------------------

  /** The emission of a rule that matches, as a move of the automaton. */
  function Fire(e: Emission, pos: nat, stack: seq<State>): Move
    requires |stack| > 0
  {
    Move(e.tokens, pos + e.len, Transit(stack, e.transition))
  }

  /** A rule that does not match hands over to the next one. */
  lemma DispatchSkip(s: State, i: nat, text: string, pos: nat, stack: seq<State>, sub: SubLexer)
    requires i < |Rules(s)| && pos <= |text| && ValidStack(stack) && Top(stack) == s
    requires ApplyRule(Rules(s)[i], text, pos, sub).None?
    ensures Dispatch(s, i, text, pos, stack, sub) == Dispatch(s, i + 1, text, pos, stack, sub)
  {
  }

  /** A rule that matches fires. */
  lemma DispatchHit(s: State, i: nat, text: string, pos: nat, stack: seq<State>, sub: SubLexer)
    requires i < |Rules(s)| && pos <= |text| && ValidStack(stack) && Top(stack) == s
    requires ApplyRule(Rules(s)[i], text, pos, sub).Some?
    ensures Dispatch(s, i, text, pos, stack, sub) == Some(Fire(ApplyRule(Rules(s)[i], text, pos, sub).value, pos, stack))
  {
  }

  /** The rule loop fires the first matching rule from `i` on. */
  lemma {:induction false} DispatchFires(s: State, i: nat, k: nat, text: string, pos: nat, stack: seq<State>, sub: SubLexer)
    requires i <= k < |Rules(s)| && pos <= |text| && ValidStack(stack) && Top(stack) == s
    requires forall j | i <= j < k :: ApplyRule(Rules(s)[j], text, pos, sub).None?
    requires ApplyRule(Rules(s)[k], text, pos, sub).Some?
    ensures Dispatch(s, i, text, pos, stack, sub) == Some(Fire(ApplyRule(Rules(s)[k], text, pos, sub).value, pos, stack))
    decreases k - i
  {
    if i < k {
      DispatchSkip(s, i, text, pos, stack, sub);
      DispatchFires(s, i + 1, k, text, pos, stack, sub);
    } else {
      DispatchHit(s, i, text, pos, stack, sub);
    }
  }

  /** When no rule from `i` on matches, the loop emits one `Error` character,
      or stops at the end of the text. */
  lemma {:induction false} DispatchFails(s: State, i: nat, text: string, pos: nat, stack: seq<State>, sub: SubLexer)
    requires i <= |Rules(s)| && pos <= |text| && ValidStack(stack) && Top(stack) == s
    requires forall j | i <= j < |Rules(s)| :: ApplyRule(Rules(s)[j], text, pos, sub).None?
    ensures Dispatch(s, i, text, pos, stack, sub)
         == if pos < |text| then Some(Move([Token(pos, Error, text[pos..pos + 1])], pos + 1, stack)) else None
    decreases |Rules(s)| - i
  {
    if i < |Rules(s)| {
      DispatchSkip(s, i, text, pos, stack, sub);
      DispatchFails(s, i + 1, text, pos, stack, sub);
    }
  }

  /** At the end of the text, when no rule from `i` on matches, the loop stops. */
  lemma {:induction false} DispatchAtEnd(s: State, i: nat, text: string, stack: seq<State>, sub: SubLexer)
    requires i <= |Rules(s)| && ValidStack(stack) && Top(stack) == s
    requires forall j | i <= j < |Rules(s)| :: ApplyRule(Rules(s)[j], text, |text|, sub).None?
    ensures Dispatch(s, i, text, |text|, stack, sub).None?
    decreases |Rules(s)| - i
  {
    if i < |Rules(s)| {
      DispatchSkip(s, i, text, |text|, stack, sub);
      DispatchAtEnd(s, i + 1, text, stack, sub);
    }
  }

  /** First match wins: a turn fires the rule `Winner` picks, the first rule
      of the top state's table that matches, whatever later rules would
      match; when none matches it emits one `Error` character, and at the end
      of the text it stops. */
  lemma StepIsFirstMatch(text: string, pos: nat, stack: seq<State>, sub: SubLexer)
    requires pos <= |text| && ValidStack(stack)
    ensures
      var rules := Rules(Top(stack));
      var k := Winner(rules, 0, text, pos, sub);
      && (k < |rules| ==> ApplyRule(rules[k], text, pos, sub).Some?)
      && Step(text, pos, stack, sub)
        == if k < |rules| then Some(Fire(ApplyRule(rules[k], text, pos, sub).value, pos, stack))
           else if pos < |text| then Some(Move([Token(pos, Error, text[pos..pos + 1])], pos + 1, stack))
           else None
  {
    var rules := Rules(Top(stack));
    var k := Winner(rules, 0, text, pos, sub);
    WinnerSpec(rules, 0, text, pos, sub);
    if k < |rules| {
      DispatchFires(Top(stack), 0, k, text, pos, stack, sub);
    } else {
      DispatchFails(Top(stack), 0, text, pos, stack, sub);
    }
  }

  /** A turn in which rule `k` is the first to match fires it. */
  lemma StepAt(k: nat, text: string, pos: nat, stack: seq<State>, sub: SubLexer)
    requires pos <= |text| && ValidStack(stack) && k < |Rules(Top(stack))|
    requires forall j | 0 <= j < k :: ApplyRule(Rules(Top(stack))[j], text, pos, sub).None?
    requires ApplyRule(Rules(Top(stack))[k], text, pos, sub).Some?
    ensures Step(text, pos, stack, sub) == Some(Fire(ApplyRule(Rules(Top(stack))[k], text, pos, sub).value, pos, stack))
  {
    DispatchFires(Top(stack), 0, k, text, pos, stack, sub);
  }

  /** A turn in which no rule matches emits one `Error` character. */
  lemma StepFails(text: string, pos: nat, stack: seq<State>, sub: SubLexer)
    requires pos < |text| && ValidStack(stack)
    requires forall j | 0 <= j < |Rules(Top(stack))| :: ApplyRule(Rules(Top(stack))[j], text, pos, sub).None?
    ensures Step(text, pos, stack, sub) == Some(Move([Token(pos, Error, text[pos..pos + 1])], pos + 1, stack))
  {
    DispatchFails(Top(stack), 0, text, pos, stack, sub);
  }

  /** At the end of the text a state none of whose rules matches there ends the loop. */
  lemma StepAtEnd(text: string, stack: seq<State>, sub: SubLexer)
    requires ValidStack(stack)
    requires forall j | 0 <= j < |Rules(Top(stack))| :: ApplyRule(Rules(Top(stack))[j], text, |text|, sub).None?
    ensures Step(text, |text|, stack, sub).None?
  {
    DispatchAtEnd(Top(stack), 0, text, stack, sub);
  }

  /** A turn that emits nothing ends the stream. */
  lemma LexStops(text: string, pos: nat, stack: seq<State>, sub: SubLexer)
    requires pos <= |text| && ValidStack(stack) && Step(text, pos, stack, sub).None?
    ensures Lex(text, pos, stack, sub) == []
  {
  }

  /** The stream is the first turn's tokens followed by the rest of the stream. */
  lemma LexUnfold(text: string, pos: nat, stack: seq<State>, sub: SubLexer)
    requires pos <= |text| && ValidStack(stack) && Step(text, pos, stack, sub).Some?
    ensures
      var m := Step(text, pos, stack, sub).value;
      Lex(text, pos, stack, sub) == m.tokens + Lex(text, m.pos, m.stack, sub)
  {
  }

  // ---------------------------------------------------------------------
  // Text preservation
  // ---------------------------------------------------------------------

  /** A plain rule's token is the text it matched. */
  lemma SimpleRuleTiles(r: Rule, text: string, pos: nat, sub: SubLexer)
    requires pos <= |text| && r.Simple? && ApplyRule(r, text, pos, sub).Some?
    ensures Tiles(ApplyRule(r, text, pos, sub).value.tokens, text, pos, pos + ApplyRule(r, text, pos, sub).value.len)
  {
    SingleTiles(text, pos, pos + ApplyRule(r, text, pos, sub).value.len, r.kind);
  }

  /** A script block's tokens spell out the text the script rule matched. */
  lemma ScriptRuleTiles(r: Rule, text: string, pos: nat, sub: SubLexer)
    requires pos <= |text| && TextPreserving(sub) && r.ScriptBlock? && ApplyRule(r, text, pos, sub).Some?
    ensures Tiles(ApplyRule(r, text, pos, sub).value.tokens, text, pos, pos + ApplyRule(r, text, pos, sub).value.len)
  {
    Patterns.MatchScriptForm(r.lang, text, pos);
    var m := Patterns.MatchScript(r.lang, text, pos).value;
    Scripts.ScriptTokensTile(r.lang, m, text, pos, sub);
  }

  /** What a matching rule emits spells out the text it matched. */
  lemma EmissionTiles(r: Rule, text: string, pos: nat, sub: SubLexer)
    requires pos <= |text| && TextPreserving(sub)
    requires ApplyRule(r, text, pos, sub).Some?
    ensures Tiles(ApplyRule(r, text, pos, sub).value.tokens, text, pos, pos + ApplyRule(r, text, pos, sub).value.len)
  {
    if r.Simple? {
      SimpleRuleTiles(r, text, pos, sub);
    } else {
      ScriptRuleTiles(r, text, pos, sub);
    }
  }

  /** One turn of the loop emits tokens that spell out exactly the text it
      moves the cursor over. */
  lemma StepTiles(text: string, pos: nat, stack: seq<State>, sub: SubLexer)
    requires pos <= |text| && ValidStack(stack) && TextPreserving(sub)
    requires Step(text, pos, stack, sub).Some?
    ensures Tiles(Step(text, pos, stack, sub).value.tokens, text, pos, Step(text, pos, stack, sub).value.pos)
  {
    hide Step, Winner, ApplyRule, Rules;
    var rules := Rules(Top(stack));
    var k := Winner(rules, 0, text, pos, sub);
    WinnerSpec(rules, 0, text, pos, sub);
    StepIsFirstMatch(text, pos, stack, sub);
    if k < |rules| {
      EmissionTiles(rules[k], text, pos, sub);
    } else {
      SingleTiles(text, pos, pos + 1, Error);
    }
  }

  /** The token stream from `pos` is contiguous and covers `text[pos..]`
      exactly, whatever (valid) stack the lexer starts in. */
  lemma {:induction false} LexTiles(text: string, pos: nat, stack: seq<State>, sub: SubLexer)
    requires pos <= |text| && ValidStack(stack) && TextPreserving(sub)
    ensures Tiles(Lex(text, pos, stack, sub), text, pos, |text|)
    decreases |text| - pos, |stack|
  {
    hide Step, Lex;
    match Step(text, pos, stack, sub)
    case None =>
      LexStops(text, pos, stack, sub);
    case Some(m) =>
      StepTiles(text, pos, stack, sub);
      LexTiles(text, m.pos, m.stack, sub);
      LexUnfold(text, pos, stack, sub);
      TilesAppend(m.tokens, Lex(text, m.pos, m.stack, sub), text, pos, m.pos, |text|);
  }

  /** Totality and text preservation: from any valid stack, in particular
      `['root']`, the token texts concatenate to exactly the rest of the
      input, and each token's value is the text at its offset. */
  lemma LexPreservesText(text: string, pos: nat, stack: seq<State>, sub: SubLexer)
    requires pos <= |text| && ValidStack(stack) && TextPreserving(sub)
    ensures Concat(Lex(text, pos, stack, sub)) == text[pos..]
    ensures forall i | 0 <= i < |Lex(text, pos, stack, sub)| ::
      var t := Lex(text, pos, stack, sub)[i];
      pos <= t.index && t.index + |t.value| <= |text| && text[t.index..t.index + |t.value|] == t.value
  {
    hide *;
    LexTiles(text, pos, stack, sub);
    TilesConcat(Lex(text, pos, stack, sub), text, pos, |text|);
    TilesSlices(Lex(text, pos, stack, sub), text, pos, |text|);
  }

  // ---------------------------------------------------------------------
  // The shape of the stack
  // ---------------------------------------------------------------------

  /** A configuration of the automaton: cursor and stack. */
  datatype Config = Config(pos: nat, stack: seq<State>)

  /** The configuration after `n` turns of the loop, if it runs that long.
      Started well shaped (in particular from `['root']`), the stack is still
      well shaped after any number of turns, so a `#pop` never meets a lone
      `root` and the loop never leaves the four states. */
  function Run(text: string, c: Config, sub: SubLexer, n: nat): (r: Option<Config>)
    requires c.pos <= |text| && ValidStack(c.stack)
    ensures r.Some? ==> c.pos <= r.value.pos <= |text| && ValidStack(r.value.stack)
    ensures r.Some? && WellShaped(c.stack) ==> WellShaped(r.value.stack)
    decreases n
  {
    if n == 0 then Some(c)
    else
      match Step(text, c.pos, c.stack, sub)
      case None => None
      case Some(m) => Run(text, Config(m.pos, m.stack), sub, n - 1)
  }
}
