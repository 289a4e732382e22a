# Clingo lexer, modelled in Dafny

This project models `ClingoLexer`, the Pygments lexer for clingo/ASP logic
programs (`pygments_clingo/clingo.py`), and proves properties of the model.

The lexer is a pushdown automaton with four states:

- `root`;
- `include`, entered after `#include`;
- `script`, entered after `#script`;
- `nested-comment`, entered after `%*` and re-entered for every nested `%*`.

Each state owns an ordered table of rules. Pygments' `RegexLexer` loop tries the rules of the state on top of the stack in order, and the first rule whose pattern matches at the cursor fires. It emits its token or tokens, moves the cursor past the match and applies its transition. A character that no rule matches becomes one `Error` token.

The model has these parts:

- **`Tokens`**: token kinds, the `(index, kind, value)` triple, states, and `Tiles`. `Tiles` is what it means for a token stream to spell out a stretch of text with no gap or overlap.
- **`Chars`**: the character classes (read in their ASCII sense), greedy runs (`Span`) and Python's `\b`.
- **`Patterns`**: one hand-written matcher per regular expression of the tables. Each takes the whole text, because `(?<!:)` and `\b` look behind the cursor. Each answers the length of the match. Among them:
  - the alternation-with-backtracking reading of the keyword rule;
  - the script rule of `_script_lexer`. Its greedy `(\s*)(.*)` makes the body run to the *last* `#end\s*\.` of the text.
- **`Lexer`**: the four rule tables, in the source's order, and the dispatch loop:
  - `Dispatch`/`Step` is one turn;
  - `Lex` is the token stream;
  - `#pop` on a one-element stack leaves the stack alone, as Pygments does.
- **`Scripts`**: the `bygroups` callback of the script rule. Empty groups emit nothing. The body goes to the embedded Python or Lua lexer, and its token offsets are moved to the body's place in the text.
- **`LexerProofs`**: the properties that hold for every input:
  - first match wins;
  - text preservation;
  - the shape of the stack.
- **`RootProofs`**, **`CommentProofs`**, **`StateProofs`**: what one turn does in each state, rule by rule, and what the directives lead to. `CommentProofs` compares the lexer with a plain left-to-right scan that counts `%*` and `*%`.
- **`Examples`**: whole token streams for inputs that pin down quirks (`key`, `_x`, `a:-b.`).
- **`Labels`**: the line-label rewrite of `get_tokens_unprocessed`, and its two-pass round trip.
- **`Analyse`**: `analyse_text`.

The embedded Python and Lua lexers are not part of this model. They are a parameter, `sub: (Language, string) -> seq<Token>`. Text preservation through a script block is proved under the hypothesis `TextPreserving(sub)`: the embedded lexer's tokens spell out its input.

Quirks of the code that the model keeps as written:

- **Nested comments.** A nested block comment is several `Comment.Multiline` tokens, not one: the openers, the closers, the chunks of text and the lone markers. See `CommentProofs.CommentNesting`.
- **`_x`.** `_x` is the variable `_` followed by the identifier `x`, because the `_` rule (clingo.py:68) comes before the lower-case name rule (clingo.py:69). See `Examples.UnderscoreExample`.
- **Unterminated strings.** Nothing swallows the rest of the input:
  - a `"` that no later `"` closes is one `Error` character in `root`;
  - in `include`, an unterminated path takes the empty fallback and returns to `root`.
- **First match, not longest match.** The first rule of the table that matches fires, whatever later rules would match. See `LexerProofs.StepIsFirstMatch`.
- **Two passes of the label filter.** The second pass yields the comment without its first `#`, that is `v[1..]`. It does not give back the original value.
- **The letter `k`.** The operator class `[/<=>+\-*\\?&@|:;~k.!]` contains `k`. So every name that starts with `k` begins with an operator run: `key` is the operator `k` and then the identifier `ey`. See `RootProofs.LetterKStep` and `Examples.KeyExample`.
- **`:-` after an operator character.** The arrow rule (clingo.py:56) only fires where a turn starts at the `:`. An operator run that starts earlier takes the arrow with it: in the fact `k:-a.` the first token is the operator `k:-`, and `<:-` is one operator too. See `Examples.KArrowExample`.

## Model

| member | source | states |
|---|---|---|
| `Patterns.LineCommentExtent` | pygments_clingo/clingo.py:52 | `%.*` runs to the end of its line: no newline inside the match, and a newline or the end of the text right after it |
| `Patterns.HexNumberExtent` | pygments_clingo/clingo.py:53 | a hexadecimal literal covers `0x` and every hexadecimal digit after it, and stops at the first non-digit |
| `Patterns.DecimalNumberExtent` | pygments_clingo/clingo.py:54 | `\d+` is the maximal run of digits at the cursor |
| `Patterns.CloseFrom` | pygments_clingo/clingo.py:55 | the scan for a closing quote finds one exactly when some closer ends a body of escapes `\n`, `\"`, `\\` and plain characters, and otherwise reports that none does |
| `Patterns.DelimitedForm` | pygments_clingo/clingo.py:73-74 | a quoted string or include path is its opener, a well-formed body and its closer; when it is missing, no closer after the opener ends a body |
| `Patterns.BodyCloseUnique` | pygments_clingo/clingo.py:55 | at most one closing delimiter ends a body, so an escaped quote (or `\>`) never ends the literal |
| `Patterns.TheoryOperatorSpec` | pygments_clingo/clingo.py:59 | `\&[_]*[a-z][a-zA-Z_]*` matches exactly after `&`, underscores and a lower-case letter, and then takes every letter and underscore |
| `Patterns.OperatorRunExtent` | pygments_clingo/clingo.py:60 | an operator run is maximal: all operator characters, and none right after |
| `Patterns.FirstWordSpec` | pygments_clingo/clingo.py:61-63 | the keyword alternation with `\b` picks the first listed word that occurs followed by a word boundary, and fails only when no word does |
| `Patterns.NameSpec` | pygments_clingo/clingo.py:67-69 | a name matches exactly where underscores and apostrophes precede a letter of the wanted case, and the match is the maximal run of identifier characters |
| `Patterns.CommentChunk` | pygments_clingo/clingo.py:86 | `[^*%]+` matches exactly at a character other than `*` and `%`, and stops right before the next `*` or `%` |
| `Patterns.MatchScriptForm` | pygments_clingo/clingo.py:25 | what the script matcher returns is a way for `(?s)(\s*)(\()(name)(\))(\s*)(.*)(#end)(\s*)(\.)` to match: every group holds what the pattern allows |
| `Patterns.MatchScriptGreedy` | pygments_clingo/clingo.py:25 | whenever any way of matching the script pattern exists, the matcher succeeds, and it picks the longest leading body whitespace and the last `#end\s*\.` |
| `Patterns.LastBlockEnd` | pygments_clingo/clingo.py:25 | the body's end is an occurrence of `#end\s*\.` with no later one in range, and none is reported only when none occurs |
| `Patterns.Separator` | pygments_clingo/clingo.py:58 | the separator alternation in its order: `:-` and `:~` unless a `:` precedes them, `.` not before `.`, `,` not before `;`, `;` not before `;`, `:` not before `:`; the match is one or two characters |
| `Patterns.MatchScript` | pygments_clingo/clingo.py:25 | the script pattern for one language at the cursor: leading white space, `(name)`, white space, the body up to the last `#end\s*\.`; `None` when the pattern cannot match |
| `Lexer.RootRules` | pygments_clingo/clingo.py:50-71 | the eighteen `root` rules in the source's order, each pattern with its token kind and transition |
| `Lexer.IncludeRules` | pygments_clingo/clingo.py:72-77 | the four `include` rules: angle path, quoted name, white space, empty fallback |
| `Lexer.ScriptRules` | pygments_clingo/clingo.py:78-82 | the three `script` rules: the Python block, the Lua block, the empty fallback |
| `Lexer.CommentRules` | pygments_clingo/clingo.py:83-88 | the four `nested-comment` rules: `*%` pops, `%*` pushes, chunks and lone markers stay |
| `Lexer.Transit` | pygments_clingo/clingo.py:49-89 | a rule's transition applied to the stack: stay, `#pop` (which leaves a one-element stack alone, as `RegexLexer` does), `#push` of the top state, or entering a named state |
| `Lexer.Dispatch` | pygments_clingo/clingo.py:99 | one turn of `RegexLexer`'s loop in the top state, from the `i`-th rule on: it ends only at the end of the text, otherwise advances or pops, and keeps the stack valid and well shaped |
| `Lexer.Lex` | pygments_clingo/clingo.py:99 | `RegexLexer.get_tokens_unprocessed`: the turns repeated from a cursor and stack until the loop stops, their tokens concatenated in order |
| `Lexer.TableTransitions` | pygments_clingo/clingo.py:49-89 | the tables push only from `root` and `nested-comment`, pop only from `include`, `script` and `nested-comment`, and only the two empty fallbacks match the empty string |
| `Lexer.TransitKeepsShape` | pygments_clingo/clingo.py:49-89 | a transition the tables allow keeps the stack valid and well shaped, and a move that consumes nothing pops |
| `Lexer.WinnerSpec` | pygments_clingo/clingo.py:49-89 | the chosen rule matches and no rule listed before it does |
| `Lexer.Step` | pygments_clingo/clingo.py:49-89 | a turn stops only at the end of the text; otherwise it advances the cursor or shrinks the stack, keeping the stack valid and well shaped |
| `LexerProofs.StepIsFirstMatch` | pygments_clingo/clingo.py:49-89 | a turn fires the first rule of the top state's table that matches, whatever later rules would match; with no match it emits one `Error` character, or stops at the end |
| `LexerProofs.StepTiles` | pygments_clingo/clingo.py:49-89 | the tokens of one turn spell out exactly the text the turn moves over |
| `LexerProofs.LexTiles` | pygments_clingo/clingo.py:49-89 | the token stream from any valid stack is contiguous and covers the rest of the text exactly |
| `LexerProofs.LexPreservesText` | pygments_clingo/clingo.py:49-89 | the token texts concatenate to the input, and every token's value is the text at its offset |
| `LexerProofs.Run` | pygments_clingo/clingo.py:49-89 | started from a well-shaped stack such as `['root']`, the stack stays `root` plus nothing, one `include`, one `script`, or a run of `nested-comment`, after any number of turns |
| `Scripts.ScriptTokensTile` | pygments_clingo/clingo.py:24-35 | the tokens of a script block (space, `(`, name, `)`, space, the embedded lexer's tokens moved to the body's offset, `#end`, space, `.`) spell out the matched text |
| `Scripts.ScriptTokens` | pygments_clingo/clingo.py:26-34 | the `bygroups` callback: the nine groups in order as `Text`, `Punctuation`, `Text`, `Punctuation`, `Text`, the embedded lexer's tokens moved to the body's offset, `Keyword`, `Text`, `Punctuation`, empty groups dropped |
| `Scripts.EmbeddedTiles` | pygments_clingo/clingo.py:31 | the embedded lexer's tokens, moved to the body's offset, spell out the body in place |
| `CommentProofs.CommentStack` | pygments_clingo/clingo.py:84-85 | inside `d` comments, `#pop` leaves `d - 1` and `#push` leaves `d + 1` |
| `CommentProofs.CloseStep` | pygments_clingo/clingo.py:84 | in `nested-comment`, `*%` is tried first and pops one level |
| `CommentProofs.OpenStep` | pygments_clingo/clingo.py:85 | otherwise `%*` pushes one more level |
| `CommentProofs.ChunkStep` | pygments_clingo/clingo.py:86 | otherwise a maximal run free of `*` and `%` is one comment token |
| `CommentProofs.MarkerStep` | pygments_clingo/clingo.py:87 | otherwise a lone `*` or `%` is one comment token |
| `CommentProofs.CommentEndCloses` | pygments_clingo/clingo.py:83-88 | the reference scan for the end of a comment stops just after a `*%` |
| `CommentProofs.CommentNesting` | pygments_clingo/clingo.py:83-88 | from inside `d` comments the stream is comment tokens up to the `*%` that closes the outermost one, then exactly the stream of the state below; with no such `*%` it is comment tokens to the end |
| `RootProofs.CommentOpenStep` | pygments_clingo/clingo.py:51 | `%*` in `root` is a `Comment.Multiline` token that enters `nested-comment` |
| `RootProofs.LineCommentStep` | pygments_clingo/clingo.py:52 | any other `%` starts a `Comment.Single` token that stops before the next newline |
| `RootProofs.HexStep` | pygments_clingo/clingo.py:53 | `0x` and a hexadecimal digit give one `Number.Hex` token over all the digits; this rule is tried before the decimal one |
| `RootProofs.DecimalStep` | pygments_clingo/clingo.py:54 | any other digit starts a `Number.Integer` token over the maximal run of digits |
| `RootProofs.QuotedStringStep` | pygments_clingo/clingo.py:55 | a closed double-quoted string with escapes is one `String.Double` token from quote to quote |
| `RootProofs.StrayQuoteStep` | pygments_clingo/clingo.py:55 | a `"` that nothing closes is one `Error` character |
| `RootProofs.RuleArrowStep` | pygments_clingo/clingo.py:56 | a root turn that starts at `:-` emits it as one `Punctuation` token, before the separator and operator rules are tried |
| `RootProofs.BracketStep` | pygments_clingo/clingo.py:57 | every bracket is a one-character `Punctuation` token |
| `RootProofs.DotStep` | pygments_clingo/clingo.py:58 | a `.` not followed by `.` is a one-character `Punctuation` token |
| `RootProofs.CommaSemicolonStep` | pygments_clingo/clingo.py:58 | a `,` or `;` not followed by `;` is a one-character `Punctuation` token |
| `RootProofs.ColonStep` | pygments_clingo/clingo.py:58 | a `:` not followed by `:` is `Punctuation`: `:-`, `:~` unless a `:` precedes it, or the bare `:` |
| `RootProofs.CommaBeforeSemicolonStep` | pygments_clingo/clingo.py:58 | a `,` right before `;` matches no rule and is an `Error` character |
| `RootProofs.DoubledStep` | pygments_clingo/clingo.py:60 | `..`, `::` and `;;` are no separators: they start an operator run of at least two characters |
| `RootProofs.TheoryOperatorStep` | pygments_clingo/clingo.py:59 | `&`, underscores and a lower-case letter start a `Keyword` token over the following letters and underscores |
| `RootProofs.AmpersandStep` | pygments_clingo/clingo.py:60 | any other `&` starts an operator run |
| `RootProofs.OperatorStep` | pygments_clingo/clingo.py:60 | an operator character no earlier rule claims starts a maximal `Operator` run |
| `RootProofs.LetterKStep` | pygments_clingo/clingo.py:60 | `k` always starts an operator run, never a name |
| `RootProofs.DirectiveStep` | pygments_clingo/clingo.py:61-63 | where a directive occurs followed by a word boundary, the first such directive in the listed order is one `Keyword` token |
| `RootProofs.MinimizeStep` | pygments_clingo/clingo.py:61-63 | `#minimize` is one keyword: the alternation backtracks past `#min`, which has no word boundary after it there |
| `RootProofs.ScriptDirectiveStep` | pygments_clingo/clingo.py:64 | `#script` is a `Keyword` token entering `script`, with no word boundary required |
| `RootProofs.IncludeStep` | pygments_clingo/clingo.py:65 | `#include` with a word boundary is a `Keyword` token entering `include` |
| `RootProofs.ConstantStep` | pygments_clingo/clingo.py:66 | `#inf`, `#sup`, `#true`, `#false` with a word boundary are `Keyword.Constant` tokens |
| `RootProofs.StrayHashStep` | pygments_clingo/clingo.py:61-66 | a `#` that starts no keyword is an `Error` character |
| `RootProofs.CaseExclusive` | pygments_clingo/clingo.py:67-69 | a name is never both a variable and a lower-case identifier |
| `RootProofs.VariableStep` | pygments_clingo/clingo.py:67 | underscores and apostrophes before a capital start a `Name.Variable` token over the whole identifier run |
| `RootProofs.AnonymousStep` | pygments_clingo/clingo.py:68 | any other `_` is a `Name.Variable` token of its own, even when letters follow |
| `RootProofs.IdentifierStep` | pygments_clingo/clingo.py:69 | a lower-case name (not starting with `k` or `_`, not the word `not`) is one `Text` token over the whole identifier run |
| `RootProofs.WhitespaceStep` | pygments_clingo/clingo.py:70 | each white-space character is a `Text` token of its own |
| `RootProofs.StrayStep` | pygments_clingo/clingo.py:50-71 | a character no rule of `root` can begin with is one `Error` character |
| `RootProofs.RootEnd` | pygments_clingo/clingo.py:50-71 | in `root` the loop stops at the end of the text and emits nothing more |
| `StateProofs.IncludePathStep` | pygments_clingo/clingo.py:73 | in `include`, a closed path in angle brackets is one `String.Double` token, and the lexer returns to the state below |
| `StateProofs.IncludeStringStep` | pygments_clingo/clingo.py:74 | otherwise a closed double-quoted name is one `String.Double` token, and the lexer returns |
| `StateProofs.IncludeSpaceStep` | pygments_clingo/clingo.py:75 | otherwise a white-space character is `Text`, staying in `include` |
| `StateProofs.IncludeFallbackStep` | pygments_clingo/clingo.py:76 | otherwise, the end of the text included, an empty `Text` token and a return to the state below without consuming anything |
| `StateProofs.IncludeTurn` | pygments_clingo/clingo.py:72-77 | every turn in `include` emits one token, stays or pops, and consumes nothing only when it pops with an empty token |
| `StateProofs.PythonStep` | pygments_clingo/clingo.py:79 | in `script`, a Python block is emitted group by group, and the lexer returns to the state below right after the final `.` |
| `StateProofs.LuaStep` | pygments_clingo/clingo.py:80 | a Lua block is tried only when no Python block matches, and is emitted the same way |
| `StateProofs.ScriptFallbackStep` | pygments_clingo/clingo.py:81 | without a block, an empty `Text` token and a return to the state below |
| `StateProofs.ScriptTurn` | pygments_clingo/clingo.py:78-82 | every turn in `script` pops: it consumes a whole block or nothing |
| `StateProofs.ScriptBlockLex` | pygments_clingo/clingo.py:64 | `#script` before a Python block yields the keyword, the block's tokens, and then the `root` stream from after the `.` |
| `StateProofs.ScriptMissLex` | pygments_clingo/clingo.py:64 | `#script` before anything but a block yields the keyword, an empty `Text` token, and the `root` stream from right after `#script` |
| `StateProofs.IncludePathLex` | pygments_clingo/clingo.py:65 | `#include<path>` yields the keyword, the path as one `String.Double` token, and the `root` stream after `>` |
| `StateProofs.BlockCommentLex` | pygments_clingo/clingo.py:51 | `%*` in `root` yields the opener, then comment tokens up to the matching `*%` and the `root` stream after it, or comment tokens to the end |
| `Examples.KeyExample` | pygments_clingo/clingo.py:60 | `key` lexes as the operator `k` and the identifier `ey` |
| `Examples.UnderscoreExample` | pygments_clingo/clingo.py:67-69 | `_x` lexes as the variable `_` and the identifier `x` |
| `Examples.KArrowExample` | pygments_clingo/clingo.py:56-60 | in `k:-a.` the operator run started by `k` swallows the arrow: the first token is the operator `k:-` |
| `Examples.RuleExample` | pygments_clingo/clingo.py:56 | `a:-b.` lexes as `a`, the punctuation `:-`, `b`, and the punctuation `.` |
| `Labels.Relabel` | pygments_clingo/clingo.py:105-110 | the rewrite keeps every token's index and kind |
| `Labels.RelabelChanges` | pygments_clingo/clingo.py:105-110 | a token changes exactly when it is a `Comment.Single` label in one of the two forms; the first gains a leading `#`, the second loses its leading `##` |
| `Labels.MarkersExclusive` | pygments_clingo/clingo.py:105-108 | no comment is a label in both forms, so the order of the two tests does not matter |
| `Labels.TwoPasses` | pygments_clingo/clingo.py:99-108 | two passes over a label `v` leave `v[1..]` |
| `Labels.ThirdPassIdentity` | pygments_clingo/clingo.py:99-110 | whatever the token, a third pass changes nothing |
| `Labels.Filter` | pygments_clingo/clingo.py:98-110 | the filtered stream has the same length, and every token keeps its index and kind |
| `Labels.FilterAt` | pygments_clingo/clingo.py:98-110 | the filter rewrites each token on its own |
| `Labels.FilterTwice` | pygments_clingo/clingo.py:98-110 | two passes turn each label `v` into `v[1..]` and leave every other token alone |
| `Labels.FilterSettles` | pygments_clingo/clingo.py:98-110 | a third pass of the filter is the identity on the second pass's output |
| `Labels.TokensUnprocessed` | pygments_clingo/clingo.py:91-110 | the lexer's public stream: the state machine's tokens from the given stack, each passed through the label rewrite; one output token per token |
| `Labels.TokensPreserveText` | pygments_clingo/clingo.py:90-110 | with no label comment in the stream, the public token stream still spells out the input exactly |
| `Analyse.AnalyseText` | pygments_clingo/clingo.py:112-113 | the guess is true exactly when `:-` occurs somewhere in the text |
| `Analyse.ArrowInContext` | pygments_clingo/clingo.py:112-113 | the guess is monotone: a text that contains a text with `:-` is guessed too |

## Left out

- **The embedded Python and Lua lexers** (`PythonLexer`, `LuaLexer`, clingo.py:17). They are the parameter `sub`. Text preservation through a script block assumes that they preserve their input.
- **Pygments' `get_tokens`** and its preprocessing: newline normalisation, tab expansion, stripping, and the lexer's filters. Only `get_tokens_unprocessed` is modelled.
- **Unicode character classes.** `\s`, `\d` and `\w` (behind `\b`) are read as their ASCII classes, although the `re.UNICODE` flag makes Python read them over Unicode. `re.MULTILINE` has no effect, since no pattern uses `^` or `$`.
- **Metadata.** `name`, `aliases`, `filenames` and `mimetypes` (clingo.py:42-45) carry no behaviour, and packaging is out of scope.
- **Laziness.** The generator is modelled as the whole token sequence.
- **The newline branch of the no-match path.** When no rule matches at a newline, Pygments resets the stack to `['root']`. This cannot happen here: the `root` table matches every white-space character, the comment table matches every character, and the `include` and `script` tables end in a fallback that always matches.
- **Degenerate initial stacks.** `Lexer.Lex` and `Labels.TokensUnprocessed` require a non-empty stack without `include` or `script` at the bottom.
  - From such a bottom, Pygments loops forever: the fallback pops nothing and matches again at the same place.
  - An empty stack or an unknown state name raises an exception in Pygments.
- **`analyse_text`'s conversion.** Pygments' wrapper turns the result into a float score (1.0 or 0.0). `Analyse.AnalyseText` returns the boolean.
- **Running the highlighter twice.** The typesetting tool re-lexes the rewritten text rather than re-filtering the tokens. The two-pass lemmas compose the filter on a token stream. Whether the embedded lexer reproduces the rewritten comment as one `Comment.Single` token is up to that lexer.
