/** The tokens of a `#script` block: the `bygroups` callback of the script
    rule (`_script_lexer`), which turns the nine groups of a match into
    tokens and hands the body to the embedded Python or Lua lexer. */
module Scripts {
  import opened Tokens
  import opened Chars
  import opened Patterns

  /** A `bygroups` group typed with a token kind: one token, or none when empty. */
  function Group(text: string, a: nat, b: nat, kind: Kind): seq<Token>
    requires a <= b <= |text|
  {
    if a < b then [Token(a, kind, text[a..b])] else []
  }

  /** The parenthesised language name, `(`, the name, `)`, as three tokens. */
  function Frame(lang: Language, open: nat): seq<Token>
  {
    var name := LangName(lang);
    [ Token(open, Punctuation, "("), Token(open + 1, Text, name), Token(open + 1 + |name|, Punctuation, ")") ]
  }

  /** `#end`, the optional spaces before the final `.`, and the `.`. */
  function Tail(text: string, endKw: nat, dot: nat): seq<Token>
    requires endKw + 4 <= dot <= |text|
  {
    [ Token(endKw, Keyword, "#end") ] + Group(text, endKw + 4, dot, Text) + [ Token(dot, Punctuation, ".") ]
  }

  /** The tokens of a script-rule match, group by group. Groups typed with a
      token kind emit nothing when empty; the body goes to the embedded lexer,
      whose token offsets are moved to the body's place in the text. */
  function ScriptTokens(lang: Language, m: ScriptMatch, text: string, pos: nat, sub: SubLexer): seq<Token>
    requires Ordered(lang, text, pos, m)
  {
    var after := m.open + |LangName(lang)| + 2;
    Group(text, pos, m.open, Text)
    + Frame(lang, m.open)
    + Group(text, after, m.bodyStart, Text)
    + Shift(sub(lang, text[m.bodyStart..m.endKw]), m.bodyStart)
    + Tail(text, m.endKw, m.dot)
  }

  lemma GroupTiles(text: string, a: nat, b: nat, kind: Kind)
    requires a <= b <= |text|
    ensures Tiles(Group(text, a, b, kind), text, a, b)
  {
    if a < b { SingleTiles(text, a, b, kind); }
  }

  /** A literal that occurs in the text is a one-token tiling of itself. */
  lemma LiteralTiles(text: string, at: nat, w: string, kind: Kind)
    requires StartsWith(text, at, w)
    ensures Tiles([Token(at, kind, w)], text, at, at + |w|)
  {
    SingleTiles(text, at, at + |w|, kind);
  }

  /** A literal `a + b` at `at` is `a` at `at` followed by `b`. */
  lemma StartsWithSplit(text: string, at: nat, a: string, b: string)
    requires StartsWith(text, at, a + b)
    ensures StartsWith(text, at, a) && StartsWith(text, at + |a|, b)
  {
    var whole := text[at..at + |a| + |b|];
    assert text[at..at + |a|] == whole[..|a|];
    assert text[at + |a|..at + |a| + |b|] == whole[|a|..];
  }

  /** The frame tokens spell out `(name)`. */
  lemma FrameTiles(lang: Language, text: string, open: nat)
    requires StartsWith(text, open, "(" + LangName(lang) + ")")
    ensures Tiles(Frame(lang, open), text, open, open + |LangName(lang)| + 2)
  {
    var name := LangName(lang);
    StartsWithSplit(text, open, "(" + name, ")");
    StartsWithSplit(text, open, "(", name);
    LiteralTiles(text, open, "(", Punctuation);
    LiteralTiles(text, open + 1, name, Text);
    LiteralTiles(text, open + 1 + |name|, ")", Punctuation);
    TilesAppend([Token(open, Punctuation, "(")], [Token(open + 1, Text, name)], text, open, open + 1, open + 1 + |name|);
    TilesAppend([Token(open, Punctuation, "("), Token(open + 1, Text, name)], [Token(open + 1 + |name|, Punctuation, ")")],
                text, open, open + 1 + |name|, open + |name| + 2);
  }

  /** The tokens from `#end` on spell out `#end`, the spaces and the `.`. */
  lemma TailTiles(text: string, endKw: nat, dot: nat)
    requires endKw + 4 <= dot < |text| && StartsWith(text, endKw, "#end") && text[dot] == '.'
    ensures Tiles(Tail(text, endKw, dot), text, endKw, dot + 1)
  {
    LiteralTiles(text, endKw, "#end", Keyword);
    GroupTiles(text, endKw + 4, dot, Text);
    assert StartsWith(text, dot, ".");
    LiteralTiles(text, dot, ".", Punctuation);
    TilesAppend([ Token(endKw, Keyword, "#end") ], Group(text, endKw + 4, dot, Text), text, endKw, endKw + 4, dot);
    TilesAppend([ Token(endKw, Keyword, "#end") ] + Group(text, endKw + 4, dot, Text), [ Token(dot, Punctuation, ".") ],
                text, endKw, dot, dot + 1);
  }

  /** Five adjacent tilings make one. */
  lemma TilesAppend5(a: seq<Token>, b: seq<Token>, c: seq<Token>, d: seq<Token>, e: seq<Token>, text: string,
                     p0: nat, p1: nat, p2: nat, p3: nat, p4: nat, p5: nat)
    requires Tiles(a, text, p0, p1) && Tiles(b, text, p1, p2) && Tiles(c, text, p2, p3)
    requires Tiles(d, text, p3, p4) && Tiles(e, text, p4, p5)
    ensures Tiles(a + b + c + d + e, text, p0, p5)
  {
    TilesAppend(a, b, text, p0, p1, p2);
    TilesAppend(a + b, c, text, p0, p2, p3);
    TilesAppend(a + b + c, d, text, p0, p3, p4);
    TilesAppend(a + b + c + d, e, text, p0, p4, p5);
  }

  /** The tokens of a script block spell out the matched text, the embedded
      lexer's tokens included, provided that lexer preserves its input. */
  lemma ScriptTokensTile(lang: Language, m: ScriptMatch, text: string, pos: nat, sub: SubLexer)
    requires Ordered(lang, text, pos, m) && TextPreserving(sub)
    requires StartsWith(text, m.open, "(" + LangName(lang) + ")")
    requires StartsWith(text, m.endKw, "#end") && text[m.dot] == '.'
    ensures Tiles(ScriptTokens(lang, m, text, pos, sub), text, pos, m.dot + 1)
  {
    EmbeddedTiles(sub, lang, text[m.bodyStart..m.endKw], text, m.bodyStart);
    PiecesTile(lang, m, text, pos, sub);
  }

  /** The embedded lexer's tokens, moved to the body's offset, spell out the body. */
  lemma EmbeddedTiles(sub: SubLexer, lang: Language, body: string, text: string, at: nat)
    requires TextPreserving(sub)
    requires at + |body| <= |text| && text[at..at + |body|] == body
    ensures Tiles(Shift(sub(lang, body), at), text, at, at + |body|)
  {
    assert PreservesOn(sub, lang, body);
    ShiftTiles(sub(lang, body), body, 0, |body|, text, at);
  }

  /** The fixed groups around the body spell out their text, so the whole
      block does as soon as the body's tokens do. */
  lemma PiecesTile(lang: Language, m: ScriptMatch, text: string, pos: nat, sub: SubLexer)
    requires Ordered(lang, text, pos, m)
    requires StartsWith(text, m.open, "(" + LangName(lang) + ")")
    requires StartsWith(text, m.endKw, "#end") && text[m.dot] == '.'
    requires Tiles(Shift(sub(lang, text[m.bodyStart..m.endKw]), m.bodyStart), text, m.bodyStart, m.endKw)
    ensures Tiles(ScriptTokens(lang, m, text, pos, sub), text, pos, m.dot + 1)
  {
    hide Tiles, Group, Frame, Tail, Shift;
    var after := m.open + |LangName(lang)| + 2;
    GroupTiles(text, pos, m.open, Text);
    FrameTiles(lang, text, m.open);
    GroupTiles(text, after, m.bodyStart, Text);
    TailTiles(text, m.endKw, m.dot);
    TilesAppend5(Group(text, pos, m.open, Text), Frame(lang, m.open), Group(text, after, m.bodyStart, Text),
                 Shift(sub(lang, text[m.bodyStart..m.endKw]), m.bodyStart), Tail(text, m.endKw, m.dot),
                 text, pos, m.open, after, m.bodyStart, m.endKw, m.dot + 1);
  }
}
