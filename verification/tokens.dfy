/** Token kinds, tokens, lexer states, and what it means for a token stream
    to spell out a stretch of text exactly (contiguous, no gaps, no overlaps). */
module Tokens {

  datatype Option<+T> = None | Some(value: T)

  /** The token kinds the Clingo lexer emits. `Embedded` stands for any kind an
      embedded script lexer emits that Clingo's own rules never produce. */
  datatype Kind =
    | CommentMultiline | CommentSingle | NumberHex | NumberInteger | StringDouble
    | Punctuation | Keyword | KeywordConstant | Operator | NameVariable | Text | Error
    | Embedded

  /** One emitted triple: offset into the text, kind, and the matched characters. */
  datatype Token = Token(index: nat, kind: Kind, value: string)

  /** The four states of the lexer's pushdown automaton. */
  datatype State = Root | Include | Script | NestedComment

  /** The two languages a `#script` block may embed. */
  datatype Language = Python | Lua

  /** An embedded-language lexer, run on the body of a script block; the indices
      of its tokens are relative to the body. */
  type SubLexer = (Language, string) -> seq<Token>

  /** The texts of the tokens, in order, glued together. */
  function Concat(toks: seq<Token>): string
  {
    if |toks| == 0 then [] else toks[0].value + Concat(toks[1..])
  }

  /** `toks` covers `text[from..to]` exactly: the first token starts at `from`,
      each token starts where the previous one ended, each token's value is the
      text at its index, and the last one ends at `to`. */
  predicate Tiles(toks: seq<Token>, text: string, from: nat, to: nat)
    decreases |toks|
  {
    from <= to <= |text| &&
    if |toks| == 0 then from == to
    else
      var n := |toks[0].value|;
      && toks[0].index == from
      && from + n <= to
      && text[from..from + n] == toks[0].value
      && Tiles(toks[1..], text, from + n, to)
  }

  /** An embedded lexer preserves text: on every input, its tokens cover the
      input exactly, starting at offset 0. */
  ghost predicate TextPreserving(sub: SubLexer)
  {
    forall lang: Language, s: string :: PreservesOn(sub, lang, s)
  }

  /** The embedded lexer for `lang` preserves the text `s`. */
  ghost predicate PreservesOn(sub: SubLexer, lang: Language, s: string)
  {
    Tiles(sub(lang, s), s, 0, |s|)
  }

  /** Moves every token of `toks` right by `d` characters. */
  function Shift(toks: seq<Token>, d: nat): seq<Token>
  {
    if |toks| == 0 then []
    else [toks[0].(index := toks[0].index + d)] + Shift(toks[1..], d)
  }

  /** A tiling spells out exactly its stretch of text. */
  lemma {:induction false} TilesConcat(toks: seq<Token>, text: string, from: nat, to: nat)
    requires Tiles(toks, text, from, to)
    ensures Concat(toks) == text[from..to]
    decreases |toks|
  {
    if |toks| > 0 {
      var n := |toks[0].value|;
      TilesConcat(toks[1..], text, from + n, to);
      assert text[from..to] == text[from..from + n] + text[from + n..to];
    }
  }

  /** Two adjacent tilings make one. */
  lemma {:induction false} TilesAppend(a: seq<Token>, b: seq<Token>, text: string, from: nat, mid: nat, to: nat)
    requires Tiles(a, text, from, mid)
    requires Tiles(b, text, mid, to)
    ensures Tiles(a + b, text, from, to)
    decreases |a|
  {
    if |a| == 0 {
      assert a + b == b;
    } else {
      TilesAppend(a[1..], b, text, from + |a[0].value|, mid, to);
      assert (a + b)[1..] == a[1..] + b;
    }
  }

  /** Every token of a tiling lies inside the tiled stretch and its value is
      the text at its index. */
  lemma {:induction false} TilesSlices(toks: seq<Token>, text: string, from: nat, to: nat)
    requires Tiles(toks, text, from, to)
    ensures forall i | 0 <= i < |toks| ::
      from <= toks[i].index && toks[i].index + |toks[i].value| <= to
      && text[toks[i].index..toks[i].index + |toks[i].value|] == toks[i].value
    decreases |toks|
  {
    if |toks| > 0 {
      TilesSlices(toks[1..], text, from + |toks[0].value|, to);
      forall i | 1 <= i < |toks|
        ensures from <= toks[i].index && toks[i].index + |toks[i].value| <= to
        ensures text[toks[i].index..toks[i].index + |toks[i].value|] == toks[i].value
      {
        assert toks[i] == toks[1..][i - 1];
      }
    }
  }

  /** Shifting a tiling of `s` by `d` tiles the copy of `s` that sits at `d`
      inside a larger text: the splice of an embedded lexer's output. */
  lemma {:induction false} ShiftTiles(toks: seq<Token>, s: string, from: nat, to: nat, text: string, d: nat)
    requires Tiles(toks, s, from, to)
    requires d + |s| <= |text| && text[d..d + |s|] == s
    ensures Tiles(Shift(toks, d), text, from + d, to + d)
    decreases |toks|
  {
    if |toks| > 0 {
      var n := |toks[0].value|;
      ShiftTiles(toks[1..], s, from + n, to, text, d);
      assert from + n <= |s|;
      var piece := text[from + d..from + d + n];
      forall j | 0 <= j < n
        ensures piece[j] == s[from + j]
      {
        assert text[from + d + j] == text[d..d + |s|][from + j];
      }
      assert piece == s[from..from + n];
    }
  }

  /** A single token covering `text[from..to]`. */
  lemma SingleTiles(text: string, from: nat, to: nat, kind: Kind)
    requires from <= to <= |text|
    ensures Tiles([Token(from, kind, text[from..to])], text, from, to)
  {
    assert [Token(from, kind, text[from..to])][1..] == [];
  }
}
