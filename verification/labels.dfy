/** The line-label rewrite that the lexer applies to its own output, for a
    typesetting tool that runs the highlighter twice over the same text.

    A single-line comment that starts with `#%\llabel{` and ends with `#`
    gains one more leading `#` on the first pass; on the second pass a
    comment that starts with `##%\llabel{` and ends with `#` loses its first
    two characters. Every other token passes through untouched, and no
    token changes position or kind. */
module Labels {
  import opened Tokens
  import opened Chars
  import Lexer
  import LexerProofs

  /** The marker a label comment starts with on the first pass. */
  const Marker: string := "#%\\llabel{"

  /** The marker after the first pass has doubled the `#`. */
  const Doubled: string := "##%\\llabel{"

  /** `value.startswith(prefix) and value.endswith("#")` */
  predicate Framed(value: string, prefix: string)
  {
    StartsWith(value, 0, prefix) && |value| > 0 && value[|value| - 1] == '#'
  }

  /** A label comment as the first pass meets it. */
  predicate FreshLabel(t: Token)
  {
    t.kind == CommentSingle && Framed(t.value, Marker)
  }

  /** A label comment as the second pass meets it. */
  predicate MarkedLabel(t: Token)
  {
    t.kind == CommentSingle && Framed(t.value, Doubled)
  }

  /** The rewrite of one token; the marker tests come in the source's order. */
  function Relabel(t: Token): (r: Token)
    ensures r.index == t.index && r.kind == t.kind
  {
    if FreshLabel(t) then t.(value := "#" + t.value)
    else if MarkedLabel(t) then t.(value := t.value[2..])
    else t
  }

  /** The two markers differ in their second character, so no value is framed by both. */
  lemma MarkersExclusive(t: Token)
    ensures !(FreshLabel(t) && MarkedLabel(t))
  {
    assert Marker[1] != Doubled[1];
  }

  /** A token changes exactly when it is a label comment in one of the two
      forms; the first form gains a `#`, the second loses its leading `##`. */
  lemma RelabelChanges(t: Token)
    ensures Relabel(t) != t <==> FreshLabel(t) || MarkedLabel(t)
    ensures FreshLabel(t) ==> Relabel(t).value == "#" + t.value && Relabel(t).value[1..] == t.value
    ensures MarkedLabel(t) ==> "##" + Relabel(t).value == t.value
  {
    MarkersExclusive(t);
    if FreshLabel(t) {
      assert |Relabel(t).value| != |t.value|;
    } else if MarkedLabel(t) {
      assert |Relabel(t).value| != |t.value|;
      assert t.value[..2] == "##" by {
        assert t.value[..2] == Doubled[..2];
      }
      assert t.value == t.value[..2] + t.value[2..];
    }
  }

  /** The first pass turns a fresh label into a marked one. */
  lemma FreshBecomesMarked(t: Token)
    requires FreshLabel(t)
    ensures MarkedLabel(Relabel(t))
  {
    var v := Relabel(t).value;
    assert v == "#" + t.value;
    assert v[..|Doubled|] == "#" + t.value[..|Marker|];
  }

  /** After the second pass a label starts with `%`, so neither marker matches. */
  lemma MarkedSettles(t: Token)
    requires MarkedLabel(t)
    ensures !FreshLabel(Relabel(t)) && !MarkedLabel(Relabel(t))
  {
    MarkersExclusive(t);
    var v := Relabel(t).value;
    assert v == t.value[2..];
    assert v[0] == t.value[2] == Doubled[2] == '%';
  }

  /** Any other token is left as it is. */
  lemma Untouched(t: Token)
    requires !FreshLabel(t) && !MarkedLabel(t)
    ensures Relabel(t) == t
  {
  }

  /** Two passes over a fresh label leave the comment without its leading `#`. */
  lemma TwoPasses(t: Token)
    requires FreshLabel(t)
    ensures Relabel(Relabel(t)) == t.(value := t.value[1..])
  {
    FreshBecomesMarked(t);
    MarkersExclusive(t);
    assert ("#" + t.value)[2..] == t.value[1..];
  }

  /** Whatever the token, a third pass changes nothing more. */
  lemma ThirdPassIdentity(t: Token)
    ensures Relabel(Relabel(Relabel(t))) == Relabel(Relabel(t))
  {
    if FreshLabel(t) {
      FreshBecomesMarked(t);
      MarkersExclusive(t);
      MarkedSettles(Relabel(t));
    } else if MarkedLabel(t) {
      MarkedSettles(t);
    }
  }

  /** The filter: every token of the stream rewritten, in order. */
  function Filter(ts: seq<Token>): (r: seq<Token>)
    ensures |r| == |ts|
    ensures forall i | 0 <= i < |ts| :: r[i].index == ts[i].index && r[i].kind == ts[i].kind
  {
    if ts == [] then [] else [Relabel(ts[0])] + Filter(ts[1..])
  }

  /** The filter rewrites each token on its own. */
  lemma {:induction false} FilterAt(ts: seq<Token>, i: nat)
    requires i < |ts|
    ensures Filter(ts)[i] == Relabel(ts[i])
  {
    if i > 0 {
      FilterAt(ts[1..], i - 1);
    }
  }

  /** A stream without label comments passes through unchanged, so it keeps
      the lexer's text preservation. */
  lemma FilterIdentity(ts: seq<Token>)
    requires forall i | 0 <= i < |ts| :: !FreshLabel(ts[i]) && !MarkedLabel(ts[i])
    ensures Filter(ts) == ts
  {
    hide Relabel, FreshLabel, MarkedLabel;
    forall i | 0 <= i < |ts|
      ensures Filter(ts)[i] == ts[i]
    {
      FilterAt(ts, i);
      Untouched(ts[i]);
    }
  }

  /** Two passes of the filter drop the leading `#` of every fresh label and
      leave every token that is not a label in either form as it was. */
  lemma FilterTwice(ts: seq<Token>)
    ensures |Filter(Filter(ts))| == |ts|
    ensures forall i | 0 <= i < |ts| && FreshLabel(ts[i]) ::
      Filter(Filter(ts))[i] == ts[i].(value := ts[i].value[1..])
    ensures forall i | 0 <= i < |ts| && !FreshLabel(ts[i]) && !MarkedLabel(ts[i]) ::
      Filter(Filter(ts))[i] == ts[i]
  {
    forall i | 0 <= i < |ts|
      ensures Filter(Filter(ts))[i] == Relabel(Relabel(ts[i]))
    {
      FilterAt(ts, i);
      FilterAt(Filter(ts), i);
    }
    forall i | 0 <= i < |ts| && FreshLabel(ts[i])
      ensures Filter(Filter(ts))[i] == ts[i].(value := ts[i].value[1..])
    {
      TwoPasses(ts[i]);
    }
    forall i | 0 <= i < |ts| && !FreshLabel(ts[i]) && !MarkedLabel(ts[i])
      ensures Filter(Filter(ts))[i] == ts[i]
    {
      Untouched(ts[i]);
    }
  }

  /** A third pass of the filter is the identity on the second pass's output. */
  lemma FilterSettles(ts: seq<Token>)
    ensures Filter(Filter(Filter(ts))) == Filter(Filter(ts))
  {
    hide Relabel, FreshLabel, MarkedLabel;
    forall i | 0 <= i < |ts|
      ensures Filter(Filter(Filter(ts)))[i] == Filter(Filter(ts))[i]
    {
      FilterAt(ts, i);
      FilterAt(Filter(ts), i);
      FilterAt(Filter(Filter(ts)), i);
      ThirdPassIdentity(ts[i]);
    }
  }

  /** The lexer's public token stream: the state machine's tokens, filtered. */
  function TokensUnprocessed(text: string, stack: seq<State>, sub: SubLexer): (r: seq<Token>)
    requires Lexer.ValidStack(stack)
    ensures |r| == |Lexer.Lex(text, 0, stack, sub)|
  {
    Filter(Lexer.Lex(text, 0, stack, sub))
  }

  /** With a text-preserving embedded lexer and no label comment in the
      stream, the public stream still spells out the input exactly. */
  lemma TokensPreserveText(text: string, stack: seq<State>, sub: SubLexer)
    requires Lexer.ValidStack(stack) && TextPreserving(sub)
    requires forall i | 0 <= i < |Lexer.Lex(text, 0, stack, sub)| ::
      !FreshLabel(Lexer.Lex(text, 0, stack, sub)[i]) && !MarkedLabel(Lexer.Lex(text, 0, stack, sub)[i])
    ensures Concat(TokensUnprocessed(text, stack, sub)) == text
  {
    hide Lexer.Lex, FreshLabel, MarkedLabel;
    FilterIdentity(Lexer.Lex(text, 0, stack, sub));
    LexerProofs.LexPreservesText(text, 0, stack, sub);
    assert text[0..] == text;
  }
}
