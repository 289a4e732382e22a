/** Language guessing: a text looks like a logic program exactly when the
    rule arrow `:-` occurs somewhere in it. */
module Analyse {
  import opened Chars

  /** `:-` occurs at some position of `text`. */
  predicate HasArrow(text: string)
  {
    exists i | 0 <= i < |text| :: StartsWith(text, i, ":-")
  }

  /** `':-' in text`, as a left-to-right search. */
  method AnalyseText(text: string) returns (found: bool)
    ensures found <==> HasArrow(text)
  {
    var i := 0;
    while i + 1 < |text|
      invariant 0 <= i <= |text|
      invariant forall j | 0 <= j < i :: !StartsWith(text, j, ":-")
    {
      if text[i] == ':' && text[i + 1] == '-' {
        assert StartsWith(text, i, ":-");
        return true;
      }
      assert !StartsWith(text, i, ":-");
      i := i + 1;
    }
    forall j | i <= j < |text|
      ensures !StartsWith(text, j, ":-")
    {
    }
    return false;
  }

  /** The arrow is found in a text whenever it is found in a part of it. */
  lemma ArrowInContext(a: string, b: string, c: string)
    requires HasArrow(b)
    ensures HasArrow(a + b + c)
  {
    var i :| 0 <= i < |b| && StartsWith(b, i, ":-");
    assert (a + b + c)[|a| + i..|a| + i + 2] == b[i..i + 2];
    assert StartsWith(a + b + c, |a| + i, ":-");
  }
}
