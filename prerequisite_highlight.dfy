/** `PrerequisiteHighlightPipe`: turns a prerequisite text into HTML. Grade requirements,
    course names and the words "and" and "or" are wrapped first (those regular-expression
    replacements are a parameter here); then every parenthesis is wrapped in a span whose
    class is its nesting level modulo 3, from a level counter that persists across calls;
    the whole is wrapped once more and cached by input. */
module PrerequisiteHighlight {
  import opened JsText

  /** The change of the nesting level a character makes. */
  function Delta(c: char): int {
    if c == '(' then 1 else if c == ')' then -1 else 0
  }

  /** The opening minus the closing parentheses of `s`. */
  function Depth(s: string): int {
    if s == [] then 0 else Depth(s[..|s| - 1]) + Delta(s[|s| - 1])
  }

  /** The depth of a concatenation is the sum of the depths. */
  lemma {:induction false} DepthAppend(a: string, b: string)
    ensures Depth(a + b) == Depth(a) + Depth(b)
    decreases |b|
  {
    if b != [] {
      var b' := b[..|b| - 1];
      DepthAppend(a, b');
      assert (a + b)[..|a + b| - 1] == a + b';
      assert (a + b)[|a + b| - 1] == b[|b| - 1];
    } else {
      assert a + b == a;
    }
  }

  /** The class number a parenthesis gets when the counter holds `level`: `(` raises the
      counter and takes `level % 3`, `)` lowers it and takes `(level + 1) % 3`, both with
      JavaScript's remainder. */
  function ParenClass(c: char, level: int): (r: int)
    ensures c == '(' && level >= -1 ==> 0 <= r < 3
    ensures c != '(' && level >= 0 ==> 0 <= r < 3
  {
    if c == '(' then JsRem(level + 1, 3) else JsRem(level, 3)
  }

  /** `<span class="parenthesis-l">c</span>`. */
  function ParenSpan(l: int, c: char): string {
    "<span class=\"parenthesis-" + IntToString(l) + "\">" + [c] + "</span>"
  }

  /** What one character becomes, and the counter after it. */
  function Piece(c: char, level: int): (string, int) {
    if c == '(' || c == ')' then (ParenSpan(ParenClass(c, level), c), level + Delta(c)) else ([c], level)
  }

  /** The parenthesis replacement over `s` from counter `level`: the text and the final
      counter. */
  function Highlighted(s: string, level: int): (string, int) {
    if s == [] then ("", level)
    else
      var (init, next) := Highlighted(s[..|s| - 1], level);
      var (piece, final) := Piece(s[|s| - 1], next);
      (init + piece, final)
  }

  /** The counter ends moved by the depth of the text, so a balanced text leaves it where
      it was. */
  lemma {:induction false} HighlightedLevel(s: string, level: int)
    ensures Highlighted(s, level).1 == level + Depth(s)
    decreases |s|
  {
    if s != [] {
      HighlightedLevel(s[..|s| - 1], level);
    }
  }

  /** Each character is replaced with the counter reached after the characters before it. */
  lemma {:induction false} HighlightedSplit(s: string, level: int, i: nat)
    requires i < |s|
    ensures Highlighted(s[..i + 1], level).0
            == Highlighted(s[..i], level).0 + Piece(s[i], level + Depth(s[..i])).0
  {
    assert s[..i + 1][..i] == s[..i];
    HighlightedLevel(s[..i], level);
  }

  /** `)` at `j` closes `(` at `i`: the depth never falls below the level `(` opened
      before `j`, and is back at it just before `j`. */
  predicate Matches(s: string, i: nat, j: nat) {
    && i < j < |s| && s[i] == '(' && s[j] == ')'
    && Depth(s[..j]) == Depth(s[..i + 1])
    && forall k :: i < k <= j ==> Depth(s[..k]) >= Depth(s[..i + 1])
  }

  /** A closing parenthesis gets the class of the one it closes. */
  lemma MatchingSameClass(s: string, level: int, i: nat, j: nat)
    requires Matches(s, i, j)
    ensures ParenClass(s[j], level + Depth(s[..j])) == ParenClass(s[i], level + Depth(s[..i]))
  {
    assert s[..i + 1][..i] == s[..i];
  }

  /** With the counter at its initial -1, a top-level `(` gets class 0, and so, by
      `MatchingSameClass`, does the `)` that closes it. */
  lemma TopLevelClassZero(s: string, i: nat)
    requires i < |s| && s[i] == '(' && Depth(s[..i]) == 0
    ensures ParenClass(s[i], -1 + Depth(s[..i])) == 0
  {
  }

  /** `<span class="prerequisite">…</span>`. */
  function Wrapped(s: string): (r: string)
    ensures |r| == |s| + 34
    ensures r[..27] == "<span class=\"prerequisite\">" && r[27..|r| - 7] == s && r[|r| - 7..] == "</span>"
  {
    "<span class=\"prerequisite\">" + s + "</span>"
  }

  class PrerequisiteHighlightPipe {
    var parenthesisLevel: int
    var cache: map<string, string>

    constructor()
      ensures parenthesisLevel == -1 && cache == map[]
    {
      parenthesisLevel := -1;
      cache := map[];
    }

    /** `transformParenthesis(match)` for a matched `(` or `)`. */
    method TransformParenthesis(m: char) returns (r: string)
      requires m == '(' || m == ')'
      modifies this
      ensures (r, parenthesisLevel) == Piece(m, old(parenthesisLevel))
      ensures m == '(' ==> parenthesisLevel == old(parenthesisLevel) + 1
      ensures m == ')' ==> parenthesisLevel == old(parenthesisLevel) - 1
      ensures cache == old(cache)
    {
      if m == '(' {
        parenthesisLevel := parenthesisLevel + 1;
        var l := JsRem(parenthesisLevel, 3);
        r := ParenSpan(l, m);
      } else {
        parenthesisLevel := parenthesisLevel - 1;
        var l := JsRem(parenthesisLevel + 1, 3);
        r := ParenSpan(l, m);
      }
    }

    /** The replacement of every parenthesis of `s`, left to right. */
    method ReplaceParentheses(s: string) returns (r: string)
      modifies this
      ensures (r, parenthesisLevel) == Highlighted(s, old(parenthesisLevel))
      ensures cache == old(cache)
    {
      r := "";
      for i := 0 to |s|
        invariant (r, parenthesisLevel) == Highlighted(s[..i], old(parenthesisLevel))
        invariant cache == old(cache)
      {
        assert s[..i + 1][..i] == s[..i];
        var c := s[i];
        if c == '(' || c == ')' {
          var piece := TransformParenthesis(c);
          r := r + piece;
        } else {
          r := r + [c];
        }
      }
      assert s[..|s|] == s;
    }

    /** `transform(value, doTransform)`: the value itself when not transforming; the cached
        result when there is one, whatever the counter holds now; otherwise the highlighted,
        wrapped text, which is cached. `highlight` stands for the four regular-expression
        replacements that come before the parentheses. */
    method Transform(value: string, doTransform: bool, highlight: string -> string) returns (r: string)
      modifies this
      ensures !doTransform ==> r == value && parenthesisLevel == old(parenthesisLevel) && cache == old(cache)
      ensures doTransform && value in old(cache) ==>
                r == old(cache)[value] && parenthesisLevel == old(parenthesisLevel) && cache == old(cache)
      ensures doTransform && value !in old(cache) ==>
                var (text, level) := Highlighted(highlight(value), old(parenthesisLevel));
                r == Wrapped(text) && parenthesisLevel == level && cache == old(cache)[value := r]
    {
      if !doTransform {
        return value;
      }
      if value in cache {
        return cache[value];
      }
      var transformedValue := highlight(value);
      transformedValue := ReplaceParentheses(transformedValue);
      transformedValue := Wrapped(transformedValue);
      cache := cache[value := transformedValue];
      r := transformedValue;
    }
  }

  /** Two transforms of the same value give the same result, and the second leaves the
      counter alone. */
  method TransformTwice(pipe: PrerequisiteHighlightPipe, value: string, highlight: string -> string)
    returns (first: string, second: string)
    modifies pipe
    ensures first == second
    ensures value !in old(pipe.cache) ==>
              pipe.parenthesisLevel == old(pipe.parenthesisLevel) + Depth(highlight(value))
  {
    HighlightedLevel(highlight(value), pipe.parenthesisLevel);
    first := pipe.Transform(value, true, highlight);
    second := pipe.Transform(value, true, highlight);
  }
}
