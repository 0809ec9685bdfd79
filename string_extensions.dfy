/** `StringExtensions`: the null-coalescing and parenthesising helpers. */
module StringExtensions {
  import opened Wrappers

  /** `value ?? defaultValue`; a `None` stands for the null string. */
  function GetValueOrDefault(value: Option<string>, defaultValue: string := ""): (r: string)
    ensures value.None? ==> r == defaultValue
    ensures value.Some? ==> r == value.value
  {
    if value.None? then defaultValue else value.value
  }

  /** Wraps a fragment in one pair of parentheses. */
  function BetweenParenthesis(value: string): (r: string)
    ensures |r| == |value| + 2
    ensures r[0] == '(' && r[|r| - 1] == ')'
    ensures r[1..|r| - 1] == value
  {
    "(" + value + ")"
  }

  predicate IsParenthesised(s: string)
  {
    |s| >= 2 && s[0] == '(' && s[|s| - 1] == ')'
  }

  /** The wrapped fragment can be read back, so wrapping is injective. */
  lemma BetweenParenthesisInjective(a: string, b: string)
    requires BetweenParenthesis(a) == BetweenParenthesis(b)
    ensures a == b
  {
    var r := BetweenParenthesis(a);
    assert a == r[1..|r| - 1];
  }
}
