/**
 * Parameter names for SQL commands. The name factory is not part of this
 * model beyond what the core needs from it: every call yields a name that
 * starts with `@`, mentions the requested base and ends in a counter that no
 * earlier call used, so every name handed out is fresh.
 */
module ParameterNames {
  import opened Strings

  function ParameterName(base: string, counter: nat): (r: string)
    ensures |r| > 0 && r[0] == '@'
  {
    "@" + base + "_" + NatToString(counter)
  }

  /** Two names coincide only when both their base and their counter do:
      the counter is the digit run after the last `_`. */
  lemma ParameterNameInjective(b1: string, n1: nat, b2: string, n2: nat)
    requires ParameterName(b1, n1) == ParameterName(b2, n2)
    ensures b1 == b2 && n1 == n2
  {
    var s := ParameterName(b1, n1);
    var d1, d2 := NatToString(n1), NatToString(n2);
    SameDigitTail(b1, d1, b2, d2);
    SameDigitTail(b2, d2, b1, d1);
    assert |d1| == |d2|;
    assert d1 == s[|s| - |d1|..];
    assert d2 == s[|s| - |d2|..];
    NatToStringInjective(n1, n2);
    assert "@" + b1 + "_" == s[..|s| - |d1|];
    assert "@" + b2 + "_" == s[..|s| - |d2|];
    assert b1 == ("@" + b1 + "_")[1..|b1| + 1];
    assert b2 == ("@" + b2 + "_")[1..|b2| + 1];
  }

  /** The digit suffix of one spelling cannot be shorter than the other's. */
  lemma SameDigitTail(b1: string, d1: string, b2: string, d2: string)
    requires forall i :: 0 <= i < |d2| ==> IsDigit(d2[i])
    requires "@" + b1 + "_" + d1 == "@" + b2 + "_" + d2
    ensures |d1| >= |d2|
  {
    var s := "@" + b1 + "_" + d1;
    var k := |s| - |d1| - 1;
    assert s[k] == '_';
    assert forall j :: |s| - |d2| <= j < |s| ==> IsDigit(s[j]) by {
      forall j | |s| - |d2| <= j < |s|
        ensures IsDigit(s[j])
      {
        assert s[j] == d2[j - (|s| - |d2|)];
      }
    }
  }

  /** Hands out one name per call, numbering the calls. */
  class ParameterNameFactory {
    var counter: nat

    constructor ()
      ensures counter == 0
    {
      counter := 0;
    }

    method NewParameter(base: string) returns (name: string)
      modifies this
      ensures name == ParameterName(base, old(counter))
      ensures counter == old(counter) + 1
    {
      name := ParameterName(base, counter);
      counter := counter + 1;
    }
  }
}
