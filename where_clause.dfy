/**
 * `WhereClause`: a list of WHERE conditions, each stored between
 * parentheses and joined with AND.
 */
module WhereClauses {
  import opened Wrappers
  import opened Strings
  import opened StringExtensions

  /** Every stored condition is a parenthesised fragment. */
  predicate AllParenthesised(restrictions: seq<string>)
  {
    forall i :: 0 <= i < |restrictions| ==> IsParenthesised(restrictions[i])
  }

  /** The conditions a clause with `restrictions` contributes when added to
      another clause: its whole text as one more parenthesised condition,
      or nothing when its text is empty. */
  function Contribution(restrictions: seq<string>): (r: seq<string>)
    requires AllParenthesised(restrictions)
    ensures restrictions == [] ==> r == []
    ensures restrictions != [] ==> r == [BetweenParenthesis(Join(" AND ", restrictions))]
    ensures AllParenthesised(r)
  {
    var text := Join(" AND ", restrictions);
    JoinNonEmpty(" AND ", restrictions);
    if text == "" then [] else [BetweenParenthesis(text)]
  }

  class WhereClause {
    var restrictions: seq<string>

    ghost predicate Valid()
      reads this
    {
      AllParenthesised(restrictions)
    }

    constructor ()
      ensures restrictions == [] && Valid()
    {
      restrictions := [];
    }

    /** Adds a condition between parentheses; a null or empty one is ignored. */
    method AddWhere(where: Option<string>)
      requires Valid()
      modifies this
      ensures Valid()
      ensures where.Some? && where.value != "" ==>
        restrictions == old(restrictions) + [BetweenParenthesis(where.value)]
      ensures where.None? || where.value == "" ==> restrictions == old(restrictions)
    {
      if !(where.None? || where.value == "") {
        restrictions := restrictions + [BetweenParenthesis(where.value)];
      }
    }

    /** Adds the text of another clause as one condition; a null clause is
        ignored. `other` may be this clause itself. */
    method AddWhereFrom(other: WhereClause?)
      requires Valid()
      requires other != null ==> other.Valid()
      modifies this
      ensures Valid()
      ensures other == null ==> restrictions == old(restrictions)
      ensures other != null ==> restrictions == old(restrictions) + Contribution(old(other.restrictions))
    {
      if other == null {
        return;
      }
      var text := other.ToString();
      JoinNonEmpty(" AND ", other.restrictions);
      AddWhere(Some(text));
    }

    function IsEmpty(): (r: bool)
      reads this
      ensures r <==> restrictions == []
    {
      |restrictions| < 1
    }

    method Clear()
      modifies this
      ensures restrictions == [] && Valid()
    {
      restrictions := [];
    }

    /** The conditions joined with AND; empty exactly when there are none. */
    function ToString(): (r: string)
      reads this
      requires Valid()
      ensures r == Join(" AND ", restrictions)
      ensures r == "" <==> restrictions == []
    {
      JoinNonEmpty(" AND ", restrictions);
      Join(" AND ", restrictions)
    }
  }
}
