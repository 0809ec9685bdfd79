/**
 * `OrderByClause`: a list of sort terms joined with commas.
 */
module OrderByClauses {
  import opened Wrappers
  import opened Strings

  datatype SortDirection = Ascending | Descending | Random

  /** The `Description` attribute text of each direction. */
  function Description(direction: SortDirection): (r: string)
    ensures direction == Ascending ==> r == "ASC"
    ensures direction == Descending ==> r == "DESC"
    ensures direction == Random ==> r == "NEWID()"
  {
    match direction
    case Ascending => "ASC"
    case Descending => "DESC"
    case Random => "NEWID()"
  }

  /** The sort term for `field` in `direction`: the field, a space, the keyword. */
  function SortTerm(field: string, direction: SortDirection): (r: string)
    ensures |r| == |field| + 1 + |Description(direction)|
    ensures r[..|field|] == field && r[|field|] == ' ' && r[|field| + 1..] == Description(direction)
  {
    field + " " + Description(direction)
  }

  class OrderByClause {
    var sortings: seq<string>

    constructor ()
      ensures sortings == []
    {
      sortings := [];
    }

    method AddSorting(field: string, direction: SortDirection := Ascending)
      modifies this
      ensures sortings == old(sortings) + [SortTerm(field, direction)]
    {
      sortings := sortings + [SortTerm(field, direction)];
    }

    method OrderByRandom()
      modifies this
      ensures sortings == old(sortings) + [Description(Random)]
    {
      sortings := sortings + [Description(Random)];
    }

    /** Appends every sort term of `other`, in order; a null clause is
        ignored. `List.ForEach` stops and throws `InvalidOperationException`
        once the list it enumerates has changed, so a non-empty clause added
        to itself gains a copy of its first term and then fails. */
    method AddSortingsFrom(other: OrderByClause?) returns (r: Outcome)
      modifies this
      ensures other == null ==> r == Pass && sortings == old(sortings)
      ensures other == this && old(sortings) != [] ==>
        r == Fail(InvalidOperation) && sortings == old(sortings) + [old(sortings)[0]]
      ensures other != null && (other != this || old(sortings) == []) ==>
        r == Pass && sortings == old(sortings) + old(other.sortings)
    {
      if other == null {
        return Pass;
      }
      if other == this {
        if |sortings| > 0 {
          sortings := sortings + [sortings[0]];
          return Fail(InvalidOperation);
        }
        return Pass;
      }
      var i := 0;
      while i < |other.sortings|
        invariant 0 <= i <= |other.sortings|
        invariant sortings == old(sortings) + other.sortings[..i]
      {
        assert other.sortings[..i + 1] == other.sortings[..i] + [other.sortings[i]];
        sortings := sortings + [other.sortings[i]];
        i := i + 1;
      }
      assert other.sortings[..i] == other.sortings;
      r := Pass;
    }

    function IsEmpty(): (r: bool)
      reads this
      ensures r <==> sortings == []
    {
      |sortings| < 1
    }

    function ToString(): (r: string)
      reads this
      ensures r == Join(", ", sortings)
    {
      Join(", ", sortings)
    }
  }
}
