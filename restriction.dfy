/**
 * `Restriction`: a WHERE clause, an ORDER BY clause and the SQL parameters
 * they refer to, rendered as the tail of a command. `RestrictionValue` is the
 * content of a restriction as a value, the specification its methods are
 * proved against.
 */
module Restrictions {
  import opened Wrappers
  import opened Values
  import opened Strings
  import opened StringExtensions
  import opened DelimitedStringBuilders
  import opened ParameterNames
  import opened WhereClauses
  import opened OrderByClauses
  import opened ParameterCollections

  datatype RestrictionValue = RestrictionValue(wheres: seq<string>, sortings: seq<string>, parameters: seq<SqlParameter>)

  const EmptyValue := RestrictionValue([], [], [])

  predicate WellFormed(v: RestrictionValue)
  {
    AllParenthesised(v.wheres)
  }

  /** `Append(other)`: the other's WHERE text becomes one more condition, its
      sort terms and its parameters follow this one's. */
  function AppendValue(a: RestrictionValue, b: RestrictionValue): (r: RestrictionValue)
    requires WellFormed(a) && WellFormed(b)
    ensures WellFormed(r)
    ensures r.sortings == a.sortings + b.sortings
    ensures r.parameters == a.parameters + b.parameters
    ensures b.wheres == [] ==> r.wheres == a.wheres
    ensures b.wheres != [] ==> r.wheres == a.wheres + [BetweenParenthesis(Join(" AND ", b.wheres))]
  {
    RestrictionValue(a.wheres + Contribution(b.wheres), a.sortings + b.sortings, a.parameters + b.parameters)
  }

  lemma AppendEmptyValue(a: RestrictionValue)
    requires WellFormed(a)
    ensures AppendValue(a, EmptyValue) == a
  {
  }

  /** `ToString`: the buffer of a space-delimited builder that receives
      "WHERE" and the WHERE text when there are conditions, then "ORDER BY"
      and the sort terms when there are any. */
  function Render(v: RestrictionValue): string
  {
    var afterWhere :=
      if v.wheres == [] then ""
      else AppendDelimited(AppendDelimited("", " ", "WHERE"), " ", Join(" AND ", v.wheres));
    if v.sortings == [] then afterWhere
    else AppendDelimited(AppendDelimited(afterWhere, " ", "ORDER BY"), " ", Join(", ", v.sortings))
  }

  /** The rendered layout: an optional WHERE part, a single space between the
      two parts when both are present, an optional ORDER BY part. */
  lemma RenderLayout(v: RestrictionValue)
    ensures Render(v) ==
      (if v.wheres != [] then "WHERE " + Join(" AND ", v.wheres) else "") +
      (if v.wheres != [] && v.sortings != [] then " " else "") +
      (if v.sortings != [] then "ORDER BY " + Join(", ", v.sortings) else "")
    ensures Render(v) == "" <==> v.wheres == [] && v.sortings == []
  {
    if v.wheres != [] {
      var w := AppendDelimited(AppendDelimited("", " ", "WHERE"), " ", Join(" AND ", v.wheres));
      assert w == "WHERE " + Join(" AND ", v.wheres);
    }
  }

  /** The boxed value of a `long?` identity. */
  function IdDatum(id: Option<int>): (d: Datum)
    ensures id.None? ==> d == Null
    ensures id.Some? ==> d == Long(id.value)
  {
    if id.None? then Null else Long(id.value)
  }

  /** The condition `FromId` writes for the parameter `name`. */
  function IdCondition(name: string, withAlias: bool, alias: string): string
  {
    (if withAlias then alias + "." else "") + "ID = " + name
  }

  /** The restriction `FromId(id, withAlias, alias)` builds when the name
      factory's counter stands at `counter`: one condition on ID and the one
      parameter it names, bound to the identity (DBNull for none). */
  function FromIdValue(id: Option<int>, withAlias: bool, alias: string, counter: nat): (r: RestrictionValue)
    ensures WellFormed(r)
    ensures |r.parameters| == 1 && r.sortings == []
    ensures r.parameters[0].ParameterName == ParameterName("ID", counter)
    ensures r.parameters[0].Value == (if id.None? then DbNull else Long(id.value))
    ensures r.wheres == [BetweenParenthesis(IdCondition(ParameterName("ID", counter), withAlias, alias))]
  {
    var name := ParameterName("ID", counter);
    RestrictionValue([BetweenParenthesis(IdCondition(name, withAlias, alias))], [], [ParameterFor(name, IdDatum(id))])
  }

  /** A restriction of one condition and no sorting renders as that condition behind WHERE. */
  lemma SingleWhereRender(w: string, ps: seq<SqlParameter>)
    ensures Render(RestrictionValue([w], [], ps)) == "WHERE " + w
  {
    RenderLayout(RestrictionValue([w], [], ps));
    JoinSingle(" AND ", w);
  }

  /** The rendered restriction of `FromId` is its one condition behind WHERE. */
  lemma FromIdRenderParts(id: Option<int>, withAlias: bool, alias: string, counter: nat)
    ensures Render(FromIdValue(id, withAlias, alias, counter)) ==
      "WHERE " + "(" + IdCondition(ParameterName("ID", counter), withAlias, alias) + ")"
  {
    var r := FromIdValue(id, withAlias, alias, counter);
    SingleWhereRender(r.wheres[0], r.parameters);
  }

  /** The condition refers to exactly the parameter it binds. */
  lemma FromIdRender(id: Option<int>, alias: string, counter: nat)
    ensures Render(FromIdValue(id, true, alias, counter)) ==
      "WHERE (" + alias + ".ID = " + ParameterName("ID", counter) + ")"
    ensures Render(FromIdValue(id, false, alias, counter)) ==
      "WHERE (ID = " + ParameterName("ID", counter) + ")"
  {
    var name := ParameterName("ID", counter);
    FromIdRenderParts(id, true, alias, counter);
    FromIdRenderParts(id, false, alias, counter);
    var open, aliased := "WHERE " + "(", alias + ".ID = ";
    assert open == "WHERE (";
    assert "." + "ID = " == ".ID = ";
    assert IdCondition(name, true, alias) == aliased + name;
    assert open + (aliased + name) == open + aliased + name;
    assert open + aliased == open + alias + ".ID = ";
    assert IdCondition(name, false, alias) == "ID = " + name;
    assert open + ("ID = " + name) == open + "ID = " + name;
    assert open + "ID = " == "WHERE (ID = ";
  }

  class Restriction {
    var where: WhereClause
    var orderBy: OrderByClause
    var parameters: ParameterCollection

    ghost function Contents(): RestrictionValue
      reads this, where, orderBy, parameters
    {
      RestrictionValue(where.restrictions, orderBy.sortings, parameters.items)
    }

    ghost predicate Valid()
      reads this, where
    {
      where.Valid()
    }

    /** `new Restriction()` and `Restriction.Empty`. */
    constructor ()
      ensures fresh(where) && fresh(orderBy) && fresh(parameters)
      ensures Valid() && Contents() == EmptyValue
    {
      where := new WhereClause();
      orderBy := new OrderByClause();
      parameters := new ParameterCollection();
    }

    /** `new Restriction(whereClause)`: an empty restriction given one condition. */
    constructor WithWhere(whereClause: Option<string>)
      ensures fresh(where) && fresh(orderBy) && fresh(parameters)
      ensures Valid()
      ensures whereClause.Some? && whereClause.value != "" ==>
        Contents() == RestrictionValue([BetweenParenthesis(whereClause.value)], [], [])
      ensures whereClause.None? || whereClause.value == "" ==> Contents() == EmptyValue
    {
      where := new WhereClause();
      orderBy := new OrderByClause();
      parameters := new ParameterCollection();
      new;
      where.AddWhere(whereClause);
    }

    method AddWhere(whereClause: Option<string>)
      requires Valid()
      modifies where
      ensures Valid()
      ensures whereClause.Some? && whereClause.value != "" ==>
        where.restrictions == old(where.restrictions) + [BetweenParenthesis(whereClause.value)]
      ensures whereClause.None? || whereClause.value == "" ==> where.restrictions == old(where.restrictions)
    {
      where.AddWhere(whereClause);
    }

    method AddWhereFrom(other: WhereClause?)
      requires Valid()
      requires other != null ==> other.Valid()
      modifies where
      ensures Valid()
      ensures other == null ==> where.restrictions == old(where.restrictions)
      ensures other != null ==> where.restrictions == old(where.restrictions) + Contribution(old(other.restrictions))
    {
      where.AddWhereFrom(other);
    }

    method OrderBy(field: string, direction: SortDirection := Ascending)
      modifies orderBy
      ensures orderBy.sortings == old(orderBy.sortings) + [SortTerm(field, direction)]
    {
      orderBy.AddSorting(field, direction);
    }

    method OrderByFrom(other: OrderByClause?) returns (r: Outcome)
      modifies orderBy
      ensures other == null ==> r == Pass && orderBy.sortings == old(orderBy.sortings)
      ensures other == orderBy && old(orderBy.sortings) != [] ==>
        r == Fail(InvalidOperation) && orderBy.sortings == old(orderBy.sortings) + [old(orderBy.sortings)[0]]
      ensures other != null && (other != orderBy || old(orderBy.sortings) == []) ==>
        r == Pass && orderBy.sortings == old(orderBy.sortings) + old(other.sortings)
    {
      r := orderBy.AddSortingsFrom(other);
    }

    /** Appends the clauses and the parameters of `other`; a null restriction
        is ignored. The parameter objects are shared, not copied. Both
        `List.ForEach` loops throw `InvalidOperationException` once the list
        they enumerate has changed: when `other` shares a non-empty ORDER BY
        clause or parameter list with this restriction, that list gains a
        copy of its first element and the append stops there. */
    method Append(other: Restriction?) returns (r: Outcome)
      requires Valid()
      requires other != null ==> other.Valid()
      modifies where, orderBy, parameters
      ensures Valid()
      ensures other == null ==> r == Pass && Contents() == old(Contents())
      ensures other != null ==>
        where.restrictions == old(where.restrictions) + Contribution(old(other.where.restrictions))
      ensures other != null && other.orderBy == orderBy && old(orderBy.sortings) != [] ==>
        r == Fail(InvalidOperation) &&
        orderBy.sortings == old(orderBy.sortings) + [old(orderBy.sortings)[0]] && parameters.items == old(parameters.items)
      ensures other != null && !(other.orderBy == orderBy && old(orderBy.sortings) != []) ==>
        orderBy.sortings == old(orderBy.sortings) + old(other.orderBy.sortings)
      ensures other != null && !(other.orderBy == orderBy && old(orderBy.sortings) != []) &&
              other.parameters == parameters && old(parameters.items) != [] ==>
        r == Fail(InvalidOperation) && parameters.items == old(parameters.items) + [old(parameters.items)[0]]
      ensures other != null && !(other.orderBy == orderBy && old(orderBy.sortings) != []) &&
              !(other.parameters == parameters && old(parameters.items) != []) ==>
        r == Pass && Contents() == AppendValue(old(Contents()), old(other.Contents()))
    {
      if other == null {
        return Pass;
      }
      ghost var before := other.Contents();
      AddWhereFrom(other.where);
      r := OrderByFrom(other.orderBy);
      if r.Fail? {
        return;
      }
      var source := other.parameters;
      if source == parameters {
        if |parameters.items| > 0 {
          parameters.AddParameter(parameters.items[0]);
          return Fail(InvalidOperation);
        }
        return Pass;
      }
      var i := 0;
      while i < |source.items|
        invariant 0 <= i <= |source.items|
        invariant source.items == before.parameters
        invariant where.Valid()
        invariant where.restrictions == old(where.restrictions) + Contribution(before.wheres)
        invariant orderBy.sortings == old(orderBy.sortings) + before.sortings
        invariant parameters.items == old(parameters.items) + source.items[..i]
      {
        assert source.items[..i + 1] == source.items[..i] + [source.items[i]];
        parameters.AddParameter(source.items[i]);
        i := i + 1;
      }
      assert source.items[..i] == source.items;
    }

    /** The WHERE and ORDER BY tail of a command, built with a space-delimited builder. */
    method ToString() returns (s: string)
      requires Valid()
      ensures s == Render(Contents())
    {
      var builder := new DelimitedStringBuilder(" ");
      if !where.IsEmpty() {
        builder.Append("WHERE");
        builder.Append(where.ToString());
      }
      if !orderBy.IsEmpty() {
        builder.Append("ORDER BY");
        builder.Append(orderBy.ToString());
      }
      s := builder.ToString();
    }

    /** `Restriction.FromId`: a fresh restriction on the ID column, whose one
        parameter takes the next name from the factory. */
    static method FromId(id: Option<int>, names: ParameterNameFactory, withAlias: bool := true, alias: string := "V")
      returns (r: Restriction)
      modifies names
      ensures fresh(r) && fresh(r.where) && fresh(r.orderBy) && fresh(r.parameters)
      ensures r.Valid()
      ensures names.counter == old(names.counter) + 1
      ensures r.Contents() == FromIdValue(id, withAlias, alias, old(names.counter))
    {
      var restrictionText := "";
      var parameterName := names.NewParameter("ID");
      if withAlias {
        restrictionText := alias + ".";
      }
      restrictionText := restrictionText + "ID = " + parameterName;
      r := new Restriction.WithWhere(Some(restrictionText));
      r.parameters.Add(parameterName, IdDatum(id));
    }
  }
}
