/**
 * `ParameterCollection`: the SQL parameters of a command, with an `Add` that
 * prefixes names with `@` and stores null as `DBNull`.
 */
module ParameterCollections {
  import opened Values
  import opened Strings

  datatype SqlParameter = SqlParameter(ParameterName: string, Value: Datum)

  predicate StartsWithAt(name: string) { |name| > 0 && name[0] == '@' }

  /** The stored name: the given one when it already starts with `@`,
      otherwise the given one behind an `@`. */
  function NormalisedName(name: string): (r: string)
    ensures StartsWithAt(r)
    ensures StartsWithAt(name) ==> r == name
    ensures !StartsWithAt(name) ==> r[1..] == name
  {
    if StartsWithAt(name) then name else "@" + name
  }

  lemma NormalisedNameIdempotent(name: string)
    ensures NormalisedName(NormalisedName(name)) == NormalisedName(name)
  {
  }

  /** The parameter `Add(name, value)` stores: never a null value. */
  function ParameterFor(name: string, value: Datum): (p: SqlParameter)
    ensures p.ParameterName == NormalisedName(name)
    ensures p.Value != Null
    ensures value != Null ==> p.Value == value
    ensures value == Null ==> p.Value == DbNull
  {
    SqlParameter(NormalisedName(name), if value == Null then DbNull else value)
  }

  /** The text `ToString` shows for a non-empty list: one line per parameter. */
  function Lines(items: seq<SqlParameter>, show: Datum -> string): (lines: seq<string>)
    ensures |lines| == |items|
    ensures forall i :: 0 <= i < |items| ==> lines[i] == items[i].ParameterName + " = " + show(items[i].Value)
  {
    seq(|items|, i requires 0 <= i < |items| => items[i].ParameterName + " = " + show(items[i].Value))
  }

  const NoParameters := "Nenhum parâmetro."

  class ParameterCollection {
    var items: seq<SqlParameter>

    constructor ()
      ensures items == []
    {
      items := [];
    }

    method Add(name: string, value: Datum)
      modifies this
      ensures items == old(items) + [ParameterFor(name, value)]
    {
      var v := value;
      if v == Null {
        v := DbNull;
      }
      if StartsWithAt(name) {
        AddParameter(SqlParameter(name, v));
      } else {
        AddParameter(SqlParameter("@" + name, v));
      }
    }

    /** The inherited `List<SqlParameter>.Add`: stores the parameter as given. */
    method AddParameter(parameter: SqlParameter)
      modifies this
      ensures items == old(items) + [parameter]
    {
      items := items + [parameter];
    }

    function Count(): (n: nat)
      reads this
      ensures n == |items|
    {
      |items|
    }

    /** The debugging text. The platform line separator and the culture's
        rendering of a value are parameters. */
    function ToString(newLine: string, show: Datum -> string): (r: string)
      reads this
      ensures items == [] ==> r == NoParameters
      ensures items != [] ==> r == Join(newLine, Lines(items, show))
    {
      if |items| == 0 then NoParameters else Join(newLine, Lines(items, show))
    }
  }
}
