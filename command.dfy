/**
 * The command object a builder populates (`IVManagementCommand`): its text
 * and the parameters added to it. Executing it is not part of this model.
 */
module Commands {
  import opened ParameterCollections

  class Command {
    var CommandText: string
    var Parameters: seq<SqlParameter>

    constructor ()
      ensures CommandText == "" && Parameters == []
    {
      CommandText := "";
      Parameters := [];
    }

    method AddParameter(parameter: SqlParameter)
      modifies `Parameters
      ensures Parameters == old(Parameters) + [parameter]
    {
      Parameters := Parameters + [parameter];
    }

    /** Adds every parameter of the collection, in order. */
    method AddParameters(parameters: ParameterCollection)
      modifies `Parameters
      ensures Parameters == old(Parameters) + parameters.items
    {
      var i := 0;
      while i < |parameters.items|
        invariant 0 <= i <= |parameters.items|
        invariant Parameters == old(Parameters) + parameters.items[..i]
      {
        assert parameters.items[..i + 1] == parameters.items[..i] + [parameters.items[i]];
        AddParameter(parameters.items[i]);
        i := i + 1;
      }
      assert parameters.items[..i] == parameters.items;
    }
  }
}
