/**
 * `TrackedFieldCollection`: the list of an entity's tracked fields, whose
 * `Add` refuses empty and duplicate names and whose indexer looks a field up
 * by name.
 */
module TrackedFieldCollections {
  import opened Wrappers
  import opened TrackedFields

  function NamesOf(fields: seq<TrackedField>): (names: seq<string>)
    ensures |names| == |fields|
    ensures forall i :: 0 <= i < |fields| ==> names[i] == fields[i].Name
  {
    seq(|fields|, i requires 0 <= i < |fields| => fields[i].Name)
  }

  /** Every name is non-empty and no two fields share a name. */
  predicate WellNamed(fields: seq<TrackedField>)
  {
    (forall i :: 0 <= i < |fields| ==> fields[i].Name != "") &&
    (forall i, j :: 0 <= i < j < |fields| ==> fields[i].Name != fields[j].Name)
  }

  /** `List.Find(tf => tf.Name == name)`: the first field with that name. */
  function Lookup(fields: seq<TrackedField>, name: string): (r: Option<TrackedField>)
    ensures r.Some? <==> name in NamesOf(fields)
    ensures r.Some? ==> r.value in fields && r.value.Name == name
  {
    if |fields| == 0 then None
    else if fields[0].Name == name then Some(fields[0])
    else Lookup(fields[1..], name)
  }

  /** A tracked field's name and `Changed` flag. */
  datatype FieldState = FieldState(name: string, changed: bool)

  /** The name and flag of every field, in list order. */
  ghost function StatesOf(fields: seq<TrackedField>): (s: seq<FieldState>)
    reads fields
    ensures |s| == |fields|
  {
    if |fields| == 0 then [] else [FieldState(fields[0].Name, fields[0].Changed())] + StatesOf(fields[1..])
  }

  /** The flag the indexer sees for `name`: that of the first field carrying it. */
  function ChangedFlag(states: seq<FieldState>, name: string): (r: Option<bool>)
    ensures r.Some? <==> exists i :: 0 <= i < |states| && states[i].name == name
  {
    if |states| == 0 then None
    else if states[0].name == name then Some(states[0].changed)
    else ChangedFlag(states[1..], name)
  }

  /** Reading the flag through the states agrees with finding the field first. */
  lemma {:induction false} ChangedFlagIsLookup(fields: seq<TrackedField>, name: string)
    ensures ChangedFlag(StatesOf(fields), name) ==
            if Lookup(fields, name).Some? then Some(Lookup(fields, name).value.Changed()) else None
  {
    if |fields| > 0 {
      ChangedFlagIsLookup(fields[1..], name);
      assert StatesOf(fields)[1..] == StatesOf(fields[1..]);
    }
  }

  /** After a successful `Add` the new field is the one found under its name,
      and every other name still finds what it found before. */
  lemma {:induction false} LookupAfterAppend(fields: seq<TrackedField>, field: TrackedField, name: string)
    requires field.Name !in NamesOf(fields)
    ensures Lookup(fields + [field], name) == if name == field.Name then Some(field) else Lookup(fields, name)
  {
    if |fields| > 0 {
      assert (fields + [field])[1..] == fields[1..] + [field];
      assert field.Name !in NamesOf(fields[1..]) by {
        assert forall i :: 0 <= i < |fields[1..]| ==> fields[1..][i] == fields[i + 1];
      }
      LookupAfterAppend(fields[1..], field, name);
    }
  }

  class TrackedFieldCollection {
    var fields: seq<TrackedField>

    ghost predicate Valid()
      reads this
    {
      WellNamed(fields)
    }

    constructor ()
      ensures fields == [] && Valid()
    {
      fields := [];
    }

    /** Appends `field` unless its name is empty or already present. */
    method Add(field: TrackedField) returns (r: Outcome)
      requires Valid()
      modifies this
      ensures Valid()
      ensures field.Name == "" ==> r == Fail(InvalidField(field.Name))
      ensures field.Name != "" && field.Name in NamesOf(old(fields)) ==> r == Fail(InvalidField(field.Name))
      ensures r.Pass? <==> field.Name != "" && field.Name !in NamesOf(old(fields))
      ensures r.Pass? ==> fields == old(fields) + [field]
      ensures r.Fail? ==> fields == old(fields)
    {
      if field.Name == "" {
        return Fail(InvalidField(field.Name));
      }
      var i := 0;
      while i < |fields|
        invariant 0 <= i <= |fields|
        invariant field.Name !in NamesOf(fields[..i])
      {
        if fields[i].Name == field.Name {
          return Fail(InvalidField(field.Name));
        }
        assert fields[..i + 1] == fields[..i] + [fields[i]];
        i := i + 1;
      }
      assert fields[..i] == fields;
      fields := fields + [field];
      r := Pass;
    }

    /** The indexer: the first field called `name`, or `FieldNotFound`. */
    method Get(name: string) returns (r: Result<TrackedField>)
      ensures r.Ok? <==> name in NamesOf(fields)
      ensures r.Ok? ==> Lookup(fields, name) == Some(r.value)
      ensures r.Err? ==> r.error == FieldNotFound(name)
    {
      var i := 0;
      while i < |fields|
        invariant 0 <= i <= |fields|
        invariant Lookup(fields, name) == Lookup(fields[i..], name)
      {
        if fields[i].Name == name {
          return Ok(fields[i]);
        }
        assert fields[i..][1..] == fields[i + 1..];
        i := i + 1;
      }
      r := Err(FieldNotFound(name));
    }
  }
}
