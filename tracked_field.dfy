/**
 * `TrackedField`: one mapped column of an entity, remembering the value it
 * was last set to (`OriginalValue`) next to its current value, so that a
 * change can be detected.
 */
module TrackedFields {
  import opened Values

  /** The `Changed` rule: two nulls are unchanged, a value that became null is
      changed, otherwise the boxes are compared with `Equals`. */
  function IsChanged(value: Datum, originalValue: Datum): (r: bool)
    ensures r <==> value != originalValue
  {
    if value == Null && originalValue == Null then false
    else if value == Null then true
    else value != originalValue
  }

  class TrackedField {
    const Name: string
    var Value: Datum
    var OriginalValue: Datum

    function IsNull(): (r: bool)
      reads this
      ensures r <==> Value == Null
    {
      Value == Null
    }

    function Changed(): (r: bool)
      reads this
      ensures r <==> Value != OriginalValue
    {
      IsChanged(Value, OriginalValue)
    }

    /** A new field starts unchanged, holding its initial value. */
    constructor (name: string, initialValue: Datum)
      ensures Name == name
      ensures Value == initialValue && OriginalValue == initialValue
      ensures !Changed()
    {
      Name := name;
      Value := initialValue;
      OriginalValue := initialValue;
    }

    /** Sets both the value and the original value: the field becomes unchanged. */
    method SetValue(value: Datum)
      modifies this
      ensures Value == value && OriginalValue == value
      ensures !Changed()
    {
      Value := value;
      OriginalValue := value;
    }

    /** Sets the current value only; the field is changed exactly when the new
        value differs from the remembered original. */
    method ChangeValue(value: Datum)
      modifies `Value
      ensures Value == value && OriginalValue == old(OriginalValue)
      ensures Changed() <==> value != OriginalValue
    {
      Value := value;
    }
  }
}
