/**
 * The boxed values (`object?`) that flow through tracked fields, entity
 * properties, expression constants and SQL parameters. Structural equality
 * coincides with `object.Equals` for the boxed primitives the ORM stores: two
 * boxes are equal exactly when they hold the same type and the same value.
 */
module Values {

  datatype Datum =
    | Null                 // the null reference
    | DbNull               // DBNull.Value
    | Str(s: string)
    | Int(i: int)          // a boxed int
    | Long(l: int)         // a boxed long (entity identities)
    | Bool(b: bool)
    | Date(ticks: int)     // a boxed DateTime
    | Coll(code: int)      // a boxed Collations enum value
    | Obj(id: nat)         // any other reference object, compared by identity
}
