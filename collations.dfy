/**
 * The `Collations` enum and `GetCollationValue`, which reads the SQL Server
 * collation name attached to a member. An enum value is its underlying
 * integer, so a value outside the four named members is representable too;
 * it has no attribute and yields the empty string.
 */
module Collations {

  datatype Collations = Collations(code: int)

  const LATIN_CS_AS := Collations(0)
  const LATIN_CI_AS := Collations(1)
  const LATIN_CS_AI := Collations(2)
  const LATIN_CI_AI := Collations(3)

  predicate IsNamed(c: Collations) { 0 <= c.code < 4 }

  function GetCollationValue(collation: Collations): (r: string)
    ensures collation == LATIN_CS_AS ==> r == "Latin1_General_CS_AS"
    ensures collation == LATIN_CI_AS ==> r == "Latin1_General_CI_AS"
    ensures collation == LATIN_CS_AI ==> r == "Latin1_General_CS_AI"
    ensures collation == LATIN_CI_AI ==> r == "Latin1_General_CI_AI"
    ensures !IsNamed(collation) ==> r == ""
  {
    match collation.code
    case 0 => "Latin1_General_CS_AS"
    case 1 => "Latin1_General_CI_AS"
    case 2 => "Latin1_General_CS_AI"
    case 3 => "Latin1_General_CI_AI"
    case _ => ""
  }

  /** Distinct named members carry distinct, non-empty collation names. */
  lemma CollationNamesDistinct(a: Collations, b: Collations)
    requires IsNamed(a) && IsNamed(b)
    ensures GetCollationValue(a) != ""
    ensures GetCollationValue(a) == GetCollationValue(b) <==> a == b
  {
  }
}
