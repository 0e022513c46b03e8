/**
 * The identifiers OrToolsSolver gives to the Java variables it emits. Table and field names are
 * upper-case with underscores (UPPER_UNDERSCORE); the emitted names are their camel-case forms.
 */
module Naming {
  import opened Text

  /** The variable holding a table's (or a view's) rows: `POD_INFO` becomes `podInfo`. */
  function TableNameStr(tableName: string): (r: string)
    ensures '_' !in r
    ensures Lower(r) == Lower(WithoutUnderscores(tableName))
  {
    CamelHasNoUnderscore(tableName, true, true);
    CamelIgnoringCase(tableName, true, true);
    LowerCamel(tableName)
  }

  /**
   * The IntVar array of a controllable field: the table's camel name followed by the field's
   * capitalised camel name (`POD_INFO`, `CONTROLLABLE__NODE_NAME` give `podInfoControllableNodeName`).
   */
  function FieldNameStr(tableName: string, fieldName: string): (r: string)
    ensures '_' !in r
    ensures Lower(r) == Lower(WithoutUnderscores(tableName)) + Lower(WithoutUnderscores(fieldName))
    ensures r[..|TableNameStr(tableName)|] == TableNameStr(tableName)
  {
    CamelHasNoUnderscore(fieldName, false, true);
    CamelIgnoringCase(fieldName, false, true);
    LowerConcat(TableNameStr(tableName), UpperCamel(fieldName));
    TableNameStr(tableName) + UpperCamel(fieldName)
  }

  /** The loop index over a table's rows. */
  function IterStr(tableName: string): (r: string)
    ensures '_' !in r
    ensures |r| >= 4 && r[|r| - 4..] == "Iter"
    ensures r[..|r| - 4] == TableNameStr(tableName)
  {
    TableNameStr(tableName) + "Iter"
  }

  /** The Java expression for a table's row count. */
  function TableNumRowsStr(tableName: string): (r: string)
    ensures |r| >= 7 && r[..|r| - 7] == TableNameStr(tableName) && r[|r| - 7..] == ".size()"
  {
    TableNameStr(tableName) + ".size()"
  }

  /** The variable holding the result set of a non-constraint view. */
  function NonConstraintViewName(viewName: string): (r: string)
    ensures r == TableNameStr(viewName)
  {
    LowerCamel(viewName)
  }

  /** Names differing only in letter case or underscores map to variables differing only in case. */
  lemma SameLettersSameVariableIgnoringCase(a: string, b: string)
    requires Lower(WithoutUnderscores(a)) == Lower(WithoutUnderscores(b))
    ensures Lower(TableNameStr(a)) == Lower(TableNameStr(b))
  {
  }

  /** The name of the `n`-th subquery view. */
  function SubqueryName(n: nat): (r: string)
    ensures |r| > 8 && r[..8] == "subQuery"
  {
    "subQuery" + NatToString(n)
  }

  /** The name of the `n`-th intermediate (group-by) view. */
  function IntermediateViewName(n: nat): (r: string)
    ensures |r| > 3 && r[..3] == "tmp"
  {
    "tmp" + NatToString(n)
  }

  /** The name of the `n`-th foreign-key index variable. */
  function IndexVarName(n: nat): (r: string)
    ensures |r| > 5 && r[..5] == "index"
  {
    "index" + NatToString(n)
  }

  /** Different counter values give different names, so no two generated views or variables clash. */
  lemma GeneratedNamesDistinct(m: nat, n: nat)
    requires m != n
    ensures SubqueryName(m) != SubqueryName(n)
    ensures IntermediateViewName(m) != IntermediateViewName(n)
    ensures IndexVarName(m) != IndexVarName(n)
  {
    NatToStringInjective(m, n);
    assert SubqueryName(m)[8..] == NatToString(m) && SubqueryName(n)[8..] == NatToString(n);
    assert IntermediateViewName(m)[3..] == NatToString(m) && IntermediateViewName(n)[3..] == NatToString(n);
    assert IndexVarName(m)[5..] == NatToString(m) && IndexVarName(n)[5..] == NatToString(n);
  }

  /** The prefix of field names generated for unnamed, non-column head items. */
  const GeneratedFieldNamePrefix: string := "GenField"
}
