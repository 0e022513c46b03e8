/**
 * The schema the compiler reads from its IRContext: tables (IRTable) with their columns in
 * declaration order, primary keys and foreign keys.
 */
module Catalog {
  import opened Wrappers
  import opened Monoid

  datatype PrimaryKey = PrimaryKey(primaryKeyFields: seq<Field>)

  /** One child-column to parent-column pair of a foreign key. */
  datatype ForeignKeyLink = ForeignKeyLink(childTable: string, child: Field, parentTable: string, parent: Field)

  datatype ForeignKey = ForeignKey(links: seq<ForeignKeyLink>, hasConstraint: bool)

  datatype Table = Table(name: string, columns: seq<Field>, isViewTable: bool, isAliasedTable: bool,
                         primaryKey: Option<PrimaryKey>, foreignKeys: seq<ForeignKey>)

  /** Views and aliases of other tables get no arrays, no key constraints and no result entry. */
  predicate IsBaseTable(t: Table)
  {
    !t.isViewTable && !t.isAliasedTable
  }

  predicate HasControllableColumn(pk: PrimaryKey)
  {
    exists i :: 0 <= i < |pk.primaryKeyFields| && pk.primaryKeyFields[i].controllable
  }

  /** The controllable columns of `fields`, in order. */
  function Controllable(fields: seq<Field>): (r: seq<Field>)
    ensures |r| <= |fields|
  {
    if fields == [] then []
    else (if fields[0].controllable then [fields[0]] else []) + Controllable(fields[1..])
  }

  /** Controllable keeps exactly the controllable columns. */
  lemma {:induction false} ControllableMembers(fields: seq<Field>)
    ensures forall f :: f in Controllable(fields) <==> f in fields && f.controllable
  {
    if fields != [] {
      ControllableMembers(fields[1..]);
      assert fields == [fields[0]] + fields[1..];
    }
  }

  /** Column names within a table are distinct (IRTable keeps its columns in a map by name). */
  predicate DistinctColumnNames(fields: seq<Field>)
  {
    forall i, j :: 0 <= i < j < |fields| ==> fields[i].name != fields[j].name
  }

  /** The boxed Java class a column's values are read as. */
  function JavaClass(t: FieldType): (r: string)
    ensures t == IntField <==> r == "Integer"
    ensures t == StringField <==> r == "String"
    ensures t == FloatField <==> r == "Float"
    ensures t == BoolField <==> r == "Boolean"
  {
    match t
    case FloatField => "Float"
    case IntField => "Integer"
    case BoolField => "Boolean"
    case StringField => "String"
  }
}
