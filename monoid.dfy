/**
 * The monoid-comprehension IR that views are compiled from: column identifiers, literals,
 * binary operator predicates (plain, join, or carrying an aggregate), aggregate functions,
 * comprehensions (optionally grouped), exists predicates, table row generators and group-by
 * qualifiers. The Java class hierarchy under com.vrg.compiler.monoid becomes one tagged union.
 */
module Monoid {
  import opened Wrappers

  datatype FieldType = IntField | StringField | BoolField | FloatField

  /** An IRColumn: its name, its declared type and whether the solver chooses its values. */
  datatype Field = Field(name: string, fieldType: FieldType, controllable: bool)

  datatype Value = IntValue(i: int) | StringValue(s: string) | BoolValue(b: bool)

  /** Which subclass of BinaryOperatorPredicate a predicate node is. */
  datatype PredicateKind = Plain | Join | WithAggregate

  /** A ColumnIdentifier: a reference to a field of a (possibly aliased) table. */
  datatype Column = Column(tableName: string, field: Field, alias: Option<string>)

  /** The head of a comprehension: its select expressions, in order. */
  datatype Head = Head(selectExprs: seq<Expr>)

  datatype Expr =
    | ColumnIdentifier(column: Column)
    | MonoidLiteral(value: Value, alias: Option<string>)
    | BinaryOperatorPredicate(kind: PredicateKind, operator: string, left: Expr, right: Expr,
                              alias: Option<string>)
    | MonoidFunction(functionName: string, argument: Expr, alias: Option<string>)
      /** A comprehension; `head` is None where the Java object's head is null. */
    | MonoidComprehension(head: Option<Head>, qualifiers: seq<Expr>)
      /** A group-by comprehension: the inner comprehension's head and qualifiers, and the group-by columns. */
    | GroupByComprehension(innerHead: Option<Head>, innerQualifiers: seq<Expr>, groupBy: seq<Column>)
    | ExistsPredicate(argument: Expr)
    | TableRowGenerator(tableName: string, aliasedName: string)
    | GroupByQualifier(columnIdentifiers: seq<Column>)

  /** `Expr.getAlias()`: only the node kinds that carry an output alias have one. */
  function AliasOf(e: Expr): Option<string>
  {
    match e
    case ColumnIdentifier(c) => c.alias
    case MonoidLiteral(_, a) => a
    case BinaryOperatorPredicate(_, _, _, _, a) => a
    case MonoidFunction(_, _, a) => a
    case _ => None
  }

  /** The inner comprehension of a group-by comprehension, as its own node. */
  function InnerComprehension(e: Expr): Expr
    requires e.GroupByComprehension?
  {
    MonoidComprehension(e.innerHead, e.innerQualifiers)
  }

  /** A size measure used to show that the recursive walks over the tree terminate. */
  function Size(e: Expr): nat
  {
    match e
    case ColumnIdentifier(_) => 1
    case MonoidLiteral(_, _) => 1
    case BinaryOperatorPredicate(_, _, l, r, _) => 1 + Size(l) + Size(r)
    case MonoidFunction(_, a, _) => 1 + Size(a)
    case MonoidComprehension(h, qs) => 1 + HeadSize(h) + SizeAll(qs)
    case GroupByComprehension(h, qs, _) => 2 + HeadSize(h) + SizeAll(qs)
    case ExistsPredicate(a) => 1 + Size(a)
    case TableRowGenerator(_, _) => 1
    case GroupByQualifier(_) => 1
  }

  function HeadSize(h: Option<Head>): nat
  {
    match h
    case None => 0
    case Some(hd) => SizeAll(hd.selectExprs)
  }

  function SizeAll(es: seq<Expr>): nat
  {
    if es == [] then 0 else Size(es[0]) + SizeAll(es[1..])
  }

  lemma {:induction false} SizeAllElement(es: seq<Expr>, i: nat)
    requires i < |es|
    ensures Size(es[i]) <= SizeAll(es)
    ensures SizeAll(es[i + 1..]) < SizeAll(es[i..])
  {
    if i > 0 {
      SizeAllElement(es[1..], i - 1);
      assert es[1..][i - 1..] == es[i..];
      assert es[1..][i..] == es[i + 1..];
    } else {
      assert es[0..] == es;
    }
  }
}
