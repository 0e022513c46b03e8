/**
 * ExprToStrVisitor: how OrToolsSolver lowers an IR expression to a target expression. Columns
 * become group slots, tuple slots, IntVar array elements or row accesses; binary predicates
 * become solver combinators (when an operand is an IntVar) or plain Java operators; `sum`
 * becomes an aggregate over the group's rows. The functions here describe expressions that
 * contain no subquery; lowering a subquery emits a view and is a method of the compiler.
 */
module Lowering {
  import opened Wrappers
  import opened Text
  import opened Monoid
  import opened MonoidVisitor
  import opened Target
  import opened Naming

  /** For each upper-cased view name, the tuple slot of each upper-cased field name. */
  type FieldIndexTable = map<string, map<string, nat>>

  /**
   * What lowering reads from the compiler: the field-index table, the type of every base-table
   * field, and InferType's verdict on whether an expression is an IntVar.
   */
  datatype Env = Env(viewToFieldIndex: FieldIndexTable,
                     tableToFieldToType: map<string, map<string, FieldType>>,
                     isIntVar: Expr -> bool)

  /** A group-by view's grouping columns and the intermediate view that holds its rows. */
  datatype GroupContext = GroupContext(groupBy: seq<Column>, groupViewName: string)

  /** Field names containing this marker are controllable: the solver chooses their values. */
  const ControllableMarker: string := "CONTROLLABLE"

  predicate ColumnMatches(ci: Column, tableName: string, fieldName: string)
  {
    EqualsIgnoreCase(ci.tableName, tableName) && EqualsIgnoreCase(ci.field.name, fieldName)
  }

  /** The position of the first group-by column naming the same table and field, ignoring case. */
  function FirstMatch(groupBy: seq<Column>, tableName: string, fieldName: string): (r: Option<nat>)
    ensures r.Some? ==> r.value < |groupBy| && ColumnMatches(groupBy[r.value], tableName, fieldName)
    ensures r.Some? ==> forall j :: 0 <= j < r.value ==> !ColumnMatches(groupBy[j], tableName, fieldName)
    ensures r.None? ==> forall j :: 0 <= j < |groupBy| ==> !ColumnMatches(groupBy[j], tableName, fieldName)
  {
    if groupBy == [] then None
    else if ColumnMatches(groupBy[0], tableName, fieldName) then Some(0)
    else
      match FirstMatch(groupBy[1..], tableName, fieldName)
      case None => None
      case Some(k) => Some(k + 1)
  }

  /** A column outside an aggregate in a group-by head: the matching grouping column's slot. */
  function GroupColumn(group: GroupContext, node: Column): Result<TExpr>
  {
    match FirstMatch(group.groupBy, node.tableName, node.field.name)
    case Some(k) => Ok(GroupSlot(k))
    case None => Err(UnsupportedOperation("Could not find group-by column"))
  }

  /** The loop of visitColumnIdentifier that searches the group-by columns. */
  method FindGroupByColumn(group: GroupContext, node: Column) returns (r: Result<TExpr>)
    ensures r == GroupColumn(group, node)
    ensures r.Ok? ==> r.value.GroupSlot? && r.value.index < |group.groupBy|
  {
    var columnNumber := 0;
    while columnNumber < |group.groupBy|
      invariant columnNumber <= |group.groupBy|
      invariant forall j :: 0 <= j < columnNumber ==>
                  !ColumnMatches(group.groupBy[j], node.tableName, node.field.name)
    {
      if ColumnMatches(group.groupBy[columnNumber], node.tableName, node.field.name) {
        return Ok(GroupSlot(columnNumber));
      }
      columnNumber := columnNumber + 1;
    }
    return Err(UnsupportedOperation("Could not find group-by column"));
  }

  /**
   * `fieldNameStrWithIter`: a controllable field is an element of its IntVar array; a field of
   * a view is read from the view's tuples by its slot; a field of a base table is read from the
   * row by name. The table name is looked up as given, so a view not yet in the field-index
   * table, or a field missing from it, fails as the unboxing of Java's null does.
   */
  function FieldNameStrWithIter(env: Env, tableName: string, fieldName: string, iter: string): (r: Result<TExpr>)
    ensures (r.Ok? && r.value.VarAt?) <==> Contains(fieldName, ControllableMarker)
    ensures r.Ok? ==> r.value.VarAt? || r.value.ViewSlot? || r.value.TableField?
    ensures r.Ok? && r.value.ViewSlot? ==>
              tableName in env.viewToFieldIndex && fieldName in env.viewToFieldIndex[tableName]
              && r.value.index == env.viewToFieldIndex[tableName][fieldName]
    ensures r.Ok? && r.value.TableField? ==>
              tableName !in env.viewToFieldIndex && r.value.field == fieldName
    ensures r.Err? <==>
              !Contains(fieldName, ControllableMarker)
              && (if tableName in env.viewToFieldIndex then fieldName !in env.viewToFieldIndex[tableName]
                  else tableName !in env.tableToFieldToType)
    ensures r.Err? ==> r.error == NullPointer
  {
    if Contains(fieldName, ControllableMarker) then
      Ok(VarAt(FieldNameStr(tableName, fieldName), iter))
    else if tableName in env.viewToFieldIndex then
      var slots := env.viewToFieldIndex[tableName];
      if fieldName in slots then Ok(ViewSlot(TableNameStr(tableName), iter, slots[fieldName]))
      else Err(NullPointer)
    else if tableName in env.tableToFieldToType then
      var types := env.tableToFieldToType[tableName];
      Ok(TableField(TableNameStr(tableName), iter, fieldName,
                    if fieldName in types then Some(types[fieldName]) else None))
    else
      Err(NullPointer)
  }

  /** `visitColumnIdentifier`. */
  function LowerColumn(env: Env, node: Column, allowControllable: bool, group: Option<GroupContext>,
                       inFunction: bool): (r: Result<TExpr>)
    ensures group.Some? && !inFunction ==> r == GroupColumn(group.value, node)
    ensures group.Some? && inFunction ==>
              var view := Upper(group.value.groupViewName);
              (r.Ok? <==> view in env.viewToFieldIndex && node.field.name in env.viewToFieldIndex[view])
              && (r.Ok? ==> r.value == TupleSlot(env.viewToFieldIndex[view][node.field.name]))
              && (r.Err? ==> r.error == NullPointer)
    ensures group.None? && !allowControllable && Contains(node.field.name, ControllableMarker) ==>
              r == Err(UnsupportedOperation("Controllable variables not allowed in predicates"))
    ensures group.None? && (allowControllable || !Contains(node.field.name, ControllableMarker)) ==>
              r == FieldNameStrWithIter(env, node.tableName, node.field.name, IterStr(node.tableName))
  {
    if group.Some? && !inFunction then
      GroupColumn(group.value, node)
    else if group.Some? && inFunction then
      var view := Upper(group.value.groupViewName);
      if view in env.viewToFieldIndex && node.field.name in env.viewToFieldIndex[view] then
        Ok(TupleSlot(env.viewToFieldIndex[view][node.field.name]))
      else
        Err(NullPointer)
    else if !allowControllable && Contains(node.field.name, ControllableMarker) then
      Err(UnsupportedOperation("Controllable variables not allowed in predicates"))
    else
      FieldNameStrWithIter(env, node.tableName, node.field.name, IterStr(node.tableName))
  }

  /** The operators and the solver combinator each becomes when an operand is an IntVar. */
  const SolverCombinators: map<string, string> :=
    map["==" := "eq", "!=" := "ne", "/\\" := "and", "\\/" := "or",
        "<=" := "leq", "<" := "le", ">=" := "geq", ">" := "gt",
        "+" := "plus", "-" := "minus", "*" := "mult", "/" := "div"]

  /** The same operators and the Java operator each becomes when both operands are plain values. */
  const PlainOperators: map<string, string> :=
    map["==" := "equals", "!=" := "!equals", "/\\" := "&&", "\\/" := "||",
        "<=" := "<=", "<" := "<", ">=" := ">=", ">" := ">",
        "+" := "+", "-" := "-", "*" := "*", "/" := "/"]

  /** `visitBinaryOperatorPredicate`'s operator dispatch over already lowered operands. */
  function LowerBinary(op: string, anyIntVar: bool, left: TExpr, right: TExpr): (r: Result<TExpr>)
    ensures r.Ok? <==> op in SolverCombinators
    ensures r.Ok? <==> op in PlainOperators
    ensures r.Ok? && anyIntVar ==> r.value == SolverOp(SolverCombinators[op], left, right)
    ensures r.Ok? && !anyIntVar ==> r.value == PlainOp(PlainOperators[op], left, right)
    ensures r.Err? ==> r.error == UnsupportedOperation("")
  {
    if anyIntVar then
      match op
      case "==" => Ok(SolverOp("eq", left, right))
      case "!=" => Ok(SolverOp("ne", left, right))
      case "/\\" => Ok(SolverOp("and", left, right))
      case "\\/" => Ok(SolverOp("or", left, right))
      case "<=" => Ok(SolverOp("leq", left, right))
      case "<" => Ok(SolverOp("le", left, right))
      case ">=" => Ok(SolverOp("geq", left, right))
      case ">" => Ok(SolverOp("gt", left, right))
      case "+" => Ok(SolverOp("plus", left, right))
      case "-" => Ok(SolverOp("minus", left, right))
      case "*" => Ok(SolverOp("mult", left, right))
      case "/" => Ok(SolverOp("div", left, right))
      case _ => Err(UnsupportedOperation(""))
    else
      match op
      case "==" => Ok(PlainOp("equals", left, right))
      case "!=" => Ok(PlainOp("!equals", left, right))
      case "/\\" => Ok(PlainOp("&&", left, right))
      case "\\/" => Ok(PlainOp("||", left, right))
      case "<=" => Ok(PlainOp(op, left, right))
      case "<" => Ok(PlainOp(op, left, right))
      case ">=" => Ok(PlainOp(op, left, right))
      case ">" => Ok(PlainOp(op, left, right))
      case "+" => Ok(PlainOp(op, left, right))
      case "-" => Ok(PlainOp(op, left, right))
      case "*" => Ok(PlainOp(op, left, right))
      case "/" => Ok(PlainOp(op, left, right))
      case _ => Err(UnsupportedOperation(""))
  }

  /**
   * `visitMonoidFunction` once its argument is lowered: only `sum` (in any case) is accepted,
   * and it is the IntVar variant `<name>V` exactly when the argument is an IntVar.
   */
  function LowerAggregate(functionName: string, argumentIsIntVar: bool, argument: TExpr): (r: Result<TExpr>)
    ensures r.Ok? <==> EqualsIgnoreCase(functionName, "sum")
    ensures r.Err? ==> r.error == IllegalArgument
    ensures r.Ok? ==> r.value.Aggregate? && r.value.argument == argument
    ensures r.Ok? ==> |r.value.fn| >= |functionName| && r.value.fn[..|functionName|] == functionName
    ensures r.Ok? ==> (r.value.fn == functionName + "V" <==> argumentIsIntVar)
  {
    if !EqualsIgnoreCase(functionName, "sum") then Err(IllegalArgument)
    else Ok(Aggregate(if argumentIsIntVar then functionName + "V" else functionName, argument))
  }

  /** No comprehension is reached by ExprToStrVisitor's traversal of `e`. */
  predicate SubqueryFree(e: Expr)
  {
    match e
    case BinaryOperatorPredicate(_, _, l, r, _) => SubqueryFree(l) && SubqueryFree(r)
    case MonoidFunction(_, a, _) => SubqueryFree(a)
    case ExistsPredicate(a) => SubqueryFree(a)
    case MonoidComprehension(_, _) => false
    case GroupByComprehension(_, _, _) => false
    case _ => true
  }

  /**
   * `ExprToStrVisitor.visit(e, inFunction)` on an expression without subqueries. Exists
   * predicates, row generators and group-by qualifiers lower to null (the default visits).
   */
  function Lower(env: Env, e: Expr, allowControllable: bool, group: Option<GroupContext>,
                 inFunction: bool): (r: Result<TExpr>)
    requires SubqueryFree(e)
    ensures r.Ok? ==> !r.value.NewConstant? && !r.value.SubqueryRef?
    ensures r.Ok? ==> (r.value == Null <==> e.ExistsPredicate? || e.TableRowGenerator? || e.GroupByQualifier?)
  {
    match e
    case ColumnIdentifier(c) => LowerColumn(env, c, allowControllable, group, inFunction)
    case MonoidLiteral(v, _) => Ok(Literal(v))
    case BinaryOperatorPredicate(_, op, l, r, _) =>
      var left :- Lower(env, l, allowControllable, group, inFunction);
      var right :- Lower(env, r, allowControllable, group, inFunction);
      LowerBinary(op, env.isIntVar(l) || env.isIntVar(r), left, right)
    case MonoidFunction(name, a, _) =>
      var argument :- Lower(env, a, allowControllable, group, true);
      LowerAggregate(name, env.isIntVar(a), argument)
    case ExistsPredicate(a) =>
      var ignored :- Lower(env, a, allowControllable, group, inFunction);
      Ok(Null)
    case _ => Ok(Null)
  }

  /** `Objects.requireNonNull` on a visitor's result. */
  function RequireNonNull(t: TExpr): (r: Result<TExpr>)
    ensures r.Ok? <==> t != Null
    ensures r.Ok? ==> r.value == t
    ensures r.Err? ==> r.error == NullPointer
  {
    if t == Null then Err(NullPointer) else Ok(t)
  }

  /** `exprToStr(output, e, allowControllable, group)` on an expression without subqueries. */
  function ExprToStr(env: Env, e: Expr, allowControllable: bool, group: Option<GroupContext>): (r: Result<TExpr>)
    requires SubqueryFree(e)
    ensures r.Ok? ==> r.value != Null && !r.value.NewConstant? && !r.value.SubqueryRef?
    ensures r.Ok? ==> Lower(env, e, allowControllable, group, false) == r
    ensures e.ExistsPredicate? || e.TableRowGenerator? || e.GroupByQualifier? ==> r.Err?
  {
    var t :- Lower(env, e, allowControllable, group, false);
    RequireNonNull(t)
  }

  /** An IntVar array element occurs in `t`. */
  predicate MentionsVar(t: TExpr)
  {
    match t
    case VarAt(_, _) => true
    case SolverOp(_, l, r) => MentionsVar(l) || MentionsVar(r)
    case PlainOp(_, l, r) => MentionsVar(l) || MentionsVar(r)
    case Aggregate(_, a) => MentionsVar(a)
    case NewConstant(a) => MentionsVar(a)
    case _ => false
  }

  /** With controllable columns disallowed, a lowered expression reads no IntVar. */
  lemma {:induction false} LowerWithoutControllableMentionsNoVar(env: Env, e: Expr, group: Option<GroupContext>,
                                                               inFunction: bool)
    requires SubqueryFree(e)
    requires Lower(env, e, false, group, inFunction).Ok?
    ensures !MentionsVar(Lower(env, e, false, group, inFunction).value)
  {
    match e
    case BinaryOperatorPredicate(_, _, l, r, _) =>
      LowerWithoutControllableMentionsNoVar(env, l, group, inFunction);
      LowerWithoutControllableMentionsNoVar(env, r, group, inFunction);
    case MonoidFunction(_, a, _) =>
      LowerWithoutControllableMentionsNoVar(env, a, group, true);
    case _ =>
  }

  /**
   * The shape of a lowered group-by head item: outside an aggregate it reads only grouping
   * columns (`group.value<k>()` with k below the number of grouping columns), inside an
   * aggregate only the group's tuples (`t.value<i>()`); it reads no table row and no IntVar.
   */
  predicate GroupShaped(t: TExpr, groupSize: nat, inAggregate: bool)
  {
    match t
    case GroupSlot(k) => !inAggregate && k < groupSize
    case TupleSlot(_) => inAggregate
    case SolverOp(_, l, r) => GroupShaped(l, groupSize, inAggregate) && GroupShaped(r, groupSize, inAggregate)
    case PlainOp(_, l, r) => GroupShaped(l, groupSize, inAggregate) && GroupShaped(r, groupSize, inAggregate)
    case Aggregate(_, a) => GroupShaped(a, groupSize, true)
    case Literal(_) => true
    case Null => true
    case _ => false
  }

  lemma {:induction false} LowerInGroupIsGroupShaped(env: Env, e: Expr, allowControllable: bool,
                                                     group: GroupContext, inFunction: bool)
    requires SubqueryFree(e)
    requires Lower(env, e, allowControllable, Some(group), inFunction).Ok?
    ensures GroupShaped(Lower(env, e, allowControllable, Some(group), inFunction).value,
                        |group.groupBy|, inFunction)
  {
    match e
    case BinaryOperatorPredicate(_, _, l, r, _) =>
      LowerInGroupIsGroupShaped(env, l, allowControllable, group, inFunction);
      LowerInGroupIsGroupShaped(env, r, allowControllable, group, inFunction);
    case MonoidFunction(_, a, _) =>
      LowerInGroupIsGroupShaped(env, a, allowControllable, group, true);
    case _ =>
  }

  /**
   * As written, `MonoidComprehension.acceptVisitor` drops the subquery name that
   * `visitMonoidComprehension` returns, so `exprToStr` of a subquery fails its null check.
   */
  function SubqueryOperandAsWritten(e: Expr, subqueryName: string): (r: Result<TExpr>)
    requires e.MonoidComprehension?
  {
    match AcceptVisitorAsWritten(e, Some(SubqueryRef(subqueryName)))
    case Some(t) => RequireNonNull(t)
    case None => RequireNonNull(Null)
  }

  /** With the visitor's result passed back, the subquery lowers to a reference to its view. */
  function SubqueryOperand(e: Expr, subqueryName: string): (r: Result<TExpr>)
    requires e.MonoidComprehension?
  {
    match AcceptVisitor(e, Some(SubqueryRef(subqueryName)))
    case Some(t) => RequireNonNull(t)
    case None => RequireNonNull(Null)
  }

  /**
   * The discrepancy on `x in (subquery)`: as written the right operand is null and the
   * constraint throws, after the subquery's view has been emitted; corrected, the domain is
   * read from the subquery's view.
   */
  lemma InSubqueryOperand(e: Expr, subqueryName: string)
    requires e.MonoidComprehension?
    ensures SubqueryOperandAsWritten(e, subqueryName) == Err(NullPointer)
    ensures SubqueryOperand(e, subqueryName) == Ok(SubqueryRef(subqueryName))
  {
  }
}
