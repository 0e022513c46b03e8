/**
 * OrToolsSolver itself: the compiler object whose field-index table, counters and type table
 * change as it emits the generated `solve()` method, view by view, into a method builder.
 *
 * Every method is proved against the functions of ViewSpec, Constraints, ArrayDeclarations and
 * SolvePhase wherever its input holds no subquery: a subquery inside an expression makes the
 * compiler emit the subquery's whole view in the middle of lowering that expression, which
 * those functions do not describe.
 */
module Backend {
  import opened Wrappers
  import opened Text
  import opened Monoid
  import opened Target
  import opened Naming
  import opened Catalog
  import opened Qualifiers
  import opened FieldIndex
  import Lowering
  import MonoidVisitor
  import Constraints
  import ViewSpec
  import ArrayDeclarations
  import SolvePhase
  import GetColumnIdentifiers
  import RewriteCountFunction
  import ModelCode

  /** The MethodSpec builder of the generated `solve()` method: the statements added so far. */
  class MethodBuilder {
    var statements: seq<Stmt>

    constructor ()
      ensures statements == []
    {
      statements := [];
    }

    method AddStatement(s: Stmt)
      modifies this
      ensures statements == old(statements) + [s]
    {
      statements := statements + [s];
    }

    /** Several `addStatement` calls in a row. */
    method AddStatements(ss: seq<Stmt>)
      modifies this
      ensures statements == old(statements) + ss
    {
      for i := 0 to |ss|
        invariant statements == old(statements) + ss[..i]
      {
        assert ss[..i + 1] == ss[..i] + [ss[i]];
        statements := statements + [ss[i]];
      }
      assert ss[..|ss|] == ss;
    }
  }

  /** Every expression of `es` is smaller than `bound`: the measure that ends the mutual recursion. */
  predicate SizesBelow(es: seq<Expr>, bound: nat)
  {
    forall e :: e in es ==> Size(e) < bound
  }

  /** A successful fold over `r` continued after the values `a` already computed. */
  function Prepend<T>(a: seq<T>, r: Result<seq<T>>): Result<seq<T>>
  {
    if r.Ok? then Ok(a + r.value) else r
  }

  lemma PrependNothing<T>(r: Result<seq<T>>)
    ensures Prepend([], r) == r
  {
    if r.Ok? {
      assert [] + r.value == r.value;
    }
  }

  lemma PrependTwice<T>(a: seq<T>, b: seq<T>, r: Result<seq<T>>)
    ensures Prepend(a, Prepend(b, r)) == Prepend(a + b, r)
  {
    if r.Ok? {
      assert a + (b + r.value) == (a + b) + r.value;
    }
  }


  class OrToolsSolver {
    /** InferType's verdict: is the expression an IntVar. */
    const isIntVar: Expr -> bool
    /** GetVarQualifiers' verdict: does the qualifier read a controllable column. */
    const isVarQualifier: Expr -> bool
    /** RewriteArity, the second pass of the rewrite pipeline. */
    const rewriteArity: Expr -> Expr

    var viewToFieldIndex: Lowering.FieldIndexTable
    var generatedFieldNameCounter: nat
    var intermediateViewCounter: nat
    var subqueryCounter: nat
    var tableToFieldToType: ArrayDeclarations.TypeTable
    /** Whether the backend has been generated (`generatedBackend != null`). */
    var generated: bool

    constructor (isIntVar: Expr -> bool, isVarQualifier: Expr -> bool, rewriteArity: Expr -> Expr)
      ensures this.isIntVar == isIntVar && this.isVarQualifier == isVarQualifier
      ensures this.rewriteArity == rewriteArity
      ensures viewToFieldIndex == map[] && tableToFieldToType == map[]
      ensures generatedFieldNameCounter == 0 && intermediateViewCounter == 0 && subqueryCounter == 0
      ensures !generated
    {
      this.isIntVar := isIntVar;
      this.isVarQualifier := isVarQualifier;
      this.rewriteArity := rewriteArity;
      viewToFieldIndex := map[];
      generatedFieldNameCounter := 0;
      intermediateViewCounter := 0;
      subqueryCounter := 0;
      tableToFieldToType := map[];
      generated := false;
    }

    /** What ExprToStrVisitor reads from the compiler. */
    function LoweringEnv(): Lowering.Env
      reads this
    {
      Lowering.Env(viewToFieldIndex, tableToFieldToType, isIntVar)
    }

    // -------------------------------------------------------------------------------------
    // Head items and the field-index table

    /**
     * `updateFieldIndex`: the item's key (its alias, its column name, or the next generated
     * name) gets a slot in the view's table from `counter`, unless it already has one.
     */
    method UpdateFieldIndex(viewName: string, argument: Expr, counter: nat) returns (fieldName: string, next: nat)
      modifies this`viewToFieldIndex, this`generatedFieldNameCounter
      ensures var key := FieldKey(argument, old(generatedFieldNameCounter));
              var recorded := RecordField(ViewSpec.SlotsOf(old(viewToFieldIndex), Upper(viewName)), counter, key.0);
              fieldName == key.0
              && generatedFieldNameCounter == old(generatedFieldNameCounter) + (if key.1 then 1 else 0)
              && viewToFieldIndex == old(viewToFieldIndex)[Upper(viewName) := recorded.0]
              && next == recorded.1
      ensures intermediateViewCounter == old(intermediateViewCounter) && subqueryCounter == old(subqueryCounter)
      ensures tableToFieldToType == old(tableToFieldToType) && generated == old(generated)
    {
      var key := FieldKey(argument, generatedFieldNameCounter);
      if key.1 {
        generatedFieldNameCounter := generatedFieldNameCounter + 1;
      }
      var recorded := RecordField(ViewSpec.SlotsOf(viewToFieldIndex, Upper(viewName)), counter, key.0);
      viewToFieldIndex := viewToFieldIndex[Upper(viewName) := recorded.0];
      fieldName, next := key.0, recorded.1;
    }

    /** `getColumnsAccessed`: a fresh GetColumnIdentifiers visitor's columns after visiting `e`. */
    method GetColumnsAccessed(e: Expr) returns (r: Option<seq<Column>>)
      ensures r == GetColumnIdentifiers.ColumnsAccessed(e)
    {
      var visitor := new GetColumnIdentifiers.GetColumnIdentifiers();
      var completed := visitor.Visit(e);
      if !completed {
        return None;
      }
      return Some(visitor.GetColumnIdentifiers());
    }

    /**
     * The head items of buildInnerComprehension: the columns each select expression accesses,
     * flattened, without later duplicates. None when a visit throws.
     */
    method HeadItemsList(es: seq<Expr>) returns (r: Option<seq<Column>>)
      ensures r == ViewSpec.HeadItems(es)
    {
      var accessed: seq<Column> := [];
      var i := 0;
      while i < |es|
        invariant 0 <= i <= |es|
        invariant ViewSpec.AccessedAll(es[..i]) == Some(accessed)
      {
        assert es[..i + 1][..i] == es[..i];
        var cs := GetColumnsAccessed(es[i]);
        if cs.None? {
          AccessedAllPrefixNone(es, i + 1);
          return None;
        }
        accessed := accessed + cs.value;
        i := i + 1;
      }
      assert es[..i] == es;
      return Some(GetColumnIdentifiers.AddAll([], accessed));
    }

    /** `convertToFieldAccess` of a head item: its slot is recorded, then it is lowered as a column access. */
    method ConvertToFieldAccess(viewName: string, c: Column, fieldIndex: nat) returns (r: Result<TExpr>, next: nat)
      modifies this`viewToFieldIndex, this`generatedFieldNameCounter
      ensures var recorded := RecordField(ViewSpec.SlotsOf(old(viewToFieldIndex), Upper(viewName)), fieldIndex,
                                          ViewSpec.HeadKey(c));
              viewToFieldIndex == old(viewToFieldIndex)[Upper(viewName) := recorded.0] && next == recorded.1
      ensures r == Lowering.ExprToStr(LoweringEnv(), ColumnIdentifier(c), true, None)
      ensures generatedFieldNameCounter == old(generatedFieldNameCounter)
    {
      var fieldName;
      fieldName, next := UpdateFieldIndex(viewName, ColumnIdentifier(c), fieldIndex);
      r := Lowering.ExprToStr(LoweringEnv(), ColumnIdentifier(c), true, None);
    }

    /**
     * The head items' field accesses, in order, with a field-index counter starting at 0; the
     * first failing access ends the stream.
     */
    method HeadFieldAccess(viewName: string, items: seq<Column>) returns (r: Result<seq<TExpr>>)
      modifies this`viewToFieldIndex, this`generatedFieldNameCounter
      ensures var spec := ViewSpec.HeadAccess(old(LoweringEnv()), viewName, items);
              SameOutcome(r, spec) && (r.Ok? ==> r.value == spec.value.0 && viewToFieldIndex == spec.value.1)
      ensures generatedFieldNameCounter == old(generatedFieldNameCounter)
    {
      ghost var env0 := LoweringEnv();
      var fields: seq<TExpr> := [];
      var fieldIndex: nat := 0;
      var i := 0;
      r := Ok([]);
      while i < |items| && r.Ok?
        invariant 0 <= i <= |items| && generatedFieldNameCounter == old(generatedFieldNameCounter)
        invariant r.Ok? ==> ViewSpec.HeadAccess(env0, viewName, items[..i]) == Ok((fields, viewToFieldIndex, fieldIndex))
        invariant r.Err? ==> ViewSpec.HeadAccess(env0, viewName, items) == Err(r.error)
        decreases |items| - i, if r.Ok? then 1 else 0
      {
        ghost var fi := viewToFieldIndex;
        var t, next := ConvertToFieldAccess(viewName, items[i], fieldIndex);
        assert LoweringEnv() == env0.(viewToFieldIndex := viewToFieldIndex);
        HeadAccessAdvance(env0, viewName, items, i, fields, fi, fieldIndex, t, next, viewToFieldIndex);
        if t.Err? {
          r := Err(t.error);
        } else {
          fields := fields + [t.value];
          fieldIndex := next;
          i := i + 1;
        }
      }
      if r.Ok? {
        assert items[..i] == items;
        r := Ok(fields);
      }
    }

    // -------------------------------------------------------------------------------------
    // The pieces of a view's loop nest

    /** `addMapOrListForResultSet`. */
    method AddMapOrListForResultSet(output: MethodBuilder, viewName: string, tupleSize: nat,
                                    groupBy: Option<seq<Column>>)
      modifies output
      ensures output.statements == old(output.statements) + [ViewSpec.ResultSetDecl(viewName, tupleSize, groupBy)]
    {
      match groupBy
      case None =>
        output.AddStatement(DeclareList(NonConstraintViewName(viewName), tupleSize));
      case Some(g) =>
        output.AddStatement(DeclareGroupMap(NonConstraintViewName(viewName), |g|, tupleSize));
    }

    /** `addNestedForLoops`: one open loop per row generator, in order. */
    method AddNestedForLoops(output: MethodBuilder, gens: seq<Expr>)
      requires ViewSpec.AllGenerators(gens)
      modifies output
      ensures output.statements == old(output.statements) + ViewSpec.Loops(gens)
    {
      for i := 0 to |gens|
        invariant output.statements == old(output.statements) + ViewSpec.Loops(gens[..i])
      {
        assert gens[..i + 1][..i] == gens[..i];
        output.AddStatement(ViewSpec.LoopHeader(gens[i]));
      }
      assert gens[..|gens|] == gens;
    }

    /** Closing the control flows still open: one `endControlFlow` each. */
    method PopControlFlows(output: MethodBuilder, n: nat)
      modifies output
      ensures output.statements == old(output.statements) + Ends(n)
    {
      for i := 0 to n
        invariant output.statements == old(output.statements) + Ends(i)
      {
        output.AddStatement(EndBlock);
      }
    }

    /** `addToResultSet`: the tuple of head items goes into the result list, or into its group's. */
    method AddToResultSet(output: MethodBuilder, viewName: string, fields: seq<TExpr>, groupBy: Option<seq<Column>>)
      returns (r: Result<()>)
      modifies output
      ensures var spec := ViewSpec.ResultSetAdd(LoweringEnv(), viewName, fields, groupBy);
              SameOutcome(r, spec) && (r.Ok? ==> output.statements == old(output.statements) + [spec.value])
    {
      var add :- ViewSpec.ResultSetAdd(LoweringEnv(), viewName, fields, groupBy);
      output.AddStatement(add);
      return Ok(());
    }

    // -------------------------------------------------------------------------------------
    // ExprToStrVisitor, and the views it emits for subqueries

    /**
     * `ExprToStrVisitor.visit(e, inFunction)`. A subquery gets the next subquery name and is
     * emitted as a non-constraint view of that name; the operand is then that view.
     */
    method LowerExpr(output: MethodBuilder, e: Expr, allowControllable: bool, group: Option<Lowering.GroupContext>,
                     inFunction: bool) returns (r: Result<TExpr>)
      modifies this`viewToFieldIndex, this`generatedFieldNameCounter, this`intermediateViewCounter,
               this`subqueryCounter, output
      decreases Size(e), 20
      ensures r.Ok? ==> !r.value.NewConstant?
      ensures e.MonoidComprehension? && r.Ok? ==> r.value == Null
      ensures Lowering.SubqueryFree(e) ==>
                r == Lowering.Lower(old(LoweringEnv()), e, allowControllable, group, inFunction)
                && unchanged(this, output)
    {
      match e
      case ColumnIdentifier(c) =>
        if group.Some? && !inFunction {
          r := Lowering.FindGroupByColumn(group.value, c);
        } else {
          r := Lowering.LowerColumn(LoweringEnv(), c, allowControllable, group, inFunction);
        }
      case MonoidLiteral(v, _) =>
        r := Ok(Literal(v));
      case BinaryOperatorPredicate(_, _, _, _, _) =>
        r := LowerBinaryExpr(output, e, allowControllable, group, inFunction);
      case MonoidFunction(name, a, _) =>
        var argument := LowerExpr(output, a, allowControllable, group, true);
        r := if argument.Err? then argument else Lowering.LowerAggregate(name, isIntVar(a), argument.value);
      case ExistsPredicate(a) =>
        var visited := LowerExpr(output, a, allowControllable, group, inFunction);
        r := if visited.Err? then visited else Ok(Null);
      case MonoidComprehension(_, _) =>
        r := LowerSubquery(output, e);
      case GroupByComprehension(_, _, _) =>
        // The default traversal visits the inner comprehension (a subquery) and the group-by
        // qualifier, and returns null.
        r := LowerSubquery(output, InnerComprehension(e));
        r := if r.Err? then r else Ok(Null);
      case TableRowGenerator(_, _) =>
        r := Ok(Null);
      case GroupByQualifier(_) =>
        r := Ok(Null);
    }

    /** A binary operator: its operands in order, then the operator over them. */
    method LowerBinaryExpr(output: MethodBuilder, e: Expr, allowControllable: bool,
                           group: Option<Lowering.GroupContext>, inFunction: bool) returns (r: Result<TExpr>)
      requires e.BinaryOperatorPredicate?
      modifies this`viewToFieldIndex, this`generatedFieldNameCounter, this`intermediateViewCounter,
               this`subqueryCounter, output
      decreases Size(e), 19
      ensures r.Ok? ==> !r.value.NewConstant?
      ensures Lowering.SubqueryFree(e) ==>
                r == Lowering.Lower(old(LoweringEnv()), e, allowControllable, group, inFunction)
                && unchanged(this, output)
    {
      var left := LowerExpr(output, e.left, allowControllable, group, inFunction);
      if left.Err? {
        r := left;
      } else {
        var right := LowerExpr(output, e.right, allowControllable, group, inFunction);
        if right.Err? {
          r := right;
        } else {
          r := Lowering.LowerBinary(e.operator, isIntVar(e.left) || isIntVar(e.right), left.value, right.value);
        }
      }
    }

    /**
     * A subquery: emitted as a non-constraint view named after the next subquery number.
     * `visitMonoidComprehension` returns that name, but `MonoidComprehension.acceptVisitor`
     * drops it, so the visit yields null once the view is emitted.
     */
    method LowerSubquery(output: MethodBuilder, e: Expr) returns (r: Result<TExpr>)
      requires e.MonoidComprehension?
      modifies this`viewToFieldIndex, this`generatedFieldNameCounter, this`intermediateViewCounter,
               this`subqueryCounter, output
      decreases Size(e), 19
      ensures r.Ok? ==> r.value == Null
      ensures ViewSpec.ViewSubqueryFree(e) ==>
                var spec := ViewSpec.View(old(LoweringEnv()), old(intermediateViewCounter),
                                          SubqueryName(old(subqueryCounter) + 1), e, false, isVarQualifier);
                SameOutcome(r, spec)
                && subqueryCounter == old(subqueryCounter) + 1
                && generatedFieldNameCounter == old(generatedFieldNameCounter)
                && (r.Ok? ==> output.statements == old(output.statements) + spec.value.0
                              && viewToFieldIndex == spec.value.1 && intermediateViewCounter == spec.value.2)
    {
      subqueryCounter := subqueryCounter + 1;
      var name := SubqueryName(subqueryCounter);
      var added := AddView(output, name, e, false);
      if added.Err? {
        r := Err(added.error);
      } else {
        match MonoidVisitor.AcceptVisitorAsWritten(e, Some(SubqueryRef(name)))
        case Some(t) => r := Ok(t);
        case None => r := Ok(Null);
      }
    }

    /** `exprToStr(output, e, allowControllable, group)`: the visit's result, which must not be null. */
    method ExprToStr(output: MethodBuilder, e: Expr, allowControllable: bool, group: Option<Lowering.GroupContext>)
      returns (r: Result<TExpr>)
      modifies this`viewToFieldIndex, this`generatedFieldNameCounter, this`intermediateViewCounter,
               this`subqueryCounter, output
      decreases Size(e), 22
      ensures r.Ok? ==> r.value != Null && !r.value.NewConstant?
      ensures e.MonoidComprehension? ==> r.Err?
      ensures Lowering.SubqueryFree(e) ==>
                r == Lowering.ExprToStr(old(LoweringEnv()), e, allowControllable, group)
                && unchanged(this, output)
    {
      var t := LowerExpr(output, e, allowControllable, group, false);
      r := if t.Err? then t else Lowering.RequireNonNull(t.value);
    }

    /** `maybeWrapped`: the operand, wrapped in `model.newConstant` unless it is an IntVar. */
    method MaybeWrapped(output: MethodBuilder, e: Expr) returns (r: Result<TExpr>)
      modifies this`viewToFieldIndex, this`generatedFieldNameCounter, this`intermediateViewCounter,
               this`subqueryCounter, output
      decreases Size(e), 24
      ensures Lowering.SubqueryFree(e) ==>
                r == Constraints.MaybeWrapped(old(LoweringEnv()), e)
                && unchanged(this, output)
    {
      var lowered := ExprToStr(output, e, true, None);
      r := if lowered.Err? then lowered else Ok(Constraints.Wrap(isIntVar(e), lowered.value));
    }

    /**
     * `topLevelConstraint`: a where-predicate of a constraint view becomes a CP-SAT constraint;
     * `x in (subquery)` restricts x to the subquery's values.
     */
    method TopLevelConstraint(output: MethodBuilder, e: Expr) returns (r: Result<()>)
      modifies this`viewToFieldIndex, this`generatedFieldNameCounter, this`intermediateViewCounter,
               this`subqueryCounter, output
      decreases Size(e), 28
      ensures Lowering.SubqueryFree(e) ==>
                var spec := Constraints.TopLevelConstraint(old(LoweringEnv()), e);
                SameOutcome(r, spec) && unchanged(this)
                && (r.Ok? ==> output.statements == old(output.statements) + spec.value)
    {
      if !e.BinaryOperatorPredicate? {
        r := Err(IllegalArgument);
      } else if e.operator == "in" {
        r := AddInConstraint(output, e);
      } else if e.operator in Constraints.ConstraintMethods {
        r := AddComparison(output, e);
      } else {
        r := Err(UnsupportedOperation(""));
      }
    }

    /**
     * `x in (values)`: the domain of the values, then x restricted to it. When the values are a
     * subquery, their operand is null and the constraint fails (see `LowerSubquery`).
     */
    method AddInConstraint(output: MethodBuilder, e: Expr) returns (r: Result<()>)
      requires e.BinaryOperatorPredicate? && e.operator == "in"
      modifies this`viewToFieldIndex, this`generatedFieldNameCounter, this`intermediateViewCounter,
               this`subqueryCounter, output
      decreases Size(e), 26
      ensures e.right.MonoidComprehension? ==> r.Err?
      ensures Lowering.SubqueryFree(e) ==>
                var spec := Constraints.TopLevelConstraint(old(LoweringEnv()), e);
                SameOutcome(r, spec) && unchanged(this)
                && (r.Ok? ==> output.statements == old(output.statements) + spec.value)
    {
      var values := ExprToStr(output, e.right, true, None);
      if values.Err? {
        r := Err(values.error);
      } else {
        output.AddStatement(DomainFromView(values.value));
        var left := MaybeWrapped(output, e.left);
        if left.Err? {
          r := Err(left.error);
        } else {
          output.AddStatement(LinearExpressionInDomain(left.value));
          r := Ok(());
        }
      }
    }

    /** A comparison: the CpModel call of its operator over the two wrapped operands. */
    method AddComparison(output: MethodBuilder, e: Expr) returns (r: Result<()>)
      requires e.BinaryOperatorPredicate? && e.operator in Constraints.ConstraintMethods
      modifies this`viewToFieldIndex, this`generatedFieldNameCounter, this`intermediateViewCounter,
               this`subqueryCounter, output
      decreases Size(e), 26
      ensures Lowering.SubqueryFree(e) ==>
                var spec := Constraints.TopLevelConstraint(old(LoweringEnv()), e);
                SameOutcome(r, spec) && unchanged(this)
                && (r.Ok? ==> output.statements == old(output.statements) + spec.value)
    {
      var left := MaybeWrapped(output, e.left);
      if left.Err? {
        r := Err(left.error);
      } else {
        var right := MaybeWrapped(output, e.right);
        if right.Err? {
          r := Err(right.error);
        } else {
          var call := Constraints.ConstraintMethods[e.operator];
          output.AddStatement(AddConstraint(call, left.value, right.value));
          r := Ok(());
        }
      }
    }

    /** A stream of exprToStr calls over `es`, in order; the first failure ends it. */
    method LowerEach(output: MethodBuilder, es: seq<Expr>, allowControllable: bool,
                     group: Option<Lowering.GroupContext>, ghost bound: nat) returns (r: Result<seq<TExpr>>)
      requires SizesBelow(es, bound)
      modifies this`viewToFieldIndex, this`generatedFieldNameCounter, this`intermediateViewCounter,
               this`subqueryCounter, output
      decreases bound, 1
      ensures Constraints.AllSubqueryFree(es) ==>
                r == Constraints.LowerAll(old(LoweringEnv()), es, allowControllable, group)
                && unchanged(this, output)
    {
      ghost var env0 := LoweringEnv();
      ghost var sf := Constraints.AllSubqueryFree(es);
      var lowered: seq<TExpr> := [];
      var i := 0;
      var failed: Option<Error> := None;
      if sf {
        LoweredStart(env0, es, allowControllable, group);
      }
      while i < |es| && failed.None?
        invariant 0 <= i <= |es|
        invariant sf ==> unchanged(this, output)
        invariant sf && failed.None? ==> LoweredSoFar(env0, es, allowControllable, group, i, lowered)
        invariant sf && failed.Some? ==> Constraints.LowerAll(env0, es, allowControllable, group) == Err(failed.value)
        decreases |es| - i, if failed.None? then 1 else 0
      {
        assert es[i] in es;
        var t := ExprToStr(output, es[i], allowControllable, group);
        if sf {
          LoweredNext(env0, es, allowControllable, group, i, lowered, t);
        }
        if t.Err? {
          failed := Some(t.error);
        } else {
          lowered := lowered + [t.value];
          i := i + 1;
        }
      }
      if failed.Some? {
        r := Err(failed.value);
      } else {
        if sf {
          LoweredDone(env0, es, allowControllable, group, lowered);
        }
        r := Ok(lowered);
      }
    }

    /** The where-predicates of a constraint view, each a top-level constraint, in order. */
    method AddTopLevelConstraints(output: MethodBuilder, preds: seq<Expr>, ghost bound: nat) returns (r: Result<()>)
      requires SizesBelow(preds, bound)
      modifies this`viewToFieldIndex, this`generatedFieldNameCounter, this`intermediateViewCounter,
               this`subqueryCounter, output
      decreases bound, 1
      ensures Constraints.AllSubqueryFree(preds) ==>
                var spec := Constraints.TopLevelConstraints(old(LoweringEnv()), preds);
                SameOutcome(r, spec) && unchanged(this)
                && (r.Ok? ==> output.statements == old(output.statements) + spec.value)
    {
      ghost var env0 := LoweringEnv();
      ghost var sf := Constraints.AllSubqueryFree(preds);
      ghost var s0 := output.statements;
      ghost var emitted: seq<Stmt> := [];
      if sf {
        ConstraintsStart(env0, preds);
      }
      var i := 0;
      r := Ok(());
      while i < |preds| && r.Ok?
        invariant 0 <= i <= |preds|
        invariant sf ==> unchanged(this)
        invariant sf && r.Ok? ==> output.statements == s0 + emitted && ConstraintsSoFar(env0, preds, i, emitted)
        invariant sf && r.Err? ==> Constraints.TopLevelConstraints(env0, preds) == Err(r.error)
        decreases |preds| - i, if r.Ok? then 1 else 0
      {
        assert preds[i] in preds;
        ghost var s1 := output.statements;
        r := TopLevelConstraint(output, preds[i]);
        if sf {
          emitted := ConstraintsAdvance(env0, preds, i, emitted, s0, s1, output.statements, r);
        }
        if r.Ok? {
          i := i + 1;
        }
      }
      if sf && r.Ok? {
        ConstraintsDone(env0, preds, emitted);
      }
    }

    /**
     * `maybeAddNonVarFilters`: an `if` over the lowered join predicates and (outside a constraint
     * view) where predicates, when there are any. Its result is the number of blocks it opened.
     */
    method MaybeAddNonVarFilters(output: MethodBuilder, nonVarQualifiers: QualifiersByType, isConstraint: bool,
                                 ghost bound: nat) returns (r: Result<nat>)
      requires SizesBelow(nonVarQualifiers.joinPredicates, bound)
      requires SizesBelow(nonVarQualifiers.wherePredicates, bound)
      modifies this`viewToFieldIndex, this`generatedFieldNameCounter, this`intermediateViewCounter,
               this`subqueryCounter, output
      decreases bound, 2
      ensures r.Ok? ==> r.value <= 1
      ensures Constraints.AllSubqueryFree(nonVarQualifiers.joinPredicates)
              && Constraints.AllSubqueryFree(nonVarQualifiers.wherePredicates) ==>
                var spec := Constraints.FilterConditions(old(LoweringEnv()), nonVarQualifiers.joinPredicates,
                                                         nonVarQualifiers.wherePredicates, isConstraint);
                SameOutcome(r, spec) && unchanged(this)
                && (r.Ok? ==> output.statements == old(output.statements) + Constraints.Guard(spec.value)
                              && r.value == |Constraints.Guard(spec.value)|)
    {
      var joins := LowerEach(output, nonVarQualifiers.joinPredicates, false, None, bound);
      if joins.Err? {
        r := Err(joins.error);
      } else {
        var wheres: Result<seq<TExpr>> := Ok([]);
        if !isConstraint {
          wheres := LowerEach(output, nonVarQualifiers.wherePredicates, false, None, bound);
        }
        if wheres.Err? {
          r := Err(wheres.error);
        } else {
          var conditions := joins.value + wheres.value;
          if conditions != [] {
            output.AddStatement(BeginIf(conditions));
            r := Ok(1);
          } else {
            r := Ok(0);
          }
        }
      }
    }

    /**
     * `addRowConstraint`: the variable join predicates must lower to nothing; then each variable
     * and each non-variable where-predicate becomes a constraint.
     */
    method AddRowConstraint(output: MethodBuilder, varQualifiers: QualifiersByType, nonVarQualifiers: QualifiersByType,
                            ghost vars: seq<Expr>, ghost nonVars: seq<Expr>, ghost bound: nat) returns (r: Result<()>)
      requires varQualifiers.Holds(vars) && nonVarQualifiers.Holds(nonVars)
      requires SizesBelow(varQualifiers.joinPredicates, bound)
      requires SizesBelow(varQualifiers.wherePredicates + nonVarQualifiers.wherePredicates, bound)
      modifies this`viewToFieldIndex, this`generatedFieldNameCounter, this`intermediateViewCounter,
               this`subqueryCounter, output
      decreases bound, 2
      ensures Constraints.AllSubqueryFree(vars) && Constraints.AllSubqueryFree(nonVars) ==>
                var spec := ViewSpec.RowConstraints(old(LoweringEnv()), vars, nonVars);
                SameOutcome(r, spec) && unchanged(this)
                && (r.Ok? ==> output.statements == old(output.statements) + spec.value)
    {
      if Constraints.AllSubqueryFree(vars) && Constraints.AllSubqueryFree(nonVars) {
        ViewSpec.BucketSubqueryFree(vars, JoinBucket);
        ViewSpec.BucketSubqueryFree(vars, WhereBucket);
        ViewSpec.BucketSubqueryFree(nonVars, WhereBucket);
        ViewSpec.AllSubqueryFreeConcat(OfBucket(vars, WhereBucket), OfBucket(nonVars, WhereBucket));
      }
      var varJoins := LowerEach(output, varQualifiers.joinPredicates, true, None, bound);
      if varJoins.Err? {
        r := Err(varJoins.error);
      } else if varJoins.value != [] {
        r := Err(IllegalArgument);
      } else {
        r := AddTopLevelConstraints(output, varQualifiers.wherePredicates + nonVarQualifiers.wherePredicates, bound);
      }
    }

    /** The innermost loop's body: the tuple goes into the result set, or the row's constraints are added. */
    method AddLoopBody(output: MethodBuilder, viewName: string, fields: seq<TExpr>, groupBy: Option<seq<Column>>,
                       varQualifiers: QualifiersByType, nonVarQualifiers: QualifiersByType,
                       ghost vars: seq<Expr>, ghost nonVars: seq<Expr>, isConstraint: bool, ghost bound: nat)
      returns (r: Result<()>)
      requires varQualifiers.Holds(vars) && nonVarQualifiers.Holds(nonVars)
      requires SizesBelow(varQualifiers.joinPredicates, bound)
      requires SizesBelow(varQualifiers.wherePredicates + nonVarQualifiers.wherePredicates, bound)
      modifies this`viewToFieldIndex, this`generatedFieldNameCounter, this`intermediateViewCounter,
               this`subqueryCounter, output
      decreases bound, 3
      ensures Constraints.AllSubqueryFree(vars) && Constraints.AllSubqueryFree(nonVars) ==>
                var spec := ViewSpec.ViewLoopBody(old(LoweringEnv()), viewName, fields, groupBy, vars, nonVars,
                                                  isConstraint);
                SameOutcome(r, spec) && unchanged(this)
                && (r.Ok? ==> output.statements == old(output.statements) + spec.value)
    {
      if isConstraint {
        r := AddRowConstraint(output, varQualifiers, nonVarQualifiers, vars, nonVars, bound);
      } else {
        r := AddToResultSet(output, viewName, fields, groupBy);
      }
    }

    /**
     * The part of buildInnerComprehension after the qualifiers are split: the loops over the
     * non-variable row generators, the guard, the loop body, and one closing brace per block.
     */
    method AddLoopNest(output: MethodBuilder, viewName: string, fields: seq<TExpr>, groupBy: Option<seq<Column>>,
                       varQualifiers: QualifiersByType, nonVarQualifiers: QualifiersByType,
                       ghost vars: seq<Expr>, ghost nonVars: seq<Expr>, isConstraint: bool, ghost bound: nat)
      returns (r: Result<()>)
      requires varQualifiers.Holds(vars) && nonVarQualifiers.Holds(nonVars)
      requires SizesBelow(vars, bound) && SizesBelow(nonVars, bound)
      modifies this`viewToFieldIndex, this`generatedFieldNameCounter, this`intermediateViewCounter,
               this`subqueryCounter, output
      decreases bound, 4
      ensures Constraints.AllSubqueryFree(vars) && Constraints.AllSubqueryFree(nonVars) ==>
                var spec := ViewSpec.LoopNest(old(LoweringEnv()), viewName, fields, groupBy, vars, nonVars,
                                              isConstraint);
                SameOutcome(r, spec) && unchanged(this)
                && (r.Ok? ==> output.statements == old(output.statements) + spec.value)
    {
      BucketsBelow(vars, nonVars, bound);
      ViewSpec.GeneratorBucketHoldsGenerators(nonVars);
      ghost var env0, s0 := LoweringEnv(), output.statements;
      ghost var sf := Constraints.AllSubqueryFree(vars) && Constraints.AllSubqueryFree(nonVars);
      if sf {
        LoopNestCases(env0, viewName, fields, groupBy, vars, nonVars, isConstraint);
      }
      var gens := nonVarQualifiers.tableRowGenerators;
      AddNestedForLoops(output, gens);
      var guarded := MaybeAddNonVarFilters(output, nonVarQualifiers, isConstraint, bound);
      if guarded.Err? {
        r := Err(guarded.error);
      } else {
        r := AddLoopBody(output, viewName, fields, groupBy, varQualifiers, nonVarQualifiers, vars, nonVars,
                         isConstraint, bound);
        if r.Ok? {
          PopControlFlows(output, |gens| + guarded.value);
          if sf {
            LoopNestAppended(env0, viewName, fields, groupBy, vars, nonVars, isConstraint, s0);
          }
        }
      }
    }

    /**
     * `populateQualifiersByVarType` into fresh buckets, then the loop nest; a qualifier that
     * cannot be split fails before anything more is emitted.
     */
    method AddQualifiers(output: MethodBuilder, viewName: string, fields: seq<TExpr>, groupBy: Option<seq<Column>>,
                         qs: seq<Expr>, isConstraint: bool, ghost bound: nat) returns (r: Result<()>)
      requires SizesBelow(qs, bound)
      modifies this`viewToFieldIndex, this`generatedFieldNameCounter, this`intermediateViewCounter,
               this`subqueryCounter, output
      decreases bound, 5
      ensures Constraints.AllSubqueryFree(qs) ==>
                var spec := ViewSpec.QualifierStmts(old(LoweringEnv()), viewName, fields, groupBy, qs, isConstraint,
                                                    isVarQualifier);
                SameOutcome(r, spec) && unchanged(this)
                && (r.Ok? ==> output.statements == old(output.statements) + spec.value)
    {
      var varQualifiers := new QualifiersByType();
      var nonVarQualifiers := new QualifiersByType();
      var populated := PopulateQualifiersByVarType(qs, isVarQualifier, varQualifiers, nonVarQualifiers);
      if populated.Err? {
        r := Err(populated.error);
      } else {
        PartsBelow(qs, isVarQualifier, bound);
        if Constraints.AllSubqueryFree(qs) {
          ViewSpec.PartsSubqueryFree(qs, isVarQualifier);
        }
        r := AddLoopNest(output, viewName, fields, groupBy, varQualifiers, nonVarQualifiers,
                         VarPart(qs, isVarQualifier), NonVarPart(qs, isVarQualifier), isConstraint, bound);
      }
    }

    /**
     * `buildInnerComprehension`: the view's comment, its head items and their slots, the result
     * set (non-constraint views only), then the qualifiers' code.
     */
    method BuildInner(output: MethodBuilder, viewName: string, h: Option<Head>, qs: seq<Expr>,
                      groupBy: Option<seq<Column>>, isConstraint: bool) returns (r: Result<()>)
      modifies this`viewToFieldIndex, this`generatedFieldNameCounter, this`intermediateViewCounter,
               this`subqueryCounter, output
      decreases HeadSize(h) + SizeAll(qs) + 1, 7
      ensures Constraints.AllSubqueryFree(qs) ==>
                var spec := ViewSpec.InnerView(old(LoweringEnv()), viewName, h, qs, groupBy, isConstraint,
                                               isVarQualifier);
                SameOutcome(r, spec)
                && generatedFieldNameCounter == old(generatedFieldNameCounter)
                && intermediateViewCounter == old(intermediateViewCounter) && subqueryCounter == old(subqueryCounter)
                && (r.Ok? ==> output.statements == old(output.statements) + spec.value.0
                              && viewToFieldIndex == spec.value.1)
    {
      if h.None? {
        r := Err(NullPointer);
      } else {
        ghost var env0, s0 := LoweringEnv(), output.statements;
        output.AddStatement(Comment(ViewSpec.ViewComment(viewName, isConstraint)));
        var headItems := HeadItemsList(h.value.selectExprs);
        if headItems.None? {
          r := Err(NullPointer);
        } else {
          var fields := HeadFieldAccess(viewName, headItems.value);
          if fields.Err? {
            r := Err(fields.error);
          } else {
            ghost var env1 := LoweringEnv();
            assert env1 == env0.(viewToFieldIndex := viewToFieldIndex);
            ElementsBelowTotal(qs);
            r := AddResultSetAndQualifiers(output, viewName, |headItems.value|, fields.value, groupBy, qs,
                                           isConstraint, SizeAll(qs) + 1);
            if Constraints.AllSubqueryFree(qs) {
              ViewSpec.InnerViewAssembled(env0, viewName, h, qs, groupBy, isConstraint, isVarQualifier,
                                          headItems.value, fields.value, env1.viewToFieldIndex);
              if r.Ok? {
                Regrouped(s0, [Comment(ViewSpec.ViewComment(viewName, isConstraint))],
                          if isConstraint then [] else [ViewSpec.ResultSetDecl(viewName, |headItems.value|, groupBy)],
                          ViewSpec.QualifierStmts(env1, viewName, fields.value, groupBy, qs, isConstraint,
                                                  isVarQualifier).value);
              }
            }
          }
        }
      }
    }

    /** The rest of buildInnerComprehension once the head is lowered: the result set, then the qualifiers. */
    method AddResultSetAndQualifiers(output: MethodBuilder, viewName: string, tupleSize: nat, fields: seq<TExpr>,
                                     groupBy: Option<seq<Column>>, qs: seq<Expr>, isConstraint: bool,
                                     ghost bound: nat) returns (r: Result<()>)
      requires SizesBelow(qs, bound)
      modifies this`viewToFieldIndex, this`generatedFieldNameCounter, this`intermediateViewCounter,
               this`subqueryCounter, output
      decreases bound, 6
      ensures Constraints.AllSubqueryFree(qs) ==>
                var spec := ViewSpec.QualifierStmts(old(LoweringEnv()), viewName, fields, groupBy, qs, isConstraint,
                                                    isVarQualifier);
                var decl := if isConstraint then [] else [ViewSpec.ResultSetDecl(viewName, tupleSize, groupBy)];
                SameOutcome(r, spec) && unchanged(this)
                && (r.Ok? ==> output.statements == old(output.statements) + decl + spec.value)
    {
      if !isConstraint {
        AddMapOrListForResultSet(output, viewName, tupleSize, groupBy);
      }
      r := AddQualifiers(output, viewName, fields, groupBy, qs, isConstraint, bound);
    }

    /**
     * `addView`. A group-by comprehension is built as the intermediate view `tmp<n>`, grouped by
     * its columns; then each group becomes one row of the view, its values computed in the group.
     */
    method AddView(output: MethodBuilder, viewName: string, comp: Expr, isConstraint: bool) returns (r: Result<()>)
      requires comp.MonoidComprehension? || comp.GroupByComprehension?
      modifies this`viewToFieldIndex, this`generatedFieldNameCounter, this`intermediateViewCounter,
               this`subqueryCounter, output
      decreases Size(comp), 9
      ensures ViewSpec.ViewSubqueryFree(comp) ==>
                var spec := ViewSpec.View(old(LoweringEnv()), old(intermediateViewCounter), viewName, comp,
                                          isConstraint, isVarQualifier);
                SameOutcome(r, spec)
                && generatedFieldNameCounter == old(generatedFieldNameCounter) && subqueryCounter == old(subqueryCounter)
                && (r.Ok? ==> output.statements == old(output.statements) + spec.value.0
                              && viewToFieldIndex == spec.value.1 && intermediateViewCounter == spec.value.2)
    {
      if comp.GroupByComprehension? {
        r := AddGroupView(output, viewName, comp, isConstraint);
      } else {
        r := BuildInner(output, viewName, comp.head, comp.qualifiers, None, isConstraint);
      }
    }

    /** addView of a group-by comprehension. */
    method AddGroupView(output: MethodBuilder, viewName: string, comp: Expr, isConstraint: bool) returns (r: Result<()>)
      requires comp.GroupByComprehension?
      modifies this`viewToFieldIndex, this`generatedFieldNameCounter, this`intermediateViewCounter,
               this`subqueryCounter, output
      decreases Size(comp), 8
      ensures ViewSpec.ViewSubqueryFree(comp) ==>
                var spec := ViewSpec.GroupView(old(LoweringEnv()), old(intermediateViewCounter), viewName, comp,
                                               isConstraint, isVarQualifier);
                SameOutcome(r, spec)
                && generatedFieldNameCounter == old(generatedFieldNameCounter) && subqueryCounter == old(subqueryCounter)
                && (r.Ok? ==> output.statements == old(output.statements) + spec.value.0
                              && viewToFieldIndex == spec.value.1 && intermediateViewCounter == spec.value.2)
    {
      ghost var env0, s0, counter0 := LoweringEnv(), output.statements, intermediateViewCounter;
      var intermediate := IntermediateViewName(intermediateViewCounter);
      intermediateViewCounter := intermediateViewCounter + 1;
      var built := BuildInner(output, intermediate, comp.innerHead, comp.innerQualifiers, Some(comp.groupBy),
                              isConstraint);
      if built.Err? {
        r := built;
      } else if comp.innerHead.None? || Upper(intermediate) !in viewToFieldIndex {
        r := Err(NullPointer);
      } else {
        ghost var env1 := LoweringEnv();
        assert env1 == env0.(viewToFieldIndex := viewToFieldIndex);
        ElementsBelowTotal(comp.innerHead.value.selectExprs);
        r := AddGroupLoop(output, viewName, intermediate, comp.innerHead.value.selectExprs, comp.groupBy, Size(comp));
        if ViewSpec.ViewSubqueryFree(comp) {
          ghost var inner := ViewSpec.InnerView(env0, intermediate, comp.innerHead, comp.innerQualifiers,
                                                Some(comp.groupBy), isConstraint, isVarQualifier).value;
          ViewSpec.GroupViewAssembled(env0, counter0, viewName, comp, isConstraint, isVarQualifier, inner);
          if r.Ok? {
            Regrouped3(s0, inner.0, ViewSpec.GroupResult(viewName, intermediate,
              Constraints.LowerAll(env1, comp.innerHead.value.selectExprs, true,
                                   Some(Lowering.GroupContext(comp.groupBy, intermediate))).value));
          }
        }
      }
    }

    /** The loop over the intermediate view's groups: each group's values, computed in the group, make one row. */
    method AddGroupLoop(output: MethodBuilder, viewName: string, intermediate: string, selectExprs: seq<Expr>,
                        groupBy: seq<Column>, ghost bound: nat) returns (r: Result<()>)
      requires SizesBelow(selectExprs, bound)
      modifies this`viewToFieldIndex, this`generatedFieldNameCounter, this`intermediateViewCounter,
               this`subqueryCounter, output
      decreases bound, 2
      ensures Constraints.AllSubqueryFree(selectExprs) ==>
                var values := Constraints.LowerAll(old(LoweringEnv()), selectExprs, true,
                                                   Some(Lowering.GroupContext(groupBy, intermediate)));
                SameOutcome(r, values) && unchanged(this)
                && (r.Ok? ==> output.statements
                              == old(output.statements) + ViewSpec.GroupResult(viewName, intermediate, values.value))
    {
      output.AddStatements([Comment("Non-constraint view " + TableNameStr(viewName)),
                            DeclareGroupResult(TableNameStr(viewName), intermediate),
                            BeginForEachGroup(intermediate)]);
      var values := LowerEach(output, selectExprs, true, Some(Lowering.GroupContext(groupBy, intermediate)), bound);
      if values.Err? {
        r := Err(values.error);
      } else {
        output.AddStatements([AddGroupResult(TableNameStr(viewName), values.value), EndBlock]);
        r := Ok(());
      }
    }

    // -------------------------------------------------------------------------------------
    // The tables: addInitializer, addArrayDeclarations and addSolvePhase

    /** `addInitializer`: the model, the encoder and the helper operations are created. */
    method AddInitializer(output: MethodBuilder)
      modifies output
      ensures output.statements == old(output.statements) + ModelCode.Initializer
    {
      output.AddStatements(ModelCode.Initializer);
    }

    /** Step 1 of addArrayDeclarations for one table: the type of each column is recorded. */
    method RecordColumnTypes(t: Table)
      modifies this`tableToFieldToType
      ensures tableToFieldToType == ArrayDeclarations.RecordColumnTypes(old(tableToFieldToType), t.name, t.columns)
    {
      ghost var types0 := tableToFieldToType;
      for j := 0 to |t.columns|
        invariant tableToFieldToType == ArrayDeclarations.RecordColumnTypes(types0, t.name, t.columns[..j])
      {
        RecordColumnTypesNext(types0, t.name, t.columns, j);
        tableToFieldToType := ArrayDeclarations.RecordColumnType(tableToFieldToType, t.name, t.columns[j]);
      }
      assert t.columns[..|t.columns|] == t.columns;
    }

    /** Step 3 of addArrayDeclarations for one table: an IntVar array for each controllable column. */
    method AddVarArrays(output: MethodBuilder, t: Table)
      modifies output
      ensures output.statements == old(output.statements) + ArrayDeclarations.VarArrays(t.name, t.columns)
    {
      ghost var s0 := output.statements;
      for j := 0 to |t.columns|
        invariant output.statements == s0 + ArrayDeclarations.VarArrays(t.name, t.columns[..j])
      {
        VarArraysNext(t.name, t.columns, j);
        if t.columns[j].controllable {
          Regrouped3(s0, ArrayDeclarations.VarArrays(t.name, t.columns[..j]),
                     [ArrayDeclarations.VarArray(t.name, t.columns[j])]);
          output.AddStatement(ArrayDeclarations.VarArray(t.name, t.columns[j]));
        }
      }
      assert t.columns[..|t.columns|] == t.columns;
    }

    /**
     * The first loop of addArrayDeclarations, for one base table: its jOOQ record type (which
     * must exist), the types of its columns, the list of its rows and an IntVar array for each
     * controllable column.
     */
    method AddTableDeclaration(output: MethodBuilder, t: Table) returns (r: Result<()>)
      modifies this`tableToFieldToType, output
      ensures var spec := ArrayDeclarations.TableDecl(t);
              SameOutcome(r, spec)
              && (r.Ok? ==> output.statements == old(output.statements) + spec.value
                            && tableToFieldToType
                               == ArrayDeclarations.RecordColumnTypes(old(tableToFieldToType), t.name, t.columns))
    {
      ghost var s0 := output.statements;
      var comment := Comment("Table \"" + t.name + "\"");
      output.AddStatement(comment);
      if !ArrayDeclarations.RecordClassExists(|t.columns|) {
        r := Err(ArrayDeclarations.MissingRecordClass(|t.columns|));
      } else {
        RecordColumnTypes(t);
        var declare := DeclareTable(TableNameStr(t.name), t.name);
        output.AddStatement(declare);
        assert output.statements == s0 + [comment, declare];
        AddVarArrays(output, t);
        Regrouped3(s0, [comment, declare], ArrayDeclarations.VarArrays(t.name, t.columns));
        r := Ok(());
      }
    }

    /** The first loop of addArrayDeclarations: the base tables' declarations, in order. */
    method AddTables(output: MethodBuilder, tables: seq<Table>) returns (r: Result<()>)
      modifies this`tableToFieldToType, output
      ensures var spec := ArrayDeclarations.TablesDecls(tables);
              SameOutcome(r, spec)
              && (r.Ok? ==> output.statements == old(output.statements) + spec.value
                            && tableToFieldToType == ArrayDeclarations.TablesTypes(old(tableToFieldToType), tables))
    {
      ghost var s0, types0 := output.statements, tableToFieldToType;
      ghost var emitted: seq<Stmt> := [];
      r := Ok(());
      var i := 0;
      while i < |tables| && r.Ok?
        invariant 0 <= i <= |tables|
        invariant r.Ok? ==> ArrayDeclarations.TablesDecls(tables[..i]) == Ok(emitted)
                            && output.statements == s0 + emitted
                            && tableToFieldToType == ArrayDeclarations.TablesTypes(types0, tables[..i])
        invariant r.Err? ==> SameOutcome(r, ArrayDeclarations.TablesDecls(tables))
      {
        TablesDeclsNext(types0, tables, i);
        if IsBaseTable(tables[i]) {
          var decl := AddTableDeclaration(output, tables[i]);
          if decl.Err? {
            r := decl;
            TablesDeclsPrefixErr(tables, i + 1);
          } else {
            Regrouped3(s0, emitted, ArrayDeclarations.TableDecl(tables[i]).value);
            emitted := emitted + ArrayDeclarations.TableDecl(tables[i]).value;
          }
        }
        i := i + 1;
      }
      if r.Ok? {
        assert tables[..i] == tables;
      }
    }

    /** The primary-key constraints of a base table: step 4 of addArrayDeclarations. */
    method AddPrimaryKey(output: MethodBuilder, t: Table) returns (r: Result<()>)
      modifies output
      ensures var spec := ArrayDeclarations.PrimaryKeyStmtsAsWritten(LoweringEnv(), t);
              SameOutcome(r, spec) && (r.Ok? ==> output.statements == old(output.statements) + spec.value)
    {
      r := Ok(());
      if ArrayDeclarations.HasPrimaryKeyConstraint(t) {
        var keys := t.primaryKey.value.primaryKeyFields;
        output.AddStatement(Comment("Primary key constraints for " + TableNameStr(t.name)));
        if |keys| == 1 {
          output.AddStatement(AllDifferent(FieldNameStr(t.name, keys[0].name)));
        } else {
          output.AddStatements([ArrayDeclarations.RowLoop(t.name), ArrayDeclarations.PairLoopAsWritten]);
          ghost var s1 := output.statements;
          ghost var diffs: seq<Stmt> := [];
          var j := 0;
          while j < |keys| && r.Ok?
            invariant 0 <= j <= |keys|
            invariant r.Ok? ==> ArrayDeclarations.PairDifferences(LoweringEnv(), t.name, keys[..j]) == Ok(diffs)
                                && output.statements == s1 + diffs
            invariant r.Err? ==> SameOutcome(r, ArrayDeclarations.PairDifferences(LoweringEnv(), t.name, keys))
          {
            PairDifferencesNext(LoweringEnv(), t.name, keys, j);
            var f := keys[j];
            if f.controllable {
              var left := Lowering.FieldNameStrWithIter(LoweringEnv(), t.name, f.name, "i");
              if left.Err? {
                r := Err(left.error);
                PairDifferencesPrefixErr(LoweringEnv(), t.name, keys, j + 1);
              } else {
                var right := Lowering.FieldNameStrWithIter(LoweringEnv(), t.name, f.name, "j");
                Regrouped3(s1, diffs, [AddConstraint("addDifferent", left.value, right.value)]);
                output.AddStatement(AddConstraint("addDifferent", left.value, right.value));
                diffs := diffs + [AddConstraint("addDifferent", left.value, right.value)];
              }
            }
            j := j + 1;
          }
          if r.Ok? {
            assert keys[..j] == keys;
            output.AddStatements([EndBlock, EndBlock]);
          }
        }
      }
    }

    /**
     * The foreign-key constraints of a base table: step 5 of addArrayDeclarations. Each
     * constrained key names its index variable after the next intermediate-view counter value.
     */
    method AddForeignKeys(output: MethodBuilder, t: Table) returns (r: Result<()>)
      modifies this`intermediateViewCounter, output
      ensures var spec := ArrayDeclarations.ForeignKeyStmtsAsWritten(t, old(intermediateViewCounter));
              SameOutcome(r, spec)
              && (r.Ok? ==> output.statements == old(output.statements) + spec.value.0
                            && intermediateViewCounter == spec.value.1)
    {
      ghost var s0, c0 := output.statements, intermediateViewCounter;
      ghost var emitted: seq<Stmt> := [];
      var fks := t.foreignKeys;
      r := Ok(());
      var j := 0;
      while j < |fks| && r.Ok?
        invariant 0 <= j <= |fks|
        invariant r.Ok? ==> ArrayDeclarations.ForeignKeyStmtsWith(t, fks[..j], c0, ArrayDeclarations.ChildTableRows)
                            == Ok((emitted, intermediateViewCounter))
                            && output.statements == s0 + emitted
        invariant r.Err? ==> SameOutcome(r, ArrayDeclarations.ForeignKeyStmtsAsWritten(t, c0))
      {
        ForeignKeyStmtsNext(t, fks, c0, j);
        var fk := fks[j];
        if fk.hasConstraint {
          if |fk.links| != 1 {
            r := Err(IllegalArgument);
            ForeignKeyStmtsPrefixErr(t, fks, c0, j + 1);
          } else {
            intermediateViewCounter := intermediateViewCounter + 1;
            var block := ArrayDeclarations.ForeignKeyBlock(t, fk.links[0], IndexVarName(intermediateViewCounter),
                                                           t.name);
            Regrouped3(s0, emitted, block);
            output.AddStatements(block);
            emitted := emitted + block;
          }
        }
        j := j + 1;
      }
      if r.Ok? {
        assert fks[..j] == fks;
      }
    }

    /** Steps 4 and 5 of addArrayDeclarations for one base table: its primary key, then its foreign keys. */
    method AddTableKeys(output: MethodBuilder, t: Table) returns (r: Result<()>)
      modifies this`intermediateViewCounter, output
      ensures var spec := ArrayDeclarations.KeyStmts(LoweringEnv(), t, old(intermediateViewCounter));
              SameOutcome(r, spec)
              && (r.Ok? ==> output.statements == old(output.statements) + spec.value.0
                            && intermediateViewCounter == spec.value.1)
    {
      ghost var s0 := output.statements;
      r := AddPrimaryKey(output, t);
      if r.Ok? {
        ghost var s1 := output.statements;
        r := AddForeignKeys(output, t);
        if r.Ok? {
          Regrouped3(s0, s1[|s0|..], output.statements[|s1|..]);
        }
      }
    }

    /** The second loop of addArrayDeclarations: the base tables' key constraints, in order. */
    method AddKeys(output: MethodBuilder, tables: seq<Table>) returns (r: Result<()>)
      modifies this`intermediateViewCounter, output
      ensures var spec := ArrayDeclarations.TablesKeys(LoweringEnv(), tables, old(intermediateViewCounter));
              SameOutcome(r, spec)
              && (r.Ok? ==> output.statements == old(output.statements) + spec.value.0
                            && intermediateViewCounter == spec.value.1)
    {
      ghost var env0, s0, c0 := LoweringEnv(), output.statements, intermediateViewCounter;
      ghost var emitted: seq<Stmt> := [];
      r := Ok(());
      var i := 0;
      while i < |tables| && r.Ok?
        invariant 0 <= i <= |tables|
        invariant LoweringEnv() == env0
        invariant r.Ok? ==> ArrayDeclarations.TablesKeys(env0, tables[..i], c0) == Ok((emitted, intermediateViewCounter))
                            && output.statements == s0 + emitted
        invariant r.Err? ==> SameOutcome(r, ArrayDeclarations.TablesKeys(env0, tables, c0))
      {
        ghost var c1 := intermediateViewCounter;
        ghost var step := TablesKeysNext(env0, tables, c0, i, emitted, c1);
        if IsBaseTable(tables[i]) {
          r := AddTableKeys(output, tables[i]);
          if r.Err? {
            TablesKeysPrefixErr(env0, tables, c0, i + 1);
          } else {
            Regrouped3(s0, emitted, step.value.0);
            emitted := emitted + step.value.0;
          }
        }
        i := i + 1;
      }
      if r.Ok? {
        assert tables[..i] == tables;
      }
    }

    /**
     * `addArrayDeclarations`: every base table's declarations, then every base table's key
     * constraints, which read the column types the first loop recorded.
     */
    method AddArrayDeclarations(output: MethodBuilder, tables: seq<Table>) returns (r: Result<()>)
      modifies this`tableToFieldToType, this`intermediateViewCounter, output
      ensures var spec := ArrayDeclarations.ArrayDecls(old(LoweringEnv()), tables, old(intermediateViewCounter));
              SameOutcome(r, spec)
              && (r.Ok? ==> output.statements == old(output.statements) + spec.value.0
                            && tableToFieldToType == spec.value.1 && intermediateViewCounter == spec.value.2)
    {
      ghost var s0 := output.statements;
      r := AddTables(output, tables);
      if r.Ok? {
        ghost var s1 := output.statements;
        r := AddKeys(output, tables);
        if r.Ok? {
          Regrouped3(s0, s1[|s0|..], output.statements[|s1|..]);
        }
      }
    }

    /** One table's part of addSolvePhase. */
    method AddTableResult(output: MethodBuilder, t: Table)
      modifies this`intermediateViewCounter, output
      ensures var spec := SolvePhase.TableStmts(t, old(intermediateViewCounter));
              output.statements == old(output.statements) + spec.0 && intermediateViewCounter == spec.1
    {
      if !IsBaseTable(t) {
      } else if SolvePhase.NoneControllable(t.columns) {
        output.AddStatement(PutUnchanged(t.name));
      } else {
        ghost var s0, c0 := output.statements, intermediateViewCounter;
        for j := 0 to |t.columns|
          invariant var done := SolvePhase.ColumnsStmts(t.name, t.columns[..j], c0);
                    output.statements == s0 + done.0 && intermediateViewCounter == done.1
        {
          ColumnsStmtsNext(t.name, t.columns, c0, j);
          if t.columns[j].controllable {
            Regrouped3(s0, SolvePhase.ColumnsStmts(t.name, t.columns[..j], c0).0,
                       SolvePhase.ColumnBlock(t.name, t.columns[j], intermediateViewCounter + 1));
            intermediateViewCounter := intermediateViewCounter + 1;
            output.AddStatements(SolvePhase.ColumnBlock(t.name, t.columns[j], intermediateViewCounter));
          }
        }
        assert t.columns[..|t.columns|] == t.columns;
      }
    }

    /**
     * `addSolvePhase`: solve; if the status is FEASIBLE or OPTIMAL, put every base table in the
     * result, its controllable columns overwritten with the solver's values; else throw.
     */
    method AddSolvePhase(output: MethodBuilder, tables: seq<Table>)
      modifies this`intermediateViewCounter, output
      ensures var spec := SolvePhase.SolvePhaseStmts(tables, old(intermediateViewCounter));
              output.statements == old(output.statements) + spec.0 && intermediateViewCounter == spec.1
    {
      ghost var s0, c0 := output.statements, intermediateViewCounter;
      output.AddStatements(SolvePhase.Prologue);
      ghost var s1 := output.statements;
      for i := 0 to |tables|
        invariant var done := SolvePhase.TablesStmts(tables[..i], c0);
                  output.statements == s1 + done.0 && intermediateViewCounter == done.1
      {
        TablesStmtsNext(tables, c0, i);
        Regrouped3(s1, SolvePhase.TablesStmts(tables[..i], c0).0,
                   SolvePhase.TableStmts(tables[i], SolvePhase.TablesStmts(tables[..i], c0).1).0);
        AddTableResult(output, tables[i]);
      }
      assert tables[..|tables|] == tables;
      ghost var body := output.statements[|s1|..];
      output.AddStatements(SolvePhase.Epilogue);
      Regrouped(s0, SolvePhase.Prologue, body, SolvePhase.Epilogue);
    }

    // -------------------------------------------------------------------------------------
    // generateModelCode

    /** One view of generateModelCode's forEach: the rewrite pipeline, then addView. */
    method AddRewrittenView(output: MethodBuilder, view: (string, Expr), isConstraint: bool) returns (r: Result<()>)
      requires ModelCode.IsComprehension(view.1)
      requires forall e :: ModelCode.IsComprehension(e) ==> ModelCode.IsComprehension(rewriteArity(e))
      modifies this`viewToFieldIndex, this`generatedFieldNameCounter, this`intermediateViewCounter,
               this`subqueryCounter, output
      ensures (ModelCode.Rewritten(view.1, rewriteArity).Ok? ==>
                 ViewSpec.ViewSubqueryFree(ModelCode.Rewritten(view.1, rewriteArity).value)) ==>
                var spec := ModelCode.RewrittenView(old(LoweringEnv()), old(intermediateViewCounter), view,
                                                    isConstraint, isVarQualifier, rewriteArity);
                SameOutcome(r, spec)
                && (r.Ok? ==> output.statements == old(output.statements) + spec.value.0
                              && viewToFieldIndex == spec.value.1 && intermediateViewCounter == spec.value.2)
    {
      var counted := RewriteCountFunction.Apply(view.1);
      if counted.Err? {
        r := Err(counted.error);
      } else {
        r := AddView(output, view.0, rewriteArity(counted.value), isConstraint);
      }
    }

    /**
     * One forEach of generateModelCode: each view is put through the rewrite pipeline and
     * added with addView.
     */
    method AddViews(output: MethodBuilder, views: seq<(string, Expr)>, isConstraint: bool) returns (r: Result<()>)
      requires forall v :: v in views ==> ModelCode.IsComprehension(v.1)
      requires forall e :: ModelCode.IsComprehension(e) ==> ModelCode.IsComprehension(rewriteArity(e))
      modifies this`viewToFieldIndex, this`generatedFieldNameCounter, this`intermediateViewCounter,
               this`subqueryCounter, output
      ensures ModelCode.ViewsSubqueryFree(views, rewriteArity) ==>
                var spec := ModelCode.Views(old(LoweringEnv()), old(intermediateViewCounter), views, isConstraint,
                                            isVarQualifier, rewriteArity);
                SameOutcome(r, spec)
                && (r.Ok? ==> output.statements == old(output.statements) + spec.value.0
                              && viewToFieldIndex == spec.value.1 && intermediateViewCounter == spec.value.2)
    {
      ghost var env0, s0, c0 := LoweringEnv(), output.statements, intermediateViewCounter;
      ghost var sf := ModelCode.ViewsSubqueryFree(views, rewriteArity);
      ghost var emitted: seq<Stmt> := [];
      r := Ok(());
      var i := 0;
      while i < |views| && r.Ok?
        invariant 0 <= i <= |views|
        invariant sf && r.Ok? ==> ViewsSoFar(env0, c0, views, i, isConstraint, isVarQualifier, rewriteArity, emitted,
                                             viewToFieldIndex, intermediateViewCounter)
                                  && output.statements == s0 + emitted
        invariant sf && r.Err? ==> SameOutcome(r, ModelCode.Views(env0, c0, views, isConstraint, isVarQualifier,
                                                                  rewriteArity))
      {
        assert views[i] in views;
        ghost var vfi, c1, s1 := viewToFieldIndex, intermediateViewCounter, output.statements;
        assert LoweringEnv() == env0.(viewToFieldIndex := vfi);
        r := AddRewrittenView(output, views[i], isConstraint);
        if sf {
          emitted := ViewsAdvance(env0, c0, views, i, isConstraint, isVarQualifier, rewriteArity, emitted, vfi, c1, r,
                                  s0, s1, output.statements, viewToFieldIndex, intermediateViewCounter);
        }
        i := i + 1;
      }
      if sf && r.Ok? {
        assert views[..i] == views;
        assert ViewsSoFar(env0, c0, views[..i], i, isConstraint, isVarQualifier, rewriteArity, emitted,
                          viewToFieldIndex, intermediateViewCounter);
      }
    }

    /**
     * `generateModelCode`: the `solve()` method's statements; once the backend has been
     * generated, nothing (and nothing changes).
     */
    method GenerateModelCode(tables: seq<Table>, nonConstraintViews: seq<(string, Expr)>,
                             constraintViews: seq<(string, Expr)>) returns (r: Result<seq<Stmt>>)
      requires forall v :: v in nonConstraintViews ==> ModelCode.IsComprehension(v.1)
      requires forall v :: v in constraintViews ==> ModelCode.IsComprehension(v.1)
      requires forall e :: ModelCode.IsComprehension(e) ==> ModelCode.IsComprehension(rewriteArity(e))
      modifies this
      ensures old(generated) ==> r == Ok([]) && unchanged(this)
      ensures !old(generated) && ModelCode.ViewsSubqueryFree(nonConstraintViews, rewriteArity)
              && ModelCode.ViewsSubqueryFree(constraintViews, rewriteArity) ==>
                var spec := ModelCode.ModelStmts(old(LoweringEnv()), old(intermediateViewCounter), tables,
                                                 nonConstraintViews, constraintViews, isVarQualifier, rewriteArity);
                SameOutcome(r, spec) && (r.Ok? ==> r.value == spec.value && generated)
    {
      if generated {
        r := Ok([]);
      } else {
        ghost var env0, c0 := LoweringEnv(), intermediateViewCounter;
        ghost var sf := ModelCode.ViewsSubqueryFree(nonConstraintViews, rewriteArity)
                        && ModelCode.ViewsSubqueryFree(constraintViews, rewriteArity);
        if sf {
          ModelStmtsCases(env0, c0, tables, nonConstraintViews, constraintViews, isVarQualifier, rewriteArity);
        }
        var output := new MethodBuilder();
        AddInitializer(output);
        assert output.statements == ModelCode.Initializer;
        var arrays := AddArrayDeclarations(output, tables);
        if arrays.Err? {
          r := Err(arrays.error);
        } else {
          var plain := AddViews(output, nonConstraintViews, false);
          if plain.Err? {
            r := Err(plain.error);
          } else {
            var constrained := AddViews(output, constraintViews, true);
            if constrained.Err? {
              r := Err(constrained.error);
            } else {
              AddSolvePhase(output, tables);
              generated := true;
              r := Ok(output.statements);
            }
          }
        }
      }
    }
  }

  // ---------------------------------------------------------------------------------------
  // Facts the methods' proofs use

  lemma ElementsBelowTotal(es: seq<Expr>)
    ensures SizesBelow(es, SizeAll(es) + 1)
  {
    forall e | e in es
      ensures Size(e) < SizeAll(es) + 1
    {
      var i :| 0 <= i < |es| && es[i] == e;
      SizeAllElement(es, i);
    }
  }

  lemma {:induction false} PartsWithin(qs: seq<Expr>, isVarQualifier: Expr -> bool)
    ensures forall q :: q in VarPart(qs, isVarQualifier) ==> q in qs
    ensures forall q :: q in NonVarPart(qs, isVarQualifier) ==> q in qs
  {
    if qs != [] {
      PartsWithin(qs[1..], isVarQualifier);
    }
  }

  /** Either part holds qualifiers of `qs`, so it stays below the same bound. */
  lemma PartsBelow(qs: seq<Expr>, isVarQualifier: Expr -> bool, bound: nat)
    requires SizesBelow(qs, bound)
    ensures SizesBelow(VarPart(qs, isVarQualifier), bound) && SizesBelow(NonVarPart(qs, isVarQualifier), bound)
  {
    PartsWithin(qs, isVarQualifier);
  }

  /** The buckets the loop nest lowers hold qualifiers of the parts, so they stay below the same bound. */
  lemma BucketsBelow(vars: seq<Expr>, nonVars: seq<Expr>, bound: nat)
    requires SizesBelow(vars, bound) && SizesBelow(nonVars, bound)
    ensures SizesBelow(OfBucket(nonVars, JoinBucket), bound) && SizesBelow(OfBucket(nonVars, WhereBucket), bound)
    ensures SizesBelow(OfBucket(vars, JoinBucket), bound)
    ensures SizesBelow(OfBucket(vars, WhereBucket) + OfBucket(nonVars, WhereBucket), bound)
  {
    forall b: Bucket, q | q in OfBucket(vars, b)
      ensures Size(q) < bound
    {
      OfBucketMembers(vars, b, q);
    }
    forall b: Bucket, q | q in OfBucket(nonVars, b)
      ensures Size(q) < bound
    {
      OfBucketMembers(nonVars, b, q);
    }
  }

  /** One more element of a LowerAll fold: its lowering, then the rest's. */
  lemma LowerAllStep(env: Lowering.Env, es: seq<Expr>, i: nat, allowControllable: bool,
                     group: Option<Lowering.GroupContext>)
    requires i < |es| && Constraints.AllSubqueryFree(es)
    ensures Constraints.AllSubqueryFree(es[i..]) && Constraints.AllSubqueryFree(es[i + 1..])
    ensures var first := Lowering.ExprToStr(env, es[i], allowControllable, group);
            var rest := Constraints.LowerAll(env, es[i + 1..], allowControllable, group);
            Constraints.LowerAll(env, es[i..], allowControllable, group)
            == if first.Err? then Err(first.error) else Prepend([first.value], rest)
  {
    assert es[i..][0] == es[i] && es[i..][1..] == es[i + 1..];
  }

  /** The lowering of `es` is `lowered` followed by that of `es[i..]`. */
  predicate LoweredSoFar(env: Lowering.Env, es: seq<Expr>, allowControllable: bool,
                         group: Option<Lowering.GroupContext>, i: nat, lowered: seq<TExpr>)
    requires i <= |es| && Constraints.AllSubqueryFree(es)
  {
    assert Constraints.AllSubqueryFree(es[i..]) by {
      forall j | 0 <= j < |es[i..]|
        ensures Lowering.SubqueryFree(es[i..][j])
      {
        assert es[i..][j] == es[i + j];
      }
    }
    Constraints.LowerAll(env, es, allowControllable, group)
    == Prepend(lowered, Constraints.LowerAll(env, es[i..], allowControllable, group))
  }

  lemma LoweredStart(env: Lowering.Env, es: seq<Expr>, allowControllable: bool, group: Option<Lowering.GroupContext>)
    requires Constraints.AllSubqueryFree(es)
    ensures LoweredSoFar(env, es, allowControllable, group, 0, [])
  {
    assert es[0..] == es;
    PrependNothing(Constraints.LowerAll(env, es, allowControllable, group));
  }

  /** The next expression's lowering either ends the fold with its exception or follows `lowered`. */
  lemma LoweredNext(env: Lowering.Env, es: seq<Expr>, allowControllable: bool, group: Option<Lowering.GroupContext>,
                    i: nat, lowered: seq<TExpr>, first: Result<TExpr>)
    requires i < |es| && Constraints.AllSubqueryFree(es) && LoweredSoFar(env, es, allowControllable, group, i, lowered)
    requires first == Lowering.ExprToStr(env, es[i], allowControllable, group)
    ensures first.Err? ==> Constraints.LowerAll(env, es, allowControllable, group) == Err(first.error)
    ensures first.Ok? ==> LoweredSoFar(env, es, allowControllable, group, i + 1, lowered + [first.value])
  {
    LowerAllStep(env, es, i, allowControllable, group);
    if first.Ok? {
      PrependTwice(lowered, [first.value], Constraints.LowerAll(env, es[i + 1..], allowControllable, group));
    }
  }

  lemma LoweredDone(env: Lowering.Env, es: seq<Expr>, allowControllable: bool, group: Option<Lowering.GroupContext>,
                    lowered: seq<TExpr>)
    requires Constraints.AllSubqueryFree(es) && LoweredSoFar(env, es, allowControllable, group, |es|, lowered)
    ensures Constraints.LowerAll(env, es, allowControllable, group) == Ok(lowered)
  {
    assert es[|es|..] == [] && lowered + [] == lowered;
  }

  /** The constraints of `preds` are `emitted` followed by those of `preds[i..]`. */
  predicate ConstraintsSoFar(env: Lowering.Env, preds: seq<Expr>, i: nat, emitted: seq<Stmt>)
    requires i <= |preds| && Constraints.AllSubqueryFree(preds)
  {
    assert Constraints.AllSubqueryFree(preds[i..]) by {
      forall j | 0 <= j < |preds[i..]|
        ensures Lowering.SubqueryFree(preds[i..][j])
      {
        assert preds[i..][j] == preds[i + j];
      }
    }
    Constraints.TopLevelConstraints(env, preds) == Prepend(emitted, Constraints.TopLevelConstraints(env, preds[i..]))
  }

  lemma ConstraintsStart(env: Lowering.Env, preds: seq<Expr>)
    requires Constraints.AllSubqueryFree(preds)
    ensures ConstraintsSoFar(env, preds, 0, [])
  {
    assert preds[0..] == preds;
    PrependNothing(Constraints.TopLevelConstraints(env, preds));
  }

  /** The next predicate's constraints either end the fold with its exception or follow `emitted`. */
  lemma ConstraintsNext(env: Lowering.Env, preds: seq<Expr>, i: nat, emitted: seq<Stmt>)
    returns (first: Result<seq<Stmt>>)
    requires i < |preds| && Constraints.AllSubqueryFree(preds) && ConstraintsSoFar(env, preds, i, emitted)
    ensures Lowering.SubqueryFree(preds[i]) && first == Constraints.TopLevelConstraint(env, preds[i])
    ensures first.Err? ==> Constraints.TopLevelConstraints(env, preds) == Err(first.error)
    ensures first.Ok? ==> ConstraintsSoFar(env, preds, i + 1, emitted + first.value)
  {
    TopLevelConstraintsStep(env, preds, i);
    first := Constraints.TopLevelConstraint(env, preds[i]);
    if first.Ok? {
      PrependTwice(emitted, first.value, Constraints.TopLevelConstraints(env, preds[i + 1..]));
    }
  }

  /** The loop's state after one more top-level constraint, from what that call promised. */
  lemma ConstraintsAdvance(env: Lowering.Env, preds: seq<Expr>, i: nat, emitted: seq<Stmt>, s0: seq<Stmt>,
                           s1: seq<Stmt>, s2: seq<Stmt>, r: Result<()>) returns (emitted2: seq<Stmt>)
    requires i < |preds| && Constraints.AllSubqueryFree(preds) && ConstraintsSoFar(env, preds, i, emitted)
    requires s1 == s0 + emitted
    requires var spec := Constraints.TopLevelConstraint(env, preds[i]);
             SameOutcome(r, spec) && (r.Ok? ==> s2 == s1 + spec.value)
    ensures r.Err? ==> Constraints.TopLevelConstraints(env, preds) == Err(r.error)
    ensures r.Ok? ==> s2 == s0 + emitted2 && ConstraintsSoFar(env, preds, i + 1, emitted2)
  {
    var first := ConstraintsNext(env, preds, i, emitted);
    emitted2 := emitted;
    if r.Ok? {
      Regrouped3(s0, emitted, first.value);
      emitted2 := emitted + first.value;
    }
  }

  lemma ConstraintsDone(env: Lowering.Env, preds: seq<Expr>, emitted: seq<Stmt>)
    requires Constraints.AllSubqueryFree(preds) && ConstraintsSoFar(env, preds, |preds|, emitted)
    ensures Constraints.TopLevelConstraints(env, preds) == Ok(emitted)
  {
    assert preds[|preds|..] == [] && emitted + [] == emitted;
  }

  /** One more predicate of a TopLevelConstraints fold: its statements, then the rest's. */
  lemma TopLevelConstraintsStep(env: Lowering.Env, preds: seq<Expr>, i: nat)
    requires i < |preds| && Constraints.AllSubqueryFree(preds)
    ensures Constraints.AllSubqueryFree(preds[i..]) && Constraints.AllSubqueryFree(preds[i + 1..])
    ensures var first := Constraints.TopLevelConstraint(env, preds[i]);
            var rest := Constraints.TopLevelConstraints(env, preds[i + 1..]);
            Constraints.TopLevelConstraints(env, preds[i..])
            == if first.Err? then Err(first.error) else Prepend(first.value, rest)
  {
    assert preds[i..][0] == preds[i] && preds[i..][1..] == preds[i + 1..];
  }

  /**
   * LoopNest taken apart: the guard's conditions fail, or the loop body fails, or the code is
   * the loops, the guard, the body and the closing braces.
   */
  lemma LoopNestCases(env: Lowering.Env, view: string, fields: seq<TExpr>, groupBy: Option<seq<Column>>,
                      vars: seq<Expr>, nonVars: seq<Expr>, isConstraint: bool)
    requires Constraints.AllSubqueryFree(vars) && Constraints.AllSubqueryFree(nonVars)
    ensures Constraints.AllSubqueryFree(OfBucket(nonVars, JoinBucket))
            && Constraints.AllSubqueryFree(OfBucket(nonVars, WhereBucket))
            && ViewSpec.AllGenerators(OfBucket(nonVars, GeneratorBucket))
    ensures var gens := OfBucket(nonVars, GeneratorBucket);
            var conds := Constraints.FilterConditions(env, OfBucket(nonVars, JoinBucket),
                                                      OfBucket(nonVars, WhereBucket), isConstraint);
            var body := ViewSpec.ViewLoopBody(env, view, fields, groupBy, vars, nonVars, isConstraint);
            ViewSpec.LoopNest(env, view, fields, groupBy, vars, nonVars, isConstraint)
            == if conds.Err? then Err(conds.error)
               else if body.Err? then Err(body.error)
               else Ok(ViewSpec.Loops(gens) + Constraints.Guard(conds.value) + body.value
                       + Ends(|gens| + |Constraints.Guard(conds.value)|))
  {
    ViewSpec.BucketSubqueryFree(nonVars, JoinBucket);
    ViewSpec.BucketSubqueryFree(nonVars, WhereBucket);
    ViewSpec.GeneratorBucketHoldsGenerators(nonVars);
  }

  /** A successful LoopNest appended to `prefix`, piece by piece. */
  lemma LoopNestAppended(env: Lowering.Env, view: string, fields: seq<TExpr>, groupBy: Option<seq<Column>>,
                         vars: seq<Expr>, nonVars: seq<Expr>, isConstraint: bool, prefix: seq<Stmt>)
    requires Constraints.AllSubqueryFree(vars) && Constraints.AllSubqueryFree(nonVars)
    requires Constraints.AllSubqueryFree(OfBucket(nonVars, JoinBucket))
             && Constraints.AllSubqueryFree(OfBucket(nonVars, WhereBucket))
             && ViewSpec.AllGenerators(OfBucket(nonVars, GeneratorBucket))
    requires ViewSpec.LoopNest(env, view, fields, groupBy, vars, nonVars, isConstraint).Ok?
    ensures var gens := OfBucket(nonVars, GeneratorBucket);
            var conds := Constraints.FilterConditions(env, OfBucket(nonVars, JoinBucket),
                                                      OfBucket(nonVars, WhereBucket), isConstraint);
            var body := ViewSpec.ViewLoopBody(env, view, fields, groupBy, vars, nonVars, isConstraint);
            conds.Ok? && body.Ok?
            && prefix + ViewSpec.Loops(gens) + Constraints.Guard(conds.value) + body.value
                 + Ends(|gens| + |Constraints.Guard(conds.value)|)
               == prefix + ViewSpec.LoopNest(env, view, fields, groupBy, vars, nonVars, isConstraint).value
  {
    LoopNestCases(env, view, fields, groupBy, vars, nonVars, isConstraint);
    var gens := OfBucket(nonVars, GeneratorBucket);
    var conds := Constraints.FilterConditions(env, OfBucket(nonVars, JoinBucket), OfBucket(nonVars, WhereBucket),
                                              isConstraint);
    var body := ViewSpec.ViewLoopBody(env, view, fields, groupBy, vars, nonVars, isConstraint);
    Regrouped5(prefix, ViewSpec.Loops(gens), Constraints.Guard(conds.value), body.value,
               Ends(|gens| + |Constraints.Guard(conds.value)|));
  }

  lemma Regrouped3(a: seq<Stmt>, b: seq<Stmt>, c: seq<Stmt>)
    ensures a + b + c == a + (b + c)
  {
  }

  lemma Regrouped(a: seq<Stmt>, b: seq<Stmt>, c: seq<Stmt>, d: seq<Stmt>)
    ensures a + b + c + d == a + (b + c + d)
  {
  }

  lemma Regrouped5(a: seq<Stmt>, b: seq<Stmt>, c: seq<Stmt>, d: seq<Stmt>, e: seq<Stmt>)
    ensures a + b + c + d + e == a + (b + c + d + e)
  {
  }

  /** A head item that cannot be visited makes the whole head fail. */
  lemma {:induction false} AccessedAllPrefixNone(es: seq<Expr>, k: nat)
    requires k <= |es| && ViewSpec.AccessedAll(es[..k]).None?
    ensures ViewSpec.HeadItems(es).None?
    decreases |es|
  {
    if k < |es| {
      var init := es[..|es| - 1];
      assert init[..k] == es[..k];
      AccessedAllPrefixNone(init, k);
    } else {
      assert es[..k] == es;
    }
  }

  /** One more head item: its slot is recorded, then it is lowered against the table as it now is. */
  lemma HeadAccessNext(env: Lowering.Env, view: string, items: seq<Column>, i: nat)
    requires i < |items| && ViewSpec.HeadAccess(env, view, items[..i]).Ok?
    ensures var prev := ViewSpec.HeadAccess(env, view, items[..i]).value;
            var recorded := RecordField(ViewSpec.SlotsOf(prev.1, Upper(view)), prev.2, ViewSpec.HeadKey(items[i]));
            var fi := prev.1[Upper(view) := recorded.0];
            var t := Lowering.ExprToStr(env.(viewToFieldIndex := fi), ColumnIdentifier(items[i]), true, None);
            ViewSpec.HeadAccess(env, view, items[..i + 1])
            == if t.Err? then Err(t.error) else Ok((prev.0 + [t.value], fi, recorded.1))
  {
    assert items[..i + 1][..i] == items[..i];
  }

  /** One more head item's access, from the slots and counter the accesses before it left. */
  lemma HeadAccessAdvance(env: Lowering.Env, view: string, items: seq<Column>, i: nat, fields: seq<TExpr>,
                          fi: Lowering.FieldIndexTable, fieldIndex: nat, t: Result<TExpr>, next: nat,
                          fi2: Lowering.FieldIndexTable)
    requires i < |items| && ViewSpec.HeadAccess(env, view, items[..i]) == Ok((fields, fi, fieldIndex))
    requires var recorded := RecordField(ViewSpec.SlotsOf(fi, Upper(view)), fieldIndex, ViewSpec.HeadKey(items[i]));
             fi2 == fi[Upper(view) := recorded.0] && next == recorded.1
    requires t == Lowering.ExprToStr(env.(viewToFieldIndex := fi2), ColumnIdentifier(items[i]), true, None)
    ensures t.Err? ==> ViewSpec.HeadAccess(env, view, items) == Err(t.error)
    ensures t.Ok? ==> ViewSpec.HeadAccess(env, view, items[..i + 1]) == Ok((fields + [t.value], fi2, next))
  {
    HeadAccessNext(env, view, items, i);
    if t.Err? {
      HeadAccessPrefixErr(env, view, items, i + 1);
    }
  }

  /** The first head item whose access fails ends the head's accesses with its exception. */
  lemma {:induction false} HeadAccessPrefixErr(env: Lowering.Env, view: string, items: seq<Column>, k: nat)
    requires k <= |items| && ViewSpec.HeadAccess(env, view, items[..k]).Err?
    ensures ViewSpec.HeadAccess(env, view, items) == ViewSpec.HeadAccess(env, view, items[..k])
    decreases |items|
  {
    if k < |items| {
      var init := items[..|items| - 1];
      assert init[..k] == items[..k];
      HeadAccessPrefixErr(env, view, init, k);
    } else {
      assert items[..k] == items;
    }
  }

  lemma {:induction false} TablesDeclsPrefixErr(tables: seq<Table>, k: nat)
    requires k <= |tables| && ArrayDeclarations.TablesDecls(tables[..k]).Err?
    ensures ArrayDeclarations.TablesDecls(tables) == ArrayDeclarations.TablesDecls(tables[..k])
    decreases |tables|
  {
    if k < |tables| {
      var init := tables[..|tables| - 1];
      assert init[..k] == tables[..k];
      TablesDeclsPrefixErr(init, k);
    } else {
      assert tables[..k] == tables;
    }
  }

  lemma {:induction false} PairDifferencesPrefixErr(env: Lowering.Env, tableName: string, keys: seq<Field>, k: nat)
    requires k <= |keys| && ArrayDeclarations.PairDifferences(env, tableName, keys[..k]).Err?
    ensures ArrayDeclarations.PairDifferences(env, tableName, keys)
            == ArrayDeclarations.PairDifferences(env, tableName, keys[..k])
    decreases |keys|
  {
    if k < |keys| {
      var init := keys[..|keys| - 1];
      assert init[..k] == keys[..k];
      PairDifferencesPrefixErr(env, tableName, init, k);
    } else {
      assert keys[..k] == keys;
    }
  }

  lemma {:induction false} ForeignKeyStmtsPrefixErr(t: Table, fks: seq<ForeignKey>, counter: nat, k: nat)
    requires k <= |fks|
    requires ArrayDeclarations.ForeignKeyStmtsWith(t, fks[..k], counter, ArrayDeclarations.ChildTableRows).Err?
    ensures ArrayDeclarations.ForeignKeyStmtsWith(t, fks, counter, ArrayDeclarations.ChildTableRows)
            == ArrayDeclarations.ForeignKeyStmtsWith(t, fks[..k], counter, ArrayDeclarations.ChildTableRows)
    decreases |fks|
  {
    if k < |fks| {
      var init := fks[..|fks| - 1];
      assert init[..k] == fks[..k];
      ForeignKeyStmtsPrefixErr(t, init, counter, k);
    } else {
      assert fks[..k] == fks;
    }
  }

  lemma {:induction false} TablesKeysPrefixErr(env: Lowering.Env, tables: seq<Table>, counter: nat, k: nat)
    requires k <= |tables| && ArrayDeclarations.TablesKeys(env, tables[..k], counter).Err?
    ensures ArrayDeclarations.TablesKeys(env, tables, counter) == ArrayDeclarations.TablesKeys(env, tables[..k], counter)
    decreases |tables|
  {
    if k < |tables| {
      var init := tables[..|tables| - 1];
      assert init[..k] == tables[..k];
      TablesKeysPrefixErr(env, init, counter, k);
    } else {
      assert tables[..k] == tables;
    }
  }

  /** generateModelCode's steps, each of which may fail. */
  lemma ModelStmtsCases(env: Lowering.Env, counter: nat, tables: seq<Table>, nonConstraintViews: seq<(string, Expr)>,
                        constraintViews: seq<(string, Expr)>, isVarQualifier: Expr -> bool, rewriteArity: Expr -> Expr)
    requires ModelCode.ViewsSubqueryFree(nonConstraintViews, rewriteArity)
    requires ModelCode.ViewsSubqueryFree(constraintViews, rewriteArity)
    ensures var arrays := ArrayDeclarations.ArrayDecls(env, tables, counter);
            ModelCode.ModelStmts(env, counter, tables, nonConstraintViews, constraintViews, isVarQualifier, rewriteArity)
            == if arrays.Err? then Err(arrays.error)
               else
                 var env1 := env.(tableToFieldToType := arrays.value.1);
                 var plain := ModelCode.Views(env1, arrays.value.2, nonConstraintViews, false, isVarQualifier,
                                              rewriteArity);
                 if plain.Err? then Err(plain.error)
                 else
                   var constrained := ModelCode.Views(env1.(viewToFieldIndex := plain.value.1), plain.value.2,
                                                      constraintViews, true, isVarQualifier, rewriteArity);
                   if constrained.Err? then Err(constrained.error)
                   else Ok(ModelCode.Initializer + arrays.value.0 + plain.value.0 + constrained.value.0
                           + SolvePhase.SolvePhaseStmts(tables, constrained.value.2).0)
  {
  }

  /** The views' fold has done the first i views, which gave `emitted`, `vfi` and `counter1`. */
  ghost predicate ViewsSoFar(env: Lowering.Env, counter: nat, views: seq<(string, Expr)>, i: nat, isConstraint: bool,
                             isVarQualifier: Expr -> bool, rewriteArity: Expr -> Expr, emitted: seq<Stmt>,
                             vfi: Lowering.FieldIndexTable, counter1: nat)
  {
    ModelCode.ViewsSubqueryFree(views, rewriteArity) && i <= |views|
    && ModelCode.ViewsSubqueryFree(views[..i], rewriteArity)
    && ModelCode.Views(env, counter, views[..i], isConstraint, isVarQualifier, rewriteArity)
       == Ok((emitted, vfi, counter1))
  }

  /** What AddRewrittenView promised about the i-th view takes the fold one view further, or ends it. */
  lemma ViewsAdvance(env: Lowering.Env, counter: nat, views: seq<(string, Expr)>, i: nat, isConstraint: bool,
                     isVarQualifier: Expr -> bool, rewriteArity: Expr -> Expr, emitted: seq<Stmt>,
                     vfi: Lowering.FieldIndexTable, counter1: nat, r: Result<()>, s0: seq<Stmt>, s1: seq<Stmt>,
                     s2: seq<Stmt>, vfi2: Lowering.FieldIndexTable, counter2: nat)
    returns (emitted2: seq<Stmt>)
    requires ViewsSoFar(env, counter, views, i, isConstraint, isVarQualifier, rewriteArity, emitted, vfi, counter1)
    requires i < |views| && s1 == s0 + emitted
    requires ModelCode.IsComprehension(views[i].1)
    requires (ModelCode.Rewritten(views[i].1, rewriteArity).Ok? ==>
                ViewSpec.ViewSubqueryFree(ModelCode.Rewritten(views[i].1, rewriteArity).value)) ==>
               var spec := ModelCode.RewrittenView(env.(viewToFieldIndex := vfi), counter1, views[i],
                                                   isConstraint, isVarQualifier, rewriteArity);
               SameOutcome(r, spec)
               && (r.Ok? ==> s2 == s1 + spec.value.0 && vfi2 == spec.value.1 && counter2 == spec.value.2)
    ensures r.Ok? ==> ViewsSoFar(env, counter, views, i + 1, isConstraint, isVarQualifier, rewriteArity, emitted2,
                                 vfi2, counter2)
                      && s2 == s0 + emitted2
    ensures r.Err? ==> SameOutcome(r, ModelCode.Views(env, counter, views, isConstraint, isVarQualifier, rewriteArity))
  {
    var step := ViewsNext(env, counter, views, i, isConstraint, isVarQualifier, rewriteArity, emitted, vfi, counter1);
    if r.Err? {
      ViewsPrefixErr(env, counter, views, i + 1, isConstraint, isVarQualifier, rewriteArity);
      emitted2 := emitted;
    } else {
      Regrouped3(s0, emitted, step.value.0);
      emitted2 := emitted + step.value.0;
    }
  }

  /** The i-th step of the views' fold, after the views before it gave `emitted`, `vfi` and `counter1`. */
  lemma ViewsNext(env: Lowering.Env, counter: nat, views: seq<(string, Expr)>, i: nat, isConstraint: bool,
                  isVarQualifier: Expr -> bool, rewriteArity: Expr -> Expr, emitted: seq<Stmt>,
                  vfi: Lowering.FieldIndexTable, counter1: nat)
    returns (step: Result<(seq<Stmt>, Lowering.FieldIndexTable, nat)>)
    requires ModelCode.ViewsSubqueryFree(views, rewriteArity) && i < |views|
    requires ModelCode.ViewsSubqueryFree(views[..i], rewriteArity)
    requires ModelCode.Views(env, counter, views[..i], isConstraint, isVarQualifier, rewriteArity)
             == Ok((emitted, vfi, counter1))
    ensures ModelCode.IsComprehension(views[i].1)
    ensures ModelCode.Rewritten(views[i].1, rewriteArity).Ok? ==>
              ViewSpec.ViewSubqueryFree(ModelCode.Rewritten(views[i].1, rewriteArity).value)
    ensures step == ModelCode.RewrittenView(env.(viewToFieldIndex := vfi), counter1, views[i], isConstraint,
                                            isVarQualifier, rewriteArity)
    ensures ModelCode.ViewsSubqueryFree(views[..i + 1], rewriteArity)
    ensures ModelCode.Views(env, counter, views[..i + 1], isConstraint, isVarQualifier, rewriteArity)
            == if step.Err? then Err(step.error) else Ok((emitted + step.value.0, step.value.1, step.value.2))
  {
    assert views[..i + 1][..i] == views[..i];
    assert forall j :: 0 <= j <= i ==> views[..i + 1][j] == views[j];
    step := ModelCode.RewrittenView(env.(viewToFieldIndex := vfi), counter1, views[i], isConstraint,
                                    isVarQualifier, rewriteArity);
  }

  lemma {:induction false} ViewsPrefixErr(env: Lowering.Env, counter: nat, views: seq<(string, Expr)>, k: nat,
                                          isConstraint: bool, isVarQualifier: Expr -> bool, rewriteArity: Expr -> Expr)
    requires ModelCode.ViewsSubqueryFree(views, rewriteArity) && k <= |views|
    requires ModelCode.ViewsSubqueryFree(views[..k], rewriteArity)
    requires ModelCode.Views(env, counter, views[..k], isConstraint, isVarQualifier, rewriteArity).Err?
    ensures ModelCode.Views(env, counter, views, isConstraint, isVarQualifier, rewriteArity)
            == ModelCode.Views(env, counter, views[..k], isConstraint, isVarQualifier, rewriteArity)
    decreases |views|
  {
    if k < |views| {
      var init := views[..|views| - 1];
      assert init[..k] == views[..k];
      assert forall j :: 0 <= j < |init| ==> init[j] == views[j];
      ViewsPrefixErr(env, counter, init, k, isConstraint, isVarQualifier, rewriteArity);
    } else {
      assert views[..k] == views;
    }
  }

  // One step of each fold the loops above run, stated on the prefix the loop has done.

  lemma RecordColumnTypesNext(types: ArrayDeclarations.TypeTable, tableName: string, cols: seq<Field>, j: nat)
    requires j < |cols|
    ensures ArrayDeclarations.RecordColumnTypes(types, tableName, cols[..j + 1])
            == ArrayDeclarations.RecordColumnType(ArrayDeclarations.RecordColumnTypes(types, tableName, cols[..j]),
                                                  tableName, cols[j])
  {
    assert cols[..j + 1][..j] == cols[..j];
  }

  lemma VarArraysNext(tableName: string, cols: seq<Field>, j: nat)
    requires j < |cols|
    ensures ArrayDeclarations.VarArrays(tableName, cols[..j + 1])
            == ArrayDeclarations.VarArrays(tableName, cols[..j])
               + (if cols[j].controllable then [ArrayDeclarations.VarArray(tableName, cols[j])] else [])
  {
    assert cols[..j + 1][..j] == cols[..j];
  }

  lemma TablesDeclsNext(types: ArrayDeclarations.TypeTable, tables: seq<Table>, i: nat)
    requires i < |tables|
    ensures ArrayDeclarations.TablesTypes(types, tables[..i + 1])
            == if IsBaseTable(tables[i])
               then ArrayDeclarations.RecordColumnTypes(ArrayDeclarations.TablesTypes(types, tables[..i]),
                                                        tables[i].name, tables[i].columns)
               else ArrayDeclarations.TablesTypes(types, tables[..i])
    ensures var prev := ArrayDeclarations.TablesDecls(tables[..i]);
            var decl := ArrayDeclarations.TableDecl(tables[i]);
            ArrayDeclarations.TablesDecls(tables[..i + 1])
            == if prev.Err? || !IsBaseTable(tables[i]) then prev
               else if decl.Err? then Err(decl.error)
               else Ok(prev.value + decl.value)
  {
    assert tables[..i + 1][..i] == tables[..i];
  }

  lemma PairDifferencesNext(env: Lowering.Env, tableName: string, keys: seq<Field>, j: nat)
    requires j < |keys|
    ensures var prev := ArrayDeclarations.PairDifferences(env, tableName, keys[..j]);
            var left := Lowering.FieldNameStrWithIter(env, tableName, keys[j].name, "i");
            var right := Lowering.FieldNameStrWithIter(env, tableName, keys[j].name, "j");
            ArrayDeclarations.PairDifferences(env, tableName, keys[..j + 1])
            == if prev.Err? || !keys[j].controllable then prev
               else if left.Err? then Err(left.error)
               else Ok(prev.value + [AddConstraint("addDifferent", left.value, right.value)])
  {
    assert keys[..j + 1][..j] == keys[..j];
  }

  lemma ForeignKeyStmtsNext(t: Table, fks: seq<ForeignKey>, counter: nat, j: nat)
    requires j < |fks|
    ensures var prev := ArrayDeclarations.ForeignKeyStmtsWith(t, fks[..j], counter, ArrayDeclarations.ChildTableRows);
            ArrayDeclarations.ForeignKeyStmtsWith(t, fks[..j + 1], counter, ArrayDeclarations.ChildTableRows)
            == if prev.Err? || !fks[j].hasConstraint then prev
               else if |fks[j].links| != 1 then Err(IllegalArgument)
               else Ok((prev.value.0 + ArrayDeclarations.ForeignKeyBlock(t, fks[j].links[0],
                                                                         IndexVarName(prev.value.1 + 1),
                                                                         t.name),
                        prev.value.1 + 1))
  {
    assert fks[..j + 1][..j] == fks[..j];
  }

  lemma TablesKeysNext(env: Lowering.Env, tables: seq<Table>, counter: nat, i: nat, emitted: seq<Stmt>, counter1: nat)
    returns (step: Result<(seq<Stmt>, nat)>)
    requires i < |tables|
    requires ArrayDeclarations.TablesKeys(env, tables[..i], counter) == Ok((emitted, counter1))
    ensures step == ArrayDeclarations.KeyStmts(env, tables[i], counter1)
    ensures ArrayDeclarations.TablesKeys(env, tables[..i + 1], counter)
            == if !IsBaseTable(tables[i]) then Ok((emitted, counter1))
               else if step.Err? then Err(step.error)
               else Ok((emitted + step.value.0, step.value.1))
  {
    assert tables[..i + 1][..i] == tables[..i];
    step := ArrayDeclarations.KeyStmts(env, tables[i], counter1);
  }

  lemma ColumnsStmtsNext(tableName: string, cols: seq<Field>, counter: nat, j: nat)
    requires j < |cols|
    ensures var prev := SolvePhase.ColumnsStmts(tableName, cols[..j], counter);
            SolvePhase.ColumnsStmts(tableName, cols[..j + 1], counter)
            == if cols[j].controllable
               then (prev.0 + SolvePhase.ColumnBlock(tableName, cols[j], prev.1 + 1), prev.1 + 1)
               else prev
  {
    assert cols[..j + 1][..j] == cols[..j];
  }

  lemma TablesStmtsNext(tables: seq<Table>, counter: nat, i: nat)
    requires i < |tables|
    ensures var prev := SolvePhase.TablesStmts(tables[..i], counter);
            var next := SolvePhase.TableStmts(tables[i], prev.1);
            SolvePhase.TablesStmts(tables[..i + 1], counter) == (prev.0 + next.0, next.1)
  {
    assert tables[..i + 1][..i] == tables[..i];
  }
}
