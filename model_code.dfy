/**
 * generateModelCode: the whole `solve()` method of the generated backend. The model is created,
 * the tables' arrays and key constraints are declared, every non-constraint view and then
 * every constraint view is rewritten (count functions, then arities) and lowered, and the
 * solve phase hands the solved tables back.
 */
module ModelCode {
  import opened Wrappers
  import opened Monoid
  import opened Target
  import opened Catalog
  import opened Lowering
  import ViewSpec
  import ArrayDeclarations
  import SolvePhase
  import RewriteCountFunction

  /** What addInitializer emits. */
  const Initializer: seq<Stmt> := [Comment("Create the model."), CreateModel]

  /** The rewrite pipeline: RewriteCountFunction, then RewriteArity. */
  function Rewritten(comp: Expr, rewriteArity: Expr -> Expr): Result<Expr>
    requires IsComprehension(comp)
  {
    var counted :- RewriteCountFunction.Apply(comp);
    Ok(rewriteArity(counted))
  }

  predicate IsComprehension(e: Expr)
  {
    e.MonoidComprehension? || e.GroupByComprehension?
  }

  /** Every view is a comprehension, and one that survives the rewrite pipeline has no subqueries. */
  predicate ViewsSubqueryFree(views: seq<(string, Expr)>, rewriteArity: Expr -> Expr)
  {
    forall i :: 0 <= i < |views| ==>
      IsComprehension(views[i].1)
      && (Rewritten(views[i].1, rewriteArity).Ok? ==>
            ViewSpec.ViewSubqueryFree(Rewritten(views[i].1, rewriteArity).value))
  }

  /**
   * One forEach of generateModelCode: the views in order, each rewritten and then lowered by
   * addView. The statements, the field-index table and the intermediate-view counter.
   */
  function Views(env: Env, counter: nat, views: seq<(string, Expr)>, isConstraint: bool,
                 isVarQualifier: Expr -> bool, rewriteArity: Expr -> Expr): Result<(seq<Stmt>, FieldIndexTable, nat)>
    requires ViewsSubqueryFree(views, rewriteArity)
  {
    if views == [] then Ok(([], env.viewToFieldIndex, counter))
    else
      var prev :- Views(env, counter, views[..|views| - 1], isConstraint, isVarQualifier, rewriteArity);
      var view :- RewrittenView(env.(viewToFieldIndex := prev.1), prev.2, views[|views| - 1], isConstraint,
                                isVarQualifier, rewriteArity);
      Ok((prev.0 + view.0, view.1, view.2))
  }

  /** One view of the forEach: the rewrite pipeline, then addView. */
  function RewrittenView(env: Env, counter: nat, view: (string, Expr), isConstraint: bool,
                         isVarQualifier: Expr -> bool, rewriteArity: Expr -> Expr)
    : Result<(seq<Stmt>, FieldIndexTable, nat)>
    requires IsComprehension(view.1)
    requires Rewritten(view.1, rewriteArity).Ok? ==> ViewSpec.ViewSubqueryFree(Rewritten(view.1, rewriteArity).value)
  {
    var comp :- Rewritten(view.1, rewriteArity);
    ViewSpec.View(env, counter, view.0, comp, isConstraint, isVarQualifier)
  }

  lemma {:induction false} ViewsBalanced(env: Env, counter: nat, views: seq<(string, Expr)>, isConstraint: bool,
                                         isVarQualifier: Expr -> bool, rewriteArity: Expr -> Expr)
    requires ViewsSubqueryFree(views, rewriteArity)
    requires Views(env, counter, views, isConstraint, isVarQualifier, rewriteArity).Ok?
    ensures Balanced(Views(env, counter, views, isConstraint, isVarQualifier, rewriteArity).value.0)
  {
    if views != [] {
      var last := views[|views| - 1];
      var init := views[..|views| - 1];
      ViewsBalanced(env, counter, init, isConstraint, isVarQualifier, rewriteArity);
      var prev := Views(env, counter, init, isConstraint, isVarQualifier, rewriteArity).value;
      assert last in views;
      var comp := Rewritten(last.1, rewriteArity).value;
      ViewSpec.ViewBalanced(env.(viewToFieldIndex := prev.1), prev.2, last.0, comp, isConstraint, isVarQualifier);
      AppendBalanced(prev.0, ViewSpec.View(env.(viewToFieldIndex := prev.1), prev.2, last.0, comp, isConstraint,
                                           isVarQualifier).value.0);
    }
  }

  /**
   * Everything generateModelCode puts in `solve()`: the initializer, the array declarations,
   * the non-constraint views, the constraint views and the solve phase. The intermediate-view
   * counter runs on from the key constraints through the views into the solve phase, and the
   * field-index table from the non-constraint views into the constraint views.
   */
  function ModelStmts(env: Env, counter: nat, tables: seq<Table>, nonConstraintViews: seq<(string, Expr)>,
                      constraintViews: seq<(string, Expr)>, isVarQualifier: Expr -> bool,
                      rewriteArity: Expr -> Expr): Result<seq<Stmt>>
    requires ViewsSubqueryFree(nonConstraintViews, rewriteArity) && ViewsSubqueryFree(constraintViews, rewriteArity)
  {
    var arrays :- ArrayDeclarations.ArrayDecls(env, tables, counter);
    var env1 := env.(tableToFieldToType := arrays.1);
    var plain :- Views(env1, arrays.2, nonConstraintViews, false, isVarQualifier, rewriteArity);
    var constrained :- Views(env1.(viewToFieldIndex := plain.1), plain.2, constraintViews, true, isVarQualifier,
                             rewriteArity);
    Ok(Initializer + arrays.0 + plain.0 + constrained.0 + SolvePhase.SolvePhaseStmts(tables, constrained.2).0)
  }

  /** The generated `solve()` method opens no block it does not close, and closes none it did not open. */
  lemma ModelStmtsBalanced(env: Env, counter: nat, tables: seq<Table>, nonConstraintViews: seq<(string, Expr)>,
                           constraintViews: seq<(string, Expr)>, isVarQualifier: Expr -> bool,
                           rewriteArity: Expr -> Expr)
    requires ViewsSubqueryFree(nonConstraintViews, rewriteArity) && ViewsSubqueryFree(constraintViews, rewriteArity)
    requires ModelStmts(env, counter, tables, nonConstraintViews, constraintViews, isVarQualifier, rewriteArity).Ok?
    ensures Balanced(ModelStmts(env, counter, tables, nonConstraintViews, constraintViews, isVarQualifier,
                                rewriteArity).value)
  {
    var arrays := ArrayDeclarations.ArrayDecls(env, tables, counter).value;
    var env1 := env.(tableToFieldToType := arrays.1);
    var plain := Views(env1, arrays.2, nonConstraintViews, false, isVarQualifier, rewriteArity).value;
    var constrained := Views(env1.(viewToFieldIndex := plain.1), plain.2, constraintViews, true, isVarQualifier,
                             rewriteArity).value;
    var solve := SolvePhase.SolvePhaseStmts(tables, constrained.2).0;
    FlatBalanced(Initializer);
    ArrayDeclarations.ArrayDeclsBalanced(env, tables, counter);
    ViewsBalanced(env1, arrays.2, nonConstraintViews, false, isVarQualifier, rewriteArity);
    ViewsBalanced(env1.(viewToFieldIndex := plain.1), plain.2, constraintViews, true, isVarQualifier, rewriteArity);
    AppendBalanced(Initializer, arrays.0);
    AppendBalanced(Initializer + arrays.0, plain.0);
    AppendBalanced(Initializer + arrays.0 + plain.0, constrained.0);
    AppendBalanced(Initializer + arrays.0 + plain.0 + constrained.0, solve);
  }
}
