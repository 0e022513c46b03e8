/**
 * What a view's qualifiers become once lowered, for qualifiers without subqueries: the guard
 * of the nested loops (maybeAddNonVarFilters) and the per-row constraints of a constraint view
 * (topLevelConstraint, maybeWrapped).
 */
module Constraints {
  import opened Wrappers
  import opened Monoid
  import opened Target
  import opened Lowering

  /** The comparison operators a top-level constraint accepts, and the CpModel method each calls. */
  const ConstraintMethods: map<string, string> :=
    map["==" := "addEquality", "!=" := "addDifferent", "<=" := "addLessOrEqual", "<" := "addLessThan",
        ">=" := "addGreaterOrEqual", ">" := "addGreaterThan"]

  /** A lowered operand, wrapped in `model.newConstant` unless it is an IntVar. */
  function Wrap(isIntVar: bool, lowered: TExpr): (r: TExpr)
    requires !lowered.NewConstant?
    ensures r.NewConstant? <==> !isIntVar
    ensures r.NewConstant? ==> r.argument == lowered
    ensures !r.NewConstant? ==> r == lowered
  {
    if isIntVar then lowered else NewConstant(lowered)
  }

  predicate AllSubqueryFree(es: seq<Expr>)
  {
    forall i :: 0 <= i < |es| ==> SubqueryFree(es[i])
  }

  /** `maybeWrapped`. */
  function MaybeWrapped(env: Env, e: Expr): (r: Result<TExpr>)
    requires SubqueryFree(e)
    ensures r.Err? <==> ExprToStr(env, e, true, None).Err?
    ensures r.Ok? ==> r.value == Wrap(env.isIntVar(e), ExprToStr(env, e, true, None).value)
  {
    var lowered :- ExprToStr(env, e, true, None);
    Ok(Wrap(env.isIntVar(e), lowered))
  }

  /** `topLevelConstraint`: the statements a where-predicate of a constraint view becomes. */
  function TopLevelConstraint(env: Env, pred: Expr): (r: Result<seq<Stmt>>)
    requires SubqueryFree(pred)
    ensures r.Ok? ==> Balanced(r.value)
  {
    if !pred.BinaryOperatorPredicate? then Err(IllegalArgument)
    else if pred.operator == "in" then
      var values :- ExprToStr(env, pred.right, true, None);
      var left :- MaybeWrapped(env, pred.left);
      FlatBalanced([DomainFromView(values), LinearExpressionInDomain(left)]);
      Ok([DomainFromView(values), LinearExpressionInDomain(left)])
    else if pred.operator in ConstraintMethods then
      var left :- MaybeWrapped(env, pred.left);
      var right :- MaybeWrapped(env, pred.right);
      FlatBalanced([AddConstraint(ConstraintMethods[pred.operator], left, right)]);
      Ok([AddConstraint(ConstraintMethods[pred.operator], left, right)])
    else
      Err(UnsupportedOperation(""))
  }

  /**
   * What a where-predicate becomes: only a binary operator is accepted, and only `in` or one of
   * the comparisons CpModel has a method for; a comparison is one CpModel call over the two
   * operands, `x in (values)` a domain then x restricted to it, and an operand that is not an
   * IntVar is wrapped in a constant.
   */
  lemma TopLevelConstraintShape(env: Env, pred: Expr)
    requires SubqueryFree(pred)
    ensures var r := TopLevelConstraint(env, pred);
            (!pred.BinaryOperatorPredicate? ==> r == Err(IllegalArgument))
            && (pred.BinaryOperatorPredicate? && pred.operator != "in" && pred.operator !in ConstraintMethods ==>
                  r == Err(UnsupportedOperation("")))
            && (r.Ok? && pred.operator in ConstraintMethods ==>
                  |r.value| == 1 && r.value[0].AddConstraint?
                  && r.value[0].call == ConstraintMethods[pred.operator]
                  && (r.value[0].left.NewConstant? <==> !env.isIntVar(pred.left))
                  && (r.value[0].right.NewConstant? <==> !env.isIntVar(pred.right)))
            && (r.Ok? && pred.operator == "in" ==>
                  |r.value| == 2 && r.value[0].DomainFromView? && r.value[1].LinearExpressionInDomain?
                  && (r.value[1].e.NewConstant? <==> !env.isIntVar(pred.left)))
  {
  }

  /** The constraints of a sequence of where-predicates, in order; the first failure wins. */
  function TopLevelConstraints(env: Env, preds: seq<Expr>): (r: Result<seq<Stmt>>)
    requires AllSubqueryFree(preds)
    ensures r.Ok? ==> Balanced(r.value)
  {
    if preds == [] then Ok([])
    else
      var first :- TopLevelConstraint(env, preds[0]);
      var rest :- TopLevelConstraints(env, preds[1..]);
      AppendBalanced(first, rest);
      Ok(first + rest)
  }

  /** The constraints of a stream of predicates exist exactly when each predicate's constraint does. */
  lemma {:induction false} TopLevelConstraintsSucceedIff(env: Env, preds: seq<Expr>)
    requires AllSubqueryFree(preds)
    ensures TopLevelConstraints(env, preds).Ok? <==> forall i :: 0 <= i < |preds| ==> TopLevelConstraint(env, preds[i]).Ok?
  {
    if preds != [] {
      assert AllSubqueryFree(preds[1..]) by {
        forall i | 0 <= i < |preds[1..]| ensures SubqueryFree(preds[1..][i]) {
          assert preds[1..][i] == preds[i + 1];
        }
      }
      TopLevelConstraintsSucceedIff(env, preds[1..]);
      forall i | 1 <= i < |preds|
        ensures TopLevelConstraint(env, preds[i]) == TopLevelConstraint(env, preds[1..][i - 1])
      {
        assert preds[1..][i - 1] == preds[i];
      }
    }
  }

  /**
   * Lowering each of `preds`, in order, through exprToStr (a stream of predicates, or the select
   * expressions of a group-by view in its group); the first failure wins.
   */
  function LowerAll(env: Env, preds: seq<Expr>, allowControllable: bool, group: Option<GroupContext>)
    : (r: Result<seq<TExpr>>)
    requires AllSubqueryFree(preds)
    ensures r.Ok? ==> |r.value| == |preds|
  {
    if preds == [] then Ok([])
    else
      var first :- ExprToStr(env, preds[0], allowControllable, group);
      var rest :- LowerAll(env, preds[1..], allowControllable, group);
      Ok([first] + rest)
  }

  /** LowerAll succeeds exactly when every expression lowers, and then holds each one's lowering. */
  lemma {:induction false} LowerAllElementwise(env: Env, preds: seq<Expr>, allowControllable: bool,
                                               group: Option<GroupContext>)
    requires AllSubqueryFree(preds)
    ensures var r := LowerAll(env, preds, allowControllable, group);
            r.Ok? <==> forall i :: 0 <= i < |preds| ==> ExprToStr(env, preds[i], allowControllable, group).Ok?
    ensures var r := LowerAll(env, preds, allowControllable, group);
            r.Ok? ==> forall i :: 0 <= i < |preds| ==>
                        r.value[i] == ExprToStr(env, preds[i], allowControllable, group).value
  {
    if preds != [] {
      assert AllSubqueryFree(preds[1..]) by {
        forall i | 0 <= i < |preds[1..]| ensures SubqueryFree(preds[1..][i]) {
          assert preds[1..][i] == preds[i + 1];
        }
      }
      LowerAllElementwise(env, preds[1..], allowControllable, group);
      forall i | 1 <= i < |preds|
        ensures ExprToStr(env, preds[i], allowControllable, group) == ExprToStr(env, preds[1..][i - 1], allowControllable, group)
      {
        assert preds[1..][i - 1] == preds[i];
      }
    }
  }

  /**
   * `maybeAddNonVarFilters`' conditions: the join predicates, then (in a non-constraint view
   * only) the where predicates.
   */
  function FilterConditions(env: Env, joins: seq<Expr>, wheres: seq<Expr>, isConstraint: bool): (r: Result<seq<TExpr>>)
    requires AllSubqueryFree(joins) && AllSubqueryFree(wheres)
    ensures r.Ok? ==> |r.value| == |joins| + (if isConstraint then 0 else |wheres|)
  {
    var js :- LowerAll(env, joins, false, None);
    var ws :- if isConstraint then Ok([]) else LowerAll(env, wheres, false, None);
    Ok(js + ws)
  }

  /** The guard statement: an `if` over all conditions, or nothing when there are none. */
  function Guard(conditions: seq<TExpr>): (r: seq<Stmt>)
    ensures |r| == (if conditions == [] then 0 else 1)
    ensures Depth(r) == |r| && NeverBelowZero(r)
  {
    if conditions == [] then [] else [BeginIf(conditions)]
  }

  /** A loop guard never reads a decision variable: controllable columns are refused in it. */
  lemma GuardsReadNoVariable(env: Env, joins: seq<Expr>, wheres: seq<Expr>, isConstraint: bool)
    requires AllSubqueryFree(joins) && AllSubqueryFree(wheres)
    requires FilterConditions(env, joins, wheres, isConstraint).Ok?
    ensures forall t :: t in FilterConditions(env, joins, wheres, isConstraint).value ==> !MentionsVar(t)
  {
    LowerAllElementwise(env, joins, false, None);
    var js := LowerAll(env, joins, false, None).value;
    forall i | 0 <= i < |joins| ensures !MentionsVar(js[i]) {
      LowerWithoutControllableMentionsNoVar(env, joins[i], None, false);
    }
    if !isConstraint {
      LowerAllElementwise(env, wheres, false, None);
      var ws := LowerAll(env, wheres, false, None).value;
      forall i | 0 <= i < |wheres| ensures !MentionsVar(ws[i]) {
        LowerWithoutControllableMentionsNoVar(env, wheres[i], None, false);
      }
    }
  }
}
