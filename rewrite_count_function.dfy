/**
 * RewriteCountFunction: every `count(column)` aggregate becomes `sum(1)`, keeping its alias.
 * The traversal is ComprehensionRewriter's default one, which rebuilds every node from its
 * rewritten children (head select expressions, qualifiers, operands and arguments) and leaves
 * column identifiers, literals, row generators and group-by qualifiers as they are.
 */
module RewriteCountFunction {
  import opened Wrappers
  import opened Text
  import opened Monoid

  predicate IsCount(functionName: string)
  {
    EqualsIgnoreCase(functionName, "count")
  }

  /** The replacement node: `sum` over the literal 1, carrying the original alias. */
  function SumOfOne(alias: Option<string>): Expr
  {
    MonoidFunction("sum", MonoidLiteral(IntValue(1), None), alias)
  }

  /** `CountRewriter.visit(e)`. */
  function Rewrite(e: Expr): Result<Expr>
    decreases Size(e), 1
  {
    match e
    case MonoidFunction(name, arg, alias) =>
      if IsCount(name) then
        if !arg.ColumnIdentifier? then
          Err(IllegalState("RewriteCountFunction is only safe to use on column identifiers"))
        else
          Ok(SumOfOne(alias))
      else
        var a :- Rewrite(arg);
        Ok(MonoidFunction(name, a, alias))
    case BinaryOperatorPredicate(k, op, l, r, alias) =>
      var l' :- Rewrite(l);
      var r' :- Rewrite(r);
      Ok(BinaryOperatorPredicate(k, op, l', r', alias))
    case ExistsPredicate(a) =>
      var a' :- Rewrite(a);
      Ok(ExistsPredicate(a'))
    case MonoidComprehension(h, qs) =>
      var h' :- RewriteHead(h);
      var qs' :- RewriteAll(qs);
      Ok(MonoidComprehension(h', qs'))
    case GroupByComprehension(h, qs, g) =>
      var h' :- RewriteHead(h);
      var qs' :- RewriteAll(qs);
      Ok(GroupByComprehension(h', qs', g))
    case _ => Ok(e)
  }

  function RewriteHead(h: Option<Head>): Result<Option<Head>>
    decreases HeadSize(h), 3
  {
    match h
    case None => Ok(None)
    case Some(hd) =>
      var es :- RewriteAll(hd.selectExprs);
      Ok(Some(Head(es)))
  }

  function RewriteAll(es: seq<Expr>): Result<seq<Expr>>
    decreases SizeAll(es), 2
  {
    if es == [] then Ok([])
    else
      SizeAllElement(es, 0);
      var e0 :- Rewrite(es[0]);
      var rest :- RewriteAll(es[1..]);
      Ok([e0] + rest)
  }

  /**
   * `RewriteCountFunction.apply`: rewrites a (possibly grouped) comprehension; the result is
   * again a comprehension of the same kind, since it is cast back to MonoidComprehension.
   */
  function Apply(comprehension: Expr): (r: Result<Expr>)
    requires comprehension.MonoidComprehension? || comprehension.GroupByComprehension?
    ensures r.Ok? ==> r.value.MonoidComprehension? == comprehension.MonoidComprehension?
    ensures r.Ok? ==> r.value.GroupByComprehension? == comprehension.GroupByComprehension?
    ensures r.Ok? ==> CountFree(r.value)
  {
    RewriteNoCount(comprehension);
    Rewrite(comprehension)
  }

  /** No `count` function occurs anywhere in the tree, heads included. */
  predicate CountFree(e: Expr)
    decreases Size(e), 1
  {
    match e
    case MonoidFunction(name, arg, _) => !IsCount(name) && CountFree(arg)
    case BinaryOperatorPredicate(_, _, l, r, _) => CountFree(l) && CountFree(r)
    case ExistsPredicate(a) => CountFree(a)
    case MonoidComprehension(h, qs) => HeadCountFree(h) && AllCountFree(qs)
    case GroupByComprehension(h, qs, _) => HeadCountFree(h) && AllCountFree(qs)
    case _ => true
  }

  predicate HeadCountFree(h: Option<Head>)
    decreases HeadSize(h), 3
  {
    h.None? || AllCountFree(h.value.selectExprs)
  }

  predicate AllCountFree(es: seq<Expr>)
    decreases SizeAll(es), 2
  {
    es == [] || (SizeAllElement(es, 0); CountFree(es[0]) && AllCountFree(es[1..]))
  }

  /** Some `count` applied to something other than a column identifier occurs in the tree. */
  predicate HasUnsafeCount(e: Expr)
    decreases Size(e), 1
  {
    match e
    case MonoidFunction(name, arg, _) =>
      if IsCount(name) then !arg.ColumnIdentifier? else HasUnsafeCount(arg)
    case BinaryOperatorPredicate(_, _, l, r, _) => HasUnsafeCount(l) || HasUnsafeCount(r)
    case ExistsPredicate(a) => HasUnsafeCount(a)
    case MonoidComprehension(h, qs) => HeadHasUnsafeCount(h) || AnyHasUnsafeCount(qs)
    case GroupByComprehension(h, qs, _) => HeadHasUnsafeCount(h) || AnyHasUnsafeCount(qs)
    case _ => false
  }

  predicate HeadHasUnsafeCount(h: Option<Head>)
    decreases HeadSize(h), 3
  {
    h.Some? && AnyHasUnsafeCount(h.value.selectExprs)
  }

  predicate AnyHasUnsafeCount(es: seq<Expr>)
    decreases SizeAll(es), 2
  {
    es != [] && (SizeAllElement(es, 0); HasUnsafeCount(es[0]) || AnyHasUnsafeCount(es[1..]))
  }

  /** After the rewrite no `count` remains. */
  lemma {:induction false} RewriteNoCount(e: Expr)
    ensures Rewrite(e).Ok? ==> CountFree(Rewrite(e).value)
    decreases Size(e), 1
  {
    match e
    case MonoidFunction(name, arg, _) => if !IsCount(name) { RewriteNoCount(arg); }
    case BinaryOperatorPredicate(_, _, l, r, _) => RewriteNoCount(l); RewriteNoCount(r);
    case ExistsPredicate(a) => RewriteNoCount(a);
    case MonoidComprehension(h, qs) => RewriteHeadNoCount(h); RewriteAllNoCount(qs);
    case GroupByComprehension(h, qs, _) => RewriteHeadNoCount(h); RewriteAllNoCount(qs);
    case _ =>
  }

  lemma {:induction false} RewriteHeadNoCount(h: Option<Head>)
    ensures RewriteHead(h).Ok? ==> HeadCountFree(RewriteHead(h).value)
    decreases HeadSize(h), 3
  {
    if h.Some? {
      RewriteAllNoCount(h.value.selectExprs);
    }
  }

  lemma {:induction false} RewriteAllNoCount(es: seq<Expr>)
    ensures RewriteAll(es).Ok? ==> AllCountFree(RewriteAll(es).value)
    decreases SizeAll(es), 2
  {
    if es != [] {
      SizeAllElement(es, 0);
      RewriteNoCount(es[0]);
      RewriteAllNoCount(es[1..]);
      if RewriteAll(es).Ok? {
        var r := RewriteAll(es).value;
        assert r[0] == Rewrite(es[0]).value;
        assert r[1..] == RewriteAll(es[1..]).value;
      }
    }
  }

  /** On a tree without `count` the rewrite is the identity. */
  lemma {:induction false} RewriteCountFreeIdentity(e: Expr)
    requires CountFree(e)
    ensures Rewrite(e) == Ok(e)
    decreases Size(e), 1
  {
    match e
    case MonoidFunction(name, arg, _) => RewriteCountFreeIdentity(arg);
    case BinaryOperatorPredicate(_, _, l, r, _) =>
      RewriteCountFreeIdentity(l); RewriteCountFreeIdentity(r);
    case ExistsPredicate(a) => RewriteCountFreeIdentity(a);
    case MonoidComprehension(h, qs) => RewriteHeadIdentity(h); RewriteAllIdentity(qs);
    case GroupByComprehension(h, qs, _) => RewriteHeadIdentity(h); RewriteAllIdentity(qs);
    case _ =>
  }

  lemma {:induction false} RewriteHeadIdentity(h: Option<Head>)
    requires HeadCountFree(h)
    ensures RewriteHead(h) == Ok(h)
    decreases HeadSize(h), 3
  {
    if h.Some? {
      RewriteAllIdentity(h.value.selectExprs);
    }
  }

  lemma {:induction false} RewriteAllIdentity(es: seq<Expr>)
    requires AllCountFree(es)
    ensures RewriteAll(es) == Ok(es)
    decreases SizeAll(es), 2
  {
    if es != [] {
      SizeAllElement(es, 0);
      RewriteCountFreeIdentity(es[0]);
      RewriteAllIdentity(es[1..]);
      assert [es[0]] + es[1..] == es;
    }
  }

  /** A second application changes nothing. */
  lemma RewriteIdempotent(e: Expr)
    requires Rewrite(e).Ok?
    ensures Rewrite(Rewrite(e).value) == Rewrite(e)
  {
    RewriteNoCount(e);
    RewriteCountFreeIdentity(Rewrite(e).value);
  }

  /** The rewrite fails exactly when some `count` is applied to a non-column argument. */
  lemma {:induction false} RewriteFailsIffUnsafeCount(e: Expr)
    ensures Rewrite(e).Err? <==> HasUnsafeCount(e)
    ensures Rewrite(e).Err? ==> Rewrite(e).error.IllegalState?
    decreases Size(e), 1
  {
    match e
    case MonoidFunction(name, arg, _) => if !IsCount(name) { RewriteFailsIffUnsafeCount(arg); }
    case BinaryOperatorPredicate(_, _, l, r, _) =>
      RewriteFailsIffUnsafeCount(l); RewriteFailsIffUnsafeCount(r);
    case ExistsPredicate(a) => RewriteFailsIffUnsafeCount(a);
    case MonoidComprehension(h, qs) => RewriteHeadFailsIff(h); RewriteAllFailsIff(qs);
    case GroupByComprehension(h, qs, _) => RewriteHeadFailsIff(h); RewriteAllFailsIff(qs);
    case _ =>
  }

  lemma {:induction false} RewriteHeadFailsIff(h: Option<Head>)
    ensures RewriteHead(h).Err? <==> HeadHasUnsafeCount(h)
    ensures RewriteHead(h).Err? ==> RewriteHead(h).error.IllegalState?
    decreases HeadSize(h), 3
  {
    if h.Some? {
      RewriteAllFailsIff(h.value.selectExprs);
    }
  }

  lemma {:induction false} RewriteAllFailsIff(es: seq<Expr>)
    ensures RewriteAll(es).Err? <==> AnyHasUnsafeCount(es)
    ensures RewriteAll(es).Err? ==> RewriteAll(es).error.IllegalState?
    decreases SizeAll(es), 2
  {
    if es != [] {
      SizeAllElement(es, 0);
      RewriteFailsIffUnsafeCount(es[0]);
      RewriteAllFailsIff(es[1..]);
    }
  }

  /**
   * Each node keeps its kind and alias; a `count` becomes `sum(1)` and any other function keeps
   * its name.
   */
  lemma RewriteKeepsKindAndAlias(e: Expr)
    requires Rewrite(e).Ok?
    ensures AliasOf(Rewrite(e).value) == AliasOf(e)
    ensures e.MonoidFunction? ==> Rewrite(e).value.MonoidFunction?
    ensures e.MonoidFunction? && IsCount(e.functionName) ==>
              Rewrite(e).value == SumOfOne(e.alias)
    ensures e.MonoidFunction? && !IsCount(e.functionName) ==>
              Rewrite(e).value.functionName == e.functionName
              && Rewrite(e).value.argument == Rewrite(e.argument).value
    ensures !e.MonoidFunction? ==> Rewrite(e).value.ColumnIdentifier? == e.ColumnIdentifier?
                                   && Rewrite(e).value.BinaryOperatorPredicate? == e.BinaryOperatorPredicate?
                                   && Rewrite(e).value.MonoidComprehension? == e.MonoidComprehension?
  {
  }
}
