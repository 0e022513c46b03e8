/**
 * MonoidVisitor's default dispatch. Every visitor in the model overrides only leaf hooks and
 * keeps the default traversal, so a visit is characterised by its trace: the nodes whose
 * visit hook runs, in the order they run. `visit(expr)` passes a null context and the default
 * traversal hands the context on unchanged, so the trace does not depend on it.
 */
module MonoidVisitor {
  import opened Wrappers
  import opened Monoid

  /** A node whose hook runs: an expression, or the head of a comprehension (visitHead). */
  datatype Node = ExprNode(expr: Expr) | HeadNode(head: Head)

  /**
   * The hooks entered when `visit(e)` runs the default traversal. A comprehension visits its
   * head and then each qualifier; a binary predicate its left then its right operand; a
   * group-by comprehension its inner comprehension and then its group-by qualifier; a function
   * and an exists predicate their argument. Heads and all other kinds are leaves. None: the
   * traversal reached a comprehension whose head is null and `getHead().acceptVisitor` throws.
   */
  function Trace(e: Expr): (r: Option<seq<Node>>)
    ensures r.Some? ==> |r.value| >= 1 && r.value[0] == ExprNode(e)
    decreases Size(e), 1
  {
    match e
    case BinaryOperatorPredicate(_, _, l, r, _) =>
      (match (Trace(l), Trace(r))
       case (Some(tl), Some(tr)) => Some([ExprNode(e)] + tl + tr)
       case _ => None)
    case MonoidFunction(_, a, _) =>
      (match Trace(a)
       case Some(ta) => Some([ExprNode(e)] + ta)
       case None => None)
    case ExistsPredicate(a) =>
      (match Trace(a)
       case Some(ta) => Some([ExprNode(e)] + ta)
       case None => None)
    case MonoidComprehension(h, qs) =>
      if h.None? then None
      else
        (match TraceAll(qs)
         case Some(tq) => Some([ExprNode(e), HeadNode(h.value)] + tq)
         case None => None)
    case GroupByComprehension(h, qs, g) =>
      (match Trace(InnerComprehension(e))
       case Some(ti) => Some([ExprNode(e)] + ti + [ExprNode(GroupByQualifier(g))])
       case None => None)
    case _ => Some([ExprNode(e)])
  }

  /** The traces of a qualifier list, visited in list order. */
  function TraceAll(qs: seq<Expr>): Option<seq<Node>>
    decreases SizeAll(qs), 2
  {
    if qs == [] then Some([])
    else
      SizeAllElement(qs, 0);
      match (Trace(qs[0]), TraceAll(qs[1..]))
      case (Some(t0), Some(ts)) => Some(t0 + ts)
      case _ => None
  }

  /** Every comprehension the default traversal reaches has a head. */
  predicate HeadsPresent(e: Expr)
    decreases Size(e), 1
  {
    match e
    case BinaryOperatorPredicate(_, _, l, r, _) => HeadsPresent(l) && HeadsPresent(r)
    case MonoidFunction(_, a, _) => HeadsPresent(a)
    case ExistsPredicate(a) => HeadsPresent(a)
    case MonoidComprehension(h, qs) => h.Some? && AllHeadsPresent(qs)
    case GroupByComprehension(h, qs, _) => h.Some? && AllHeadsPresent(qs)
    case _ => true
  }

  predicate AllHeadsPresent(qs: seq<Expr>)
    decreases SizeAll(qs), 2
  {
    qs == [] || (SizeAllElement(qs, 0); HeadsPresent(qs[0]) && AllHeadsPresent(qs[1..]))
  }

  /** The default traversal completes exactly when no reachable comprehension lacks a head. */
  lemma {:induction false} TraceDefinedIffHeadsPresent(e: Expr)
    ensures Trace(e).Some? <==> HeadsPresent(e)
    decreases Size(e), 1
  {
    match e
    case BinaryOperatorPredicate(_, _, l, r, _) =>
      TraceDefinedIffHeadsPresent(l);
      TraceDefinedIffHeadsPresent(r);
    case MonoidFunction(_, a, _) => TraceDefinedIffHeadsPresent(a);
    case ExistsPredicate(a) => TraceDefinedIffHeadsPresent(a);
    case MonoidComprehension(h, qs) => TraceAllDefinedIffHeadsPresent(qs);
    case GroupByComprehension(h, qs, _) => TraceAllDefinedIffHeadsPresent(qs);
    case _ =>
  }

  lemma {:induction false} TraceAllDefinedIffHeadsPresent(qs: seq<Expr>)
    ensures TraceAll(qs).Some? <==> AllHeadsPresent(qs)
    decreases SizeAll(qs), 2
  {
    if qs != [] {
      SizeAllElement(qs, 0);
      TraceDefinedIffHeadsPresent(qs[0]);
      TraceAllDefinedIffHeadsPresent(qs[1..]);
    }
  }

  /** The column identifiers among the visited nodes, in visiting order. */
  function ColumnsVisited(t: seq<Node>): seq<Column>
  {
    if t == [] then []
    else (if t[0].ExprNode? && t[0].expr.ColumnIdentifier? then [t[0].expr.column] else [])
         + ColumnsVisited(t[1..])
  }

  lemma {:induction false} ColumnsVisitedConcat(a: seq<Node>, b: seq<Node>)
    ensures ColumnsVisited(a + b) == ColumnsVisited(a) + ColumnsVisited(b)
  {
    if a != [] {
      ColumnsVisitedConcat(a[1..], b);
      assert (a + b)[0] == a[0];
      assert (a + b)[1..] == a[1..] + b;
    } else {
      assert a + b == b;
    }
  }

  /**
   * The column identifiers an expression references outside comprehension heads, as a set:
   * an order-free reference for what the default traversal reaches.
   */
  function ReachableColumns(e: Expr): set<Column>
    decreases Size(e), 1
  {
    match e
    case ColumnIdentifier(c) => {c}
    case BinaryOperatorPredicate(_, _, l, r, _) => ReachableColumns(l) + ReachableColumns(r)
    case MonoidFunction(_, a, _) => ReachableColumns(a)
    case ExistsPredicate(a) => ReachableColumns(a)
    case MonoidComprehension(_, qs) => ReachableColumnsAll(qs)
    case GroupByComprehension(_, qs, _) => ReachableColumnsAll(qs)
    case _ => {}
  }

  function ReachableColumnsAll(qs: seq<Expr>): set<Column>
    decreases SizeAll(qs), 2
  {
    if qs == [] then {} else (SizeAllElement(qs, 0); ReachableColumns(qs[0]) + ReachableColumnsAll(qs[1..]))
  }

  /**
   * The traversal reaches exactly the columns referenced outside heads: heads, literals, row
   * generators and group-by qualifiers contribute none.
   */
  lemma {:induction false} TraceReachesColumns(e: Expr)
    requires Trace(e).Some?
    ensures (set c | c in ColumnsVisited(Trace(e).value)) == ReachableColumns(e)
    decreases Size(e), 1
  {
    var t := Trace(e).value;
    match e
    case ColumnIdentifier(c) =>
      assert t == [ExprNode(e)];
      assert ColumnsVisited(t) == [c];
    case BinaryOperatorPredicate(_, _, l, r, _) =>
      TraceReachesColumns(l);
      TraceReachesColumns(r);
      ColumnsVisitedConcat([ExprNode(e)] + Trace(l).value, Trace(r).value);
      ColumnsVisitedConcat([ExprNode(e)], Trace(l).value);
    case MonoidFunction(_, a, _) =>
      TraceReachesColumns(a);
      ColumnsVisitedConcat([ExprNode(e)], Trace(a).value);
    case ExistsPredicate(a) =>
      TraceReachesColumns(a);
      ColumnsVisitedConcat([ExprNode(e)], Trace(a).value);
    case MonoidComprehension(h, qs) =>
      TraceAllReachesColumns(qs);
      ColumnsVisitedConcat([ExprNode(e), HeadNode(h.value)], TraceAll(qs).value);
    case GroupByComprehension(h, qs, g) =>
      var inner := InnerComprehension(e);
      TraceAllReachesColumns(qs);
      ColumnsVisitedConcat([ExprNode(inner), HeadNode(h.value)], TraceAll(qs).value);
      var ti := Trace(inner).value;
      ColumnsVisitedConcat([ExprNode(e)] + ti, [ExprNode(GroupByQualifier(g))]);
      ColumnsVisitedConcat([ExprNode(e)], ti);
    case MonoidLiteral(_, _) =>
    case TableRowGenerator(_, _) =>
    case GroupByQualifier(_) =>
  }

  lemma {:induction false} TraceAllReachesColumns(qs: seq<Expr>)
    requires TraceAll(qs).Some?
    ensures (set c | c in ColumnsVisited(TraceAll(qs).value)) == ReachableColumnsAll(qs)
    decreases SizeAll(qs), 2
  {
    if qs != [] {
      SizeAllElement(qs, 0);
      TraceReachesColumns(qs[0]);
      TraceAllReachesColumns(qs[1..]);
      ColumnsVisitedConcat(Trace(qs[0]).value, TraceAll(qs[1..]).value);
    }
  }

  /** A binary predicate's columns are its left operand's, then its right operand's. */
  lemma BinaryColumnsLeftThenRight(e: Expr)
    requires e.BinaryOperatorPredicate? && Trace(e).Some?
    ensures ColumnsVisited(Trace(e).value)
            == ColumnsVisited(Trace(e.left).value) + ColumnsVisited(Trace(e.right).value)
  {
    ColumnsVisitedConcat([ExprNode(e)] + Trace(e.left).value, Trace(e.right).value);
    ColumnsVisitedConcat([ExprNode(e)], Trace(e.left).value);
  }

  /**
   * `MonoidComprehension.acceptVisitor` as written: it runs `visitMonoidComprehension` and then
   * returns null, whatever the hook returned. Every other node kind returns its hook's result.
   */
  function AcceptVisitorAsWritten<T>(e: Expr, hookResult: Option<T>): (r: Option<T>)
    ensures e.MonoidComprehension? ==> r.None?
    ensures !e.MonoidComprehension? ==> r == hookResult
  {
    if e.MonoidComprehension? then None else hookResult
  }

  /** `acceptVisitor` as evidently intended: the hook's result is passed back to the caller. */
  function AcceptVisitor<T>(e: Expr, hookResult: Option<T>): (r: Option<T>)
    ensures r == hookResult
  {
    hookResult
  }

  /**
   * The discrepancy: a hook that names the subquery view it emitted (as ExprToStrVisitor's
   * visitMonoidComprehension does) has its name dropped by the as-written dispatch.
   */
  lemma SubqueryNameDropped(h: Option<Head>, qs: seq<Expr>, name: string)
    ensures AcceptVisitorAsWritten(MonoidComprehension(h, qs), Some(name)) == None
    ensures AcceptVisitor(MonoidComprehension(h, qs), Some(name)) == Some(name)
  {
  }
}
