/**
 * UsesControllableFields: a visitor whose flag records whether any column identifier it has
 * visited refers to a controllable field.
 */
module UsesControllableFields {
  import opened Wrappers
  import opened Monoid
  import opened MonoidVisitor

  predicate IsControllableColumn(n: Node)
  {
    n.ExprNode? && n.expr.ColumnIdentifier? && n.expr.column.field.controllable
  }

  predicate AnyControllable(t: seq<Node>)
  {
    exists i :: 0 <= i < |t| && IsControllableColumn(t[i])
  }

  class UsesControllableFields {
    var usesControllable: bool

    constructor ()
      ensures !usesControllable
    {
      usesControllable := false;
    }

    /** Sets the flag when the column's field is controllable and never clears it. */
    method VisitColumnIdentifier(node: Column)
      modifies this
      ensures usesControllable == (old(usesControllable) || node.field.controllable)
    {
      if node.field.controllable {
        usesControllable := true;
      }
    }

    /**
     * `visit(e)`: the default traversal, with this visitor's hook run on every column identifier
     * it reaches. The flag ends up set exactly when it was set before or some visited column is
     * controllable; `completed` is false when the traversal throws on a null head.
     */
    method Visit(e: Expr) returns (completed: bool)
      modifies this
      ensures completed == Trace(e).Some?
      ensures completed ==> usesControllable == (old(usesControllable) || AnyControllable(Trace(e).value))
      ensures old(usesControllable) ==> usesControllable
    {
      var trace := Trace(e);
      if trace.None? {
        return false;
      }
      var t := trace.value;
      var i := 0;
      while i < |t|
        invariant 0 <= i <= |t|
        invariant usesControllable == (old(usesControllable) || AnyControllable(t[..i]))
      {
        if t[i].ExprNode? && t[i].expr.ColumnIdentifier? {
          VisitColumnIdentifier(t[i].expr.column);
        }
        assert t[..i + 1] == t[..i] + [t[i]];
        i := i + 1;
      }
      assert t[..|t|] == t;
      return true;
    }

    function UsesControllableFields(): bool
      reads this
    {
      usesControllable
    }
  }

  /** The flag a fresh visitor reports after visiting `e` (false when the visit throws). */
  function UsesControllable(e: Expr): bool
  {
    Trace(e).Some? && AnyControllable(Trace(e).value)
  }

  lemma {:induction false} AnyControllableColumns(t: seq<Node>)
    ensures AnyControllable(t) <==> exists c :: c in ColumnsVisited(t) && c.field.controllable
  {
    if t != [] {
      AnyControllableColumns(t[1..]);
      if AnyControllable(t) && !IsControllableColumn(t[0]) {
        var i :| 0 <= i < |t| && IsControllableColumn(t[i]);
        assert IsControllableColumn(t[1..][i - 1]);
      }
      if AnyControllable(t[1..]) {
        var i :| 0 <= i < |t| - 1 && IsControllableColumn(t[1..][i]);
        assert IsControllableColumn(t[i + 1]);
      }
    }
  }

  /**
   * The reference characterisation: visiting `e` sets the flag exactly when the traversal
   * completes and some column identifier `e` references (outside comprehension heads) is
   * controllable.
   */
  lemma UsesControllableIffControllableColumn(e: Expr)
    ensures UsesControllable(e)
            <==> Trace(e).Some? && exists c :: c in ReachableColumns(e) && c.field.controllable
  {
    if Trace(e).Some? {
      AnyControllableColumns(Trace(e).value);
      TraceReachesColumns(e);
      var cols := ColumnsVisited(Trace(e).value);
      assert forall c :: c in cols <==> c in (set x | x in cols);
    }
  }

  /** Over a binary predicate the flag is the OR of the flags of both operands. */
  lemma BinaryIsOr(k: PredicateKind, op: string, l: Expr, r: Expr, alias: Option<string>)
    requires Trace(l).Some? && Trace(r).Some?
    ensures UsesControllable(BinaryOperatorPredicate(k, op, l, r, alias))
            == (UsesControllable(l) || UsesControllable(r))
  {
    var e := BinaryOperatorPredicate(k, op, l, r, alias);
    UsesControllableIffControllableColumn(e);
    UsesControllableIffControllableColumn(l);
    UsesControllableIffControllableColumn(r);
  }

  /** An expression that references no column identifier (only literals, say) leaves it false. */
  lemma ColumnFreeLeavesFalse(e: Expr)
    requires ReachableColumns(e) == {}
    ensures !UsesControllable(e)
  {
    UsesControllableIffControllableColumn(e);
  }
}
