/**
 * The program OrToolsSolver emits into the generated `solve()` method, kept abstract: a
 * sequence of statements over a small language of target expressions. Control-flow headers
 * (`for`, `if`) and their closing braces are separate statements, as the MethodSpec builder's
 * beginControlFlow/endControlFlow calls are.
 */
module Target {
  import opened Wrappers
  import opened Monoid

  datatype TExpr =
    | SolverOp(name: string, left: TExpr, right: TExpr)      // o.<name>(left, right): an IntVar combinator
    | PlainOp(op: string, left: TExpr, right: TExpr)         // a Java operator or equals/!equals on plain values
    | GroupSlot(index: nat)                                  // group.value<index>()
    | TupleSlot(index: nat)                                  // t.value<index>() inside an aggregate
    | VarAt(variable: string, iter: string)                  // <variable>[<iter>]: an IntVar array element
    | ViewSlot(view: string, iter: string, index: nat)       // <view>.get(<iter>).value<index>()
    | TableField(table: string, iter: string, field: string, fieldType: Option<FieldType>)
                                                             // <table>.get(<iter>).get("<field>", <type>.class)
    | Literal(value: Value)
    | Aggregate(fn: string, argument: TExpr)           // o.<fn>(data.stream().map(t -> argument)...)
    | SubqueryRef(view: string)                              // the name of an emitted subquery view
    | NewConstant(argument: TExpr)                           // model.newConstant(argument)
    | Null                                                   // a visitor result that is Java's null

  datatype Stmt =
    | Comment(text: string)
    | CreateModel                                            // model, encoder and Ops instances
    | DeclareTable(variable: string, table: string)          // the table's current rows
    | DeclareVarArray(variable: string, numRows: string, field: string)  // an IntVar per row
    | AllDifferent(variable: string)
    | NewIndexVar(variable: string, numRows: string)         // model.newIntVar(0, <numRows> - 1, "")
    | ParentDomain(parentTable: string, parentField: string, javaClass: string)
    | AddElement(indexVar: string, target: TExpr)
    | DeclareList(view: string, tupleSize: nat)
    | DeclareGroupMap(view: string, keySize: nat, tupleSize: nat)
      /** `for (int <iter> = 0; <guardLeft> < <guardRight>; <iter>++) {` */
    | BeginFor(iter: string, guardLeft: string, guardRight: string)
      /** `if (<c1> && <c2> && ...) {` */
    | BeginIf(conditions: seq<TExpr>)
    | EndBlock
    | AddTuple(view: string, fields: seq<TExpr>)
    | AddGroupedTuple(view: string, key: seq<TExpr>, fields: seq<TExpr>)
    | DeclareGroupResult(view: string, source: string)
    | BeginForEachGroup(source: string)                      // for each (group, data) entry of <source> {
    | AddGroupResult(view: string, values: seq<TExpr>)
    | DomainFromView(domainView: TExpr)                          // Domain.fromValues of the single column of the view named by <domainView>, camel-cased by nonConstraintViewName
    | LinearExpressionInDomain(e: TExpr)
    | AddConstraint(call: string, left: TExpr, right: TExpr)  // model.<call>(left, right)
    | SolveModel                                             // solver = new CpSolver(); status = solver.solve(model)
    | BeginIfSolved                                          // if (status == FEASIBLE || status == OPTIMAL) {
    | NewResultMap
    | PutUnchanged(table: string)                            // result.put(T, T's current data)
    | LoadTable(tmp: nat, table: string)                     // tmp<k> = T's current data
      /** for each row i: tmp<k>[i].<field> := solver.value(<variable>[i]), decoded to a string if asked */
    | AssignSolvedColumn(tmp: nat, numRows: string, variable: string, field: string, decodeString: bool)
    | PutTable(table: string, tmp: nat)                      // result.put(T, tmp<k>)
    | ReturnResult
    | ThrowModelException

  predicate Opens(s: Stmt)
  {
    s.BeginFor? || s.BeginIf? || s.BeginForEachGroup? || s.BeginIfSolved?
  }

  function Delta(s: Stmt): int
  {
    if Opens(s) then 1 else if s.EndBlock? then -1 else 0
  }

  /** The number of blocks left open after `s`. */
  function Depth(s: seq<Stmt>): int
  {
    if s == [] then 0 else Depth(s[..|s| - 1]) + Delta(s[|s| - 1])
  }

  /** No prefix of `s` closes more blocks than it opened. */
  predicate NeverBelowZero(s: seq<Stmt>)
  {
    s == [] || (NeverBelowZero(s[..|s| - 1]) && Depth(s) >= 0)
  }

  /** Every block opened in `s` is closed in `s`, after it was opened. */
  predicate Balanced(s: seq<Stmt>)
  {
    NeverBelowZero(s) && Depth(s) == 0
  }

  /** Like NeverBelowZero, for a segment appended where `d` blocks are already open. */
  predicate NeverBelow(s: seq<Stmt>, d: int)
  {
    s == [] || (NeverBelow(s[..|s| - 1], d) && d + Depth(s) >= 0)
  }

  lemma {:induction false} DepthConcat(a: seq<Stmt>, b: seq<Stmt>)
    ensures Depth(a + b) == Depth(a) + Depth(b)
    decreases |b|
  {
    if b == [] {
      assert a + b == a;
    } else {
      var b' := b[..|b| - 1];
      assert (a + b)[..|a + b| - 1] == a + b';
      DepthConcat(a, b');
    }
  }

  lemma {:induction false} NeverBelowConcat(a: seq<Stmt>, b: seq<Stmt>)
    requires NeverBelowZero(a) && NeverBelow(b, Depth(a))
    ensures NeverBelowZero(a + b)
    decreases |b|
  {
    if b == [] {
      assert a + b == a;
    } else {
      var b' := b[..|b| - 1];
      assert (a + b)[..|a + b| - 1] == a + b';
      NeverBelowConcat(a, b');
      DepthConcat(a, b);
    }
  }

  lemma {:induction false} NeverBelowZeroShift(s: seq<Stmt>, d: int)
    requires NeverBelowZero(s) && d >= 0
    ensures NeverBelow(s, d)
    decreases |s|
  {
    if s != [] {
      NeverBelowZeroShift(s[..|s| - 1], d);
    }
  }

  /** Appending a balanced segment keeps a well-nested prefix well nested, at the same depth. */
  lemma AppendBalanced(a: seq<Stmt>, b: seq<Stmt>)
    requires NeverBelowZero(a) && Depth(a) >= 0 && Balanced(b)
    ensures NeverBelowZero(a + b) && Depth(a + b) == Depth(a)
  {
    NeverBelowZeroShift(b, Depth(a));
    NeverBelowConcat(a, b);
    DepthConcat(a, b);
  }

  /** Appending a well-nested segment to a well-nested prefix: the open blocks add up. */
  lemma AppendNested(a: seq<Stmt>, b: seq<Stmt>)
    requires NeverBelowZero(a) && Depth(a) >= 0 && NeverBelowZero(b)
    ensures NeverBelowZero(a + b) && Depth(a + b) == Depth(a) + Depth(b)
  {
    NeverBelowZeroShift(b, Depth(a));
    NeverBelowConcat(a, b);
    DepthConcat(a, b);
  }

  /** Appending one statement. */
  lemma AppendOne(a: seq<Stmt>, s: Stmt)
    requires NeverBelowZero(a) && Depth(a) + Delta(s) >= 0
    ensures NeverBelowZero(a + [s]) && Depth(a + [s]) == Depth(a) + Delta(s)
  {
    assert (a + [s])[..|a + [s]| - 1] == a;
  }

  /** `n` closing braces. */
  function Ends(n: nat): (r: seq<Stmt>)
    ensures |r| == n && forall i :: 0 <= i < n ==> r[i] == EndBlock
  {
    if n == 0 then [] else Ends(n - 1) + [EndBlock]
  }

  /** Closing every open block leaves the emitted code balanced. */
  lemma {:induction false} AppendEnds(a: seq<Stmt>, n: nat)
    requires NeverBelowZero(a) && Depth(a) >= n
    ensures NeverBelowZero(a + Ends(n)) && Depth(a + Ends(n)) == Depth(a) - n
    decreases n
  {
    if n > 0 {
      AppendEnds(a, n - 1);
      assert a + Ends(n) == (a + Ends(n - 1)) + [EndBlock];
      AppendOne(a + Ends(n - 1), EndBlock);
    } else {
      assert a + Ends(n) == a;
    }
  }

  /** Opening `n` blocks, a balanced body, then `n` closing braces: balanced. */
  lemma BlockBalanced(prefix: seq<Stmt>, body: seq<Stmt>, n: nat)
    requires NeverBelowZero(prefix) && Depth(prefix) == n && Balanced(body)
    ensures Balanced(prefix + body + Ends(n))
  {
    AppendBalanced(prefix, body);
    AppendEnds(prefix + body, n);
  }

  /** Statements that neither open nor close a block. */
  predicate Flat(s: seq<Stmt>)
  {
    forall i :: 0 <= i < |s| ==> Delta(s[i]) == 0
  }

  lemma {:induction false} FlatBalanced(s: seq<Stmt>)
    requires Flat(s)
    ensures Balanced(s)
  {
    if s != [] {
      FlatBalanced(s[..|s| - 1]);
    }
  }
}
