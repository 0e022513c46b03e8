/**
 * What addView and buildInnerComprehension emit for a view whose qualifiers (and, for a group-by
 * view, whose head) hold no subquery. The view's head items are the columns its select
 * expressions access, each once, and each gets a slot in the view's field-index table. Then come
 * the result-set declaration (non-constraint views only), one loop per non-variable row
 * generator, the guard, the result-set update or the row constraints, and the closing braces.
 * A group-by view is built as an intermediate view `tmp<n>` grouped by its columns, followed by a
 * loop that computes the view's row for each group.
 */
module ViewSpec {
  import opened Wrappers
  import opened Text
  import opened Monoid
  import opened Target
  import opened Naming
  import opened Lowering
  import opened Qualifiers
  import opened FieldIndex
  import opened Constraints
  import GetColumnIdentifiers

  // ---------------------------------------------------------------------------------------
  // Head items and their field-index slots

  /** The columns each select expression accesses, one expression after the other; None when a visit throws. */
  function AccessedAll(es: seq<Expr>): Option<seq<Column>>
  {
    if es == [] then Some([])
    else
      match AccessedAll(es[..|es| - 1])
      case None => None
      case Some(prev) =>
        match GetColumnIdentifiers.ColumnsAccessed(es[|es| - 1])
        case None => None
        case Some(cs) => Some(prev + cs)
  }

  /** `headItemsList`: the accessed columns, flattened, with later duplicates dropped (`distinct`). */
  function HeadItems(es: seq<Expr>): Option<seq<Column>>
  {
    match AccessedAll(es)
    case None => None
    case Some(cs) => Some(GetColumnIdentifiers.AddAll([], cs))
  }

  /** Every column a select expression accesses is among the columns accessed by the whole head. */
  lemma {:induction false} AccessedAllContains(es: seq<Expr>, i: nat)
    requires i < |es| && AccessedAll(es).Some?
    ensures GetColumnIdentifiers.ColumnsAccessed(es[i]).Some?
    ensures forall c :: c in GetColumnIdentifiers.ColumnsAccessed(es[i]).value ==> c in AccessedAll(es).value
  {
    var init := es[..|es| - 1];
    if i < |es| - 1 {
      assert init[i] == es[i];
      AccessedAllContains(init, i);
    }
  }

  /**
   * The head items hold each accessed column once (no two with the same table and field,
   * ignoring case), and a column of every key some select expression accesses.
   */
  lemma HeadItemsCoverHead(es: seq<Expr>, i: nat, c: Column)
    requires HeadItems(es).Some? && i < |es|
    requires GetColumnIdentifiers.ColumnsAccessed(es[i]).Some?
    requires c in GetColumnIdentifiers.ColumnsAccessed(es[i]).value
    ensures GetColumnIdentifiers.DistinctKeys(HeadItems(es).value)
    ensures GetColumnIdentifiers.HasKey(HeadItems(es).value, GetColumnIdentifiers.Key(c))
  {
    var cs := AccessedAll(es).value;
    AccessedAllContains(es, i);
    GetColumnIdentifiers.AddAllIsFirstOccurrences(cs);
    var j :| 0 <= j < |cs| && cs[j] == c;
    assert GetColumnIdentifiers.HasKey(cs, GetColumnIdentifiers.Key(c));
  }

  /** The name a head item is recorded under: its alias, else its field name, upper-cased. */
  function HeadKey(c: Column): string
  {
    FieldKey(ColumnIdentifier(c), 0).0
  }

  function HeadKeys(items: seq<Column>): (r: seq<string>)
    ensures |r| == |items|
  {
    if items == [] then [] else HeadKeys(items[..|items| - 1]) + [HeadKey(items[|items| - 1])]
  }

  /** A view's slots; a view not yet in the table has none. */
  function SlotsOf(fi: FieldIndexTable, view: string): Slots
  {
    if view in fi then fi[view] else map[]
  }

  /**
   * convertToFieldAccess over the head items, in order: each item's field gets its slot in the
   * (upper-cased) view from a counter starting at 0, then the item is lowered as a column
   * access against the table as it now is. The lowered items, the new table and the counter.
   */
  function HeadAccess(env: Env, view: string, items: seq<Column>): (r: Result<(seq<TExpr>, FieldIndexTable, nat)>)
    ensures r.Ok? ==> |r.value.0| == |items|
  {
    if items == [] then Ok(([], env.viewToFieldIndex, 0))
    else
      var prev :- HeadAccess(env, view, items[..|items| - 1]);
      var c := items[|items| - 1];
      var recorded := RecordField(SlotsOf(prev.1, Upper(view)), prev.2, HeadKey(c));
      var fi := prev.1[Upper(view) := recorded.0];
      var t :- ExprToStr(env.(viewToFieldIndex := fi), ColumnIdentifier(c), true, None);
      Ok((prev.0 + [t], fi, recorded.1))
  }

  /** One more head item: its key is recorded in the view's slots after those before it. */
  lemma HeadAccessStep(env: Env, view: string, items: seq<Column>)
    requires items != [] && HeadAccess(env, view, items).Ok?
    ensures var prev := HeadAccess(env, view, items[..|items| - 1]);
            var r := HeadAccess(env, view, items).value;
            prev.Ok?
            && var recorded := RecordField(SlotsOf(prev.value.1, Upper(view)), prev.value.2, HeadKey(items[|items| - 1]));
               r.1 == prev.value.1[Upper(view) := recorded.0] && r.2 == recorded.1
  {
  }

  /** Recording one more key into a view's slots, when the slots so far are those of the keys before it. */
  lemma RecordOneMore(fi: FieldIndexTable, u: string, init: seq<string>, key: string, prevFi: FieldIndexTable, prevN: nat)
    requires var rec := RecordFields(SlotsOf(fi, u), 0, init);
             (init == [] ==> prevFi == fi) && (init != [] ==> prevFi == fi[u := rec.0]) && prevN == rec.1
    ensures var recorded := RecordField(SlotsOf(prevFi, u), prevN, key);
            var rec := RecordFields(SlotsOf(fi, u), 0, init + [key]);
            prevFi[u := recorded.0] == fi[u := rec.0] && recorded.1 == rec.1
  {
    assert (init + [key])[..|init|] == init;
  }

  /** The head items record their keys, in order, into the view's slots; no other view changes. */
  lemma {:induction false} HeadAccessSlots(env: Env, view: string, items: seq<Column>)
    requires HeadAccess(env, view, items).Ok?
    ensures var r := HeadAccess(env, view, items).value;
            var rec := RecordFields(SlotsOf(env.viewToFieldIndex, Upper(view)), 0, HeadKeys(items));
            (items == [] ==> r.1 == env.viewToFieldIndex)
            && (items != [] ==> r.1 == env.viewToFieldIndex[Upper(view) := rec.0])
            && r.2 == rec.1
  {
    if items != [] {
      var init := items[..|items| - 1];
      HeadAccessStep(env, view, items);
      HeadAccessSlots(env, view, init);
      var prev := HeadAccess(env, view, init).value;
      RecordOneMore(env.viewToFieldIndex, Upper(view), HeadKeys(init), HeadKey(items[|items| - 1]), prev.1, prev.2);
    }
  }

  /**
   * For a view seen for the first time, the fields of its head items get slots 0..n-1 in
   * first-seen order, one per distinct key, and every other view's slots are unchanged.
   */
  lemma FreshViewSlots(env: Env, view: string, items: seq<Column>)
    requires HeadAccess(env, view, items).Ok? && items != []
    requires Upper(view) !in env.viewToFieldIndex
    ensures var fi := HeadAccess(env, view, items).value.1;
            var d := Dedup(HeadKeys(items));
            Upper(view) in fi
            && (forall k :: k in fi[Upper(view)] <==> k in HeadKeys(items))
            && (forall i :: 0 <= i < |d| ==> d[i] in fi[Upper(view)] && fi[Upper(view)][d[i]] == i)
            && (forall v :: v != Upper(view) ==> (v in fi <==> v in env.viewToFieldIndex))
            && (forall v :: v != Upper(view) && v in fi ==> fi[v] == env.viewToFieldIndex[v])
  {
    HeadAccessSlots(env, view, items);
    SlotsInFirstSeenOrder(HeadKeys(items));
  }

  // ---------------------------------------------------------------------------------------
  // Loops, result set, row constraints

  predicate AllGenerators(gens: seq<Expr>)
  {
    forall i :: 0 <= i < |gens| ==> gens[i].TableRowGenerator?
  }

  /** `for (int <alias>Iter = 0; <alias>Iter < <table>.size(); <alias>Iter++) {` */
  function LoopHeader(g: Expr): Stmt
    requires g.TableRowGenerator?
  {
    BeginFor(IterStr(g.aliasedName), IterStr(g.aliasedName), TableNumRowsStr(g.tableName))
  }

  /** addNestedForLoops: one loop per row generator, each left open. */
  function Loops(gens: seq<Expr>): (r: seq<Stmt>)
    requires AllGenerators(gens)
    ensures |r| == |gens| && NeverBelowZero(r) && Depth(r) == |gens|
  {
    if gens == [] then []
    else
      var prev := Loops(gens[..|gens| - 1]);
      AppendOne(prev, LoopHeader(gens[|gens| - 1]));
      prev + [LoopHeader(gens[|gens| - 1])]
  }

  /** The loops are nested in row-generator order, each over its own table's rows. */
  lemma {:induction false} LoopsFollowGenerators(gens: seq<Expr>, i: nat)
    requires AllGenerators(gens) && i < |gens|
    ensures Loops(gens)[i] == LoopHeader(gens[i])
  {
    if i < |gens| - 1 {
      LoopsFollowGenerators(gens[..|gens| - 1], i);
    }
  }

  /** Only row generators land in the generator bucket. */
  lemma {:induction false} GeneratorBucketHoldsGenerators(qs: seq<Expr>)
    ensures AllGenerators(OfBucket(qs, GeneratorBucket))
  {
    if qs != [] {
      GeneratorBucketHoldsGenerators(qs[1..]);
    }
  }

  lemma AllSubqueryFreeConcat(a: seq<Expr>, b: seq<Expr>)
    requires AllSubqueryFree(a) && AllSubqueryFree(b)
    ensures AllSubqueryFree(a + b)
  {
  }

  lemma {:induction false} BucketSubqueryFree(qs: seq<Expr>, b: Bucket)
    requires AllSubqueryFree(qs)
    ensures AllSubqueryFree(OfBucket(qs, b))
  {
    if qs != [] {
      BucketSubqueryFree(qs[1..], b);
      AllSubqueryFreeConcat(if Lands(qs[0], b) then [qs[0]] else [], OfBucket(qs[1..], b));
    }
  }

  lemma {:induction false} PartsSubqueryFree(qs: seq<Expr>, isVarQualifier: Expr -> bool)
    requires AllSubqueryFree(qs)
    ensures AllSubqueryFree(VarPart(qs, isVarQualifier)) && AllSubqueryFree(NonVarPart(qs, isVarQualifier))
  {
    if qs != [] {
      PartsSubqueryFree(qs[1..], isVarQualifier);
      AllSubqueryFreeConcat(if isVarQualifier(qs[0]) then [qs[0]] else [], VarPart(qs[1..], isVarQualifier));
      AllSubqueryFreeConcat(if isVarQualifier(qs[0]) then [] else [qs[0]], NonVarPart(qs[1..], isVarQualifier));
    }
  }

  /** The group-by key of a collected tuple: each grouping column read from the current rows. */
  function GroupKey(env: Env, groupBy: seq<Column>): (r: Result<seq<TExpr>>)
    ensures r.Ok? ==> |r.value| == |groupBy|
  {
    if groupBy == [] then Ok([])
    else
      var c := groupBy[0];
      var first :- FieldNameStrWithIter(env, c.tableName, c.field.name, IterStr(c.tableName));
      var rest :- GroupKey(env, groupBy[1..]);
      Ok([first] + rest)
  }

  /** addMapOrListForResultSet: a list of tuples, or a map from group-by tuples to lists of tuples. */
  function ResultSetDecl(view: string, tupleSize: nat, groupBy: Option<seq<Column>>): Stmt
  {
    match groupBy
    case None => DeclareList(NonConstraintViewName(view), tupleSize)
    case Some(g) => DeclareGroupMap(NonConstraintViewName(view), |g|, tupleSize)
  }

  /** addToResultSet: the tuple of head items is added to the list, or to its group's list. */
  function ResultSetAdd(env: Env, view: string, fields: seq<TExpr>, groupBy: Option<seq<Column>>): Result<Stmt>
  {
    match groupBy
    case None => Ok(AddTuple(NonConstraintViewName(view), fields))
    case Some(g) =>
      var key :- GroupKey(env, g);
      Ok(AddGroupedTuple(NonConstraintViewName(view), key, fields))
  }

  /** populateQualifiersByVarType's checks pass. */
  predicate PopulateSucceeds(qs: seq<Expr>, isVarQualifier: Expr -> bool)
  {
    Classifiable(qs)
    && OfBucket(NonVarPart(qs, isVarQualifier), AggregateBucket) == []
    && OfBucket(VarPart(qs, isVarQualifier), AggregateBucket) == []
    && OfBucket(VarPart(qs, isVarQualifier), GeneratorBucket) == []
  }

  /**
   * addRowConstraint: the variable join predicates are lowered and must be none; then every
   * variable where-predicate and every non-variable where-predicate becomes a constraint.
   */
  function RowConstraints(env: Env, vars: seq<Expr>, nonVars: seq<Expr>): Result<seq<Stmt>>
    requires AllSubqueryFree(vars) && AllSubqueryFree(nonVars)
  {
    BucketSubqueryFree(vars, JoinBucket);
    BucketSubqueryFree(vars, WhereBucket);
    BucketSubqueryFree(nonVars, WhereBucket);
    AllSubqueryFreeConcat(OfBucket(vars, WhereBucket), OfBucket(nonVars, WhereBucket));
    var varJoins :- LowerAll(env, OfBucket(vars, JoinBucket), true, None);
    if varJoins != [] then Err(IllegalArgument)
    else TopLevelConstraints(env, OfBucket(vars, WhereBucket) + OfBucket(nonVars, WhereBucket))
  }

  /** The body of the innermost loop: the result-set update, or the row constraints. */
  function ViewLoopBody(env: Env, view: string, fields: seq<TExpr>, groupBy: Option<seq<Column>>,
                        vars: seq<Expr>, nonVars: seq<Expr>, isConstraint: bool): Result<seq<Stmt>>
    requires AllSubqueryFree(vars) && AllSubqueryFree(nonVars)
  {
    if isConstraint then RowConstraints(env, vars, nonVars)
    else
      var add :- ResultSetAdd(env, view, fields, groupBy);
      Ok([add])
  }

  /**
   * The loop nest of buildInnerComprehension once the qualifiers are split into their variable
   * and non-variable parts: the nested loops over the non-variable row generators, the guard,
   * the loop body and one closing brace per block.
   */
  function LoopNest(env: Env, view: string, fields: seq<TExpr>, groupBy: Option<seq<Column>>,
                    vars: seq<Expr>, nonVars: seq<Expr>, isConstraint: bool): Result<seq<Stmt>>
    requires AllSubqueryFree(vars) && AllSubqueryFree(nonVars)
  {
    BucketSubqueryFree(nonVars, JoinBucket);
    BucketSubqueryFree(nonVars, WhereBucket);
    GeneratorBucketHoldsGenerators(nonVars);
    var gens := OfBucket(nonVars, GeneratorBucket);
    var conds :- FilterConditions(env, OfBucket(nonVars, JoinBucket), OfBucket(nonVars, WhereBucket), isConstraint);
    var body :- ViewLoopBody(env, view, fields, groupBy, vars, nonVars, isConstraint);
    Ok(Loops(gens) + Guard(conds) + body + Ends(|gens| + |Guard(conds)|))
  }

  /**
   * What buildInnerComprehension emits after the result-set declaration: the qualifiers are
   * split by populateQualifiersByVarType, then the loop nest.
   */
  function QualifierStmts(env: Env, view: string, fields: seq<TExpr>, groupBy: Option<seq<Column>>,
                          qs: seq<Expr>, isConstraint: bool, isVarQualifier: Expr -> bool): Result<seq<Stmt>>
    requires AllSubqueryFree(qs)
  {
    if !PopulateSucceeds(qs, isVarQualifier) then Err(IllegalArgument)
    else
      PartsSubqueryFree(qs, isVarQualifier);
      LoopNest(env, view, fields, groupBy, VarPart(qs, isVarQualifier), NonVarPart(qs, isVarQualifier), isConstraint)
  }

  function ViewComment(view: string, isConstraint: bool): string
  {
    (if isConstraint then "Constraint" else "Non-constraint") + " view " + view
  }

  /** buildInnerComprehension: the statements and the new field-index table. */
  function InnerView(env: Env, view: string, h: Option<Head>, qs: seq<Expr>, groupBy: Option<seq<Column>>,
                     isConstraint: bool, isVarQualifier: Expr -> bool): Result<(seq<Stmt>, FieldIndexTable)>
    requires AllSubqueryFree(qs)
  {
    if h.None? then Err(NullPointer)
    else
      match HeadItems(h.value.selectExprs)
      case None => Err(NullPointer)
      case Some(items) =>
        var head :- HeadAccess(env, view, items);
        var decl := if isConstraint then [] else [ResultSetDecl(view, |items|, groupBy)];
        var rest :- QualifierStmts(env.(viewToFieldIndex := head.1), view, head.0, groupBy, qs, isConstraint,
                                   isVarQualifier);
        Ok(([Comment(ViewComment(view, isConstraint))] + decl + rest, head.1))
  }

  /**
   * InnerView once the head is lowered: the comment, the result set (outside a constraint view)
   * and the qualifiers' code, lowered against the view's new slots.
   */
  lemma InnerViewAssembled(env: Env, view: string, h: Option<Head>, qs: seq<Expr>,
                           groupBy: Option<seq<Column>>, isConstraint: bool, isVarQualifier: Expr -> bool,
                           items: seq<Column>, fields: seq<TExpr>, fi: FieldIndexTable)
    requires AllSubqueryFree(qs) && h.Some? && HeadItems(h.value.selectExprs) == Some(items)
    requires HeadAccess(env, view, items).Ok?
    requires HeadAccess(env, view, items).value.0 == fields
    requires HeadAccess(env, view, items).value.1 == fi
    ensures var rest := QualifierStmts(env.(viewToFieldIndex := fi), view, fields, groupBy, qs, isConstraint,
                                       isVarQualifier);
            var decl := if isConstraint then [] else [ResultSetDecl(view, |items|, groupBy)];
            InnerView(env, view, h, qs, groupBy, isConstraint, isVarQualifier)
            == if rest.Err? then Err(rest.error)
               else Ok(([Comment(ViewComment(view, isConstraint))] + decl + rest.value, fi))
  {
  }

  predicate HeadSubqueryFree(h: Option<Head>)
  {
    h.None? || AllSubqueryFree(h.value.selectExprs)
  }

  /** The loop that builds a group-by view from its intermediate view, one row per group. */
  function GroupResult(view: string, intermediate: string, values: seq<TExpr>): seq<Stmt>
  {
    [Comment("Non-constraint view " + TableNameStr(view)),
     DeclareGroupResult(TableNameStr(view), intermediate),
     BeginForEachGroup(intermediate),
     AddGroupResult(TableNameStr(view), values),
     EndBlock]
  }

  /**
   * addView on a group-by comprehension: the intermediate view `tmp<counter>` collects the
   * inner comprehension's tuples by group; its slot table must exist (it is read for its size).
   */
  function GroupView(env: Env, counter: nat, view: string, comp: Expr, isConstraint: bool,
                     isVarQualifier: Expr -> bool): Result<(seq<Stmt>, FieldIndexTable, nat)>
    requires comp.GroupByComprehension?
    requires AllSubqueryFree(comp.innerQualifiers) && HeadSubqueryFree(comp.innerHead)
  {
    var intermediate := IntermediateViewName(counter);
    var inner :- InnerView(env, intermediate, comp.innerHead, comp.innerQualifiers, Some(comp.groupBy),
                           isConstraint, isVarQualifier);
    if comp.innerHead.None? || Upper(intermediate) !in inner.1 then Err(NullPointer)
    else
      var values :- LowerAll(env.(viewToFieldIndex := inner.1), comp.innerHead.value.selectExprs, true,
                             Some(GroupContext(comp.groupBy, intermediate)));
      Ok((inner.0 + GroupResult(view, intermediate, values), inner.1, counter + 1))
  }

  /** GroupView once the intermediate view is built and its slot table found: the per-group loop. */
  lemma GroupViewAssembled(env: Env, counter: nat, view: string, comp: Expr, isConstraint: bool,
                           isVarQualifier: Expr -> bool, inner: (seq<Stmt>, FieldIndexTable))
    requires comp.GroupByComprehension? && comp.innerHead.Some?
    requires AllSubqueryFree(comp.innerQualifiers) && HeadSubqueryFree(comp.innerHead)
    requires InnerView(env, IntermediateViewName(counter), comp.innerHead, comp.innerQualifiers, Some(comp.groupBy),
                       isConstraint, isVarQualifier) == Ok(inner)
    requires Upper(IntermediateViewName(counter)) in inner.1
    ensures var intermediate := IntermediateViewName(counter);
            var values := LowerAll(env.(viewToFieldIndex := inner.1), comp.innerHead.value.selectExprs, true,
                                   Some(GroupContext(comp.groupBy, intermediate)));
            GroupView(env, counter, view, comp, isConstraint, isVarQualifier)
            == if values.Err? then Err(values.error)
               else Ok((inner.0 + GroupResult(view, intermediate, values.value), inner.1, counter + 1))
  {
  }

  predicate ViewSubqueryFree(comp: Expr)
  {
    (comp.MonoidComprehension? && AllSubqueryFree(comp.qualifiers))
    || (comp.GroupByComprehension? && AllSubqueryFree(comp.innerQualifiers) && HeadSubqueryFree(comp.innerHead))
  }

  /** addView: the statements, the new field-index table and the new intermediate-view counter. */
  function View(env: Env, counter: nat, view: string, comp: Expr, isConstraint: bool,
                isVarQualifier: Expr -> bool): Result<(seq<Stmt>, FieldIndexTable, nat)>
    requires ViewSubqueryFree(comp)
  {
    if comp.GroupByComprehension? then GroupView(env, counter, view, comp, isConstraint, isVarQualifier)
    else
      var inner :- InnerView(env, view, comp.head, comp.qualifiers, None, isConstraint, isVarQualifier);
      Ok((inner.0, inner.1, counter))
  }

  // ---------------------------------------------------------------------------------------
  // What is promised about the emitted views

  lemma QualifierStmtsBalanced(env: Env, view: string, fields: seq<TExpr>, groupBy: Option<seq<Column>>,
                               qs: seq<Expr>, isConstraint: bool, isVarQualifier: Expr -> bool)
    requires AllSubqueryFree(qs)
    requires QualifierStmts(env, view, fields, groupBy, qs, isConstraint, isVarQualifier).Ok?
    ensures Balanced(QualifierStmts(env, view, fields, groupBy, qs, isConstraint, isVarQualifier).value)
  {
    PartsSubqueryFree(qs, isVarQualifier);
    LoopNestBalanced(env, view, fields, groupBy, VarPart(qs, isVarQualifier), NonVarPart(qs, isVarQualifier),
                     isConstraint);
  }

  lemma LoopNestBalanced(env: Env, view: string, fields: seq<TExpr>, groupBy: Option<seq<Column>>,
                         vars: seq<Expr>, nonVars: seq<Expr>, isConstraint: bool)
    requires AllSubqueryFree(vars) && AllSubqueryFree(nonVars)
    requires LoopNest(env, view, fields, groupBy, vars, nonVars, isConstraint).Ok?
    ensures Balanced(LoopNest(env, view, fields, groupBy, vars, nonVars, isConstraint).value)
  {
    BucketSubqueryFree(nonVars, JoinBucket);
    BucketSubqueryFree(nonVars, WhereBucket);
    GeneratorBucketHoldsGenerators(nonVars);
    var gens := OfBucket(nonVars, GeneratorBucket);
    var conds := FilterConditions(env, OfBucket(nonVars, JoinBucket), OfBucket(nonVars, WhereBucket), isConstraint).value;
    var body := ViewLoopBody(env, view, fields, groupBy, vars, nonVars, isConstraint).value;
    ViewLoopBodyBalanced(env, view, fields, groupBy, vars, nonVars, isConstraint);
    AppendNested(Loops(gens), Guard(conds));
    BlockBalanced(Loops(gens) + Guard(conds), body, |gens| + |Guard(conds)|);
  }

  lemma ViewLoopBodyBalanced(env: Env, view: string, fields: seq<TExpr>, groupBy: Option<seq<Column>>,
                             vars: seq<Expr>, nonVars: seq<Expr>, isConstraint: bool)
    requires AllSubqueryFree(vars) && AllSubqueryFree(nonVars)
    requires ViewLoopBody(env, view, fields, groupBy, vars, nonVars, isConstraint).Ok?
    ensures Balanced(ViewLoopBody(env, view, fields, groupBy, vars, nonVars, isConstraint).value)
  {
    if !isConstraint {
      FlatBalanced(ViewLoopBody(env, view, fields, groupBy, vars, nonVars, isConstraint).value);
    }
  }

  /** What a successful buildInnerComprehension is made of. */
  lemma InnerViewParts(env: Env, view: string, h: Option<Head>, qs: seq<Expr>, groupBy: Option<seq<Column>>,
                       isConstraint: bool, isVarQualifier: Expr -> bool)
    requires AllSubqueryFree(qs)
    requires InnerView(env, view, h, qs, groupBy, isConstraint, isVarQualifier).Ok?
    ensures h.Some? && HeadItems(h.value.selectExprs).Some?
    ensures var items := HeadItems(h.value.selectExprs).value;
            var head := HeadAccess(env, view, items);
            head.Ok?
            && var rest := QualifierStmts(env.(viewToFieldIndex := head.value.1), view, head.value.0, groupBy, qs,
                                          isConstraint, isVarQualifier);
               rest.Ok?
               && InnerView(env, view, h, qs, groupBy, isConstraint, isVarQualifier).value
                  == ([Comment(ViewComment(view, isConstraint))]
                      + (if isConstraint then [] else [ResultSetDecl(view, |items|, groupBy)])
                      + rest.value, head.value.1)
  {
  }

  lemma InnerViewBalanced(env: Env, view: string, h: Option<Head>, qs: seq<Expr>, groupBy: Option<seq<Column>>,
                          isConstraint: bool, isVarQualifier: Expr -> bool)
    requires AllSubqueryFree(qs)
    requires InnerView(env, view, h, qs, groupBy, isConstraint, isVarQualifier).Ok?
    ensures Balanced(InnerView(env, view, h, qs, groupBy, isConstraint, isVarQualifier).value.0)
  {
    InnerViewParts(env, view, h, qs, groupBy, isConstraint, isVarQualifier);
    var items := HeadItems(h.value.selectExprs).value;
    var head := HeadAccess(env, view, items).value;
    var decl := if isConstraint then [] else [ResultSetDecl(view, |items|, groupBy)];
    QualifierStmtsBalanced(env.(viewToFieldIndex := head.1), view, head.0, groupBy, qs, isConstraint, isVarQualifier);
    FlatBalanced([Comment(ViewComment(view, isConstraint))] + decl);
    AppendBalanced([Comment(ViewComment(view, isConstraint))] + decl,
                   QualifierStmts(env.(viewToFieldIndex := head.1), view, head.0, groupBy, qs, isConstraint,
                                  isVarQualifier).value);
  }

  /** The per-group loop is balanced. */
  lemma GroupResultBalanced(view: string, intermediate: string, values: seq<TExpr>)
    ensures Balanced(GroupResult(view, intermediate, values))
  {
    var g := GroupResult(view, intermediate, values);
    assert g[..1] == [g[0]];
    AppendOne([], g[0]);
    assert g[..2] == g[..1] + [g[1]];
    AppendOne(g[..1], g[1]);
    assert g[..3] == g[..2] + [g[2]];
    AppendOne(g[..2], g[2]);
    assert g[..4] == g[..3] + [g[3]];
    AppendOne(g[..3], g[3]);
    assert g == g[..4] + [g[4]];
    AppendOne(g[..4], g[4]);
  }

  /** What a successful addView on a group-by comprehension is made of. */
  lemma GroupViewParts(env: Env, counter: nat, view: string, comp: Expr, isConstraint: bool,
                       isVarQualifier: Expr -> bool)
    requires comp.GroupByComprehension?
    requires AllSubqueryFree(comp.innerQualifiers) && HeadSubqueryFree(comp.innerHead)
    requires GroupView(env, counter, view, comp, isConstraint, isVarQualifier).Ok?
    ensures var intermediate := IntermediateViewName(counter);
            var inner := InnerView(env, intermediate, comp.innerHead, comp.innerQualifiers, Some(comp.groupBy),
                                   isConstraint, isVarQualifier);
            inner.Ok? && comp.innerHead.Some? && Upper(intermediate) in inner.value.1
            && var values := LowerAll(env.(viewToFieldIndex := inner.value.1), comp.innerHead.value.selectExprs, true,
                                      Some(GroupContext(comp.groupBy, intermediate)));
               values.Ok?
               && GroupView(env, counter, view, comp, isConstraint, isVarQualifier).value
                  == (inner.value.0 + GroupResult(view, intermediate, values.value), inner.value.1, counter + 1)
  {
  }

  /** Every block a view's code opens, it closes after opening it. */
  lemma ViewBalanced(env: Env, counter: nat, view: string, comp: Expr, isConstraint: bool,
                     isVarQualifier: Expr -> bool)
    requires ViewSubqueryFree(comp)
    requires View(env, counter, view, comp, isConstraint, isVarQualifier).Ok?
    ensures Balanced(View(env, counter, view, comp, isConstraint, isVarQualifier).value.0)
  {
    if comp.GroupByComprehension? {
      var intermediate := IntermediateViewName(counter);
      GroupViewParts(env, counter, view, comp, isConstraint, isVarQualifier);
      InnerViewBalanced(env, intermediate, comp.innerHead, comp.innerQualifiers, Some(comp.groupBy),
                        isConstraint, isVarQualifier);
      var inner := InnerView(env, intermediate, comp.innerHead, comp.innerQualifiers, Some(comp.groupBy),
                             isConstraint, isVarQualifier).value;
      var values := LowerAll(env.(viewToFieldIndex := inner.1), comp.innerHead.value.selectExprs, true,
                             Some(GroupContext(comp.groupBy, intermediate))).value;
      GroupResultBalanced(view, intermediate, values);
      AppendBalanced(inner.0, GroupResult(view, intermediate, values));
    } else {
      InnerViewBalanced(env, view, comp.head, comp.qualifiers, None, isConstraint, isVarQualifier);
    }
  }

  /**
   * A group-by view's values read only the group: outside an aggregate, grouping column k (k
   * below the number of grouping columns); inside an aggregate, slots of the group's tuples.
   */
  lemma GroupValuesReadOnlyTheGroup(env: Env, es: seq<Expr>, group: GroupContext, i: nat)
    requires AllSubqueryFree(es) && LowerAll(env, es, true, Some(group)).Ok? && i < |es|
    ensures GroupShaped(LowerAll(env, es, true, Some(group)).value[i], |group.groupBy|, false)
  {
    LowerAllElementwise(env, es, true, Some(group));
    LowerInGroupIsGroupShaped(env, es[i], true, group, false);
  }

  /** The guard of a view's loops reads no decision variable. */
  lemma QualifierGuardReadsNoVariable(env: Env, qs: seq<Expr>, isConstraint: bool, isVarQualifier: Expr -> bool)
    requires AllSubqueryFree(qs)
    requires AllSubqueryFree(OfBucket(NonVarPart(qs, isVarQualifier), JoinBucket))
    requires AllSubqueryFree(OfBucket(NonVarPart(qs, isVarQualifier), WhereBucket))
    requires FilterConditions(env, OfBucket(NonVarPart(qs, isVarQualifier), JoinBucket),
                              OfBucket(NonVarPart(qs, isVarQualifier), WhereBucket), isConstraint).Ok?
    ensures forall t :: (t in FilterConditions(env, OfBucket(NonVarPart(qs, isVarQualifier), JoinBucket),
                                               OfBucket(NonVarPart(qs, isVarQualifier), WhereBucket),
                                               isConstraint).value) ==> !MentionsVar(t)
  {
    GuardsReadNoVariable(env, OfBucket(NonVarPart(qs, isVarQualifier), JoinBucket),
                         OfBucket(NonVarPart(qs, isVarQualifier), WhereBucket), isConstraint);
  }
}
