# OR-tools backend of the constraint compiler, in Dafny

This project models the code generator that turns a compiled constraint program into the
`solve()` method of an OR-tools CP-SAT backend, and proves properties of it.

The input is an IR of monoid comprehensions: views, constraint views and the catalog's tables.
`OrToolsSolver.generateModelCode` builds `solve()` in several steps:

- It creates the model.
- It declares one list of rows per base table and one IntVar array per controllable column.
- It adds the primary-key and foreign-key constraints.
- It lowers every view into nested loops that fill a result set. In a constraint view the loops
  add CP-SAT constraints instead.
- It ends with a solve phase that copies the solver's values back into the tables.

The model is organised as follows:

- **`Monoid`**: the IR.
- **`Target`**: the emitted code. A statement is a value (a declaration, a loop header, a
  closing brace, a constraint call and so on) rather than a Java string. Every control flow
  the source opens is closed: `buildInnerComprehension` pops each entry of
  `controlFlowsToPop` (OrToolsSolver.java:303-305), and every other loop is closed where it is opened. The predicate
  `Balanced` states this of a statement sequence.
- **Visitors.** The default traversal of `MonoidVisitor` is a function, `Trace`. The visitors
  with state are classes whose `Visit` methods are proved against that traversal:
  `UsesControllableFields`, `GetColumnIdentifiers` and `QualifiersByType`.
- **Reference functions.** Each step of the generator has one: `Naming`, `FieldIndex`,
  `Qualifiers`, `Lowering`, `Constraints`, `ViewSpec`, `ArrayDeclarations`, `SolvePhase` and
  `ModelCode`. The lemmas about these functions state what the generated code does.
- **`Backend`**: the class `OrToolsSolver`. It holds the compiler's mutable state: the
  field-index table, the type table, the three counters and the generated flag. Its methods
  append to a method builder, and each method is proved equal to its reference function.
- **`SolvePhase`**: also gives the emitted solve phase a meaning. A small interpreter runs the
  emitted statements over the tables' data and a given solver status and solution. It proves
  what the generated backend returns.

## Model

| member | source | states |
|---|---|---|
| Naming.TableNameStr | dcm/src/main/java/com/vrg/backend/OrToolsSolver.java:700-702 | The variable of a table holds no underscore and, ignoring case, is the table's name without its underscores (UPPER_UNDERSCORE to lowerCamel). |
| Naming.FieldNameStr | dcm/src/main/java/com/vrg/backend/OrToolsSolver.java:704-707 | An IntVar array's name starts with its table's variable name, holds no underscore, and ignoring case is the table name followed by the field name, both without underscores. |
| Naming.IterStr | dcm/src/main/java/com/vrg/backend/OrToolsSolver.java:732-734 | A loop index is the table's variable name followed by `Iter`. |
| Naming.TableNumRowsStr | dcm/src/main/java/com/vrg/backend/OrToolsSolver.java:728-730 | A row count is the table's variable name followed by `.size()`. |
| Naming.NonConstraintViewName | dcm/src/main/java/com/vrg/backend/OrToolsSolver.java:736-738 | A non-constraint view's result set is named exactly as a table of that name. |
| Naming.SameLettersSameVariableIgnoringCase | dcm/src/main/java/com/vrg/backend/OrToolsSolver.java:700-702 | Names that agree up to case and underscores give variables that agree up to case. |
| Naming.SubqueryName | dcm/src/main/java/com/vrg/backend/OrToolsSolver.java:971 | Subquery views are named `subQuery` followed by the counter. |
| Naming.IntermediateViewName | dcm/src/main/java/com/vrg/backend/OrToolsSolver.java:186 | Intermediate group-by views are named `tmp` followed by the counter. |
| Naming.IndexVarName | dcm/src/main/java/com/vrg/backend/OrToolsSolver.java:583 | Foreign-key index variables are named `index` followed by the counter. |
| Naming.GeneratedNamesDistinct | dcm/src/main/java/com/vrg/backend/OrToolsSolver.java:583 | Different counter values give different subquery, intermediate-view and index-variable names, so no two generated names clash. |
| Text.CamelIgnoringCase | dcm/src/main/java/com/vrg/backend/OrToolsSolver.java:700-707 | Camel-casing only changes letter case and drops the separators: ignoring case, the result is the input without underscores. |
| Text.NatToStringInjective | dcm/src/main/java/com/vrg/backend/OrToolsSolver.java:971 | Distinct counter values print as distinct decimal strings. |
| Catalog.ControllableMembers | dcm/src/main/java/com/vrg/backend/OrToolsSolver.java:519-531 | The controllable columns of a table are exactly its columns marked controllable. |
| Catalog.JavaClass | dcm/src/main/java/com/vrg/backend/OrToolsSolver.java:610-623 | Each column type has its own class: integer columns are read as `Integer`, string columns as `String`, float columns as `Float` and boolean columns as `Boolean`, each class for that type only. |
| MonoidVisitor.TraceDefinedIffHeadsPresent | weave/src/main/java/com/vrg/compiler/monoid/MonoidVisitor.java:42-49 | The default traversal completes exactly when every comprehension it reaches has a head; otherwise `getHead()` throws. |
| MonoidVisitor.TraceReachesColumns | weave/src/main/java/com/vrg/compiler/monoid/MonoidVisitor.java:32-95 | The default traversal reaches exactly the column identifiers referenced outside comprehension heads; heads, literals, row generators and group-by qualifiers contribute none. |
| MonoidVisitor.BinaryColumnsLeftThenRight | weave/src/main/java/com/vrg/compiler/monoid/MonoidVisitor.java:51-56 | A binary predicate visits its left operand's columns and then its right operand's. |
| MonoidVisitor.AcceptVisitorAsWritten | weave/src/main/java/com/vrg/compiler/monoid/MonoidComprehension.java:72-76 | As written, a comprehension's `acceptVisitor` returns null whatever its hook returned; every other node returns its hook's result. |
| MonoidVisitor.SubqueryNameDropped | weave/src/main/java/com/vrg/compiler/monoid/MonoidComprehension.java:72-76 | The subquery name a hook returns is lost by the as-written dispatch and kept by the corrected one. |
| MonoidComprehensions.MonoidComprehension.Empty | weave/src/main/java/com/vrg/compiler/monoid/MonoidComprehension.java:26-27 | The package-private constructor gives a null head and no qualifiers. |
| MonoidComprehensions.MonoidComprehension.FromHead | weave/src/main/java/com/vrg/compiler/monoid/MonoidComprehension.java:29-31 | Constructed from a head: that head and no qualifiers. |
| MonoidComprehensions.MonoidComprehension.FromQualifiers | weave/src/main/java/com/vrg/compiler/monoid/MonoidComprehension.java:33-35 | Constructed from qualifiers: a null head and those qualifiers. |
| MonoidComprehensions.MonoidComprehension.constructor | weave/src/main/java/com/vrg/compiler/monoid/MonoidComprehension.java:37-40 | Constructed from both: that head and those qualifiers. |
| MonoidComprehensions.MonoidComprehension.AddQualifiers | weave/src/main/java/com/vrg/compiler/monoid/MonoidComprehension.java:42-44 | The new qualifiers are appended in order; the head is untouched. |
| MonoidComprehensions.MonoidComprehension.AddQualifier | weave/src/main/java/com/vrg/compiler/monoid/MonoidComprehension.java:46-48 | One qualifier is appended; the head is untouched. |
| MonoidComprehensions.MonoidComprehension.WithQualifier | weave/src/main/java/com/vrg/compiler/monoid/MonoidComprehension.java:50-56 | A fresh comprehension with the same head and the qualifiers plus one; the receiver is not changed. |
| RewriteCountFunction.Apply | weave/src/main/java/com/vrg/backend/RewriteCountFunction.java:19-24 | A rewritten comprehension is a comprehension of the same kind and contains no `count`. |
| RewriteCountFunction.RewriteNoCount | weave/src/main/java/com/vrg/backend/RewriteCountFunction.java:28-38 | After the rewrite no `count` remains anywhere in the tree. |
| RewriteCountFunction.RewriteCountFreeIdentity | weave/src/main/java/com/vrg/backend/RewriteCountFunction.java:37 | On a tree without `count` the rewrite changes nothing. |
| RewriteCountFunction.RewriteIdempotent | weave/src/main/java/com/vrg/backend/RewriteCountFunction.java:13-38 | A second rewrite changes nothing. |
| RewriteCountFunction.RewriteFailsIffUnsafeCount | weave/src/main/java/com/vrg/backend/RewriteCountFunction.java:29-32 | The rewrite fails with IllegalStateException exactly when some `count` is applied to something other than a column identifier. |
| RewriteCountFunction.RewriteKeepsKindAndAlias | weave/src/main/java/com/vrg/backend/RewriteCountFunction.java:33-37 | Every node keeps its kind and alias; `count` becomes `sum(1)` and any other function keeps its name. |
| UsesControllableFields.UsesControllableFields.constructor | weave/src/main/java/com/vrg/compiler/UsesControllableFields.java:13 | A new visitor's flag is false. |
| UsesControllableFields.UsesControllableFields.VisitColumnIdentifier | weave/src/main/java/com/vrg/compiler/UsesControllableFields.java:16-21 | The flag becomes set when the column's field is controllable and is never cleared. |
| UsesControllableFields.UsesControllableFields.Visit | weave/src/main/java/com/vrg/compiler/UsesControllableFields.java:12-25 | After a visit the flag is set exactly when it was set before or a visited column is controllable; a visit that throws is reported. |
| UsesControllableFields.UsesControllableIffControllableColumn | weave/src/main/java/com/vrg/compiler/UsesControllableFields.java:16-19 | A fresh visitor's flag is set exactly when the traversal completes and the expression references a controllable column outside heads. |
| UsesControllableFields.BinaryIsOr | weave/src/main/java/com/vrg/compiler/monoid/MonoidVisitor.java:51-56 | On a binary predicate the flag is the OR of the flags of its operands. |
| UsesControllableFields.ColumnFreeLeavesFalse | weave/src/main/java/com/vrg/compiler/monoid/MonoidVisitor.java:70-73 | An expression that references no column leaves the flag false. |
| GetColumnIdentifiers.GetColumnIdentifiers.constructor | dcm/src/main/java/com/vrg/backend/GetColumnIdentifiers.java:16 | A new visitor has collected nothing. |
| GetColumnIdentifiers.GetColumnIdentifiers.VisitColumnIdentifier | dcm/src/main/java/com/vrg/backend/GetColumnIdentifiers.java:18-23 | The column is added to the set unless an equal one is already there. |
| GetColumnIdentifiers.GetColumnIdentifiers.Visit | dcm/src/main/java/com/vrg/backend/GetColumnIdentifiers.java:15-23 | After a visit the set is the old set with the visited columns added in visiting order. |
| GetColumnIdentifiers.AddAllKeepsDistinct | dcm/src/main/java/com/vrg/backend/GetColumnIdentifiers.java:16 | Adding columns never creates two equal elements. |
| GetColumnIdentifiers.AddAllHasKey | dcm/src/main/java/com/vrg/backend/GetColumnIdentifiers.java:16 | After adding, a column is represented exactly when it was before or was among the added ones. |
| GetColumnIdentifiers.AddAllFirstOfKey | dcm/src/main/java/com/vrg/backend/GetColumnIdentifiers.java:16 | Each collected element is the first added column equal to it. |
| GetColumnIdentifiers.AddAllInFirstOrder | dcm/src/main/java/com/vrg/backend/GetColumnIdentifiers.java:16 | Collected elements keep the order in which they were first added. |
| GetColumnIdentifiers.AddAllIsFirstOccurrences | dcm/src/main/java/com/vrg/backend/GetColumnIdentifiers.java:16-23 | The collected columns are the de-duplication of the visited columns in first-occurrence order (a LinkedHashSet). |
| GetColumnIdentifiers.VisitedColumnCollected | dcm/src/main/java/com/vrg/backend/GetColumnIdentifiers.java:20-23 | Every column the traversal visits ends up in the collected set. |
| FieldIndex.FieldKey | dcm/src/main/java/com/vrg/backend/OrToolsSolver.java:323-332 | The key of a head item is its alias, else its column name, else the next generated name, upper-cased; the generated-name counter is used exactly when there is neither alias nor column. |
| FieldIndex.RecordField | dcm/src/main/java/com/vrg/backend/OrToolsSolver.java:333-334 | A key already present keeps its slot; a new key gets the counter's value and the counter advances. |
| FieldIndex.RecordFieldsKeepsSlots | dcm/src/main/java/com/vrg/backend/OrToolsSolver.java:333-334 | A slot once assigned never changes. |
| FieldIndex.SlotsInFirstSeenOrder | dcm/src/main/java/com/vrg/backend/OrToolsSolver.java:255-265 | A view's fields get slots 0..n-1 in first-seen order, one per distinct key, and the counter ends at the number of distinct keys. |
| Qualifiers.BucketOf | dcm/src/main/java/com/vrg/backend/OrToolsSolver.java:993-1007 | A qualifier that fits no bucket fails with IllegalArgumentException. |
| Qualifiers.BucketOfCases | dcm/src/main/java/com/vrg/backend/OrToolsSolver.java:993-1007 | Binary predicates and row generators land in a bucket, group-by qualifiers are ignored, anything else is refused; an aggregate predicate lands in the aggregate bucket. |
| Qualifiers.BucketsPartition | dcm/src/main/java/com/vrg/backend/OrToolsSolver.java:993-1007 | The four buckets and the ignored group-by qualifiers split the qualifiers: each is counted once. |
| Qualifiers.OfBucketMembers | dcm/src/main/java/com/vrg/backend/OrToolsSolver.java:993-1001 | A bucket holds exactly the qualifiers that land in it. |
| Qualifiers.LandsInOne | dcm/src/main/java/com/vrg/backend/OrToolsSolver.java:993-1007 | An accepted qualifier lands in exactly one bucket or is an ignored group-by qualifier. |
| Qualifiers.QualifiersByType.constructor | dcm/src/main/java/com/vrg/backend/OrToolsSolver.java:987-991 | A new holder's buckets are empty. |
| Qualifiers.QualifiersByType.AddQualifierByType | dcm/src/main/java/com/vrg/backend/OrToolsSolver.java:993-1007 | The qualifier is appended to its bucket and no other bucket changes; it fails exactly when the qualifier fits no bucket. |
| Qualifiers.BucketSplitsBetweenParts | dcm/src/main/java/com/vrg/backend/OrToolsSolver.java:819-825 | Every bucket's qualifiers are split between the variable and the non-variable holders, as multisets. |
| Qualifiers.AddToPart | dcm/src/main/java/com/vrg/backend/OrToolsSolver.java:820-824 | One qualifier goes to the variable or the non-variable buckets; the holders keep the bucketing of the qualifiers seen so far. |
| Qualifiers.AddAllToParts | dcm/src/main/java/com/vrg/backend/OrToolsSolver.java:819-825 | After the loop the two holders hold the bucketing of the variable and the non-variable parts; it fails exactly when a qualifier fits no bucket. |
| Qualifiers.PopulateQualifiersByVarType | dcm/src/main/java/com/vrg/backend/OrToolsSolver.java:817-829 | The holders hold the bucketing of the two parts, and the call succeeds exactly when every qualifier is classifiable, neither part has an aggregate predicate and no row generator is variable. |
| Lowering.FirstMatch | dcm/src/main/java/com/vrg/backend/OrToolsSolver.java:932-940 | The position found is the first group-by column naming the same table and field ignoring case, and none is found only when no column matches. |
| Lowering.FindGroupByColumn | dcm/src/main/java/com/vrg/backend/OrToolsSolver.java:929-941 | The group-by search loop returns the slot of the first matching grouping column, within the grouping columns, or fails. |
| Lowering.FieldNameStrWithIter | dcm/src/main/java/com/vrg/backend/OrToolsSolver.java:713-726 | A field containing CONTROLLABLE is an IntVar array element; a view's field is read by its slot; a base table's field by name; a missing view field or table fails as Java's null unboxing does, and only then. |
| Lowering.LowerColumn | dcm/src/main/java/com/vrg/backend/OrToolsSolver.java:925-955 | Outside an aggregate in a group the column is its grouping column; inside, the group tuple's slot; otherwise a controllable column is refused where controllables are disallowed, and else it is the field access of its table. |
| Lowering.LowerBinary | dcm/src/main/java/com/vrg/backend/OrToolsSolver.java:858-921 | An operator is accepted exactly when it is one of the twelve listed; over an IntVar operand it becomes the solver's combinator, otherwise a plain Java operation. |
| Lowering.LowerAggregate | dcm/src/main/java/com/vrg/backend/OrToolsSolver.java:845-854 | Only `sum` (in any case) is accepted, and its name gets the `V` suffix exactly when the argument is an IntVar. |
| Lowering.Lower | dcm/src/main/java/com/vrg/backend/OrToolsSolver.java:831-975 | Lowering never produces a constant wrapper or subquery reference, and yields null exactly for exists predicates, row generators and group-by qualifiers. |
| Lowering.RequireNonNull | dcm/src/main/java/com/vrg/backend/OrToolsSolver.java:801 | A null result fails with NullPointerException; anything else passes through. |
| Lowering.ExprToStr | dcm/src/main/java/com/vrg/backend/OrToolsSolver.java:798-802 | A successful exprToStr is non-null and is the visitor's result; an expression that lowers to null fails. |
| Lowering.LowerWithoutControllableMentionsNoVar | dcm/src/main/java/com/vrg/backend/OrToolsSolver.java:951-953 | With controllable columns disallowed, a lowered expression reads no IntVar. |
| Lowering.LowerInGroupIsGroupShaped | dcm/src/main/java/com/vrg/backend/OrToolsSolver.java:929-947 | A lowered expression inside a group reads only grouping columns outside an aggregate and only the group's tuples inside one. |
| Lowering.InSubqueryOperand | dcm/src/main/java/com/vrg/backend/OrToolsSolver.java:969-974 | As written the operand of `x in (subquery)` is null and the constraint fails; corrected, it reads the subquery's view. |
| Constraints.Wrap | dcm/src/main/java/com/vrg/backend/OrToolsSolver.java:485 | An operand is wrapped in `model.newConstant` exactly when it is not an IntVar. |
| Constraints.MaybeWrapped | dcm/src/main/java/com/vrg/backend/OrToolsSolver.java:483-486 | maybeWrapped fails exactly when exprToStr does, and otherwise wraps its result unless the expression is an IntVar. |
| Constraints.TopLevelConstraint | dcm/src/main/java/com/vrg/backend/OrToolsSolver.java:432-478 | A top-level constraint's code opens no block it does not close. |
| Constraints.TopLevelConstraintShape | dcm/src/main/java/com/vrg/backend/OrToolsSolver.java:432-478 | Only binary predicates are accepted, and only `in` or an operator CpModel has a method for; a comparison is one CpModel call over the wrapped operands, `x in` a domain then x restricted to it. |
| Constraints.TopLevelConstraints | dcm/src/main/java/com/vrg/backend/OrToolsSolver.java:428-429 | The constraints of a stream of where-predicates are balanced. |
| Constraints.TopLevelConstraintsSucceedIff | dcm/src/main/java/com/vrg/backend/OrToolsSolver.java:428-429 | A stream of where-predicates succeeds exactly when each predicate's constraint does. |
| Constraints.LowerAllElementwise | dcm/src/main/java/com/vrg/backend/OrToolsSolver.java:376-384 | A stream of exprToStr calls succeeds exactly when each call does, and then holds each call's result in order. |
| Constraints.FilterConditions | dcm/src/main/java/com/vrg/backend/OrToolsSolver.java:376-387 | The guard's conditions are the join predicates and, outside constraint views only, the where predicates. |
| Constraints.Guard | dcm/src/main/java/com/vrg/backend/OrToolsSolver.java:389-393 | The guard is one `if`, left open, exactly when there is a condition. |
| Constraints.GuardsReadNoVariable | dcm/src/main/java/com/vrg/backend/OrToolsSolver.java:376-384 | A loop guard never reads an IntVar. |
| ViewSpec.AccessedAllContains | dcm/src/main/java/com/vrg/backend/OrToolsSolver.java:256-258 | Every column a select expression accesses is among the columns the whole head accesses. |
| ViewSpec.HeadItemsCoverHead | dcm/src/main/java/com/vrg/backend/OrToolsSolver.java:256-260 | The head items hold each accessed column once and a column for every one a select expression accesses. |
| ViewSpec.HeadAccessSlots | dcm/src/main/java/com/vrg/backend/OrToolsSolver.java:263-265 | The head items record their keys, in order, in the view's slots; no other view changes. |
| ViewSpec.FreshViewSlots | dcm/src/main/java/com/vrg/backend/OrToolsSolver.java:255-265 | A new view's head fields get slots 0..n-1 in first-seen order and every other view's slots are unchanged. |
| ViewSpec.Loops | dcm/src/main/java/com/vrg/backend/OrToolsSolver.java:363-372 | One open loop per row generator. |
| ViewSpec.LoopsFollowGenerators | dcm/src/main/java/com/vrg/backend/OrToolsSolver.java:365-370 | The i-th loop runs over the i-th row generator's table. |
| ViewSpec.GeneratorBucketHoldsGenerators | dcm/src/main/java/com/vrg/backend/OrToolsSolver.java:1000-1001 | Only row generators land in the generator bucket. |
| ViewSpec.InnerViewBalanced | dcm/src/main/java/com/vrg/backend/OrToolsSolver.java:246-308 | buildInnerComprehension's code closes every block it opens, after opening it. |
| ViewSpec.QualifierStmtsBalanced | dcm/src/main/java/com/vrg/backend/OrToolsSolver.java:282-305 | The qualifiers' code is balanced. |
| ViewSpec.LoopNestBalanced | dcm/src/main/java/com/vrg/backend/OrToolsSolver.java:287-305 | The loop nest, its guard and its body are closed by the popped control flows. |
| ViewSpec.ViewLoopBodyBalanced | dcm/src/main/java/com/vrg/backend/OrToolsSolver.java:293-300 | The innermost body is balanced. |
| ViewSpec.GroupResultBalanced | dcm/src/main/java/com/vrg/backend/OrToolsSolver.java:209-234 | The per-group loop is balanced. |
| ViewSpec.ViewBalanced | dcm/src/main/java/com/vrg/backend/OrToolsSolver.java:173-240 | Every view's code is balanced. |
| ViewSpec.GroupValuesReadOnlyTheGroup | dcm/src/main/java/com/vrg/backend/OrToolsSolver.java:217-231 | A group-by view's values read only the group. |
| ViewSpec.QualifierGuardReadsNoVariable | dcm/src/main/java/com/vrg/backend/OrToolsSolver.java:374-393 | The guard of a view's loops never reads an IntVar. |
| ArrayDeclarations.VarArraysExactlyControllable | dcm/src/main/java/com/vrg/backend/OrToolsSolver.java:519-531 | The arrays declared are exactly those of the controllable columns. |
| ArrayDeclarations.VarArraysFlat | dcm/src/main/java/com/vrg/backend/OrToolsSolver.java:519-531 | Array declarations open no block. |
| ArrayDeclarations.TableDecl | dcm/src/main/java/com/vrg/backend/OrToolsSolver.java:498-531 | A table's declarations fail exactly when jOOQ has no record type of its arity. |
| ArrayDeclarations.TablesDeclsFailure | dcm/src/main/java/com/vrg/backend/OrToolsSolver.java:494-532 | The first loop fails exactly when some base table has an arity jOOQ has no record type for. |
| ArrayDeclarations.TablesDeclsFlat | dcm/src/main/java/com/vrg/backend/OrToolsSolver.java:494-532 | The first loop's declarations open no block. |
| ArrayDeclarations.RecordColumnTypesKeepsFirst | dcm/src/main/java/com/vrg/backend/OrToolsSolver.java:503-511 | Recording a table's column types keeps earlier entries, touches no other table and gives every column a type. |
| ArrayDeclarations.RecordColumnTypesNewColumn | dcm/src/main/java/com/vrg/backend/OrToolsSolver.java:507-510 | A column without an earlier entry gets its own type. |
| ArrayDeclarations.RecordColumnTypesNames | dcm/src/main/java/com/vrg/backend/OrToolsSolver.java:507-510 | Only the table's own column names are added to its entry. |
| ArrayDeclarations.TablesTypesCoverBaseColumns | dcm/src/main/java/com/vrg/backend/OrToolsSolver.java:494-511 | After the first loop every column of every base table has a type. |
| ArrayDeclarations.PairDifferencesPerControllableColumn | dcm/src/main/java/com/vrg/backend/OrToolsSolver.java:560-565 | One `addDifferent` per controllable key column, over its IntVars in rows i and j. |
| ArrayDeclarations.PrimaryKeyStmtsWith | dcm/src/main/java/com/vrg/backend/OrToolsSolver.java:540-570 | A table without a controllable primary-key column gets no key constraints. |
| ArrayDeclarations.SingleKeyAllDifferent | dcm/src/main/java/com/vrg/backend/OrToolsSolver.java:544-549 | A single-column key with a constraint is the comment plus one `model.addAllDifferent` over that column's IntVar array; the column is controllable, so the array is one `VarArrays` declares when the column belongs to the table. |
| ArrayDeclarations.CompositeKeyBlockShape | dcm/src/main/java/com/vrg/backend/OrToolsSolver.java:552-556 | The composite-key block is a comment, the row loop and the pair loop. |
| ArrayDeclarations.CompositeKeyNeverComparedAsWritten | dcm/src/main/java/com/vrg/backend/OrToolsSolver.java:556 | As written the pair loop's guard `i < j` fails at j = 0, so no two rows are ever compared. |
| ArrayDeclarations.CompositeKeyComparesEachPair | dcm/src/main/java/com/vrg/backend/OrToolsSolver.java:553-556 | With the pair loop corrected, rows (i, j) are compared exactly when j < i < rows. |
| ArrayDeclarations.DistinctRowsCompared | dcm/src/main/java/com/vrg/backend/OrToolsSolver.java:553-556 | With the pair loop corrected, every two distinct rows are compared. |
| ArrayDeclarations.PrimaryKeyStmtsBalanced | dcm/src/main/java/com/vrg/backend/OrToolsSolver.java:540-570 | The primary-key constraints are balanced. |
| ArrayDeclarations.ForeignKeyStmtsCounter | dcm/src/main/java/com/vrg/backend/OrToolsSolver.java:573-604 | The foreign keys fail exactly when a constrained key does not link one column pair; otherwise the counter advances once per constrained key. |
| ArrayDeclarations.ForeignKeyIndexVarsFresh | dcm/src/main/java/com/vrg/backend/OrToolsSolver.java:583 | Every index variable is named after a counter value these keys took, so none clashes with an earlier one. |
| ArrayDeclarations.ForeignKeyStmtsBalanced | dcm/src/main/java/com/vrg/backend/OrToolsSolver.java:573-604 | The foreign-key constraints are balanced. |
| ArrayDeclarations.ForeignKeyBlockBalanced | dcm/src/main/java/com/vrg/backend/OrToolsSolver.java:578-602 | One foreign key's block is balanced. |
| ArrayDeclarations.SingleForeignKeyBlock | dcm/src/main/java/com/vrg/backend/OrToolsSolver.java:573-604 | A single constrained key emits one block with the next index variable. |
| ArrayDeclarations.ForeignKeyAsWrittenMissesParentRows | dcm/src/main/java/com/vrg/backend/OrToolsSolver.java:583-585 | As written the index variable ranges over the child's rows, so a parent with more rows has rows no child can reference. |
| ArrayDeclarations.ForeignKeyReachesEveryParentRow | dcm/src/main/java/com/vrg/backend/OrToolsSolver.java:583-601 | Intended bound only: with the index variable bounded by the parent's rows, k is a value it may take exactly when k is below the parent's row count. The one index variable stays shared by all child rows, as in the source. |
| ArrayDeclarations.KeyStmtsBalanced | dcm/src/main/java/com/vrg/backend/OrToolsSolver.java:539-604 | One table's key constraints, with the pair loop and the index bound as written, are balanced. |
| ArrayDeclarations.TablesKeysBalanced | dcm/src/main/java/com/vrg/backend/OrToolsSolver.java:535-605 | The second loop's constraints are balanced. |
| ArrayDeclarations.ArrayDeclsBalanced | dcm/src/main/java/com/vrg/backend/OrToolsSolver.java:491-608 | addArrayDeclarations' code is balanced. |
| SolvePhase.NoneControllableMeans | dcm/src/main/java/com/vrg/backend/OrToolsSolver.java:660-666 | A table's set of controllable column names is empty exactly when none of its columns is controllable. |
| SolvePhase.SolvePhaseStmts | dcm/src/main/java/com/vrg/backend/OrToolsSolver.java:645-698 | The solve phase's code is balanced. |
| SolvePhase.ColumnsFlat | dcm/src/main/java/com/vrg/backend/OrToolsSolver.java:671-692 | The column blocks open no block that stays open. |
| SolvePhase.TablesFlat | dcm/src/main/java/com/vrg/backend/OrToolsSolver.java:655-694 | The per-table code opens no block that stays open. |
| SolvePhase.FlatPrologueEpilogue | dcm/src/main/java/com/vrg/backend/OrToolsSolver.java:646-697 | The `if` opened by the prologue is closed by the epilogue. |
| SolvePhase.BlockRun | dcm/src/main/java/com/vrg/backend/OrToolsSolver.java:675-689 | One column block overwrites that column in every row with the solver's value (decoded for strings) and enters the table in the result. |
| SolvePhase.ColumnsRun | dcm/src/main/java/com/vrg/backend/OrToolsSolver.java:671-692 | Running a table's column blocks replaces its rows by the rows with all controllable columns applied and enters it in the result. |
| SolvePhase.ApplyColumnsAt | dcm/src/main/java/com/vrg/backend/OrToolsSolver.java:671-692 | Row i after the column blocks is the solved row i. |
| SolvePhase.ApplyColumnsSolves | dcm/src/main/java/com/vrg/backend/OrToolsSolver.java:671-692 | Applying the column blocks one by one gives the solved rows. |
| SolvePhase.TablesRun | dcm/src/main/java/com/vrg/backend/OrToolsSolver.java:655-694 | After the per-table code, tables with controllable columns hold their solved rows and every base table is in the result. |
| SolvePhase.PrologueRun | dcm/src/main/java/com/vrg/backend/OrToolsSolver.java:646-654 | The prologue enters the `if` exactly when the status is FEASIBLE or OPTIMAL. |
| SolvePhase.UnsolvedOutcome | dcm/src/main/java/com/vrg/backend/OrToolsSolver.java:695-697 | On any other status a ModelException naming the status is thrown. |
| SolvePhase.ExecuteSolved | dcm/src/main/java/com/vrg/backend/OrToolsSolver.java:652-696 | On FEASIBLE or OPTIMAL the outcome is what `return result` makes of the state after the tables. |
| SolvePhase.ReturnResultOutcome | dcm/src/main/java/com/vrg/backend/OrToolsSolver.java:695 | `return result` hands back each base table's current data. |
| SolvePhase.SolvedOutcome | dcm/src/main/java/com/vrg/backend/OrToolsSolver.java:652-696 | On FEASIBLE or OPTIMAL the result maps each base table to its data, with controllable columns solved. |
| SolvePhase.SolvePhaseOutcome | dcm/src/main/java/com/vrg/backend/OrToolsSolver.java:645-698 | The result holds exactly the base tables; tables without controllable columns come back unchanged, the others with those columns replaced by the solver's values; an unsolved status throws. |
| ModelCode.ViewsBalanced | dcm/src/main/java/com/vrg/backend/OrToolsSolver.java:145-154 | The code of all views of one forEach is balanced. |
| ModelCode.ModelStmtsBalanced | dcm/src/main/java/com/vrg/backend/OrToolsSolver.java:129-157 | The whole generated `solve()` method opens no block it does not close. |
| Target.BlockBalanced | dcm/src/main/java/com/vrg/backend/OrToolsSolver.java:302-305 | Opening n blocks, a balanced body, and then popping the n control flows is balanced. |
| Backend.OrToolsSolver.constructor | dcm/src/main/java/com/vrg/backend/OrToolsSolver.java:98-104 | A new compiler has empty tables, zero counters and no generated backend. |
| Backend.OrToolsSolver.UpdateFieldIndex | dcm/src/main/java/com/vrg/backend/OrToolsSolver.java:323-336 | The item's key gets the counter's slot in the view's table unless it has one, and the generated-name counter advances exactly when a name was generated. |
| Backend.OrToolsSolver.GetColumnsAccessed | dcm/src/main/java/com/vrg/backend/OrToolsSolver.java:310-314 | The columns a fresh GetColumnIdentifiers collects from the expression. |
| Backend.OrToolsSolver.HeadItemsList | dcm/src/main/java/com/vrg/backend/OrToolsSolver.java:256-260 | The head items are the accessed columns, flattened and de-duplicated. |
| Backend.OrToolsSolver.ConvertToFieldAccess | dcm/src/main/java/com/vrg/backend/OrToolsSolver.java:316-321 | The item's slot is recorded, then it is lowered as a column access. |
| Backend.OrToolsSolver.HeadFieldAccess | dcm/src/main/java/com/vrg/backend/OrToolsSolver.java:263-265 | The head items' accesses in order, with the view's slots updated as HeadAccess says. |
| Backend.OrToolsSolver.AddMapOrListForResultSet | dcm/src/main/java/com/vrg/backend/OrToolsSolver.java:338-361 | One result-set declaration is appended. |
| Backend.OrToolsSolver.AddNestedForLoops | dcm/src/main/java/com/vrg/backend/OrToolsSolver.java:363-372 | One loop per row generator is appended, in order. |
| Backend.OrToolsSolver.PopControlFlows | dcm/src/main/java/com/vrg/backend/OrToolsSolver.java:303-305 | One closing brace per open control flow is appended. |
| Backend.OrToolsSolver.AddToResultSet | dcm/src/main/java/com/vrg/backend/OrToolsSolver.java:397-420 | The tuple is added to the result set, or to its group's list. |
| Backend.OrToolsSolver.LowerExpr | dcm/src/main/java/com/vrg/backend/OrToolsSolver.java:831-975 | On expressions without subqueries, the visitor's result is the reference lowering and nothing is emitted. For a subquery the result is null, as `acceptVisitor` returns it. |
| Backend.OrToolsSolver.LowerBinaryExpr | dcm/src/main/java/com/vrg/backend/OrToolsSolver.java:858-921 | A binary operator's lowering, as LowerExpr. |
| Backend.OrToolsSolver.LowerSubquery | dcm/src/main/java/com/vrg/backend/OrToolsSolver.java:969-974 | The visit yields null, because `MonoidComprehension.acceptVisitor` drops the name (MonoidComprehension.java:73-76). For a subquery without nested subqueries, the counter advances by one and the view `subQuery<n>` emitted is the reference non-constraint view, with its outcome, statements, slots and intermediate counter. |
| Backend.OrToolsSolver.ExprToStr | dcm/src/main/java/com/vrg/backend/OrToolsSolver.java:798-802 | The result is non-null and, without subqueries, is the reference exprToStr. A subquery operand always fails: its null result trips `requireNonNull`. |
| Backend.OrToolsSolver.MaybeWrapped | dcm/src/main/java/com/vrg/backend/OrToolsSolver.java:483-486 | The result is the reference maybeWrapped. |
| Backend.OrToolsSolver.TopLevelConstraint | dcm/src/main/java/com/vrg/backend/OrToolsSolver.java:432-478 | The statements appended are the reference top-level constraint, and it fails with the same exception. |
| Backend.OrToolsSolver.AddInConstraint | dcm/src/main/java/com/vrg/backend/OrToolsSolver.java:441-449 | The `in` branch of topLevelConstraint; when the values are a subquery the constraint fails. |
| Backend.OrToolsSolver.AddComparison | dcm/src/main/java/com/vrg/backend/OrToolsSolver.java:450-477 | The comparison branch of topLevelConstraint. |
| Backend.OrToolsSolver.LowerEach | dcm/src/main/java/com/vrg/backend/OrToolsSolver.java:376-384 | A stream of exprToStr calls gives the reference lowering of each expression. |
| Backend.OrToolsSolver.AddTopLevelConstraints | dcm/src/main/java/com/vrg/backend/OrToolsSolver.java:428-429 | The constraints appended are the reference constraints of the stream, in order. |
| Backend.OrToolsSolver.MaybeAddNonVarFilters | dcm/src/main/java/com/vrg/backend/OrToolsSolver.java:374-394 | The guard appended is the reference guard over the filter conditions, and it reports the blocks it opened. |
| Backend.OrToolsSolver.AddRowConstraint | dcm/src/main/java/com/vrg/backend/OrToolsSolver.java:422-430 | The row constraints appended are the reference ones; a variable join predicate fails. |
| Backend.OrToolsSolver.AddLoopBody | dcm/src/main/java/com/vrg/backend/OrToolsSolver.java:293-300 | The loop body appended is the reference body. |
| Backend.OrToolsSolver.AddLoopNest | dcm/src/main/java/com/vrg/backend/OrToolsSolver.java:287-305 | The loop nest appended is the reference loop nest. |
| Backend.OrToolsSolver.AddQualifiers | dcm/src/main/java/com/vrg/backend/OrToolsSolver.java:282-305 | The qualifiers' code appended is the reference code. |
| Backend.OrToolsSolver.BuildInner | dcm/src/main/java/com/vrg/backend/OrToolsSolver.java:246-308 | buildInnerComprehension appends the reference statements and leaves the reference field-index table. |
| Backend.OrToolsSolver.AddResultSetAndQualifiers | dcm/src/main/java/com/vrg/backend/OrToolsSolver.java:277-305 | The result set and the qualifiers' code appended are the reference ones. |
| Backend.OrToolsSolver.AddView | dcm/src/main/java/com/vrg/backend/OrToolsSolver.java:173-240 | addView appends the reference statements and leaves the reference field-index table and counter. |
| Backend.OrToolsSolver.AddGroupView | dcm/src/main/java/com/vrg/backend/OrToolsSolver.java:175-235 | The group-by branch of addView. |
| Backend.OrToolsSolver.AddGroupLoop | dcm/src/main/java/com/vrg/backend/OrToolsSolver.java:209-234 | The per-group loop appended is the reference loop. |
| Backend.OrToolsSolver.AddInitializer | dcm/src/main/java/com/vrg/backend/OrToolsSolver.java:625-643 | The model creation is appended. |
| Backend.OrToolsSolver.RecordColumnTypes | dcm/src/main/java/com/vrg/backend/OrToolsSolver.java:503-511 | The column types are recorded as the reference says. |
| Backend.OrToolsSolver.AddVarArrays | dcm/src/main/java/com/vrg/backend/OrToolsSolver.java:518-531 | The IntVar arrays appended are those of the controllable columns. |
| Backend.OrToolsSolver.AddTableDeclaration | dcm/src/main/java/com/vrg/backend/OrToolsSolver.java:494-531 | One table's declarations are appended and its types recorded. |
| Backend.OrToolsSolver.AddTables | dcm/src/main/java/com/vrg/backend/OrToolsSolver.java:494-532 | The first loop appends the reference declarations and records the reference types. |
| Backend.OrToolsSolver.AddPrimaryKey | dcm/src/main/java/com/vrg/backend/OrToolsSolver.java:540-570 | The primary-key constraints appended are the reference ones, with the pair loop `for (int j = 0; i < j; j++)` as written. |
| Backend.OrToolsSolver.AddForeignKeys | dcm/src/main/java/com/vrg/backend/OrToolsSolver.java:573-604 | The foreign-key constraints appended are the reference ones, with the index variable bounded by the child table's rows as written, and the counter advances as they say. |
| Backend.OrToolsSolver.AddTableKeys | dcm/src/main/java/com/vrg/backend/OrToolsSolver.java:539-604 | One table's key constraints are appended as the source emits them: the pair loop `i < j` and the index bound by the child's rows, as written. |
| Backend.OrToolsSolver.AddKeys | dcm/src/main/java/com/vrg/backend/OrToolsSolver.java:535-605 | The second loop appends the reference key constraints, as written. |
| Backend.OrToolsSolver.AddArrayDeclarations | dcm/src/main/java/com/vrg/backend/OrToolsSolver.java:491-608 | addArrayDeclarations appends the reference statements, key constraints as written, and leaves the reference type table and counter. |
| Backend.OrToolsSolver.AddTableResult | dcm/src/main/java/com/vrg/backend/OrToolsSolver.java:655-693 | One table's part of the solve phase is appended. |
| Backend.OrToolsSolver.AddSolvePhase | dcm/src/main/java/com/vrg/backend/OrToolsSolver.java:645-698 | addSolvePhase appends the reference solve phase. |
| Backend.OrToolsSolver.AddRewrittenView | dcm/src/main/java/com/vrg/backend/OrToolsSolver.java:145-154 | One view is rewritten and then added. |
| Backend.OrToolsSolver.AddViews | dcm/src/main/java/com/vrg/backend/OrToolsSolver.java:145-154 | Each view is rewritten and added, in order. |
| Backend.OrToolsSolver.GenerateModelCode | dcm/src/main/java/com/vrg/backend/OrToolsSolver.java:129-171 | Once generated, nothing is returned and nothing changes; otherwise the result is the reference `solve()` body. |

## Left out

- Java text is not modelled. JavaPoet formatting, the tuple type parameters (`TupleGen`, `viewTupleTypeParameters`, `viewGroupByTupleTypeParameters`) and `addCode("\n")` are left out. Comments are kept only as markers, and each emitted statement is a value.
- `compile` is left out: javac, the temporary directory and class loading. `generatedBackend != null` is the flag `generated`. `GenerateModelCode` returns the statements and sets the flag where compilation would be attempted.
- `runSolver` and `printTime` are left out, as is logging (the group-by message on standard error). The solver's status, its solution and the string decoder are inputs of the solve-phase interpreter.
- The parameter `objectiveFunctions` of `generateModelCode` is never read by the source and is not modelled.
- Three collaborators are not part of this model and are parameters of `OrToolsSolver` instead:
  - `InferType.forExpr` becomes `isIntVar`.
  - `GetVarQualifiers.apply` becomes `isVarQualifier`, a test on the whole qualifier.
  - `RewriteArity.apply` becomes `rewriteArity`, which is required to map comprehensions to comprehensions of the same kind.
- `ComprehensionRewriter` is not part of this model. It is taken to rebuild every node from its rewritten children, heads included, and to override `visit` so that it does not dispatch through `MonoidComprehension.acceptVisitor`. Without that override, `RewriteCountFunction.apply`'s `requireNonNull` (RewriteCountFunction.java:20-22) would throw on every view, as the first row of "## Findings" explains.
- `ColumnIdentifier` equality is not part of this model. It is taken as case-insensitive equality of table and field name.
- The views maps and a table's column map are sequences in their iteration order. The source's `HashMap` order is unspecified.
- `controlFlowsToPop` is modelled as a count, because its strings are never read.
- The jOOQ record classes `Record1` to `Record22` are the bound `MaxRecordDegree`. A missing class is the `IllegalStateException` that `generateModelCode` wraps it in.
- Backend.OrToolsSolver.LowerExpr: the result and the emitted code are tied to the reference lowering only for expressions without subqueries. With a subquery, the contract says only that the visit yields null, so that `ExprToStr` fails (what the subquery's view emits is stated on `LowerSubquery`, for a subquery without nested subqueries); the text a null nested operand is formatted into ("null", lines 860-861) is not specified.
- Backend.OrToolsSolver.AddView: the statements are specified only for views whose rewritten comprehension has no subqueries. The same holds for `BuildInner`, `AddViews`, `AddRewrittenView`, `GenerateModelCode` and the methods between them, whose contracts all take `SubqueryFree` as a premise.
- Qualifiers.PopulateQualifiersByVarType: `GetVarQualifiers.apply(q)` returns two lists, and the source adds every element of both (OrToolsSolver.java:820-824). The model assumes `apply(q)` puts `q` itself into exactly one of the two lists, as `isVarQualifier(q)` decides. If `apply` splits a qualifier, for instance a conjunction into a variable and a non-variable part, the model does not capture the different guard and row constraints that result, and `Qualifiers.BucketSplitsBetweenParts` relies on this assumption.
- Backend.OrToolsSolver.LowerBinaryExpr: the outcome and the emitted statements are tied to the reference function only when the expressions it lowers have no subqueries (a `SubqueryFree` premise); with a subquery the contract states nothing about them beyond its other clauses.
- Backend.OrToolsSolver.ExprToStr: the outcome and the emitted statements are tied to the reference function only when the expressions it lowers have no subqueries (a `SubqueryFree` premise); with a subquery the contract states nothing about them beyond its other clauses.
- Backend.OrToolsSolver.MaybeWrapped: the outcome and the emitted statements are tied to the reference function only when the expressions it lowers have no subqueries (a `SubqueryFree` premise); with a subquery the contract states nothing about them beyond its other clauses.
- Backend.OrToolsSolver.TopLevelConstraint: the outcome and the emitted statements are tied to the reference function only when the expressions it lowers have no subqueries (a `SubqueryFree` premise); with a subquery the contract states nothing about them beyond its other clauses.
- Backend.OrToolsSolver.AddInConstraint: the outcome and the emitted statements are tied to the reference function only when the expressions it lowers have no subqueries (a `SubqueryFree` premise); with a subquery the contract states nothing about them beyond its other clauses.
- Backend.OrToolsSolver.AddComparison: the outcome and the emitted statements are tied to the reference function only when the expressions it lowers have no subqueries (a `SubqueryFree` premise); with a subquery the contract states nothing about them beyond its other clauses.
- Backend.OrToolsSolver.LowerEach: the outcome and the emitted statements are tied to the reference function only when the expressions it lowers have no subqueries (a `SubqueryFree` premise); with a subquery the contract states nothing about them beyond its other clauses.
- Backend.OrToolsSolver.AddTopLevelConstraints: the outcome and the emitted statements are tied to the reference function only when the expressions it lowers have no subqueries (a `SubqueryFree` premise); with a subquery the contract states nothing about them beyond its other clauses.
- Backend.OrToolsSolver.MaybeAddNonVarFilters: the outcome and the emitted statements are tied to the reference function only when the expressions it lowers have no subqueries (a `SubqueryFree` premise); with a subquery the contract states nothing about them beyond its other clauses.
- Backend.OrToolsSolver.AddRowConstraint: the outcome and the emitted statements are tied to the reference function only when the expressions it lowers have no subqueries (a `SubqueryFree` premise); with a subquery the contract states nothing about them beyond its other clauses.
- Backend.OrToolsSolver.AddLoopBody: the outcome and the emitted statements are tied to the reference function only when the expressions it lowers have no subqueries (a `SubqueryFree` premise); with a subquery the contract states nothing about them beyond its other clauses.
- Backend.OrToolsSolver.AddLoopNest: the outcome and the emitted statements are tied to the reference function only when the expressions it lowers have no subqueries (a `SubqueryFree` premise); with a subquery the contract states nothing about them beyond its other clauses.
- Backend.OrToolsSolver.AddQualifiers: the outcome and the emitted statements are tied to the reference function only when the expressions it lowers have no subqueries (a `SubqueryFree` premise); with a subquery the contract states nothing about them beyond its other clauses.
- Backend.OrToolsSolver.AddResultSetAndQualifiers: the outcome and the emitted statements are tied to the reference function only when the expressions it lowers have no subqueries (a `SubqueryFree` premise); with a subquery the contract states nothing about them beyond its other clauses.
- Backend.OrToolsSolver.AddGroupView: the outcome and the emitted statements are tied to the reference function only when the expressions it lowers have no subqueries (a `SubqueryFree` premise); with a subquery the contract states nothing about them beyond its other clauses.
- Backend.OrToolsSolver.AddGroupLoop: the outcome and the emitted statements are tied to the reference function only when the expressions it lowers have no subqueries (a `SubqueryFree` premise); with a subquery the contract states nothing about them beyond its other clauses.
- Backend.OrToolsSolver.GenerateModelCode: when a step fails, the contract names the same exception but not the statements emitted before it. The source throws and discards the builder.
- The unbalanced parenthesis in the `!=` branch of `topLevelConstraint` (`addDifferent((`, line 455) is not reproduced. The statement is `AddConstraint("addDifferent", …)`, so the model does not show that such a constraint view produces code that does not compile.
- The primary-key constraints name each key field's array after the table itself. The source uses `field.getIRTable()`, which this model takes to be that table.
- The loop that fills an IntVar array with fresh variables (lines 526-529) is folded into the array's declaration statement.
- MonoidComprehensions.MonoidComprehension.FromQualifiers: copies the qualifier sequence. The Java constructor keeps the caller's list itself (MonoidComprehension.java:33-40), so a later `addQualifier` also changes the caller's list, or throws `UnsupportedOperationException` when that list is immutable. That aliasing is not modelled.
- MonoidComprehensions.MonoidComprehension.constructor: copies the qualifier sequence, with the same loss of aliasing as `FromQualifiers`.
- The foreign-key block declares one index variable before its row loop and uses it for every child row (lines 583-601), so all child rows are tied to the same parent value. The model emits this as written and claims no correction for it.
- SolvePhase.SolvePhaseOutcome: the interpreter assumes that every `context.getTable(T).getCurrentData()` (OrToolsSolver.java:514, 668, 677) returns the same mutable `Result` for `T`. That method is not part of this model. Under this assumption, writes through one `tmp<k>` are seen by the next, and the row count `<table>.size()` bounding the loop is the length of `tmp<k>`. A `getCurrentData` that returned a fresh copy on each call would keep only the last column's values.
- SolvePhase.BlockRun: `tmp<k>.get(i).from(obj, "<field>")` (line 687) is assumed to store `obj[0]` into the field named `<field>`. jOOQ's `Record.from` is not part of this model. If it loads an array by position instead, with the field names acting only as a filter, then only a controllable column at position 0 receives the solver's value. The model would hide that; it is not claimed as a finding, because the library's behaviour cannot be checked here.
- SolvePhase.BlockRun: the per-row loop of lines 678-688 is folded into one `AssignSolvedColumn` statement, which updates every row of the column at once. The loop counter and the per-row `obj[0]` assignment are not separate steps of the interpreter.
- Text.Upper: case conversion and case-insensitive comparison (`toUpperCase(Locale.US)`, `equalsIgnoreCase`; OrToolsSolver.java:332, 845, 932-940) are modelled on ASCII letters only. Java also folds the other Unicode letters.
- Backend.OrToolsSolver.BuildInner: the outcome and the emitted statements are tied to the reference function only when the qualifiers it lowers have no subqueries (a `SubqueryFree` premise).
- Backend.OrToolsSolver.AddRewrittenView: the outcome and the emitted statements are tied to the reference function only when the rewritten view has no subqueries (a `SubqueryFree` premise).
- Backend.OrToolsSolver.AddViews: the outcome and the emitted statements are tied to the reference function only when every rewritten view has no subqueries (a `SubqueryFree` premise).
- String literals are kept abstract. The replacement of `'` by `"` is not modelled.
- The context argument of `MonoidVisitor.visit` is not part of `Trace`, because the default traversal passes it through unchanged. `ExprToStrVisitor`'s context is the `inFunction` argument of `LowerExpr`.
- The counters are `AtomicInteger`s in the source and unbounded naturals here. Overflow after 2^31 increments is not modelled.
- `generateDataCode`, the `context` field and the other backends are not part of this model.

## Findings

| source | as written | input that shows it | evidently intended | confidence | as-written member | corrected member |
|---|---|---|---|---|---|---|
| weave/src/main/java/com/vrg/compiler/monoid/MonoidComprehension.java:73-76 | `acceptVisitor` runs `visitMonoidComprehension` and returns null. `ExprToStrVisitor` therefore gets null for a subquery, after the subquery's view has been emitted. | A constraint view with the where-predicate `x in [y \| …]`: `exprToStr` of the right operand fails `requireNonNull` (NullPointerException) | The hook's result, the subquery view's name, is returned, and `x` is restricted to that view's values. The same null would make `RewriteCountFunction.apply` throw on every view unless `ComprehensionRewriter` overrides `visit` (see "## Left out") | not executed | MonoidVisitor.AcceptVisitorAsWritten, Lowering.InSubqueryOperand, Backend.OrToolsSolver.ExprToStr | MonoidVisitor.AcceptVisitor, Lowering.SubqueryOperand, MonoidVisitor.SubqueryNameDropped |
| dcm/src/main/java/com/vrg/backend/OrToolsSolver.java:584-585 | The foreign key's index variable ranges over `0 .. <child>.size() - 1`, the child table's row count | A child table with 1 row whose foreign key references a parent table with 3 rows: parent rows 1 and 2 can never be referenced | The index ranges over the parent table's rows, the domain it indexes (the bound alone; the index variable stays shared by all child rows) | not executed | ArrayDeclarations.ForeignKeyAsWrittenMissesParentRows | ArrayDeclarations.ForeignKeyReachesEveryParentRow |
| dcm/src/main/java/com/vrg/backend/OrToolsSolver.java:556 | The composite-key pair loop is `for (int j = 0; i < j; j++)`, whose guard fails at j = 0 | A table with a two-column primary key that has a controllable column, and 2 rows: no `addDifferent` is ever executed | `j < i`, so that every pair of rows is compared once | not executed | ArrayDeclarations.CompositeKeyNeverComparedAsWritten | ArrayDeclarations.CompositeKeyComparesEachPair, ArrayDeclarations.DistinctRowsCompared |
