/**
 * What addArrayDeclarations emits. First, for each base table: its rows and, for each
 * controllable column, an array of one IntVar per row; the type of every column is recorded on
 * the way. Then, for each base table: the primary-key constraints (the key columns of two rows
 * differ) and the foreign-key constraints (a child's column takes a value of the parent column).
 */
module ArrayDeclarations {
  import opened Wrappers
  import opened Text
  import opened Monoid
  import opened Target
  import opened Naming
  import opened Catalog
  import opened Lowering

  // ---------------------------------------------------------------------------------------
  // Tables and IntVar arrays

  /** jOOQ declares the record types Record1 to Record22; looking up any other arity fails. */
  const MaxRecordDegree: nat := 22

  predicate RecordClassExists(degree: nat)
  {
    1 <= degree <= MaxRecordDegree
  }

  /** The IllegalStateException wrapping the failed record-class lookup. */
  function MissingRecordClass(degree: nat): Error
  {
    IllegalState("java.lang.ClassNotFoundException: org.jooq.Record" + NatToString(degree))
  }

  function VarArray(tableName: string, f: Field): Stmt
  {
    DeclareVarArray(FieldNameStr(tableName, f.name), TableNumRowsStr(tableName), f.name)
  }

  /**
   * One IntVar array per controllable column, in column order: each an array over the table's
   * rows (which arrays, `VarArraysExactlyControllable` states).
   */
  function VarArrays(tableName: string, cols: seq<Field>): (r: seq<Stmt>)
    ensures |r| <= |cols|
    ensures forall k :: 0 <= k < |r| ==> r[k].DeclareVarArray? && r[k].numRows == TableNumRowsStr(tableName)
  {
    if cols == [] then []
    else
      var prev := VarArrays(tableName, cols[..|cols| - 1]);
      var f := cols[|cols| - 1];
      if f.controllable then prev + [VarArray(tableName, f)] else prev
  }

  /** The arrays declared are exactly those of the controllable columns. */
  lemma {:induction false} VarArraysExactlyControllable(tableName: string, cols: seq<Field>, s: Stmt)
    ensures s in VarArrays(tableName, cols) <==> exists f :: f in cols && f.controllable && s == VarArray(tableName, f)
  {
    if cols != [] {
      var init := cols[..|cols| - 1];
      VarArraysExactlyControllable(tableName, init, s);
      assert cols == init + [cols[|cols| - 1]];
    }
  }

  lemma {:induction false} VarArraysFlat(tableName: string, cols: seq<Field>)
    ensures Flat(VarArrays(tableName, cols))
  {
    if cols != [] {
      VarArraysFlat(tableName, cols[..|cols| - 1]);
    }
  }

  /** A base table's declarations: its rows, then its IntVar arrays; an arity jOOQ lacks is an error. */
  function TableDecl(t: Table): (r: Result<seq<Stmt>>)
    ensures r.Err? <==> !RecordClassExists(|t.columns|)
  {
    if !RecordClassExists(|t.columns|) then Err(MissingRecordClass(|t.columns|))
    else Ok([Comment("Table \"" + t.name + "\""), DeclareTable(TableNameStr(t.name), t.name)]
            + VarArrays(t.name, t.columns))
  }

  /** The first loop of addArrayDeclarations, over the tables in order; views and aliases are skipped. */
  function TablesDecls(tables: seq<Table>): Result<seq<Stmt>>
  {
    if tables == [] then Ok([])
    else
      var prev :- TablesDecls(tables[..|tables| - 1]);
      var t := tables[|tables| - 1];
      if !IsBaseTable(t) then Ok(prev)
      else
        var decl :- TableDecl(t);
        Ok(prev + decl)
  }

  /** The declarations fail exactly when some base table has an arity jOOQ has no record type for. */
  lemma {:induction false} TablesDeclsFailure(tables: seq<Table>)
    ensures TablesDecls(tables).Err? <==>
            exists i :: 0 <= i < |tables| && IsBaseTable(tables[i]) && !RecordClassExists(|tables[i].columns|)
  {
    if tables != [] {
      var init := tables[..|tables| - 1];
      TablesDeclsFailure(init);
      assert forall i :: 0 <= i < |init| ==> init[i] == tables[i];
    }
  }

  lemma {:induction false} TablesDeclsFlat(tables: seq<Table>)
    requires TablesDecls(tables).Ok?
    ensures Flat(TablesDecls(tables).value)
  {
    if tables != [] {
      var init := tables[..|tables| - 1];
      TablesDeclsFlat(init);
      var t := tables[|tables| - 1];
      if IsBaseTable(t) {
        VarArraysFlat(t.name, t.columns);
      }
    }
  }

  // ---------------------------------------------------------------------------------------
  // Column types

  /** For each table, the type of each of its fields. */
  type TypeTable = map<string, map<string, FieldType>>

  /** `computeIfAbsent(table).putIfAbsent(field, type)`: an existing entry wins. */
  function RecordColumnType(types: TypeTable, tableName: string, f: Field): TypeTable
  {
    if tableName in types && f.name in types[tableName] then types
    else
      var fields := if tableName in types then types[tableName] else map[];
      types[tableName := fields[f.name := f.fieldType]]
  }

  function RecordColumnTypes(types: TypeTable, tableName: string, cols: seq<Field>): TypeTable
  {
    if cols == [] then types
    else RecordColumnType(RecordColumnTypes(types, tableName, cols[..|cols| - 1]), tableName, cols[|cols| - 1])
  }

  /**
   * Recording a table's column types keeps every entry already there, touches no other table,
   * and gives every column of the table a type: its own, unless an earlier entry had one.
   */
  lemma {:induction false} RecordColumnTypesKeepsFirst(types: TypeTable, tableName: string, cols: seq<Field>)
    ensures var r := RecordColumnTypes(types, tableName, cols);
            (forall t :: t != tableName ==> (t in r <==> t in types))
            && (forall t :: t != tableName && t in r ==> r[t] == types[t])
            && (forall c :: tableName in types && c in types[tableName] ==>
                  tableName in r && c in r[tableName] && r[tableName][c] == types[tableName][c])
            && (forall i :: 0 <= i < |cols| ==> tableName in r && cols[i].name in r[tableName])
  {
    if cols != [] {
      var init := cols[..|cols| - 1];
      RecordColumnTypesKeepsFirst(types, tableName, init);
      assert forall i :: 0 <= i < |init| ==> init[i] == cols[i];
    }
  }

  /** A column no earlier entry names gets its own type, when the table's column names are distinct. */
  lemma {:induction false} RecordColumnTypesNewColumn(types: TypeTable, tableName: string, cols: seq<Field>, i: nat)
    requires DistinctColumnNames(cols) && i < |cols|
    requires !(tableName in types && cols[i].name in types[tableName])
    ensures var r := RecordColumnTypes(types, tableName, cols);
            tableName in r && cols[i].name in r[tableName] && r[tableName][cols[i].name] == cols[i].fieldType
  {
    var init := cols[..|cols| - 1];
    if i < |cols| - 1 {
      assert init[i] == cols[i];
      RecordColumnTypesNewColumn(types, tableName, init, i);
      assert cols[|cols| - 1].name != cols[i].name;
    } else {
      RecordColumnTypesNames(types, tableName, init, cols[i].name);
    }
  }

  /** Only names of the table's columns are added to its entry. */
  lemma {:induction false} RecordColumnTypesNames(types: TypeTable, tableName: string, cols: seq<Field>, c: string)
    ensures var r := RecordColumnTypes(types, tableName, cols);
            tableName in r && c in r[tableName] ==>
              (tableName in types && c in types[tableName]) || exists j :: 0 <= j < |cols| && cols[j].name == c
  {
    if cols != [] {
      var init := cols[..|cols| - 1];
      RecordColumnTypesNames(types, tableName, init, c);
      assert forall j :: 0 <= j < |init| ==> init[j] == cols[j];
    }
  }

  /** The types recorded by the first loop, table by table. */
  function TablesTypes(types: TypeTable, tables: seq<Table>): TypeTable
  {
    if tables == [] then types
    else
      var prev := TablesTypes(types, tables[..|tables| - 1]);
      var t := tables[|tables| - 1];
      if IsBaseTable(t) then RecordColumnTypes(prev, t.name, t.columns) else prev
  }

  /** After the first loop, every column of every base table has a type. */
  lemma {:induction false} TablesTypesCoverBaseColumns(types: TypeTable, tables: seq<Table>, i: nat, j: nat)
    requires i < |tables| && IsBaseTable(tables[i]) && j < |tables[i].columns|
    ensures var r := TablesTypes(types, tables);
            tables[i].name in r && tables[i].columns[j].name in r[tables[i].name]
  {
    var init := tables[..|tables| - 1];
    var t := tables[|tables| - 1];
    var prev := TablesTypes(types, init);
    if i < |tables| - 1 {
      assert init[i] == tables[i];
      TablesTypesCoverBaseColumns(types, init, i, j);
      if IsBaseTable(t) {
        RecordColumnTypesKeepsFirst(prev, t.name, t.columns);
      }
    } else {
      RecordColumnTypesKeepsFirst(prev, t.name, t.columns);
    }
  }

  // ---------------------------------------------------------------------------------------
  // Primary keys

  /** A primary key with at least one column, one of them controllable, gets constraints. */
  predicate HasPrimaryKeyConstraint(t: Table)
  {
    t.primaryKey.Some? && |t.primaryKey.value.primaryKeyFields| > 0 && HasControllableColumn(t.primaryKey.value)
  }

  predicate HasCompositeKeyConstraint(t: Table)
  {
    HasPrimaryKeyConstraint(t) && |t.primaryKey.value.primaryKeyFields| > 1
  }

  /** `for (int i = 0; i < <table>.size(); i++) {` */
  function RowLoop(tableName: string): Stmt
  {
    BeginFor("i", "i", TableNumRowsStr(tableName))
  }

  /** The inner loop of the composite-key decomposition as written: `for (int j = 0; i < j; j++) {` */
  const PairLoopAsWritten: Stmt := BeginFor("j", "i", "j")

  /** The inner loop that visits every earlier row: `for (int j = 0; j < i; j++) {` */
  const PairLoop: Stmt := BeginFor("j", "j", "i")

  /** `model.addDifferent(<key>[i], <key>[j])` for each controllable key column, in key order. */
  function PairDifferences(env: Env, tableName: string, keys: seq<Field>): Result<seq<Stmt>>
  {
    if keys == [] then Ok([])
    else
      var prev :- PairDifferences(env, tableName, keys[..|keys| - 1]);
      var f := keys[|keys| - 1];
      if !f.controllable then Ok(prev)
      else
        var left :- FieldNameStrWithIter(env, tableName, f.name, "i");
        // The lookup does not depend on the index variable: it succeeds for j when it did for i.
        var right := FieldNameStrWithIter(env, tableName, f.name, "j").value;
        Ok(prev + [AddConstraint("addDifferent", left, right)])
  }

  /**
   * One constraint per controllable key column: for a key column named as controllable, its
   * IntVars in rows i and j.
   */
  lemma {:induction false} PairDifferencesPerControllableColumn(env: Env, tableName: string, keys: seq<Field>)
    requires PairDifferences(env, tableName, keys).Ok?
    ensures |PairDifferences(env, tableName, keys).value| == |Controllable(keys)|
    ensures forall s :: s in PairDifferences(env, tableName, keys).value ==> s.AddConstraint? && s.call == "addDifferent"
    ensures forall f :: f in keys && f.controllable && Contains(f.name, ControllableMarker) ==>
              AddConstraint("addDifferent", VarAt(FieldNameStr(tableName, f.name), "i"),
                            VarAt(FieldNameStr(tableName, f.name), "j")) in PairDifferences(env, tableName, keys).value
  {
    if keys != [] {
      var init := keys[..|keys| - 1];
      var last := keys[|keys| - 1];
      PairDifferencesPerControllableColumn(env, tableName, init);
      ControllableSnoc(init, last);
      assert keys == init + [last];
      var prev := PairDifferences(env, tableName, init).value;
      var r := PairDifferences(env, tableName, keys).value;
      if last.controllable {
        var left := FieldNameStrWithIter(env, tableName, last.name, "i").value;
        var right := FieldNameStrWithIter(env, tableName, last.name, "j").value;
        assert r == prev + [AddConstraint("addDifferent", left, right)];
      } else {
        assert r == prev;
      }
      forall f | f in keys && f.controllable && Contains(f.name, ControllableMarker)
        ensures AddConstraint("addDifferent", VarAt(FieldNameStr(tableName, f.name), "i"),
                              VarAt(FieldNameStr(tableName, f.name), "j")) in r
      {
        if f != last {
          assert f in init;
        }
      }
    }
  }

  lemma ControllableSnoc(init: seq<Field>, last: Field)
    ensures Controllable(init + [last]) == Controllable(init) + (if last.controllable then [last] else [])
  {
    ControllableAppend(init, [last]);
  }

  lemma {:induction false} ControllableAppend(a: seq<Field>, b: seq<Field>)
    ensures Controllable(a + b) == Controllable(a) + Controllable(b)
  {
    if a != [] {
      ControllableAppend(a[1..], b);
      assert (a + b)[1..] == a[1..] + b;
    } else {
      assert a + b == b;
    }
  }

  /**
   * The primary-key constraints of a table, with `pairLoop` as the inner loop header of the
   * composite-key decomposition: all-different over a single key column's IntVars; for a
   * composite key, for each pair of rows, each controllable key column differs.
   */
  function PrimaryKeyStmtsWith(env: Env, t: Table, pairLoop: Stmt): (r: Result<seq<Stmt>>)
    ensures !HasPrimaryKeyConstraint(t) ==> r == Ok([])
  {
    if !HasPrimaryKeyConstraint(t) then Ok([])
    else
      var keys := t.primaryKey.value.primaryKeyFields;
      var header := Comment("Primary key constraints for " + TableNameStr(t.name));
      if |keys| == 1 then Ok([header, AllDifferent(FieldNameStr(t.name, keys[0].name))])
      else
        var diffs :- PairDifferences(env, t.name, keys);
        Ok([header, RowLoop(t.name), pairLoop] + diffs + [EndBlock, EndBlock])
  }

  /**
   * A single-column primary key with a constraint is one all-different over that column's
   * IntVars: the column is controllable, and when it is one of the table's columns its array is
   * the one `VarArrays` declares.
   */
  lemma SingleKeyAllDifferent(env: Env, t: Table, pairLoop: Stmt)
    requires HasPrimaryKeyConstraint(t) && |t.primaryKey.value.primaryKeyFields| == 1
    ensures var key := t.primaryKey.value.primaryKeyFields[0];
            key.controllable
            && PrimaryKeyStmtsWith(env, t, pairLoop)
               == Ok([Comment("Primary key constraints for " + TableNameStr(t.name)),
                      AllDifferent(FieldNameStr(t.name, key.name))])
            && (key in t.columns ==> VarArray(t.name, key) in VarArrays(t.name, t.columns)
                                     && VarArray(t.name, key).variable == FieldNameStr(t.name, key.name))
  {
    var key := t.primaryKey.value.primaryKeyFields[0];
    if key in t.columns {
      VarArraysExactlyControllable(t.name, t.columns, VarArray(t.name, key));
    }
  }

  /** The primary-key constraints as the source emits them. */
  function PrimaryKeyStmtsAsWritten(env: Env, t: Table): Result<seq<Stmt>>
  {
    PrimaryKeyStmtsWith(env, t, PairLoopAsWritten)
  }

  /** The primary-key constraints with the pair loop as evidently intended. */
  function PrimaryKeyStmts(env: Env, t: Table): Result<seq<Stmt>>
  {
    PrimaryKeyStmtsWith(env, t, PairLoop)
  }

  /** The value a name has in the generated code: a loop index or a row count bound in `vals`. */
  function ValueOf(vals: map<string, int>, name: string): int
  {
    if name in vals then vals[name] else 0
  }

  /** The guard of `for (int v = 0; l < r; v++)` when v is `k`. */
  predicate GuardAt(header: Stmt, vals: map<string, int>, k: nat)
    requires header.BeginFor?
  {
    var at := vals[header.iter := k];
    ValueOf(at, header.guardLeft) < ValueOf(at, header.guardRight)
  }

  /** The loop runs its body with v = k when its guard held for 0, 1, ..., k. */
  predicate RunsIteration(header: Stmt, vals: map<string, int>, k: nat)
    requires header.BeginFor?
  {
    forall w: nat :: w <= k ==> GuardAt(header, vals, w)
  }

  /**
   * A composite-key block reaches its body for rows (i, j) of a table of `rows` rows: the row
   * loop runs with i, then the pair loop runs with j.
   */
  predicate ComparesRows(block: seq<Stmt>, tableName: string, rows: nat, i: nat, j: nat)
    requires |block| >= 3 && block[1].BeginFor? && block[2].BeginFor?
  {
    var outer := map[TableNumRowsStr(tableName) := rows];
    RunsIteration(block[1], outer, i) && RunsIteration(block[2], outer[block[1].iter := i], j)
  }

  lemma CompositeKeyBlockShape(env: Env, t: Table, pairLoop: Stmt)
    requires HasCompositeKeyConstraint(t) && PrimaryKeyStmtsWith(env, t, pairLoop).Ok?
    ensures var block := PrimaryKeyStmtsWith(env, t, pairLoop).value;
            |block| >= 3 && block[1] == RowLoop(t.name) && block[2] == pairLoop
  {
  }

  /** As written, the pair loop's guard `i < j` fails at j = 0: no two rows are ever compared. */
  lemma CompositeKeyNeverComparedAsWritten(env: Env, t: Table, rows: nat, i: nat, j: nat)
    requires HasCompositeKeyConstraint(t) && PrimaryKeyStmtsAsWritten(env, t).Ok?
    ensures var block := PrimaryKeyStmtsAsWritten(env, t).value;
            |block| >= 3 && block[1].BeginFor? && block[2].BeginFor?
            && !ComparesRows(block, t.name, rows, i, j)
  {
    CompositeKeyBlockShape(env, t, PairLoopAsWritten);
    var n := TableNumRowsStr(t.name);
    var inner := map[n := rows]["i" := i];
    assert "i" != n && "j" != n;
    assert !GuardAt(PairLoopAsWritten, inner, 0) by {
      assert inner["j" := 0]["i"] == i && inner["j" := 0]["j"] == 0;
    }
  }

  /** With the pair loop corrected, rows (i, j) are compared exactly when j < i < rows. */
  lemma CompositeKeyComparesEachPair(env: Env, t: Table, rows: nat, i: nat, j: nat)
    requires HasCompositeKeyConstraint(t) && PrimaryKeyStmts(env, t).Ok?
    ensures var block := PrimaryKeyStmts(env, t).value;
            |block| >= 3 && block[1].BeginFor? && block[2].BeginFor?
            && (ComparesRows(block, t.name, rows, i, j) <==> j < i < rows)
  {
    CompositeKeyBlockShape(env, t, PairLoop);
    var n := TableNumRowsStr(t.name);
    assert "i" != n && "j" != n;
    var outer := map[n := rows];
    var inner := outer["i" := i];
    assert forall w: nat :: GuardAt(RowLoop(t.name), outer, w) <==> w < rows by {
      forall w: nat ensures GuardAt(RowLoop(t.name), outer, w) <==> w < rows {
        assert outer["i" := w]["i"] == w && outer["i" := w][n] == rows;
      }
    }
    assert forall w: nat :: GuardAt(PairLoop, inner, w) <==> w < i by {
      forall w: nat ensures GuardAt(PairLoop, inner, w) <==> w < i {
        assert inner["j" := w]["j"] == w && inner["j" := w]["i"] == i;
      }
    }
    assert RunsIteration(RowLoop(t.name), outer, i) <==> i < rows by {
      if i >= rows {
        assert !GuardAt(RowLoop(t.name), outer, i);
      }
    }
    assert RunsIteration(PairLoop, inner, j) <==> j < i by {
      if j >= i {
        assert !GuardAt(PairLoop, inner, j);
      }
    }
  }

  /** Every two distinct rows of a table are compared once, the later one as i. */
  lemma DistinctRowsCompared(env: Env, t: Table, rows: nat, a: nat, b: nat)
    requires HasCompositeKeyConstraint(t) && PrimaryKeyStmts(env, t).Ok?
    requires a < rows && b < rows && a != b
    ensures var block := PrimaryKeyStmts(env, t).value;
            |block| >= 3 && block[1].BeginFor? && block[2].BeginFor?
            && ComparesRows(block, t.name, rows, if a < b then b else a, if a < b then a else b)
  {
    CompositeKeyComparesEachPair(env, t, rows, if a < b then b else a, if a < b then a else b);
  }

  lemma PrimaryKeyStmtsBalanced(env: Env, t: Table, pairLoop: Stmt)
    requires pairLoop.BeginFor? && PrimaryKeyStmtsWith(env, t, pairLoop).Ok?
    ensures Balanced(PrimaryKeyStmtsWith(env, t, pairLoop).value)
  {
    if HasPrimaryKeyConstraint(t) {
      var keys := t.primaryKey.value.primaryKeyFields;
      var header := Comment("Primary key constraints for " + TableNameStr(t.name));
      if |keys| == 1 {
        FlatBalanced([header, AllDifferent(FieldNameStr(t.name, keys[0].name))]);
      } else {
        PairDifferencesPerControllableColumn(env, t.name, keys);
        PairBlockBalanced(header, RowLoop(t.name), pairLoop, PairDifferences(env, t.name, keys).value);
      }
    }
  }

  /** Two loops around flat statements, each closed. */
  lemma PairBlockBalanced(header: Stmt, outer: Stmt, inner: Stmt, body: seq<Stmt>)
    requires header.Comment? && outer.BeginFor? && inner.BeginFor?
    requires forall s :: s in body ==> s.AddConstraint?
    ensures Balanced([header, outer, inner] + body + [EndBlock, EndBlock])
  {
    var prefix := [header, outer, inner];
    FlatBalanced([header]);
    AppendOne([header], outer);
    assert [header] + [outer] == [header, outer];
    AppendOne([header, outer], inner);
    assert [header, outer] + [inner] == prefix;
    assert Flat(body) by {
      forall i | 0 <= i < |body| ensures Delta(body[i]) == 0 {
        assert body[i] in body;
      }
    }
    FlatBalanced(body);
    assert Ends(2) == [EndBlock, EndBlock];
    BlockBalanced(prefix, body, 2);
  }

  // ---------------------------------------------------------------------------------------
  // Foreign keys

  /** Whose row count bounds a foreign key's index variable. */
  datatype IndexBound = ChildTableRows | ParentTableRows

  function BoundTable(t: Table, l: ForeignKeyLink, bound: IndexBound): string
  {
    if bound == ChildTableRows then t.name else l.parentTable
  }

  function ForeignKeyComment(l: ForeignKeyLink): string
  {
    "Foreign key constraints: " + l.childTable + "." + l.child.name + " -> " + l.parentTable + "." + l.parent.name
  }

  /**
   * One foreign key: an index variable over `boundTable`'s rows and, for each row i of the
   * table, the child's IntVar in row i equals the parent column's value at that index.
   */
  function ForeignKeyBlock(t: Table, l: ForeignKeyLink, indexVar: string, boundTable: string): seq<Stmt>
  {
    [Comment(ForeignKeyComment(l)),
     NewIndexVar(indexVar, TableNumRowsStr(boundTable)),
     RowLoop(t.name),
     ParentDomain(l.parentTable, Upper(l.parent.name), JavaClass(l.parent.fieldType)),
     AddElement(indexVar, VarAt(FieldNameStr(l.childTable, l.child.name), "i")),
     EndBlock]
  }

  /** A foreign key with a constraint must link exactly one column pair. */
  predicate BadForeignKey(fk: ForeignKey)
  {
    fk.hasConstraint && |fk.links| != 1
  }

  /**
   * The foreign keys of a table, in order; each constrained one takes the next value of the
   * intermediate-view counter for its index variable's name. The statements and the counter.
   */
  function ForeignKeyStmtsWith(t: Table, fks: seq<ForeignKey>, counter: nat, bound: IndexBound)
    : (r: Result<(seq<Stmt>, nat)>)
    ensures r.Ok? ==> r.value.1 >= counter
  {
    if fks == [] then Ok(([], counter))
    else
      var prev :- ForeignKeyStmtsWith(t, fks[..|fks| - 1], counter, bound);
      var fk := fks[|fks| - 1];
      if !fk.hasConstraint then Ok(prev)
      else if |fk.links| != 1 then Err(IllegalArgument)
      else
        var n := prev.1 + 1;
        Ok((prev.0 + ForeignKeyBlock(t, fk.links[0], IndexVarName(n), BoundTable(t, fk.links[0], bound)), n))
  }

  /** The foreign-key constraints as the source emits them. */
  function ForeignKeyStmtsAsWritten(t: Table, counter: nat): Result<(seq<Stmt>, nat)>
  {
    ForeignKeyStmtsWith(t, t.foreignKeys, counter, ChildTableRows)
  }

  /** The foreign-key constraints with the index bound as evidently intended. */
  function ForeignKeyStmts(t: Table, counter: nat): Result<(seq<Stmt>, nat)>
  {
    ForeignKeyStmtsWith(t, t.foreignKeys, counter, ParentTableRows)
  }

  /** The number of foreign keys with a constraint. */
  function ConstrainedCount(fks: seq<ForeignKey>): nat
  {
    if fks == [] then 0
    else ConstrainedCount(fks[..|fks| - 1]) + (if fks[|fks| - 1].hasConstraint then 1 else 0)
  }

  /**
   * The foreign keys fail exactly when a constrained one does not link one column pair;
   * otherwise the counter advances once per constrained key.
   */
  lemma {:induction false} ForeignKeyStmtsCounter(t: Table, fks: seq<ForeignKey>, counter: nat, bound: IndexBound)
    ensures var r := ForeignKeyStmtsWith(t, fks, counter, bound);
            (r.Err? <==> exists i :: 0 <= i < |fks| && BadForeignKey(fks[i]))
            && (r.Ok? ==> r.value.1 == counter + ConstrainedCount(fks))
  {
    if fks != [] {
      var init := fks[..|fks| - 1];
      ForeignKeyStmtsCounter(t, init, counter, bound);
      assert forall i :: 0 <= i < |init| ==> init[i] == fks[i];
    }
  }

  /**
   * Every index variable is named after a counter value taken by these foreign keys, so none
   * clashes with one named before.
   */
  lemma {:induction false} ForeignKeyIndexVarsFresh(t: Table, fks: seq<ForeignKey>, counter: nat, bound: IndexBound, s: Stmt)
    requires ForeignKeyStmtsWith(t, fks, counter, bound).Ok?
    requires s in ForeignKeyStmtsWith(t, fks, counter, bound).value.0 && s.NewIndexVar?
    ensures exists k :: counter < k <= ForeignKeyStmtsWith(t, fks, counter, bound).value.1 && s.variable == IndexVarName(k)
  {
    var init := fks[..|fks| - 1];
    var fk := fks[|fks| - 1];
    var prev := ForeignKeyStmtsWith(t, init, counter, bound).value;
    if fk.hasConstraint {
      var block := ForeignKeyBlock(t, fk.links[0], IndexVarName(prev.1 + 1), BoundTable(t, fk.links[0], bound));
      if s in block {
        assert s.variable == IndexVarName(prev.1 + 1);
      } else {
        ForeignKeyIndexVarsFresh(t, init, counter, bound, s);
      }
    } else {
      ForeignKeyIndexVarsFresh(t, init, counter, bound, s);
    }
  }

  lemma {:induction false} ForeignKeyStmtsBalanced(t: Table, fks: seq<ForeignKey>, counter: nat, bound: IndexBound)
    requires ForeignKeyStmtsWith(t, fks, counter, bound).Ok?
    ensures Balanced(ForeignKeyStmtsWith(t, fks, counter, bound).value.0)
  {
    if fks != [] {
      var init := fks[..|fks| - 1];
      ForeignKeyStmtsBalanced(t, init, counter, bound);
      var fk := fks[|fks| - 1];
      if fk.hasConstraint {
        var prev := ForeignKeyStmtsWith(t, init, counter, bound).value;
        var l := fk.links[0];
        ForeignKeyBlockBalanced(t, l, IndexVarName(prev.1 + 1), BoundTable(t, l, bound));
        AppendBalanced(prev.0, ForeignKeyBlock(t, l, IndexVarName(prev.1 + 1), BoundTable(t, l, bound)));
      }
    }
  }

  lemma ForeignKeyBlockBalanced(t: Table, l: ForeignKeyLink, indexVar: string, boundTable: string)
    ensures Balanced(ForeignKeyBlock(t, l, indexVar, boundTable))
  {
    var b := ForeignKeyBlock(t, l, indexVar, boundTable);
    var open := b[..3];
    FlatBalanced([b[0], b[1]]);
    AppendOne([b[0], b[1]], b[2]);
    assert [b[0], b[1]] + [b[2]] == open;
    FlatBalanced([b[3], b[4]]);
    assert Ends(1) == [EndBlock];
    BlockBalanced(open, [b[3], b[4]], 1);
    assert open + [b[3], b[4]] + Ends(1) == b;
  }

  /** The row counts in the generated code of a child table and the table it references. */
  function RowCounts(childTable: string, childRows: nat, parentTable: string, parentRows: nat): map<string, int>
  {
    map[TableNumRowsStr(childTable) := childRows][TableNumRowsStr(parentTable) := parentRows]
  }

  /**
   * Parent row `k` can be linked to a child row: `k` is a value the index variable may take and
   * a position in the parent column's value array.
   */
  predicate Linkable(block: seq<Stmt>, vals: map<string, int>, parentRows: nat, k: nat)
    requires |block| >= 2 && block[1].NewIndexVar?
  {
    k < parentRows && k < ValueOf(vals, block[1].numRows)
  }

  /** What a table with one constrained foreign key emits for it. */
  lemma SingleForeignKeyBlock(t: Table, counter: nat, bound: IndexBound)
    requires |t.foreignKeys| == 1 && t.foreignKeys[0].hasConstraint && |t.foreignKeys[0].links| == 1
    ensures var l := t.foreignKeys[0].links[0];
            ForeignKeyStmtsWith(t, t.foreignKeys, counter, bound)
            == Ok((ForeignKeyBlock(t, l, IndexVarName(counter + 1), BoundTable(t, l, bound)), counter + 1))
  {
    var l := t.foreignKeys[0].links[0];
    assert t.foreignKeys[..0] == [];
    assert [] + ForeignKeyBlock(t, l, IndexVarName(counter + 1), BoundTable(t, l, bound))
           == ForeignKeyBlock(t, l, IndexVarName(counter + 1), BoundTable(t, l, bound));
  }

  /**
   * As written, the index variable ranges over the child table's rows: when the child has
   * fewer rows than the parent, the parent's later rows can never be referenced.
   */
  lemma ForeignKeyAsWrittenMissesParentRows(t: Table, childRows: nat, parentRows: nat)
    requires |t.foreignKeys| == 1 && t.foreignKeys[0].hasConstraint && |t.foreignKeys[0].links| == 1
    requires TableNumRowsStr(t.name) != TableNumRowsStr(t.foreignKeys[0].links[0].parentTable)
    requires childRows < parentRows
    ensures ForeignKeyStmtsAsWritten(t, 0).Ok?
    ensures var block := ForeignKeyStmtsAsWritten(t, 0).value.0;
            var l := t.foreignKeys[0].links[0];
            |block| >= 2 && block[1].NewIndexVar?
            && !Linkable(block, RowCounts(t.name, childRows, l.parentTable, parentRows), parentRows, childRows)
  {
    SingleForeignKeyBlock(t, 0, ChildTableRows);
    var l := t.foreignKeys[0].links[0];
    assert RowCounts(t.name, childRows, l.parentTable, parentRows)[TableNumRowsStr(t.name)] == childRows;
  }

  /**
   * With the index variable bounded by the parent's rows, every parent row is a value the index
   * variable may take. (The one index variable is still shared by all rows of the child table,
   * as in the source; only the bound differs.)
   */
  lemma ForeignKeyReachesEveryParentRow(t: Table, counter: nat, childRows: nat, parentRows: nat, k: nat)
    requires |t.foreignKeys| == 1 && t.foreignKeys[0].hasConstraint && |t.foreignKeys[0].links| == 1
    ensures ForeignKeyStmts(t, counter).Ok?
    ensures var block := ForeignKeyStmts(t, counter).value.0;
            var l := t.foreignKeys[0].links[0];
            |block| >= 2 && block[1].NewIndexVar?
            && (Linkable(block, RowCounts(t.name, childRows, l.parentTable, parentRows), parentRows, k) <==> k < parentRows)
  {
    SingleForeignKeyBlock(t, counter, ParentTableRows);
    var l := t.foreignKeys[0].links[0];
    assert RowCounts(t.name, childRows, l.parentTable, parentRows)[TableNumRowsStr(l.parentTable)] == parentRows;
  }

  // ---------------------------------------------------------------------------------------
  // The whole of addArrayDeclarations

  /**
   * The key constraints of one table as the source emits them: primary key, then foreign keys,
   * with the pair loop and the index bound as written.
   */
  function KeyStmts(env: Env, t: Table, counter: nat): (r: Result<(seq<Stmt>, nat)>)
    ensures r.Ok? ==> r.value.1 >= counter
  {
    var pk :- PrimaryKeyStmtsAsWritten(env, t);
    var fk :- ForeignKeyStmtsAsWritten(t, counter);
    Ok((pk + fk.0, fk.1))
  }

  /** The second loop of addArrayDeclarations, over the base tables in order. */
  function TablesKeys(env: Env, tables: seq<Table>, counter: nat): (r: Result<(seq<Stmt>, nat)>)
    ensures r.Ok? ==> r.value.1 >= counter
  {
    if tables == [] then Ok(([], counter))
    else
      var prev :- TablesKeys(env, tables[..|tables| - 1], counter);
      var t := tables[|tables| - 1];
      if !IsBaseTable(t) then Ok(prev)
      else
        var keys :- KeyStmts(env, t, prev.1);
        Ok((prev.0 + keys.0, keys.1))
  }

  lemma KeyStmtsBalanced(env: Env, t: Table, counter: nat)
    requires KeyStmts(env, t, counter).Ok?
    ensures Balanced(KeyStmts(env, t, counter).value.0)
  {
    PrimaryKeyStmtsBalanced(env, t, PairLoopAsWritten);
    ForeignKeyStmtsBalanced(t, t.foreignKeys, counter, ChildTableRows);
    AppendBalanced(PrimaryKeyStmtsAsWritten(env, t).value, ForeignKeyStmtsAsWritten(t, counter).value.0);
  }

  lemma {:induction false} TablesKeysBalanced(env: Env, tables: seq<Table>, counter: nat)
    requires TablesKeys(env, tables, counter).Ok?
    ensures Balanced(TablesKeys(env, tables, counter).value.0)
  {
    if tables != [] {
      var init := tables[..|tables| - 1];
      TablesKeysBalanced(env, init, counter);
      var t := tables[|tables| - 1];
      if IsBaseTable(t) {
        var prev := TablesKeys(env, init, counter).value;
        KeyStmtsBalanced(env, t, prev.1);
        AppendBalanced(prev.0, KeyStmts(env, t, prev.1).value.0);
      }
    }
  }

  /**
   * addArrayDeclarations: the declarations, the new type table and the new counter. The key
   * constraints read the types the first loop recorded.
   */
  function ArrayDecls(env: Env, tables: seq<Table>, counter: nat): Result<(seq<Stmt>, TypeTable, nat)>
  {
    var decls :- TablesDecls(tables);
    var types := TablesTypes(env.tableToFieldToType, tables);
    var keys :- TablesKeys(env.(tableToFieldToType := types), tables, counter);
    Ok((decls + keys.0, types, keys.1))
  }

  /** The declarations open no block they do not close. */
  lemma ArrayDeclsBalanced(env: Env, tables: seq<Table>, counter: nat)
    requires ArrayDecls(env, tables, counter).Ok?
    ensures Balanced(ArrayDecls(env, tables, counter).value.0)
  {
    var types := TablesTypes(env.tableToFieldToType, tables);
    TablesDeclsFlat(tables);
    FlatBalanced(TablesDecls(tables).value);
    TablesKeysBalanced(env.(tableToFieldToType := types), tables, counter);
    AppendBalanced(TablesDecls(tables).value, TablesKeys(env.(tableToFieldToType := types), tables, counter).value.0);
  }
}
