/**
 * addSolvePhase: the code that runs the solver and hands back the tables. A table without
 * controllable columns is returned as it is; a table with controllable columns has each such
 * column overwritten, row by row, with the solver's values (strings decoded by the encoder).
 * An unsolved model throws ModelException. The emitted statements are given a meaning by a
 * small interpreter, so that this promise is proved about what the compiler emits.
 */
module SolvePhase {
  import opened Wrappers
  import opened Monoid
  import opened Target
  import opened Naming
  import opened Catalog

  datatype Status = Optimal | Feasible | Infeasible | ModelInvalid | Unknown

  function StatusName(s: Status): string
  {
    match s
    case Optimal => "OPTIMAL"
    case Feasible => "FEASIBLE"
    case Infeasible => "INFEASIBLE"
    case ModelInvalid => "MODEL_INVALID"
    case Unknown => "UNKNOWN"
  }

  predicate IsSolved(s: Status)
  {
    s == Feasible || s == Optimal
  }

  /** The statements that copy one controllable column's solved values into the table (tmp<k>). */
  function ColumnBlock(tableName: string, f: Field, k: nat): seq<Stmt>
  {
    [LoadTable(k, tableName),
     AssignSolvedColumn(k, TableNumRowsStr(tableName), FieldNameStr(tableName, f.name), f.name,
                        f.fieldType == StringField),
     PutTable(tableName, k)]
  }

  /** The blocks for the controllable columns among `cols`, in column order, numbered from `counter + 1`. */
  function ColumnsStmts(tableName: string, cols: seq<Field>, counter: nat): (r: (seq<Stmt>, nat))
    ensures r.1 >= counter
  {
    if cols == [] then ([], counter)
    else
      var prev := ColumnsStmts(tableName, cols[..|cols| - 1], counter);
      var f := cols[|cols| - 1];
      if f.controllable then (prev.0 + ColumnBlock(tableName, f, prev.1 + 1), prev.1 + 1) else prev
  }

  /** The table has no controllable column (its set of controllable column names is empty). */
  predicate NoneControllable(cols: seq<Field>)
    decreases |cols|
  {
    cols == [] || (!cols[|cols| - 1].controllable && NoneControllable(cols[..|cols| - 1]))
  }

  lemma {:induction false} NoneControllableMeans(cols: seq<Field>)
    ensures NoneControllable(cols) <==> forall f :: f in cols ==> !f.controllable
    decreases |cols|
  {
    if cols != [] {
      var init := cols[..|cols| - 1];
      NoneControllableMeans(init);
      assert cols == init + [cols[|cols| - 1]];
      if !NoneControllable(cols) && !cols[|cols| - 1].controllable {
        var g :| g in init && g.controllable;
        assert g in cols;
      }
    }
  }

  /** One table's statements. Views and aliased tables get none. */
  function TableStmts(t: Table, counter: nat): (r: (seq<Stmt>, nat))
    ensures r.1 >= counter
  {
    if !IsBaseTable(t) then ([], counter)
    else if NoneControllable(t.columns) then ([PutUnchanged(t.name)], counter)
    else ColumnsStmts(t.name, t.columns, counter)
  }

  function TablesStmts(tables: seq<Table>, counter: nat): (r: (seq<Stmt>, nat))
    ensures r.1 >= counter
  {
    if tables == [] then ([], counter)
    else
      var prev := TablesStmts(tables[..|tables| - 1], counter);
      var next := TableStmts(tables[|tables| - 1], prev.1);
      (prev.0 + next.0, next.1)
  }

  const Prologue: seq<Stmt> := [Comment("Start solving"), SolveModel, BeginIfSolved, NewResultMap]
  const Epilogue: seq<Stmt> := [ReturnResult, EndBlock, ThrowModelException]

  /** Everything addSolvePhase emits, and the intermediate-view counter it leaves. */
  function SolvePhaseStmts(tables: seq<Table>, counter: nat): (r: (seq<Stmt>, nat))
    ensures Balanced(r.0)
    ensures r.1 >= counter
  {
    var body := TablesStmts(tables, counter);
    TablesFlat(tables, counter);
    FlatPrologueEpilogue(body.0);
    (Prologue + body.0 + Epilogue, body.1)
  }

  lemma FlatAppend(a: seq<Stmt>, b: seq<Stmt>)
    requires Flat(a) && Flat(b)
    ensures Flat(a + b)
  {
    forall i | 0 <= i < |a + b|
      ensures Delta((a + b)[i]) == 0
    {
      if i >= |a| {
        assert (a + b)[i] == b[i - |a|];
      }
    }
  }

  lemma {:induction false} ColumnsFlat(tableName: string, cols: seq<Field>, counter: nat)
    ensures Flat(ColumnsStmts(tableName, cols, counter).0)
  {
    if cols != [] {
      var prev := ColumnsStmts(tableName, cols[..|cols| - 1], counter);
      ColumnsFlat(tableName, cols[..|cols| - 1], counter);
      var f := cols[|cols| - 1];
      if f.controllable {
        FlatAppend(prev.0, ColumnBlock(tableName, f, prev.1 + 1));
      }
    }
  }

  lemma {:induction false} TablesFlat(tables: seq<Table>, counter: nat)
    ensures Flat(TablesStmts(tables, counter).0)
  {
    if tables != [] {
      var prev := TablesStmts(tables[..|tables| - 1], counter);
      TablesFlat(tables[..|tables| - 1], counter);
      var t := tables[|tables| - 1];
      if IsBaseTable(t) && !NoneControllable(t.columns) {
        ColumnsFlat(t.name, t.columns, prev.1);
      }
      assert Flat([PutUnchanged(t.name)]);
      FlatAppend(prev.0, TableStmts(t, prev.1).0);
    }
  }

  lemma FlatPrologueEpilogue(body: seq<Stmt>)
    requires Flat(body)
    ensures Balanced(Prologue + body + Epilogue)
  {
    var a := [Comment("Start solving"), SolveModel];
    FlatBalanced(a);
    AppendOne(a, BeginIfSolved);
    AppendOne(a + [BeginIfSolved], NewResultMap);
    assert a + [BeginIfSolved] + [NewResultMap] == Prologue;
    FlatBalanced(body);
    AppendBalanced(Prologue, body);
    AppendOne(Prologue + body, ReturnResult);
    AppendOne(Prologue + body + [ReturnResult], EndBlock);
    AppendOne(Prologue + body + [ReturnResult] + [EndBlock], ThrowModelException);
    assert Prologue + body + [ReturnResult] + [EndBlock] + [ThrowModelException] == Prologue + body + Epilogue;
  }

  // ---------------------------------------------------------------------------------------
  // The meaning of the emitted statements.

  type Row = map<string, Value>

  /** What the solver and the encoder supply when the generated code runs. */
  datatype Inputs = Inputs(status: Status, solution: map<string, seq<int>>, decode: int -> string)

  datatype Outcome = Running | Returned(result: map<string, seq<Row>>) | Thrown(error: Error) | Undefined

  /**
   * The state of the generated `solve` method: the tables' current data (shared: tmp<k> and the
   * result map refer to a table's data by the table's name), the tmp variables, the result
   * map, and whether an unsolved `if` is being skipped.
   */
  datatype Machine = Machine(skipDepth: Option<nat>, data: map<string, seq<Row>>, tmps: map<nat, string>,
                             result: map<string, string>, outcome: Outcome)

  function SolvedValue(v: int, isString: bool, decode: int -> string): Value
  {
    if isString then StringValue(decode(v)) else IntValue(v)
  }

  /** `tmp.get(i).from(obj, field)` for every row, obj holding the solver's value for row i. */
  function UpdateColumn(rows: seq<Row>, field: string, values: seq<int>, isString: bool,
                        decode: int -> string): (r: seq<Row>)
    requires |values| >= |rows|
    ensures |r| == |rows|
  {
    seq(|rows|, i requires 0 <= i < |rows| => rows[i][field := SolvedValue(values[i], isString, decode)])
  }

  /** One statement of the solve phase; any other statement leaves the state as it is. */
  function Step(inputs: Inputs, m: Machine, s: Stmt): Machine
  {
    if !m.outcome.Running? then m
    else if m.skipDepth.Some? then Skip(m, s)
    else if s.BeginIfSolved? then
      if IsSolved(inputs.status) then m else m.(skipDepth := Some(0))
    else if s.NewResultMap? then m.(result := map[])
    else if s.PutUnchanged? then
      if s.table in m.data then m.(result := m.result[s.table := s.table]) else m.(outcome := Undefined)
    else if s.LoadTable? then
      if s.table in m.data then m.(tmps := m.tmps[s.tmp := s.table]) else m.(outcome := Undefined)
    else if s.AssignSolvedColumn? then Assign(inputs, m, s)
    else if s.PutTable? then
      if s.tmp in m.tmps then m.(result := m.result[s.table := m.tmps[s.tmp]]) else m.(outcome := Undefined)
    else if s.ReturnResult? then
      if forall t :: t in m.result ==> m.result[t] in m.data then
        m.(outcome := Returned(map t | t in m.result :: m.data[m.result[t]]))
      else m.(outcome := Undefined)
    else if s.ThrowModelException? then
      m.(outcome := Thrown(ModelException("Could not solve " + StatusName(inputs.status))))
    else m
  }

  /** Inside an `if` whose condition failed: only the block nesting is followed. */
  function Skip(m: Machine, s: Stmt): Machine
    requires m.skipDepth.Some?
  {
    if s.EndBlock? then
      m.(skipDepth := if m.skipDepth.value == 0 then None else Some(m.skipDepth.value - 1))
    else if Opens(s) then m.(skipDepth := Some(m.skipDepth.value + 1))
    else m
  }

  function Assign(inputs: Inputs, m: Machine, s: Stmt): Machine
    requires s.AssignSolvedColumn?
  {
    if s.tmp in m.tmps && m.tmps[s.tmp] in m.data && s.variable in inputs.solution
       && |inputs.solution[s.variable]| >= |m.data[m.tmps[s.tmp]]| then
      var t := m.tmps[s.tmp];
      m.(data := m.data[t := UpdateColumn(m.data[t], s.field, inputs.solution[s.variable], s.decodeString,
                                          inputs.decode)])
    else m.(outcome := Undefined)
  }

  function Run(inputs: Inputs, m: Machine, stmts: seq<Stmt>): Machine
    decreases |stmts|
  {
    if stmts == [] then m else Run(inputs, Step(inputs, m, stmts[0]), stmts[1..])
  }

  lemma {:induction false} RunConcat(inputs: Inputs, m: Machine, a: seq<Stmt>, b: seq<Stmt>)
    ensures Run(inputs, m, a + b) == Run(inputs, Run(inputs, m, a), b)
    decreases |a|
  {
    if a == [] {
      assert a + b == b;
    } else {
      assert (a + b)[0] == a[0] && (a + b)[1..] == a[1..] + b;
      RunConcat(inputs, Step(inputs, m, a[0]), a[1..], b);
    }
  }

  // ---------------------------------------------------------------------------------------
  // The promise, stated independently of the statements.

  /** The names of the controllable columns among `cols`. */
  function ControllableNames(cols: seq<Field>): set<string>
  {
    set f | f in cols && f.controllable :: f.name
  }

  /** The first controllable column named `name`. */
  function ColumnNamed(cols: seq<Field>, name: string): (f: Field)
    requires name in ControllableNames(cols)
    ensures f in cols && f.controllable && f.name == name
  {
    if cols[0].controllable && cols[0].name == name then cols[0]
    else
      assert name in ControllableNames(cols[1..]) by {
        var g :| g in cols && g.controllable && g.name == name;
        assert g != cols[0] && g in cols[1..];
      }
      ColumnNamed(cols[1..], name)
  }

  /**
   * Row i of a table once solved: each controllable column holds the solver's value for row i
   * of that column's IntVar array (decoded when the column is a string); every other column
   * is unchanged.
   */
  function SolvedRow(tableName: string, cols: seq<Field>, row: Row, i: nat, inputs: Inputs): Row
    requires SolutionCovers(tableName, cols, i + 1, inputs)
  {
    map k | k in row.Keys + ControllableNames(cols) ::
      if k in ControllableNames(cols) then
        var f := ColumnNamed(cols, k);
        SolvedValue(inputs.solution[FieldNameStr(tableName, k)][i], f.fieldType == StringField, inputs.decode)
      else row[k]
  }

  /** A table's rows once solved, row by row. */
  function SolvedRows(tableName: string, cols: seq<Field>, rows: seq<Row>, inputs: Inputs): (r: seq<Row>)
    requires SolutionCovers(tableName, cols, |rows|, inputs)
    ensures |r| == |rows|
  {
    seq(|rows|, i requires 0 <= i < |rows| => SolvedRow(tableName, cols, rows[i], i, inputs))
  }

  /** The solver supplies, for every controllable column, at least one value per row. */
  predicate SolutionCovers(tableName: string, cols: seq<Field>, numRows: nat, inputs: Inputs)
  {
    forall f :: f in cols && f.controllable ==>
      FieldNameStr(tableName, f.name) in inputs.solution
      && |inputs.solution[FieldNameStr(tableName, f.name)]| >= numRows
  }

  /** The rows a table holds after its column blocks have run, one column after another. */
  function ApplyColumns(tableName: string, cols: seq<Field>, rows: seq<Row>, inputs: Inputs): (r: seq<Row>)
    requires SolutionCovers(tableName, cols, |rows|, inputs)
    ensures |r| == |rows|
  {
    if cols == [] then rows
    else
      var prev := ApplyColumns(tableName, cols[..|cols| - 1], rows, inputs);
      var f := cols[|cols| - 1];
      if f.controllable then
        UpdateColumn(prev, f.name, inputs.solution[FieldNameStr(tableName, f.name)],
                     f.fieldType == StringField, inputs.decode)
      else prev
  }

  predicate Executing(m: Machine)
  {
    m.outcome.Running? && m.skipDepth.None?
  }

  lemma ColumnsStmtsSnoc(tableName: string, cols: seq<Field>, counter: nat)
    requires cols != []
    ensures var prev := ColumnsStmts(tableName, cols[..|cols| - 1], counter);
      ColumnsStmts(tableName, cols, counter).0
        == if cols[|cols| - 1].controllable then prev.0 + ColumnBlock(tableName, cols[|cols| - 1], prev.1 + 1)
           else prev.0
  {
  }

  lemma StepLoad(inputs: Inputs, m: Machine, k: nat, t: string)
    requires Executing(m) && t in m.data
    ensures Step(inputs, m, LoadTable(k, t)) == m.(tmps := m.tmps[k := t])
  {
  }

  lemma StepAssign(inputs: Inputs, m: Machine, k: nat, rows: string, v: string, field: string, isString: bool)
    requires Executing(m) && k in m.tmps && m.tmps[k] in m.data && v in inputs.solution
    requires |inputs.solution[v]| >= |m.data[m.tmps[k]]|
    ensures Step(inputs, m, AssignSolvedColumn(k, rows, v, field, isString))
         == m.(data := m.data[m.tmps[k] := UpdateColumn(m.data[m.tmps[k]], field, inputs.solution[v], isString, inputs.decode)])
  {
  }

  lemma StepPut(inputs: Inputs, m: Machine, t: string, k: nat)
    requires Executing(m) && k in m.tmps
    ensures Step(inputs, m, PutTable(t, k)) == m.(result := m.result[t := m.tmps[k]])
  {
  }

  lemma RunThree(inputs: Inputs, m: Machine, a: Stmt, b: Stmt, c: Stmt)
    ensures Run(inputs, m, [a, b, c]) == Step(inputs, Step(inputs, Step(inputs, m, a), b), c)
  {
    var m1 := Step(inputs, m, a);
    var m2 := Step(inputs, m1, b);
    assert [a, b, c][1..] == [b, c];
    assert [b, c][1..] == [c];
    RunOne(inputs, m2, c);
    assert Run(inputs, m1, [b, c]) == Run(inputs, m2, [c]);
  }

  lemma RunOne(inputs: Inputs, m: Machine, a: Stmt)
    ensures Run(inputs, m, [a]) == Step(inputs, m, a)
  {
    assert [a][1..] == [];
  }

  lemma RunColumnsSnoc(inputs: Inputs, m: Machine, tableName: string, cols: seq<Field>, counter: nat)
    requires cols != [] && cols[|cols| - 1].controllable
    ensures var prev := ColumnsStmts(tableName, cols[..|cols| - 1], counter);
      Run(inputs, m, ColumnsStmts(tableName, cols, counter).0)
        == Run(inputs, Run(inputs, m, prev.0), ColumnBlock(tableName, cols[|cols| - 1], prev.1 + 1))
  {
    var prev := ColumnsStmts(tableName, cols[..|cols| - 1], counter);
    ColumnsStmtsSnoc(tableName, cols, counter);
    RunConcat(inputs, m, prev.0, ColumnBlock(tableName, cols[|cols| - 1], prev.1 + 1));
  }

  /** One column block loads the table, overwrites the column and enters the table in the result. */
  lemma BlockRun(inputs: Inputs, m: Machine, tableName: string, f: Field, k: nat)
    requires Executing(m) && tableName in m.data
    requires FieldNameStr(tableName, f.name) in inputs.solution
    requires |inputs.solution[FieldNameStr(tableName, f.name)]| >= |m.data[tableName]|
    ensures var after := Run(inputs, m, ColumnBlock(tableName, f, k));
      Executing(after)
      && after.data == m.data[tableName := UpdateColumn(m.data[tableName], f.name,
                                                        inputs.solution[FieldNameStr(tableName, f.name)],
                                                        f.fieldType == StringField, inputs.decode)]
      && after.result == m.result[tableName := tableName]
  {
    var v := FieldNameStr(tableName, f.name);
    var isString := f.fieldType == StringField;
    var load := LoadTable(k, tableName);
    var assign := AssignSolvedColumn(k, TableNumRowsStr(tableName), v, f.name, isString);
    var put := PutTable(tableName, k);
    RunThree(inputs, m, load, assign, put);
    StepLoad(inputs, m, k, tableName);
    var m1 := m.(tmps := m.tmps[k := tableName]);
    StepAssign(inputs, m1, k, TableNumRowsStr(tableName), v, f.name, isString);
    var m2 := m1.(data := m1.data[tableName := UpdateColumn(m1.data[tableName], f.name, inputs.solution[v],
                                                            isString, inputs.decode)]);
    StepPut(inputs, m2, tableName, k);
  }

  /** What ColumnsRun promises about the state after the column blocks of `cols`. */
  predicate ColumnsDone(inputs: Inputs, m: Machine, after: Machine, tableName: string, cols: seq<Field>)
    requires tableName in m.data
    requires SolutionCovers(tableName, cols, |m.data[tableName]|, inputs)
  {
    Executing(after)
    && after.data == m.data[tableName := ApplyColumns(tableName, cols, m.data[tableName], inputs)]
    && after.result == (if NoneControllable(cols) then m.result else m.result[tableName := tableName])
  }

  /** Running one table's column blocks replaces its data by ApplyColumns and enters it in the result. */
  lemma {:induction false} ColumnsRun(inputs: Inputs, m: Machine, tableName: string, cols: seq<Field>, counter: nat)
    requires Executing(m) && tableName in m.data
    requires SolutionCovers(tableName, cols, |m.data[tableName]|, inputs)
    ensures ColumnsDone(inputs, m, Run(inputs, m, ColumnsStmts(tableName, cols, counter).0), tableName, cols)
  {
    if cols == [] {
      assert m.data[tableName := m.data[tableName]] == m.data;
    } else {
      var init := cols[..|cols| - 1];
      ColumnsRun(inputs, m, tableName, init, counter);
      if cols[|cols| - 1].controllable {
        ColumnsRunControllable(inputs, m, tableName, cols, counter);
      } else {
        ColumnsRunSkip(inputs, m, tableName, cols, counter);
      }
    }
  }

  lemma ColumnsRunControllable(inputs: Inputs, m: Machine, tableName: string, cols: seq<Field>, counter: nat)
    requires Executing(m) && tableName in m.data
    requires SolutionCovers(tableName, cols, |m.data[tableName]|, inputs)
    requires cols != [] && cols[|cols| - 1].controllable
    requires ColumnsDone(inputs, m, Run(inputs, m, ColumnsStmts(tableName, cols[..|cols| - 1], counter).0),
                         tableName, cols[..|cols| - 1])
    ensures ColumnsDone(inputs, m, Run(inputs, m, ColumnsStmts(tableName, cols, counter).0), tableName, cols)
  {
    var init := cols[..|cols| - 1];
    var f := cols[|cols| - 1];
    var rows := m.data[tableName];
    var prev := ColumnsStmts(tableName, init, counter);
    var mid := Run(inputs, m, prev.0);
    var k := prev.1 + 1;
    var block := ColumnBlock(tableName, f, k);
    assert Run(inputs, m, ColumnsStmts(tableName, cols, counter).0) == Run(inputs, mid, block) by {
      RunColumnsSnoc(inputs, m, tableName, cols, counter);
    }
    BlockRun(inputs, mid, tableName, f, k);
    ColumnsDoneSnoc(inputs, m, mid, Run(inputs, mid, block), tableName, cols);
  }

  lemma ColumnsDoneSnoc(inputs: Inputs, m: Machine, mid: Machine, after: Machine, tableName: string, cols: seq<Field>)
    requires tableName in m.data
    requires SolutionCovers(tableName, cols, |m.data[tableName]|, inputs)
    requires cols != [] && cols[|cols| - 1].controllable
    requires ColumnsDone(inputs, m, mid, tableName, cols[..|cols| - 1])
    requires var f := cols[|cols| - 1];
      Executing(after)
      && after.data == mid.data[tableName := UpdateColumn(mid.data[tableName], f.name,
                                                          inputs.solution[FieldNameStr(tableName, f.name)],
                                                          f.fieldType == StringField, inputs.decode)]
      && after.result == mid.result[tableName := tableName]
    ensures ColumnsDone(inputs, m, after, tableName, cols)
  {
  }

  lemma ApplyColumnsSnoc(tableName: string, cols: seq<Field>, rows: seq<Row>, inputs: Inputs)
    requires cols != [] && cols[|cols| - 1].controllable
    requires SolutionCovers(tableName, cols, |rows|, inputs)
    ensures var f := cols[|cols| - 1];
      ApplyColumns(tableName, cols, rows, inputs)
        == UpdateColumn(ApplyColumns(tableName, cols[..|cols| - 1], rows, inputs), f.name,
                        inputs.solution[FieldNameStr(tableName, f.name)], f.fieldType == StringField, inputs.decode)
  {
  }

  lemma ColumnsRunSkip(inputs: Inputs, m: Machine, tableName: string, cols: seq<Field>, counter: nat)
    requires Executing(m) && tableName in m.data
    requires SolutionCovers(tableName, cols, |m.data[tableName]|, inputs)
    requires cols != [] && !cols[|cols| - 1].controllable
    requires ColumnsDone(inputs, m, Run(inputs, m, ColumnsStmts(tableName, cols[..|cols| - 1], counter).0),
                         tableName, cols[..|cols| - 1])
    ensures ColumnsDone(inputs, m, Run(inputs, m, ColumnsStmts(tableName, cols, counter).0), tableName, cols)
  {
    ColumnsStmtsSnoc(tableName, cols, counter);
  }

  lemma ColumnNamedUnique(cols: seq<Field>, g: Field)
    requires DistinctColumnNames(cols) && g in cols && g.controllable
    ensures ColumnNamed(cols, g.name) == g
  {
    var f := ColumnNamed(cols, g.name);
    var i :| 0 <= i < |cols| && cols[i] == f;
    var j :| 0 <= j < |cols| && cols[j] == g;
    assert cols[i].name == cols[j].name;
    assert i == j;
  }

  lemma ControllableNamesSnoc(cols: seq<Field>)
    requires cols != []
    ensures var f := cols[|cols| - 1];
      ControllableNames(cols) == ControllableNames(cols[..|cols| - 1]) + (if f.controllable then {f.name} else {})
  {
    var init := cols[..|cols| - 1];
    var f := cols[|cols| - 1];
    assert cols == init + [f];
    forall n | n in ControllableNames(cols)
      ensures n in ControllableNames(init) + (if f.controllable then {f.name} else {})
    {
      var g :| g in cols && g.controllable && g.name == n;
      if g != f {
        assert g in init;
      }
    }
  }

  lemma SolvedRowSkip(tableName: string, cols: seq<Field>, row: Row, i: nat, inputs: Inputs)
    requires cols != [] && !cols[|cols| - 1].controllable && DistinctColumnNames(cols)
    requires SolutionCovers(tableName, cols, i + 1, inputs)
    ensures SolvedRow(tableName, cols, row, i, inputs) == SolvedRow(tableName, cols[..|cols| - 1], row, i, inputs)
  {
    var init := cols[..|cols| - 1];
    ControllableNamesSnoc(cols);
    forall k | k in ControllableNames(init)
      ensures ColumnNamed(cols, k) == ColumnNamed(init, k)
    {
      ColumnNamedUnique(cols, ColumnNamed(init, k));
    }
  }

  lemma SolvedRowControllable(tableName: string, cols: seq<Field>, row: Row, i: nat, inputs: Inputs)
    requires cols != [] && cols[|cols| - 1].controllable && DistinctColumnNames(cols)
    requires SolutionCovers(tableName, cols, i + 1, inputs)
    ensures var f := cols[|cols| - 1];
      SolvedRow(tableName, cols, row, i, inputs)
        == SolvedRow(tableName, cols[..|cols| - 1], row, i, inputs)[f.name :=
             SolvedValue(inputs.solution[FieldNameStr(tableName, f.name)][i], f.fieldType == StringField, inputs.decode)]
  {
    var init := cols[..|cols| - 1];
    var f := cols[|cols| - 1];
    var v := SolvedValue(inputs.solution[FieldNameStr(tableName, f.name)][i], f.fieldType == StringField, inputs.decode);
    ControllableNamesSnoc(cols);
    var lhs := SolvedRow(tableName, cols, row, i, inputs);
    var rhs := SolvedRow(tableName, init, row, i, inputs)[f.name := v];
    assert lhs.Keys == rhs.Keys;
    forall k | k in lhs.Keys
      ensures lhs[k] == rhs[k]
    {
      if k == f.name {
        ColumnNamedUnique(cols, f);
      } else if k in ControllableNames(init) {
        ColumnNamedUnique(cols, ColumnNamed(init, k));
      }
    }
  }

  /** Row i after the column blocks have run is the solved row. */
  lemma {:induction false} ApplyColumnsAt(tableName: string, cols: seq<Field>, rows: seq<Row>, inputs: Inputs, i: nat)
    requires DistinctColumnNames(cols)
    requires SolutionCovers(tableName, cols, |rows|, inputs)
    requires i < |rows|
    ensures ApplyColumns(tableName, cols, rows, inputs)[i] == SolvedRow(tableName, cols, rows[i], i, inputs)
  {
    if cols == [] {
      assert ControllableNames(cols) == {};
      assert SolvedRow(tableName, cols, rows[i], i, inputs) == rows[i];
    } else {
      var init := cols[..|cols| - 1];
      assert DistinctColumnNames(init);
      ApplyColumnsAt(tableName, init, rows, inputs, i);
      if cols[|cols| - 1].controllable {
        SolvedRowControllable(tableName, cols, rows[i], i, inputs);
      } else {
        SolvedRowSkip(tableName, cols, rows[i], i, inputs);
      }
    }
  }

  /** Applying the column blocks one by one gives the solved rows as defined row by row. */
  lemma ApplyColumnsSolves(tableName: string, cols: seq<Field>, rows: seq<Row>, inputs: Inputs)
    requires DistinctColumnNames(cols)
    requires SolutionCovers(tableName, cols, |rows|, inputs)
    ensures ApplyColumns(tableName, cols, rows, inputs) == SolvedRows(tableName, cols, rows, inputs)
  {
    forall i | 0 <= i < |rows|
      ensures ApplyColumns(tableName, cols, rows, inputs)[i] == SolvedRows(tableName, cols, rows, inputs)[i]
    {
      ApplyColumnsAt(tableName, cols, rows, inputs, i);
    }
  }

  /** The names of the base tables among `tables`. */
  function BaseNames(tables: seq<Table>): set<string>
  {
    set t | t in tables && IsBaseTable(t) :: t.name
  }

  /** The names of the base tables among `tables` that have a controllable column. */
  function SolvedNames(tables: seq<Table>): set<string>
  {
    set t | t in tables && IsBaseTable(t) && !NoneControllable(t.columns) :: t.name
  }

  /** Table names are distinct (the IRContext keeps tables by name). */
  predicate DistinctTableNames(tables: seq<Table>)
  {
    forall i, j :: 0 <= i < j < |tables| ==> tables[i].name != tables[j].name
  }

  /** What the generated code needs to find when it runs: every base table's data and its solution. */
  predicate ReadyToSolve(tables: seq<Table>, data: map<string, seq<Row>>, inputs: Inputs)
  {
    DistinctTableNames(tables)
    && forall t :: t in tables && IsBaseTable(t) ==>
         t.name in data && DistinctColumnNames(t.columns)
         && SolutionCovers(t.name, t.columns, |data[t.name]|, inputs)
  }

  /** After the statements of `tables`: solved tables hold their solved rows, the rest is as it was. */
  predicate AfterTables(m: Machine, tables: seq<Table>, data: map<string, seq<Row>>, expected: map<string, seq<Row>>)
  {
    Executing(m)
    && m.data.Keys == data.Keys
    && (forall n :: n in data && n !in SolvedNames(tables) ==> m.data[n] == data[n])
    && (forall n :: n in SolvedNames(tables) ==> n in expected && n in m.data && m.data[n] == expected[n])
    && m.result.Keys == BaseNames(tables)
    && (forall n :: n in m.result ==> m.result[n] == n)
  }

  /** `expected` holds the solved rows of every base table with a controllable column. */
  predicate ExpectedFor(tables: seq<Table>, data: map<string, seq<Row>>, inputs: Inputs, expected: map<string, seq<Row>>)
    requires ReadyToSolve(tables, data, inputs)
  {
    forall t :: t in tables && IsBaseTable(t) && !NoneControllable(t.columns) ==>
      t.name in expected && expected[t.name] == SolvedRows(t.name, t.columns, data[t.name], inputs)
  }

  lemma BaseNamesSnoc(tables: seq<Table>)
    requires tables != []
    ensures var t := tables[|tables| - 1];
      BaseNames(tables) == BaseNames(tables[..|tables| - 1]) + (if IsBaseTable(t) then {t.name} else {})
  {
    var t := tables[|tables| - 1];
    var init := tables[..|tables| - 1];
    assert tables == init + [t];
    forall n | n in BaseNames(tables)
      ensures n in BaseNames(init) + (if IsBaseTable(t) then {t.name} else {})
    {
      var u :| u in tables && IsBaseTable(u) && u.name == n;
      if u != t { assert u in init; }
    }
  }

  lemma SolvedNamesSnoc(tables: seq<Table>)
    requires tables != []
    ensures var t := tables[|tables| - 1];
      SolvedNames(tables) == SolvedNames(tables[..|tables| - 1])
                             + (if IsBaseTable(t) && !NoneControllable(t.columns) then {t.name} else {})
  {
    var t := tables[|tables| - 1];
    var init := tables[..|tables| - 1];
    assert tables == init + [t];
    forall n | n in SolvedNames(tables)
      ensures n in SolvedNames(init) + (if IsBaseTable(t) && !NoneControllable(t.columns) then {t.name} else {})
    {
      var u :| u in tables && IsBaseTable(u) && !NoneControllable(u.columns) && u.name == n;
      if u != t { assert u in init; }
    }
  }

  /** The last table's name is not among the earlier ones. */
  lemma LastNameFresh(tables: seq<Table>)
    requires tables != [] && DistinctTableNames(tables)
    ensures var t := tables[|tables| - 1]; var init := tables[..|tables| - 1];
      t.name !in SolvedNames(init) && t.name !in BaseNames(init)
  {
    var t := tables[|tables| - 1];
    var init := tables[..|tables| - 1];
    forall u | u in init
      ensures u.name != t.name
    {
      var j :| 0 <= j < |init| && init[j] == u;
      assert tables[j].name != tables[|tables| - 1].name;
    }
  }

  lemma ReadyPrefix(tables: seq<Table>, data: map<string, seq<Row>>, inputs: Inputs)
    requires tables != [] && ReadyToSolve(tables, data, inputs)
    ensures ReadyToSolve(tables[..|tables| - 1], data, inputs)
  {
    var init := tables[..|tables| - 1];
    forall t | t in init
      ensures t in tables
    {
      var j :| 0 <= j < |init| && init[j] == t;
      assert tables[j] == t;
    }
  }

  lemma AfterNonBase(mid: Machine, tables: seq<Table>, data: map<string, seq<Row>>, expected: map<string, seq<Row>>)
    requires tables != [] && !IsBaseTable(tables[|tables| - 1])
    requires AfterTables(mid, tables[..|tables| - 1], data, expected)
    ensures AfterTables(mid, tables, data, expected)
  {
    BaseNamesSnoc(tables);
    SolvedNamesSnoc(tables);
  }

  lemma AfterUnchanged(mid: Machine, after: Machine, tables: seq<Table>, data: map<string, seq<Row>>,
                       expected: map<string, seq<Row>>)
    requires tables != [] && DistinctTableNames(tables)
    requires IsBaseTable(tables[|tables| - 1]) && NoneControllable(tables[|tables| - 1].columns)
    requires AfterTables(mid, tables[..|tables| - 1], data, expected)
    requires after == mid.(result := mid.result[tables[|tables| - 1].name := tables[|tables| - 1].name])
    ensures AfterTables(after, tables, data, expected)
  {
    BaseNamesSnoc(tables);
    SolvedNamesSnoc(tables);
  }

  lemma AfterSolved(mid: Machine, after: Machine, tables: seq<Table>, data: map<string, seq<Row>>,
                    expected: map<string, seq<Row>>)
    requires tables != [] && DistinctTableNames(tables)
    requires IsBaseTable(tables[|tables| - 1]) && !NoneControllable(tables[|tables| - 1].columns)
    requires tables[|tables| - 1].name in data && tables[|tables| - 1].name in expected
    requires AfterTables(mid, tables[..|tables| - 1], data, expected)
    requires var t := tables[|tables| - 1];
      Executing(after)
      && after.data == mid.data[t.name := expected[t.name]]
      && after.result == mid.result[t.name := t.name]
    ensures AfterTables(after, tables, data, expected)
  {
    var t := tables[|tables| - 1];
    var init := tables[..|tables| - 1];
    assert after.data.Keys == data.Keys;
    assert forall n :: n in data && n !in SolvedNames(tables) ==> after.data[n] == data[n] by {
      SolvedNamesSnoc(tables);
    }
    assert forall n :: n in SolvedNames(tables) ==> n in expected && n in after.data && after.data[n] == expected[n] by {
      SolvedNamesSnoc(tables);
    }
    assert after.result.Keys == BaseNames(tables) by {
      BaseNamesSnoc(tables);
    }
  }

  /** The last table's statements take the state after the earlier tables to the state after all. */
  lemma TablesRunSnoc(inputs: Inputs, m: Machine, tables: seq<Table>, data: map<string, seq<Row>>, counter: nat,
                      expected: map<string, seq<Row>>)
    requires tables != [] && ReadyToSolve(tables, data, inputs) && ExpectedFor(tables, data, inputs, expected)
    requires AfterTables(Run(inputs, m, TablesStmts(tables[..|tables| - 1], counter).0), tables[..|tables| - 1],
                         data, expected)
    ensures AfterTables(Run(inputs, m, TablesStmts(tables, counter).0), tables, data, expected)
  {
    var init := tables[..|tables| - 1];
    var t := tables[|tables| - 1];
    var prev := TablesStmts(init, counter);
    var mid := Run(inputs, m, prev.0);
    var next := TableStmts(t, prev.1);
    assert Run(inputs, m, TablesStmts(tables, counter).0) == Run(inputs, mid, next.0) by {
      RunConcat(inputs, m, prev.0, next.0);
    }
    if !IsBaseTable(t) {
      AfterNonBase(mid, tables, data, expected);
    } else if NoneControllable(t.columns) {
      RunOne(inputs, mid, PutUnchanged(t.name));
      AfterUnchanged(mid, Run(inputs, mid, next.0), tables, data, expected);
    } else {
      assert mid.data[t.name] == data[t.name] by {
        LastNameFresh(tables);
      }
      ColumnsRun(inputs, mid, t.name, t.columns, prev.1);
      ApplyColumnsSolves(t.name, t.columns, data[t.name], inputs);
      AfterSolved(mid, Run(inputs, mid, next.0), tables, data, expected);
    }
  }

  lemma {:induction false} TablesRun(inputs: Inputs, m: Machine, tables: seq<Table>, data: map<string, seq<Row>>,
                                      counter: nat, expected: map<string, seq<Row>>)
    requires ReadyToSolve(tables, data, inputs) && ExpectedFor(tables, data, inputs, expected)
    requires Executing(m) && m.data == data && m.result == map[]
    ensures AfterTables(Run(inputs, m, TablesStmts(tables, counter).0), tables, data, expected)
  {
    if tables == [] {
      assert BaseNames(tables) == {};
      assert SolvedNames(tables) == {};
    } else {
      ReadyPrefix(tables, data, inputs);
      TablesRun(inputs, m, tables[..|tables| - 1], data, counter, expected);
      TablesRunSnoc(inputs, m, tables, data, counter, expected);
    }
  }

  lemma {:induction false} StoppedStays(inputs: Inputs, m: Machine, stmts: seq<Stmt>)
    requires !m.outcome.Running?
    ensures Run(inputs, m, stmts) == m
    decreases |stmts|
  {
    if stmts != [] {
      StoppedStays(inputs, m, stmts[1..]);
    }
  }

  lemma {:induction false} SkipsFlat(inputs: Inputs, m: Machine, stmts: seq<Stmt>)
    requires m.skipDepth.Some? && Flat(stmts)
    ensures Run(inputs, m, stmts) == m
    decreases |stmts|
  {
    if stmts != [] {
      assert Delta(stmts[0]) == 0;
      assert Flat(stmts[1..]) by {
        forall i | 0 <= i < |stmts[1..]|
          ensures Delta(stmts[1..][i]) == 0
        {
          assert stmts[1..][i] == stmts[i + 1];
        }
      }
      SkipsFlat(inputs, m, stmts[1..]);
    }
  }

  /** The outcome of the generated solve phase, starting from the tables' current data. */
  function Execute(inputs: Inputs, data: map<string, seq<Row>>, tables: seq<Table>, counter: nat): Outcome
  {
    Run(inputs, Machine(None, data, map[], map[], Running), SolvePhaseStmts(tables, counter).0).outcome
  }

  /** The solved rows of every base table with a controllable column, by table name. */
  function SolvedTables(tables: seq<Table>, data: map<string, seq<Row>>, inputs: Inputs): map<string, seq<Row>>
    requires ReadyToSolve(tables, data, inputs)
  {
    if tables == [] then map[]
    else
      ReadyPrefix(tables, data, inputs);
      var prev := SolvedTables(tables[..|tables| - 1], data, inputs);
      var t := tables[|tables| - 1];
      if IsBaseTable(t) && !NoneControllable(t.columns) then
        prev[t.name := SolvedRows(t.name, t.columns, data[t.name], inputs)]
      else prev
  }

  lemma {:induction false} SolvedTablesExpected(tables: seq<Table>, data: map<string, seq<Row>>, inputs: Inputs)
    requires ReadyToSolve(tables, data, inputs)
    ensures ExpectedFor(tables, data, inputs, SolvedTables(tables, data, inputs))
  {
    if tables != [] {
      var init := tables[..|tables| - 1];
      var t := tables[|tables| - 1];
      ReadyPrefix(tables, data, inputs);
      SolvedTablesExpected(init, data, inputs);
      forall u | u in tables && IsBaseTable(u) && !NoneControllable(u.columns)
        ensures u.name in SolvedTables(tables, data, inputs)
        ensures SolvedTables(tables, data, inputs)[u.name] == SolvedRows(u.name, u.columns, data[u.name], inputs)
      {
        var j :| 0 <= j < |tables| && tables[j] == u;
        if j < |tables| - 1 {
          assert init[j] == u;
          assert tables[j].name != tables[|tables| - 1].name;
        }
      }
    }
  }

  lemma RunCons(inputs: Inputs, m: Machine, s: Stmt, rest: seq<Stmt>)
    ensures Run(inputs, m, [s] + rest) == Run(inputs, Step(inputs, m, s), rest)
  {
    assert ([s] + rest)[0] == s && ([s] + rest)[1..] == rest;
  }

  /** The prologue runs the solver and enters the `if` only on FEASIBLE or OPTIMAL. */
  lemma PrologueRun(inputs: Inputs, data: map<string, seq<Row>>)
    ensures var m0 := Machine(None, data, map[], map[], Running);
      Run(inputs, m0, Prologue) == if IsSolved(inputs.status) then m0 else m0.(skipDepth := Some(0))
  {
    var m0 := Machine(None, data, map[], map[], Running);
    assert Prologue == [Comment("Start solving")] + ([SolveModel] + ([BeginIfSolved] + [NewResultMap]));
    RunCons(inputs, m0, Comment("Start solving"), [SolveModel] + ([BeginIfSolved] + [NewResultMap]));
    RunCons(inputs, m0, SolveModel, [BeginIfSolved] + [NewResultMap]);
    RunCons(inputs, m0, BeginIfSolved, [NewResultMap]);
    var m1 := Step(inputs, m0, BeginIfSolved);
    RunOne(inputs, m1, NewResultMap);
  }

  /** On an unsolved status the body is skipped and the exception thrown. */
  lemma UnsolvedOutcome(inputs: Inputs, data: map<string, seq<Row>>, tables: seq<Table>, counter: nat)
    requires !IsSolved(inputs.status)
    ensures Execute(inputs, data, tables, counter) == Thrown(ModelException("Could not solve " + StatusName(inputs.status)))
  {
    var m0 := Machine(None, data, map[], map[], Running);
    var body := TablesStmts(tables, counter).0;
    RunConcat(inputs, m0, Prologue + body, Epilogue);
    RunConcat(inputs, m0, Prologue, body);
    PrologueRun(inputs, data);
    var m1 := m0.(skipDepth := Some(0));
    TablesFlat(tables, counter);
    SkipsFlat(inputs, m1, body);
    RunThree(inputs, m1, ReturnResult, EndBlock, ThrowModelException);
  }

  /** On FEASIBLE or OPTIMAL the outcome is what `return result` makes of the state after the tables. */
  lemma ExecuteSolved(inputs: Inputs, data: map<string, seq<Row>>, tables: seq<Table>, counter: nat)
    requires IsSolved(inputs.status)
    requires Executing(Run(inputs, Machine(None, data, map[], map[], Running), TablesStmts(tables, counter).0))
    ensures var m2 := Run(inputs, Machine(None, data, map[], map[], Running), TablesStmts(tables, counter).0);
      Execute(inputs, data, tables, counter) == Step(inputs, m2, ReturnResult).outcome
  {
    var m0 := Machine(None, data, map[], map[], Running);
    var body := TablesStmts(tables, counter).0;
    RunConcat(inputs, m0, Prologue + body, Epilogue);
    RunConcat(inputs, m0, Prologue, body);
    PrologueRun(inputs, data);
    var m2 := Run(inputs, m0, body);
    RunThree(inputs, m2, ReturnResult, EndBlock, ThrowModelException);
  }

  /** `return result` hands back each entered table's current data. */
  lemma ReturnResultOutcome(inputs: Inputs, m: Machine, tables: seq<Table>, data: map<string, seq<Row>>,
                            expected: map<string, seq<Row>>)
    requires AfterTables(m, tables, data, expected)
    requires forall n :: n in BaseNames(tables) ==> n in data
    ensures var out := Step(inputs, m, ReturnResult).outcome;
      out.Returned?
      && out.result.Keys == BaseNames(tables)
      && (forall n :: n in BaseNames(tables) && n !in SolvedNames(tables) ==> out.result[n] == data[n])
      && (forall n :: n in SolvedNames(tables) ==> n in expected && out.result[n] == expected[n])
  {
    assert forall t :: t in m.result ==> m.result[t] in m.data;
    var out := map t | t in m.result :: m.data[m.result[t]];
    assert Step(inputs, m, ReturnResult).outcome == Returned(out);
  }

  /** On FEASIBLE or OPTIMAL the result maps each base table to its data after the column blocks. */
  lemma SolvedOutcome(inputs: Inputs, data: map<string, seq<Row>>, tables: seq<Table>, counter: nat)
    requires IsSolved(inputs.status) && ReadyToSolve(tables, data, inputs)
    ensures var out := Execute(inputs, data, tables, counter);
      var expected := SolvedTables(tables, data, inputs);
      out.Returned?
      && out.result.Keys == BaseNames(tables)
      && (forall n :: n in BaseNames(tables) && n !in SolvedNames(tables) ==> out.result[n] == data[n])
      && (forall n :: n in SolvedNames(tables) ==> n in expected && out.result[n] == expected[n])
  {
    var m0 := Machine(None, data, map[], map[], Running);
    var expected := SolvedTables(tables, data, inputs);
    SolvedTablesExpected(tables, data, inputs);
    TablesRun(inputs, m0, tables, data, counter, expected);
    var m2 := Run(inputs, m0, TablesStmts(tables, counter).0);
    ExecuteSolved(inputs, data, tables, counter);
    ReturnResultOutcome(inputs, m2, tables, data, expected);
  }

  /**
   * The solve phase's promise: when the solver reports FEASIBLE or OPTIMAL, the result holds
   * exactly the base tables; a table without controllable columns comes back unchanged, and a
   * table with some comes back with those columns replaced by the solver's values; otherwise
   * a ModelException naming the status is thrown.
   */
  lemma SolvePhaseOutcome(inputs: Inputs, data: map<string, seq<Row>>, tables: seq<Table>, counter: nat)
    requires ReadyToSolve(tables, data, inputs)
    ensures !IsSolved(inputs.status) ==>
      Execute(inputs, data, tables, counter) == Thrown(ModelException("Could not solve " + StatusName(inputs.status)))
    ensures IsSolved(inputs.status) ==>
      var out := Execute(inputs, data, tables, counter);
      out.Returned?
      && out.result.Keys == BaseNames(tables)
      && (forall t :: t in tables && IsBaseTable(t) && NoneControllable(t.columns) ==>
            out.result[t.name] == data[t.name])
      && (forall t :: t in tables && IsBaseTable(t) && !NoneControllable(t.columns) ==>
            out.result[t.name] == SolvedRows(t.name, t.columns, data[t.name], inputs))
  {
    if IsSolved(inputs.status) {
      SolvedOutcome(inputs, data, tables, counter);
      SolvedTablesExpected(tables, data, inputs);
    } else {
      UnsolvedOutcome(inputs, data, tables, counter);
    }
  }
}
