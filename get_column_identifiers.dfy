/**
 * GetColumnIdentifiers: a visitor that collects, in a LinkedHashSet, every column identifier
 * the default traversal reaches. Two column identifiers are the same element when their table
 * and field names agree ignoring case.
 */
module GetColumnIdentifiers {
  import opened Wrappers
  import opened Text
  import opened Monoid
  import opened MonoidVisitor

  /** The identity a column identifier has as a set element. */
  function Key(c: Column): (string, string)
  {
    (Upper(c.tableName), Upper(c.field.name))
  }

  predicate HasKey(s: seq<Column>, k: (string, string))
  {
    exists i :: 0 <= i < |s| && Key(s[i]) == k
  }

  predicate DistinctKeys(s: seq<Column>)
  {
    forall i, j :: 0 <= i < j < |s| ==> Key(s[i]) != Key(s[j])
  }

  /** `LinkedHashSet.add`: appended when no equal element is present, otherwise no change. */
  function Add(s: seq<Column>, c: Column): seq<Column>
  {
    if HasKey(s, Key(c)) then s else s + [c]
  }

  /** Adding each of `cs` in turn. */
  function AddAll(s: seq<Column>, cs: seq<Column>): seq<Column>
    decreases |cs|
  {
    if cs == [] then s else AddAll(Add(s, cs[0]), cs[1..])
  }

  /** The index of the first element of `cs` with key `k`, or |cs| when there is none. */
  function FirstIndex(cs: seq<Column>, k: (string, string)): (r: nat)
    ensures r <= |cs|
  {
    if cs == [] then 0 else if Key(cs[0]) == k then 0 else 1 + FirstIndex(cs[1..], k)
  }

  class GetColumnIdentifiers {
    var columnIdentifiers: seq<Column>

    ghost predicate Valid()
      reads this
    {
      DistinctKeys(columnIdentifiers)
    }

    constructor ()
      ensures Valid() && columnIdentifiers == []
    {
      columnIdentifiers := [];
    }

    /** Adds the column identifier to the set (no change when an equal one is present). */
    method VisitColumnIdentifier(node: Column)
      requires Valid()
      modifies this
      ensures Valid()
      ensures columnIdentifiers == Add(old(columnIdentifiers), node)
    {
      var present := false;
      var i := 0;
      while i < |columnIdentifiers|
        invariant 0 <= i <= |columnIdentifiers|
        invariant present <==> HasKey(columnIdentifiers[..i], Key(node))
      {
        if Key(columnIdentifiers[i]) == Key(node) {
          present := true;
        }
        assert columnIdentifiers[..i + 1] == columnIdentifiers[..i] + [columnIdentifiers[i]];
        i := i + 1;
      }
      assert columnIdentifiers[..i] == columnIdentifiers;
      if !present {
        columnIdentifiers := columnIdentifiers + [node];
      }
    }

    /**
     * `visit(e)`: the default traversal with this visitor's hook on every column identifier;
     * the set grows by the visited columns in visiting order. `completed` is false when the
     * traversal throws on a null head.
     */
    method Visit(e: Expr) returns (completed: bool)
      requires Valid()
      modifies this
      ensures Valid()
      ensures completed == Trace(e).Some?
      ensures completed ==> columnIdentifiers == AddAll(old(columnIdentifiers), ColumnsVisited(Trace(e).value))
    {
      var trace := Trace(e);
      if trace.None? {
        return false;
      }
      var t := trace.value;
      var i := 0;
      while i < |t|
        invariant 0 <= i <= |t|
        invariant Valid()
        invariant AddAll(old(columnIdentifiers), ColumnsVisited(t))
                  == AddAll(columnIdentifiers, ColumnsVisited(t[i..]))
      {
        assert t[i..] == [t[i]] + t[i + 1..];
        ColumnsVisitedConcat([t[i]], t[i + 1..]);
        var rest := ColumnsVisited(t[i + 1..]);
        assert [t[i]][1..] == [];
        if t[i].ExprNode? && t[i].expr.ColumnIdentifier? {
          var c := t[i].expr.column;
          assert ColumnsVisited(t[i..]) == [c] + rest;
          assert ([c] + rest)[1..] == rest;
          VisitColumnIdentifier(c);
        } else {
          assert ColumnsVisited(t[i..]) == rest;
        }
        i := i + 1;
      }
      assert t[0..] == t;
      return true;
    }

    function GetColumnIdentifiers(): seq<Column>
      reads this
    {
      columnIdentifiers
    }
  }

  /** What a fresh visitor has collected after `visit(e)`; None when the visit throws. */
  function ColumnsAccessed(e: Expr): Option<seq<Column>>
  {
    match Trace(e)
    case None => None
    case Some(t) => Some(AddAll([], ColumnsVisited(t)))
  }

  lemma {:induction false} AddAllSnoc(s: seq<Column>, cs: seq<Column>, c: Column)
    ensures AddAll(s, cs + [c]) == Add(AddAll(s, cs), c)
    decreases |cs|
  {
    if cs == [] {
      assert cs + [c] == [c];
    } else {
      assert (cs + [c])[0] == cs[0];
      assert (cs + [c])[1..] == cs[1..] + [c];
      AddAllSnoc(Add(s, cs[0]), cs[1..], c);
    }
  }

  lemma {:induction false} FirstIndexSnoc(cs: seq<Column>, c: Column, k: (string, string))
    ensures HasKey(cs, k) ==> FirstIndex(cs + [c], k) == FirstIndex(cs, k) < |cs|
    ensures !HasKey(cs, k) ==> FirstIndex(cs, k) == |cs| && FirstIndex(cs + [c], k) == FirstIndex([c], k) + |cs|
    decreases |cs|
  {
    if cs == [] {
      assert cs + [c] == [c];
    } else {
      assert (cs + [c])[0] == cs[0];
      assert (cs + [c])[1..] == cs[1..] + [c];
      FirstIndexSnoc(cs[1..], c, k);
      if Key(cs[0]) != k {
        if HasKey(cs, k) {
          var i :| 0 <= i < |cs| && Key(cs[i]) == k;
          assert Key(cs[1..][i - 1]) == k;
        }
        if HasKey(cs[1..], k) {
          var i :| 0 <= i < |cs| - 1 && Key(cs[1..][i]) == k;
          assert Key(cs[i + 1]) == k;
        }
      }
    }
  }

  lemma {:induction false} FirstIndexFound(cs: seq<Column>, k: (string, string))
    requires HasKey(cs, k)
    ensures FirstIndex(cs, k) < |cs| && Key(cs[FirstIndex(cs, k)]) == k
  {
    if Key(cs[0]) != k {
      var i :| 0 <= i < |cs| && Key(cs[i]) == k;
      assert Key(cs[1..][i - 1]) == k;
      FirstIndexFound(cs[1..], k);
    }
  }

  lemma HasKeyAppend(s: seq<Column>, c: Column, k: (string, string))
    ensures HasKey(s + [c], k) <==> HasKey(s, k) || Key(c) == k
  {
    if HasKey(s + [c], k) && Key(c) != k {
      var i :| 0 <= i < |s| + 1 && Key((s + [c])[i]) == k;
      assert Key(s[i]) == k;
    }
    if HasKey(s, k) {
      var i :| 0 <= i < |s| && Key(s[i]) == k;
      assert Key((s + [c])[i]) == k;
    }
    if Key(c) == k {
      assert Key((s + [c])[|s|]) == k;
    }
  }

  lemma {:induction false} AddAllKeepsDistinct(s: seq<Column>, cs: seq<Column>)
    requires DistinctKeys(s)
    ensures DistinctKeys(AddAll(s, cs))
    decreases |cs|
  {
    if cs != [] {
      AddAllKeepsDistinct(Add(s, cs[0]), cs[1..]);
    }
  }

  lemma {:induction false} AddAllHasKey(s: seq<Column>, cs: seq<Column>, k: (string, string))
    ensures HasKey(AddAll(s, cs), k) <==> HasKey(s, k) || HasKey(cs, k)
    decreases |cs|
  {
    if cs != [] {
      AddAllHasKey(Add(s, cs[0]), cs[1..], k);
      HasKeyAppend(s, cs[0], k);
      assert cs == [cs[0]] + cs[1..];
      HasKeyAppend([cs[0]], cs[0], k);
      if HasKey(cs, k) && Key(cs[0]) != k {
        var i :| 0 <= i < |cs| && Key(cs[i]) == k;
        assert Key(cs[1..][i - 1]) == k;
      }
      if HasKey(cs[1..], k) {
        var i :| 0 <= i < |cs| - 1 && Key(cs[1..][i]) == k;
        assert Key(cs[i + 1]) == k;
      }
      if Key(cs[0]) == k {
        assert Key(cs[0]) == k;
      }
    }
  }

  /** The key of each element of a prefix's collection first occurs in the prefix. */
  lemma AddAllSnocKeepsIndices(init: seq<Column>, c: Column)
    requires forall k :: HasKey(AddAll([], init), k) <==> HasKey(init, k)
    ensures forall a :: 0 <= a < |AddAll([], init)| ==>
              FirstIndex(init + [c], Key(AddAll([], init)[a])) == FirstIndex(init, Key(AddAll([], init)[a])) < |init|
  {
    var r0 := AddAll([], init);
    forall a | 0 <= a < |r0|
      ensures FirstIndex(init + [c], Key(r0[a])) == FirstIndex(init, Key(r0[a])) < |init|
    {
      assert HasKey(r0, Key(r0[a]));
      FirstIndexSnoc(init, c, Key(r0[a]));
    }
  }

  /** A column whose key is new is collected at the end, and its key first occurs at its own index. */
  lemma AddAllSnocNew(init: seq<Column>, c: Column)
    requires forall k :: HasKey(AddAll([], init), k) <==> HasKey(init, k)
    requires !HasKey(AddAll([], init), Key(c))
    ensures AddAll([], init + [c]) == AddAll([], init) + [c]
    ensures FirstIndex(init + [c], Key(c)) == |init| && (init + [c])[|init|] == c
  {
    AddAllSnoc([], init, c);
    FirstIndexSnoc(init, c, Key(c));
    assert FirstIndex([c], Key(c)) == 0;
  }

  /** Each collected element is the first visited column with its key. */
  lemma {:induction false} AddAllFirstOfKey(cs: seq<Column>)
    ensures forall a :: 0 <= a < |AddAll([], cs)| ==>
              FirstIndex(cs, Key(AddAll([], cs)[a])) < |cs|
              && AddAll([], cs)[a] == cs[FirstIndex(cs, Key(AddAll([], cs)[a]))]
    decreases |cs|
  {
    if cs != [] {
      var init := cs[..|cs| - 1];
      var c := cs[|cs| - 1];
      assert cs == init + [c];
      AddAllFirstOfKey(init);
      forall k ensures HasKey(AddAll([], init), k) <==> HasKey(init, k) {
        AddAllHasKey([], init, k);
      }
      AddAllSnoc([], init, c);
      AddAllSnocKeepsIndices(init, c);
      if !HasKey(AddAll([], init), Key(c)) {
        AddAllSnocNew(init, c);
      }
    }
  }

  /** Collected elements appear in the order their keys first occur. */
  lemma {:induction false} AddAllInFirstOrder(cs: seq<Column>)
    ensures forall a, b :: 0 <= a < b < |AddAll([], cs)| ==>
              FirstIndex(cs, Key(AddAll([], cs)[a])) < FirstIndex(cs, Key(AddAll([], cs)[b]))
    decreases |cs|
  {
    if cs != [] {
      var init := cs[..|cs| - 1];
      var c := cs[|cs| - 1];
      assert cs == init + [c];
      AddAllInFirstOrder(init);
      forall k ensures HasKey(AddAll([], init), k) <==> HasKey(init, k) {
        AddAllHasKey([], init, k);
      }
      AddAllSnoc([], init, c);
      AddAllSnocKeepsIndices(init, c);
      if !HasKey(AddAll([], init), Key(c)) {
        AddAllSnocNew(init, c);
      }
    }
  }

  /**
   * The collected sequence is the de-duplication of the visited columns in first-occurrence
   * order: no two elements are equal, every visited column is represented, each element is the
   * first visited column with its key, and elements appear in the order their keys first occur.
   */
  lemma AddAllIsFirstOccurrences(cs: seq<Column>)
    ensures DistinctKeys(AddAll([], cs))
    ensures forall k :: HasKey(AddAll([], cs), k) <==> HasKey(cs, k)
    ensures forall a :: 0 <= a < |AddAll([], cs)| ==>
              FirstIndex(cs, Key(AddAll([], cs)[a])) < |cs|
              && AddAll([], cs)[a] == cs[FirstIndex(cs, Key(AddAll([], cs)[a]))]
    ensures forall a, b :: 0 <= a < b < |AddAll([], cs)| ==>
              FirstIndex(cs, Key(AddAll([], cs)[a])) < FirstIndex(cs, Key(AddAll([], cs)[b]))
  {
    AddAllKeepsDistinct([], cs);
    forall k ensures HasKey(AddAll([], cs), k) <==> HasKey(cs, k) {
      AddAllHasKey([], cs, k);
    }
    AddAllFirstOfKey(cs);
    AddAllInFirstOrder(cs);
  }

  /** A column that is visited ends up in the collected set. */
  lemma VisitedColumnCollected(e: Expr, c: Column)
    requires Trace(e).Some? && c in ColumnsVisited(Trace(e).value)
    ensures HasKey(ColumnsAccessed(e).value, Key(c))
  {
    var cs := ColumnsVisited(Trace(e).value);
    AddAllIsFirstOccurrences(cs);
    var i :| 0 <= i < |cs| && cs[i] == c;
    assert HasKey(cs, Key(c));
  }
}
