/**
 * The field-index table OrToolsSolver keeps for every view: each field of the view's tuples
 * gets a slot, the first time the field is seen, from a per-view counter.
 */
module FieldIndex {
  import opened Wrappers
  import opened Text
  import opened Monoid
  import opened Naming

  /** One view's slots, keyed by upper-cased field name. */
  type Slots = map<string, nat>

  /**
   * The name `updateFieldIndex` records a head item under: its alias, else its column name,
   * else a generated `GenField<n>`, upper-cased. The flag says whether the generated-name
   * counter was used.
   */
  function FieldKey(argument: Expr, generated: nat): (r: (string, bool))
    ensures r.1 <==> AliasOf(argument).None? && !argument.ColumnIdentifier?
    ensures AliasOf(argument).Some? ==> r.0 == Upper(AliasOf(argument).value)
    ensures AliasOf(argument).None? && argument.ColumnIdentifier? ==> r.0 == Upper(argument.column.field.name)
  {
    match AliasOf(argument)
    case Some(a) => (Upper(a), false)
    case None =>
      if argument.ColumnIdentifier? then (Upper(argument.column.field.name), false)
      else (Upper(GeneratedFieldNamePrefix + NatToString(generated)), true)
  }

  /** `computeIfAbsent(fieldName, k -> counter.getAndIncrement())`. */
  function RecordField(slots: Slots, counter: nat, fieldName: string): (r: (Slots, nat))
    ensures fieldName in r.0
    ensures fieldName in slots ==> r == (slots, counter)
    ensures fieldName !in slots ==> r.0 == slots[fieldName := counter] && r.1 == counter + 1
  {
    if fieldName in slots then (slots, counter) else (slots[fieldName := counter], counter + 1)
  }

  /** Recording each of `names` in turn. */
  function RecordFields(slots: Slots, counter: nat, names: seq<string>): (Slots, nat)
  {
    if names == [] then (slots, counter)
    else
      var prev := RecordFields(slots, counter, names[..|names| - 1]);
      RecordField(prev.0, prev.1, names[|names| - 1])
  }

  /** The names in first-seen order, each once. */
  function Dedup(names: seq<string>): seq<string>
  {
    if names == [] then []
    else
      var init, x := names[..|names| - 1], names[|names| - 1];
      if x in init then Dedup(init) else Dedup(init) + [x]
  }

  lemma {:induction false} DedupElements(names: seq<string>)
    ensures forall y :: y in Dedup(names) <==> y in names
    ensures forall i, j :: 0 <= i < j < |Dedup(names)| ==> Dedup(names)[i] != Dedup(names)[j]
  {
    if names != [] {
      var init := names[..|names| - 1];
      DedupElements(init);
      assert names == init + [names[|names| - 1]];
    }
  }

  /** A slot once assigned never changes. */
  lemma {:induction false} RecordFieldsKeepsSlots(slots: Slots, counter: nat, names: seq<string>, x: string)
    requires x in slots
    ensures x in RecordFields(slots, counter, names).0
    ensures RecordFields(slots, counter, names).0[x] == slots[x]
  {
    if names != [] {
      RecordFieldsKeepsSlots(slots, counter, names[..|names| - 1], x);
    }
  }

  /**
   * Starting from an empty table and a zero counter, the slots are 0..n-1 in first-seen
   * order: the field first seen k-th (repetitions not counted) gets slot k, every recorded
   * name has a slot, and the counter ends at the number of distinct names.
   */
  lemma {:induction false} SlotsInFirstSeenOrder(names: seq<string>)
    ensures var (m, n) := RecordFields(map[], 0, names);
            n == |Dedup(names)|
            && (forall y :: y in m <==> y in names)
            && (forall i :: 0 <= i < |Dedup(names)| ==> Dedup(names)[i] in m && m[Dedup(names)[i]] == i)
  {
    if names != [] {
      var init, x := names[..|names| - 1], names[|names| - 1];
      SlotsInFirstSeenOrder(init);
      DedupElements(init);
      var (m0, n0) := RecordFields(map[], 0, init);
      assert names == init + [x];
      if x !in init {
        var d := Dedup(names);
        assert d == Dedup(init) + [x];
        forall i | 0 <= i < |d|
          ensures d[i] in RecordFields(map[], 0, names).0 && RecordFields(map[], 0, names).0[d[i]] == i
        {
          if i < |d| - 1 {
            assert d[i] == Dedup(init)[i];
            assert d[i] != x;
          }
        }
      }
    }
  }
}
