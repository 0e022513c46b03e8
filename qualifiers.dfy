/**
 * QualifiersByType and populateQualifiersByVarType: a comprehension's qualifiers are sorted
 * into where predicates, join predicates, predicates with an aggregate and table row
 * generators, separately for the qualifiers that mention decision variables and the rest.
 */
module Qualifiers {
  import opened Wrappers
  import opened Monoid

  datatype Bucket = WhereBucket | JoinBucket | AggregateBucket | GeneratorBucket

  /**
   * `addQualifierByType`'s tests, in order: a predicate with an aggregate, then a join, then any
   * other binary predicate, then a row generator. A group-by qualifier is ignored (None);
   * anything else is refused.
   */
  function BucketOf(q: Expr): (r: Result<Option<Bucket>>)
    ensures r.Err? ==> r.error == IllegalArgument
  {
    match q
    case BinaryOperatorPredicate(WithAggregate, _, _, _, _) => Ok(Some(AggregateBucket))
    case BinaryOperatorPredicate(Join, _, _, _, _) => Ok(Some(JoinBucket))
    case BinaryOperatorPredicate(Plain, _, _, _, _) => Ok(Some(WhereBucket))
    case TableRowGenerator(_, _) => Ok(Some(GeneratorBucket))
    case GroupByQualifier(_) => Ok(None)
    case _ => Err(IllegalArgument)
  }

  /** Binary predicates and row generators land in a bucket, group-by qualifiers in none; the rest are refused. */
  lemma BucketOfCases(q: Expr)
    ensures BucketOf(q).Err? <==> !(q.BinaryOperatorPredicate? || q.TableRowGenerator? || q.GroupByQualifier?)
    ensures BucketOf(q) == Ok(None) <==> q.GroupByQualifier?
    ensures q.BinaryOperatorPredicate? && q.kind == WithAggregate ==> BucketOf(q) == Ok(Some(AggregateBucket))
  {
  }

  /** `q` lands in bucket `b`. */
  predicate Lands(q: Expr, b: Bucket)
  {
    BucketOf(q).Ok? && BucketOf(q).value.Some? && BucketOf(q).value.value == b
  }

  /** The qualifiers of `qs` that land in bucket `b`, in list order. */
  function OfBucket(qs: seq<Expr>, b: Bucket): (r: seq<Expr>)
    ensures |r| <= |qs|
  {
    if qs == [] then []
    else (if Lands(qs[0], b) then [qs[0]] else []) + OfBucket(qs[1..], b)
  }

  /** The group-by qualifiers of `qs`, which no bucket takes. */
  function Ignored(qs: seq<Expr>): seq<Expr>
  {
    if qs == [] then [] else (if qs[0].GroupByQualifier? then [qs[0]] else []) + Ignored(qs[1..])
  }

  predicate Classifiable(qs: seq<Expr>)
  {
    forall i :: 0 <= i < |qs| ==> BucketOf(qs[i]).Ok?
  }

  lemma {:induction false} OfBucketAppend(a: seq<Expr>, c: seq<Expr>, b: Bucket)
    ensures OfBucket(a + c, b) == OfBucket(a, b) + OfBucket(c, b)
    decreases |a|
  {
    if a == [] {
      assert a + c == c;
    } else {
      var h := if Lands(a[0], b) then [a[0]] else [];
      assert (a + c)[0] == a[0];
      assert (a + c)[1..] == a[1..] + c;
      OfBucketAppend(a[1..], c, b);
      calc {
        OfBucket(a + c, b);
        h + OfBucket(a[1..] + c, b);
        h + (OfBucket(a[1..], b) + OfBucket(c, b));
        (h + OfBucket(a[1..], b)) + OfBucket(c, b);
      }
    }
  }

  /**
   * The four buckets and the ignored group-by qualifiers split the qualifiers between them:
   * every qualifier is counted in exactly one of them.
   */
  lemma {:induction false} BucketsPartition(qs: seq<Expr>)
    requires Classifiable(qs)
    ensures |OfBucket(qs, WhereBucket)| + |OfBucket(qs, JoinBucket)| + |OfBucket(qs, AggregateBucket)|
            + |OfBucket(qs, GeneratorBucket)| + |Ignored(qs)| == |qs|
  {
    if qs != [] {
      var q, t := qs[0], qs[1..];
      assert Classifiable(t) by {
        forall i | 0 <= i < |t| ensures BucketOf(t[i]).Ok? {
          assert t[i] == qs[i + 1];
        }
      }
      BucketsPartition(t);
      assert BucketOf(q).Ok?;
      LandsInOne(q);
    }
  }

  /** Each bucket holds exactly the qualifiers that land in it. */
  lemma {:induction false} OfBucketMembers(qs: seq<Expr>, b: Bucket, q: Expr)
    ensures q in OfBucket(qs, b) <==> q in qs && Lands(q, b)
  {
    if qs != [] {
      OfBucketMembers(qs[1..], b, q);
      assert qs == [qs[0]] + qs[1..];
    }
  }

  /** A classifiable qualifier lands in exactly one bucket, or is an ignored group-by qualifier. */
  lemma LandsInOne(q: Expr)
    requires BucketOf(q).Ok?
    ensures (if Lands(q, WhereBucket) then 1 else 0) + (if Lands(q, JoinBucket) then 1 else 0)
            + (if Lands(q, AggregateBucket) then 1 else 0) + (if Lands(q, GeneratorBucket) then 1 else 0)
            + (if q.GroupByQualifier? then 1 else 0) == 1
  {
  }

  class QualifiersByType {
    var wherePredicates: seq<Expr>
    var joinPredicates: seq<Expr>
    var aggregatePredicates: seq<Expr>
    var tableRowGenerators: seq<Expr>

    function Get(b: Bucket): seq<Expr>
      reads this
    {
      match b
      case WhereBucket => wherePredicates
      case JoinBucket => joinPredicates
      case AggregateBucket => aggregatePredicates
      case GeneratorBucket => tableRowGenerators
    }

    /** The buckets hold exactly the bucketing of `qs`. */
    ghost predicate Holds(qs: seq<Expr>)
      reads this
    {
      wherePredicates == OfBucket(qs, WhereBucket) && joinPredicates == OfBucket(qs, JoinBucket)
      && aggregatePredicates == OfBucket(qs, AggregateBucket) && tableRowGenerators == OfBucket(qs, GeneratorBucket)
    }

    constructor ()
      ensures Holds([])
    {
      wherePredicates := [];
      joinPredicates := [];
      aggregatePredicates := [];
      tableRowGenerators := [];
    }

    /** Appends `q` to its bucket; a group-by qualifier changes nothing; anything else throws. */
    method AddQualifierByType(q: Expr) returns (r: Result<()>)
      modifies this
      ensures r.Ok? <==> BucketOf(q).Ok?
      ensures forall b :: Get(b) == old(Get(b)) + OfBucket([q], b)
    {
      assert [q][1..] == [];
      match q
      case BinaryOperatorPredicate(WithAggregate, _, _, _, _) =>
        aggregatePredicates := aggregatePredicates + [q];
        return Ok(());
      case BinaryOperatorPredicate(Join, _, _, _, _) =>
        joinPredicates := joinPredicates + [q];
        return Ok(());
      case BinaryOperatorPredicate(Plain, _, _, _, _) =>
        wherePredicates := wherePredicates + [q];
        return Ok(());
      case TableRowGenerator(_, _) =>
        tableRowGenerators := tableRowGenerators + [q];
        return Ok(());
      case GroupByQualifier(_) =>
        return Ok(());
      case _ =>
        return Err(IllegalArgument);
    }
  }

  /** The qualifiers GetVarQualifiers puts in the variable list. */
  function VarPart(qs: seq<Expr>, isVarQualifier: Expr -> bool): (r: seq<Expr>)
    ensures |r| <= |qs|
  {
    if qs == [] then []
    else (if isVarQualifier(qs[0]) then [qs[0]] else []) + VarPart(qs[1..], isVarQualifier)
  }

  /** The qualifiers GetVarQualifiers puts in the non-variable list. */
  function NonVarPart(qs: seq<Expr>, isVarQualifier: Expr -> bool): (r: seq<Expr>)
    ensures |r| <= |qs|
  {
    if qs == [] then []
    else (if isVarQualifier(qs[0]) then [] else [qs[0]]) + NonVarPart(qs[1..], isVarQualifier)
  }

  lemma {:induction false} PartsSnoc(qs: seq<Expr>, q: Expr, isVarQualifier: Expr -> bool)
    ensures VarPart(qs + [q], isVarQualifier) == VarPart(qs, isVarQualifier) + (if isVarQualifier(q) then [q] else [])
    ensures NonVarPart(qs + [q], isVarQualifier) == NonVarPart(qs, isVarQualifier) + (if isVarQualifier(q) then [] else [q])
    decreases |qs|
  {
    if qs == [] {
      assert [q][1..] == [];
    } else {
      assert (qs + [q])[1..] == qs[1..] + [q];
      PartsSnoc(qs[1..], q, isVarQualifier);
    }
  }

  /** Every qualifier is in exactly one of the two parts, so a bucket splits between them. */
  lemma {:induction false} BucketSplitsBetweenParts(qs: seq<Expr>, isVarQualifier: Expr -> bool, b: Bucket)
    ensures multiset(OfBucket(VarPart(qs, isVarQualifier), b)) + multiset(OfBucket(NonVarPart(qs, isVarQualifier), b))
            == multiset(OfBucket(qs, b))
  {
    if qs != [] {
      var q, t := qs[0], qs[1..];
      BucketSplitsBetweenParts(t, isVarQualifier, b);
      var v, n := VarPart(t, isVarQualifier), NonVarPart(t, isVarQualifier);
      var h := if Lands(q, b) then [q] else [];
      assert OfBucket(qs, b) == h + OfBucket(t, b);
      assert OfBucket([q], b) == h;
      if isVarQualifier(q) {
        assert VarPart(qs, isVarQualifier) == [q] + v;
        assert NonVarPart(qs, isVarQualifier) == n;
        OfBucketAppend([q], v, b);
        assert multiset(OfBucket(VarPart(qs, isVarQualifier), b)) == multiset(h) + multiset(OfBucket(v, b));
      } else {
        assert VarPart(qs, isVarQualifier) == v;
        assert NonVarPart(qs, isVarQualifier) == [q] + n;
        OfBucketAppend([q], n, b);
        assert multiset(OfBucket(NonVarPart(qs, isVarQualifier), b)) == multiset(h) + multiset(OfBucket(n, b));
      }
      assert multiset(OfBucket(qs, b)) == multiset(h) + multiset(OfBucket(t, b));
    }
  }

  /** One step of populateQualifiersByVarType: `q` goes to the variable or the non-variable buckets. */
  method AddToPart(q: Expr, isVarQualifier: Expr -> bool, ghost done: seq<Expr>,
                   varQualifiers: QualifiersByType, nonVarQualifiers: QualifiersByType)
    returns (r: Result<()>)
    requires varQualifiers != nonVarQualifiers
    requires varQualifiers.Holds(VarPart(done, isVarQualifier))
    requires nonVarQualifiers.Holds(NonVarPart(done, isVarQualifier))
    modifies varQualifiers, nonVarQualifiers
    ensures r.Ok? <==> BucketOf(q).Ok?
    ensures varQualifiers.Holds(VarPart(done + [q], isVarQualifier))
    ensures nonVarQualifiers.Holds(NonVarPart(done + [q], isVarQualifier))
  {
    PartsSnoc(done, q, isVarQualifier);
    if isVarQualifier(q) {
      r := varQualifiers.AddQualifierByType(q);
      AppendEachBucket(VarPart(done, isVarQualifier), q);
      assert NonVarPart(done + [q], isVarQualifier) == NonVarPart(done, isVarQualifier);
    } else {
      r := nonVarQualifiers.AddQualifierByType(q);
      AppendEachBucket(NonVarPart(done, isVarQualifier), q);
      assert VarPart(done + [q], isVarQualifier) == VarPart(done, isVarQualifier);
    }
  }

  lemma AppendEachBucket(qs: seq<Expr>, q: Expr)
    ensures forall b :: OfBucket(qs + [q], b) == OfBucket(qs, b) + OfBucket([q], b)
  {
    forall b ensures OfBucket(qs + [q], b) == OfBucket(qs, b) + OfBucket([q], b) {
      OfBucketAppend(qs, [q], b);
    }
  }

  /**
   * The forEach of populateQualifiersByVarType: each qualifier goes to the variable or the
   * non-variable buckets as GetVarQualifiers decides.
   */
  method AddAllToParts(qualifiers: seq<Expr>, isVarQualifier: Expr -> bool,
                       varQualifiers: QualifiersByType, nonVarQualifiers: QualifiersByType)
    returns (r: Result<()>)
    requires varQualifiers != nonVarQualifiers
    requires varQualifiers.Holds([]) && nonVarQualifiers.Holds([])
    modifies varQualifiers, nonVarQualifiers
    ensures r.Ok? <==> Classifiable(qualifiers)
    ensures r.Err? ==> r.error == IllegalArgument
    ensures Classifiable(qualifiers) ==>
              varQualifiers.Holds(VarPart(qualifiers, isVarQualifier))
              && nonVarQualifiers.Holds(NonVarPart(qualifiers, isVarQualifier))
  {
    r := Ok(());
    var i := 0;
    while i < |qualifiers| && r.Ok?
      invariant i <= |qualifiers|
      invariant r.Ok? ==> forall j :: 0 <= j < i ==> BucketOf(qualifiers[j]).Ok?
      invariant r.Ok? ==> varQualifiers.Holds(VarPart(qualifiers[..i], isVarQualifier))
                          && nonVarQualifiers.Holds(NonVarPart(qualifiers[..i], isVarQualifier))
      invariant r.Err? ==> !Classifiable(qualifiers) && r.error == IllegalArgument
    {
      var q := qualifiers[i];
      assert qualifiers[..i + 1] == qualifiers[..i] + [q];
      var added := AddToPart(q, isVarQualifier, qualifiers[..i], varQualifiers, nonVarQualifiers);
      if added.Err? {
        assert !BucketOf(qualifiers[i]).Ok?;
        r := Err(IllegalArgument);
      }
      i := i + 1;
    }
    if r.Ok? {
      assert qualifiers[..i] == qualifiers;
    }
  }

  /**
   * `populateQualifiersByVarType`: each qualifier goes to the variable or the non-variable
   * buckets as GetVarQualifiers decides; then no predicate may carry an aggregate and no row
   * generator may be variable.
   */
  method PopulateQualifiersByVarType(qualifiers: seq<Expr>, isVarQualifier: Expr -> bool,
                                     varQualifiers: QualifiersByType, nonVarQualifiers: QualifiersByType)
    returns (r: Result<()>)
    requires varQualifiers != nonVarQualifiers
    requires varQualifiers.Holds([]) && nonVarQualifiers.Holds([])
    modifies varQualifiers, nonVarQualifiers
    ensures r.Ok? <==>
              Classifiable(qualifiers)
              && nonVarQualifiers.aggregatePredicates == []
              && varQualifiers.aggregatePredicates == []
              && varQualifiers.tableRowGenerators == []
    ensures r.Err? ==> r.error == IllegalArgument
    ensures Classifiable(qualifiers) ==>
              varQualifiers.Holds(VarPart(qualifiers, isVarQualifier))
              && nonVarQualifiers.Holds(NonVarPart(qualifiers, isVarQualifier))
  {
    r := AddAllToParts(qualifiers, isVarQualifier, varQualifiers, nonVarQualifiers);
    if r.Ok? && (nonVarQualifiers.aggregatePredicates != [] || varQualifiers.aggregatePredicates != []
                 || varQualifiers.tableRowGenerators != []) {
      r := Err(IllegalArgument);
    }
  }
}
