/**
 * The mutable MonoidComprehension object: a head (possibly null) and a qualifier list that
 * `addQualifier`/`addQualifiers` grow in place, while `withQualifier` copies.
 */
module MonoidComprehensions {
  import opened Wrappers
  import opened Monoid

  class MonoidComprehension {
    var head: Option<Head>
    var qualifiers: seq<Expr>

    /** The IR value this object currently denotes. */
    function AsExpr(): Expr
      reads this
    {
      Monoid.MonoidComprehension(head, qualifiers)
    }

    /** The package-private no-argument constructor: null head, no qualifiers. */
    constructor Empty()
      ensures head == None && qualifiers == []
    {
      head := None;
      qualifiers := [];
    }

    /** `MonoidComprehension(Head)`: the given head (which may be null) and no qualifiers. */
    constructor FromHead(h: Option<Head>)
      ensures head == h && qualifiers == []
    {
      head := h;
      qualifiers := [];
    }

    /** `MonoidComprehension(List<Qualifier>)`: a null head and the given qualifiers. */
    constructor FromQualifiers(qs: seq<Expr>)
      ensures head == None && qualifiers == qs
    {
      head := None;
      qualifiers := qs;
    }

    constructor (h: Head, qs: seq<Expr>)
      ensures head == Some(h) && qualifiers == qs
    {
      head := Some(h);
      qualifiers := qs;
    }

    /** Appends every new qualifier, in order; the head is untouched. */
    method AddQualifiers(newQualifiers: seq<Expr>)
      modifies this
      ensures qualifiers == old(qualifiers) + newQualifiers
      ensures head == old(head)
    {
      qualifiers := qualifiers + newQualifiers;
    }

    /** Appends one qualifier; the head is untouched. */
    method AddQualifier(qualifier: Expr)
      modifies this
      ensures qualifiers == old(qualifiers) + [qualifier]
      ensures head == old(head)
    {
      qualifiers := qualifiers + [qualifier];
    }

    /**
     * A new comprehension with the same head and this one's qualifiers followed by `qualifier`;
     * the receiver is not modified (no modifies clause).
     */
    method WithQualifier(qualifier: Expr) returns (c: MonoidComprehension)
      ensures fresh(c)
      ensures c.head == head && c.qualifiers == qualifiers + [qualifier]
      ensures c.AsExpr() == Monoid.MonoidComprehension(head, qualifiers + [qualifier])
    {
      var newQualifiers := qualifiers + [qualifier];
      c := new MonoidComprehension.FromHead(head);
      c.AddQualifiers(newQualifiers);
    }
  }
}
