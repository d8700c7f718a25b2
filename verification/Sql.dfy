/** SQL values and three-valued logic, as far as the queries of `internal/db` use them. */
module Sql {

  /** A nullable column value. */
  datatype Opt<+T> = Null | Val(v: T)

  /** The outcome of an SQL condition. A WHERE clause or a CASE WHEN accepts only `True`. */
  datatype Tri = True | False | Unknown {
    function Not(): Tri {
      match this case True => False case False => True case Unknown => Unknown
    }

    function And(that: Tri): Tri {
      if this == False || that == False then False
      else if this == True && that == True then True
      else Unknown
    }
  }

  function TriOf(b: bool): Tri { if b then True else False }

  /** `a = x` for a column and a literal. */
  function TriEq<T(==)>(a: Opt<T>, x: T): Tri {
    if a.Null? then Unknown else TriOf(a.v == x)
  }

  /** `a IN (xs)` for a column and literals. */
  function TriIn<T(==)>(a: Opt<T>, xs: set<T>): Tri {
    if a.Null? then Unknown else TriOf(a.v in xs)
  }

  /** `CASE WHEN t THEN 1 ELSE 0 END`. */
  function CaseWhen(t: Tri): nat { if t == True then 1 else 0 }

  function Coalesce<T>(a: Opt<T>, d: T): T { if a.Val? then a.v else d }

  // The remaining predicates say when a condition comes out `True`.

  /** `a = x`. */
  predicate Is<T(==)>(a: Opt<T>, x: T)
    ensures Is(a, x) <==> TriEq(a, x) == True
  {
    a == Val(x)
  }

  /** `a NOT IN (xs)`: NULL is in no list and outside no list. */
  predicate NotIn<T(==)>(a: Opt<T>, xs: set<T>)
    ensures NotIn(a, xs) <==> TriIn(a, xs).Not() == True
  {
    a.Val? && a.v !in xs
  }

  /** `a = b` for two columns: NULL equals nothing, itself included. */
  predicate Same<T(==)>(a: Opt<T>, b: Opt<T>) {
    a.Val? && a == b
  }
}
