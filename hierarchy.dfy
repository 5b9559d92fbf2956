/**
 * Resolution of a class to its repository key and the class-membership
 * test applied on lookup. The class hierarchy itself is declared by the
 * surrounding framework; here it is a given table of two functions.
 */
module Hierarchy {
  import opened Records

  /**
   * `baseClass(c)` is `c.base_class`, the class whose table the rows of `c`
   * live in; `descendants(c)` is the set of all subclasses of `c`.
   */
  datatype ClassTable = ClassTable(
    baseClass: ClassName -> ClassName,
    descendants: ClassName -> set<ClassName>)

  /** The outer key of the repository under which records of `klass` are kept. */
  function RepositoryKey(h: ClassTable, klass: ClassName): (key: ClassName)
    ensures WellFormed(h) ==> forall d :: d in h.descendants(klass) ==> h.baseClass(d) == key
  {
    h.baseClass(klass)
  }

  /** A record of class `actual` may be returned for a request on `requested`. */
  predicate Matches(h: ClassTable, requested: ClassName, actual: ClassName): (ok: bool)
    ensures requested == actual ==> ok
    ensures ok ==> actual == requested || actual in h.descendants(requested)
  {
    actual == requested || actual in h.descendants(requested)
  }

  /** What the framework guarantees: every subclass shares its ancestor's base class. */
  ghost predicate WellFormed(h: ClassTable)
  {
    forall c, d :: d in h.descendants(c) ==> h.baseClass(d) == h.baseClass(c)
  }

  /** A class and any class that may stand in for it on lookup share one bucket. */
  lemma MatchesShareBucket(h: ClassTable, requested: ClassName, actual: ClassName)
    requires WellFormed(h) && Matches(h, requested, actual)
    ensures RepositoryKey(h, requested) == RepositoryKey(h, actual)
  {
  }
}
