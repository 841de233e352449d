/**
 * The MIN and MAX macros of include/Definition.h.
 *
 * Both are conditional expressions over whatever type their arguments have,
 * using only that type's `<` (MIN) or `>` (MAX). Here the type is a type
 * parameter and `<` is a relation `less`; `a > b` is read as `less(b, a)`.
 * Because nothing requires `less` to be total, two arguments may be
 * "tied": neither is strictly below the other (equal values, or values that
 * do not compare at all). On such a tie both macros yield their SECOND
 * argument.
 */
module Definition {

  /** `less` never holds in both directions (and so never of a value with itself). */
  ghost predicate Asymmetric<T(!new)>(less: (T, T) -> bool) {
    forall x, y :: less(x, y) ==> !less(y, x)
  }

  /** MIN(a, b): `a` if `a < b`, otherwise `b`. */
  function Min<T>(less: (T, T) -> bool, a: T, b: T): (r: T)
    ensures r == a || r == b
  {
    if less(a, b) then a else b
  }

  /** MAX(a, b): `a` if `a > b`, otherwise `b`. */
  function Max<T>(less: (T, T) -> bool, a: T, b: T): (r: T)
    ensures r == a || r == b
  {
    if less(b, a) then a else b
  }

  /** Neither argument lies strictly below MIN(a, b): it is a lower bound of both. */
  lemma MinIsLowerBound<T(!new)>(less: (T, T) -> bool, a: T, b: T)
    requires Asymmetric(less)
    ensures !less(a, Min(less, a, b)) && !less(b, Min(less, a, b))
  {
  }

  /** Neither argument lies strictly above MAX(a, b): it is an upper bound of both. */
  lemma MaxIsUpperBound<T(!new)>(less: (T, T) -> bool, a: T, b: T)
    requires Asymmetric(less)
    ensures !less(Max(less, a, b), a) && !less(Max(less, a, b), b)
  {
  }

  /** On a tie neither macro picks the first argument: both yield `b`. */
  lemma TieYieldsSecond<T>(less: (T, T) -> bool, a: T, b: T)
    requires !less(a, b) && !less(b, a)
    ensures Min(less, a, b) == b && Max(less, a, b) == b
  {
  }

  /** When the arguments are strictly ordered, MIN picks the smaller and MAX the larger. */
  lemma StrictOrderPicks<T(!new)>(less: (T, T) -> bool, a: T, b: T)
    requires Asymmetric(less)
    requires less(a, b)
    ensures Min(less, a, b) == a && Max(less, a, b) == b
    ensures Min(less, b, a) == a && Max(less, b, a) == b
  {
  }

  /** MIN(a, b) is never strictly above MAX(a, b). */
  lemma MinNotAboveMax<T(!new)>(less: (T, T) -> bool, a: T, b: T)
    requires Asymmetric(less)
    ensures !less(Max(less, a, b), Min(less, a, b))
  {
  }

  /** Both macros are the identity on equal arguments. */
  lemma MinMaxSelf<T>(less: (T, T) -> bool, a: T)
    ensures Min(less, a, a) == a && Max(less, a, a) == a
  {
  }

  /** The built-in `<` on integers, the usual argument type of the macros. */
  function IntLess(x: int, y: int): bool {
    x < y
  }

  /** On integers MIN and MAX are the ordinary minimum and maximum, and MIN <= MAX. */
  lemma IntMinMax(a: int, b: int)
    ensures Min(IntLess, a, b) <= a && Min(IntLess, a, b) <= b
    ensures Max(IntLess, a, b) >= a && Max(IntLess, a, b) >= b
    ensures Min(IntLess, a, b) <= Max(IntLess, a, b)
    ensures Min(IntLess, a, b) + Max(IntLess, a, b) == a + b
  {
  }
}
