/**
 * The host-independent helpers of include/Utility.h: the strand end-type
 * enumeration, the search and traversal templates, and the sign functions.
 *
 * An iterator is a position in a sequence `s`; `end` is the past-the-end
 * position of the range. An iterator the source takes BY VALUE is a `nat`
 * parameter; one it takes BY REFERENCE (the `_itref` templates) is a
 * `Cursor` object, the caller's iterator variable, which the method
 * advances in place. A functor is a state-transition function
 * `step: (S, T) -> S` applied to its state `S` and one element: a functor
 * taken by reference hands its final state back to the caller, one taken
 * by value works on a copy whose state the caller never sees.
 */
module Utility {

  // ---------------------------------------------------------------------------
  // Strand end types

  /** The anonymous enumeration FivePrime = 1, ThreePrime = 2, Neither = 0. */
  datatype EndType = Neither | FivePrime | ThreePrime

  /** The integer value of each enumerator; only Neither is 0 (false as a condition). */
  function Code(e: EndType): (c: nat)
    ensures c <= 2
    ensures c == 0 <==> e == Neither
  {
    match e
    case Neither => 0
    case FivePrime => 1
    case ThreePrime => 2
  }

  /** No two enumerators share a value. */
  lemma CodeInjective(e1: EndType, e2: EndType)
    ensures Code(e1) == Code(e2) <==> e1 == e2
  {
  }

  // ---------------------------------------------------------------------------
  // Iterators passed by reference

  /** The caller's iterator variable, which an `_itref` template advances. */
  class Cursor {
    var pos: nat

    constructor (start: nat)
      ensures pos == start
    {
      pos := start;
    }
  }

  // ---------------------------------------------------------------------------
  // Functors: the effect of applying one to each element of a range, in order

  /** The state of a functor after it has been applied to `xs[0]`, `xs[1]`, ... in turn. */
  function Fold<S, T>(step: (S, T) -> S, state: S, xs: seq<T>): S
    decreases |xs|
  {
    if xs == [] then state else Fold(step, step(state, xs[0]), xs[1..])
  }

  /** Applying the functor to one more element extends the fold by one step. */
  lemma {:induction false} FoldSnoc<S, T>(step: (S, T) -> S, state: S, xs: seq<T>, x: T)
    ensures Fold(step, state, xs + [x]) == step(Fold(step, state, xs), x)
    decreases |xs|
  {
    if xs != [] {
      assert (xs + [x])[1..] == xs[1..] + [x];
      FoldSnoc(step, step(state, xs[0]), xs[1..], x);
    }
  }

  /** Traversing two adjacent ranges one after the other is traversing their union. */
  lemma {:induction false} FoldAppend<S, T>(step: (S, T) -> S, state: S, xs: seq<T>, ys: seq<T>)
    ensures Fold(step, state, xs + ys) == Fold(step, Fold(step, state, xs), ys)
    decreases |xs|
  {
    if xs != [] {
      assert (xs + ys)[1..] == xs[1..] + ys;
      FoldAppend(step, step(state, xs[0]), xs[1..], ys);
    } else {
      assert xs + ys == ys;
    }
  }

  /** A counting functor: its state is the number of applications so far. */
  function CountStep<T>(n: int, x: T): int {
    n + 1
  }

  /** A counting functor held by reference ends with its count raised by the range length. */
  lemma {:induction false} CountingFunctor<T>(n: int, xs: seq<T>)
    ensures Fold(CountStep, n, xs) == n + |xs|
    decreases |xs|
  {
    if xs != [] {
      CountingFunctor(n + 1, xs[1..]);
    }
  }

  /** A recording functor: its state is the list of elements it has been applied to. */
  function RecordStep<T>(seen: seq<T>, x: T): seq<T> {
    seen + [x]
  }

  /**
   * A recording functor sees exactly the elements of the range, each once and
   * in order.
   */
  lemma {:induction false} RecordingFunctor<T>(seen: seq<T>, xs: seq<T>)
    ensures Fold(RecordStep, seen, xs) == seen + xs
    decreases |xs|
  {
    if xs != [] {
      RecordingFunctor(seen + [xs[0]], xs[1..]);
      assert seen + [xs[0]] + xs[1..] == seen + xs;
    }
  }

  /** for_each_ref: iterator by value, functor by reference; returns the functor's final state. */
  method ForEachRef<S, T>(s: seq<T>, it: nat, end: nat, step: (S, T) -> S, state: S) returns (final: S)
    requires it <= end <= |s|
    ensures final == Fold(step, state, s[it..end])
  {
    var i := it;
    final := state;
    while i != end
      invariant it <= i <= end
      invariant final == Fold(step, state, s[it..i])
      decreases end - i
    {
      assert s[it..i + 1] == s[it..i] + [s[i]];
      FoldSnoc(step, state, s[it..i], s[i]);
      final := step(final, s[i]);
      i := i + 1;
    }
  }

  /**
   * for_each_itref: iterator by reference, functor by value. The caller's
   * iterator is left at `end`; the functor's state lives in a copy that is
   * discarded on return.
   */
  method ForEachItref<S, T>(s: seq<T>, it: Cursor, end: nat, step: (S, T) -> S, state: S)
    requires it.pos <= end <= |s|
    modifies it
    ensures it.pos == end
  {
    var copy := state;
    while it.pos != end
      invariant it.pos <= end
      decreases end - it.pos
    {
      copy := step(copy, s[it.pos]);
      it.pos := it.pos + 1;
    }
  }

  /**
   * for_each_ref_itref: iterator and functor both by reference. The caller's
   * iterator is left at `end` and the functor's final state is returned.
   */
  method ForEachRefItref<S, T>(s: seq<T>, it: Cursor, end: nat, step: (S, T) -> S, state: S) returns (final: S)
    requires it.pos <= end <= |s|
    modifies it
    ensures it.pos == end
    ensures final == Fold(step, state, s[old(it.pos)..end])
  {
    ghost var start := it.pos;
    final := state;
    while it.pos != end
      invariant start <= it.pos <= end
      invariant final == Fold(step, state, s[start..it.pos])
      decreases end - it.pos
    {
      assert s[start..it.pos + 1] == s[start..it.pos] + [s[it.pos]];
      FoldSnoc(step, state, s[start..it.pos], s[it.pos]);
      final := step(final, s[it.pos]);
      it.pos := it.pos + 1;
    }
  }

  // ---------------------------------------------------------------------------
  // Searching

  /**
   * `r` is the first position in [it, end) whose element satisfies `p`, or
   * `end` when there is none.
   */
  ghost predicate IsFirstWhere<T>(s: seq<T>, it: nat, end: nat, p: T -> bool, r: nat)
    requires end <= |s|
  {
    && it <= r <= end
    && (r < end ==> p(s[r]))
    && (forall k :: it <= k < r ==> !p(s[k]))
  }

  /** Reference definition of a linear search: the first position in [it, end) where `p` holds. */
  function FirstWhere<T>(s: seq<T>, it: nat, end: nat, p: T -> bool): (r: nat)
    requires it <= end <= |s|
    ensures IsFirstWhere(s, it, end, p, r)
    decreases end - it
  {
    if it == end then end
    else if p(s[it]) then it
    else FirstWhere(s, it + 1, end, p)
  }

  /** The characterisation singles out exactly one position, the one FirstWhere computes. */
  lemma FirstWhereUnique<T>(s: seq<T>, it: nat, end: nat, p: T -> bool, r: nat)
    requires it <= end <= |s|
    ensures IsFirstWhere(s, it, end, p, r) <==> r == FirstWhere(s, it, end, p)
  {
  }

  /** A search returns `end` exactly when no element of the range matches. */
  lemma FirstWhereEnd<T>(s: seq<T>, it: nat, end: nat, p: T -> bool)
    requires it <= end <= |s|
    ensures FirstWhere(s, it, end, p) == end <==> forall k :: it <= k < end ==> !p(s[k])
  {
  }

  /**
   * Starting the search later, but not past a match, finds the same position:
   * the elements skipped over did not match.
   */
  lemma FirstWhereSkip<T>(s: seq<T>, it: nat, mid: nat, end: nat, p: T -> bool)
    requires it <= mid <= end <= |s|
    requires forall k :: it <= k < mid ==> !p(s[k])
    ensures FirstWhere(s, it, end, p) == FirstWhere(s, mid, end, p)
  {
  }

  /**
   * An `_itref` search leaves the caller's iterator ON the match, so
   * searching again from there finds the same match; only after the caller
   * advances past it does the search move on.
   */
  lemma FindAgainStays<T>(s: seq<T>, it: nat, end: nat, p: T -> bool)
    requires it <= end <= |s|
    ensures FirstWhere(s, FirstWhere(s, it, end, p), end, p) == FirstWhere(s, it, end, p)
  {
  }

  /** find_nonconst: iterator by value; the first position in [it, end) holding `element`, or `end`. */
  method FindNonconst<T(==)>(s: seq<T>, it: nat, end: nat, element: T) returns (r: nat)
    requires it <= end <= |s|
    ensures it <= r <= end
    ensures r < end ==> s[r] == element
    ensures forall k :: it <= k < r ==> s[k] != element
  {
    var i := it;
    while i != end
      invariant it <= i <= end
      invariant forall k :: it <= k < i ==> s[k] != element
      decreases end - i
    {
      if s[i] == element {
        return i;
      }
      i := i + 1;
    }
    return end;
  }

  /**
   * find_itref_nonconst: as find_nonconst, but the caller's iterator is
   * advanced in place and ends equal to the result.
   */
  method FindItrefNonconst<T(==)>(s: seq<T>, it: Cursor, end: nat, element: T) returns (r: nat)
    requires it.pos <= end <= |s|
    modifies it
    ensures it.pos == r
    ensures old(it.pos) <= r <= end
    ensures r < end ==> s[r] == element
    ensures forall k :: old(it.pos) <= k < r ==> s[k] != element
  {
    while it.pos != end
      invariant old(it.pos) <= it.pos <= end
      invariant forall k :: old(it.pos) <= k < it.pos ==> s[k] != element
      decreases end - it.pos
    {
      if s[it.pos] == element {
        return it.pos;
      }
      it.pos := it.pos + 1;
    }
    return end;
  }

  /**
   * find_if_itref_nonconst: the first position in [it, end) where `pred`
   * holds, or `end`; the caller's iterator ends equal to the result.
   */
  method FindIfItrefNonconst<T>(s: seq<T>, it: Cursor, end: nat, pred: T -> bool) returns (r: nat)
    requires it.pos <= end <= |s|
    modifies it
    ensures it.pos == r
    ensures IsFirstWhere(s, old(it.pos), end, pred, r)
  {
    while it.pos != end
      invariant old(it.pos) <= it.pos <= end
      invariant forall k :: old(it.pos) <= k < it.pos ==> !pred(s[k])
      decreases end - it.pos
    {
      if pred(s[it.pos]) {
        return it.pos;
      }
      it.pos := it.pos + 1;
    }
    return end;
  }

  // ---------------------------------------------------------------------------
  // Sign functions

  /** C++'s conversion of a comparison result to int. */
  function BoolToInt(b: bool): int {
    if b then 1 else 0
  }

  /** sgn: (0 < val) - (val < 0). */
  function Sgn(val: int): (r: int)
    ensures -1 <= r <= 1
    ensures r == 0 <==> val == 0
    ensures r == -1 <==> val < 0
    ensures r == 1 <==> val > 0
  {
    BoolToInt(0 < val) - BoolToInt(val < 0)
  }

  /** sgn_nozero: (0 <= val) - (val < 0); zero counts as positive. */
  function SgnNoZero(val: int): (r: int)
    ensures r != 0
    ensures r == 1 <==> val >= 0
    ensures r == -1 <==> val < 0
  {
    BoolToInt(0 <= val) - BoolToInt(val < 0)
  }

  /** The sign times the magnitude gives the value back. */
  lemma SgnTimesMagnitude(val: int)
    ensures Sgn(val) * (if val < 0 then -val else val) == val
  {
  }

  /** The two sign functions differ only at zero, where sgn_nozero gives 1. */
  lemma SgnNoZeroAgrees(val: int)
    ensures val != 0 ==> SgnNoZero(val) == Sgn(val)
    ensures SgnNoZero(0) == 1 && Sgn(0) == 0
  {
  }
}
