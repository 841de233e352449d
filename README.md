# vHelix utility helpers in Dafny

vHelix is a plugin for Autodesk Maya for designing DNA nanostructures out of helix and base nodes. Almost all of it talks to the host's scene graph, attribute system and OpenGL viewport. This project models the part that does not: the generic helpers in `include/Utility.h` and the `MIN`/`MAX` macros in `include/Definition.h`.

- `definition.dfy`, module `Definition`: `MIN(a, b)` and `MAX(a, b)` as functions over any type. The type's `operator<` is a relation `less`, and `a > b` is read as `less(b, a)`. Because `less` need not be total, the model can state the macros' tie rule: when neither argument is strictly below the other, both macros return the second argument. This also covers values that do not compare at all. Integer corollaries are proved for `int` with its built-in `<`.
- `utility.dfy`, module `Utility`:
  - the strand end-type enumeration (`Neither = 0`, `FivePrime = 1`, `ThreePrime = 2`);
  - the `for_each_*` and `find_*` templates;
  - `sgn` and `sgn_nozero` over `int`.

  An iterator is a position in a sequence, and `end` is the past-the-end position. A by-value iterator is a `nat` parameter. A by-reference iterator (the `_itref` templates) is a `Cursor` object that the method advances in place, so the caller sees its final position. A functor is a state-transition function `step: (S, T) -> S`. A functor taken by reference hands its final state back to the caller: the left fold `Fold` over the traversed range. A functor taken by value (`for_each_itref`) works on a copy that is thrown away.

## Model

| member | source | states |
|---|---|---|
| `Definition.Min` | include/Definition.h:33-35 | MIN evaluates to one of its two arguments |
| `Definition.Max` | include/Definition.h:37-39 | MAX evaluates to one of its two arguments |
| `Definition.MinIsLowerBound` | include/Definition.h:33-35 | for an asymmetric `<`, neither argument is strictly below MIN(a, b) |
| `Definition.MaxIsUpperBound` | include/Definition.h:37-39 | for an asymmetric `<`, neither argument is strictly above MAX(a, b) |
| `Definition.TieYieldsSecond` | include/Definition.h:33-39 | when neither `a < b` nor `b < a`, both MIN(a, b) and MAX(a, b) are `b` |
| `Definition.StrictOrderPicks` | include/Definition.h:33-39 | when `a < b`, MIN gives `a` and MAX gives `b`, whatever the argument order |
| `Definition.MinNotAboveMax` | include/Definition.h:33-39 | for an asymmetric `<`, MIN(a, b) is never strictly above MAX(a, b) |
| `Definition.MinMaxSelf` | include/Definition.h:33-39 | MIN(a, a) = MAX(a, a) = a |
| `Definition.IntMinMax` | include/Definition.h:33-39 | on integers: MIN is at most both arguments, MAX at least both, MIN <= MAX, and MIN + MAX = a + b (together they return both arguments) |
| `Utility.Code` | include/Utility.h:62-66 | each end type's value is 0, 1 or 2, and it is 0 exactly for Neither |
| `Utility.CodeInjective` | include/Utility.h:62-66 | two end types have the same value exactly when they are the same enumerator |
| `Utility.ForEachRef` | include/Utility.h:104-108 | the functor held by reference ends in the state reached by applying it to each element of [it, end) once, in order |
| `Utility.ForEachItref` | include/Utility.h:114-118 | the caller's iterator is left equal to `end` |
| `Utility.ForEachRefItref` | include/Utility.h:120-124 | the caller's iterator is left equal to `end`, and the functor's state is the result of applying it to each element of the original range once, in order |
| `Utility.FoldSnoc` | include/Utility.h:106-107 | one more loop iteration applies the functor once more, to the next element |
| `Utility.FoldAppend` | include/Utility.h:104-108 | traversing [it, mid) and then [mid, end) leaves the functor in the same state as traversing [it, end) |
| `Utility.CountingFunctor` | include/Utility.h:100-108 | a counting functor held by reference ends with its count raised by the length of the range |
| `Utility.RecordingFunctor` | include/Utility.h:100-108 | a functor that records what it is applied to sees exactly the range's elements, each once, in order |
| `Utility.FirstWhere` | include/Utility.h:150-158 | the reference linear search returns a position in [it, end) where the predicate holds, with no earlier match, or `end` |
| `Utility.FirstWhereUnique` | include/Utility.h:130-158 | a position is "first match, or end if none" exactly when it is the reference search's result |
| `Utility.FirstWhereEnd` | include/Utility.h:130-158 | a search returns `end` exactly when no element of [it, end) matches |
| `Utility.FirstWhereSkip` | include/Utility.h:140-158 | resuming from any position not past the first match finds the same match |
| `Utility.FindAgainStays` | include/Utility.h:140-158 | searching again from the iterator an `_itref` search left behind returns the same position |
| `Utility.FindNonconst` | include/Utility.h:130-138 | returns a position in [it, end); if it is before `end` it holds `element`; every earlier element differs from `element` |
| `Utility.FindItrefNonconst` | include/Utility.h:140-148 | same result as find_nonconst, and the caller's iterator ends equal to the returned position |
| `Utility.FindIfItrefNonconst` | include/Utility.h:150-158 | returns the first position where the predicate holds, or `end`, and the caller's iterator ends equal to it |
| `Utility.Sgn` | include/Utility.h:170-173 | the result is -1, 0 or 1: 0 exactly for 0, -1 exactly for negatives, 1 exactly for positives |
| `Utility.SgnNoZero` | include/Utility.h:175-178 | the result is never 0: 1 exactly for values >= 0, -1 exactly for negatives |
| `Utility.SgnTimesMagnitude` | include/Utility.h:170-173 | sgn(v) times the magnitude of v is v |
| `Utility.SgnNoZeroAgrees` | include/Utility.h:170-178 | sgn_nozero equals sgn except at 0, where it gives 1 instead of 0 |

## Left out

- Definition.Min: the macros expand their arguments textually and evaluate the chosen one twice. Side effects in the arguments are not modelled: the arguments are values.
- Definition.Max: `a > b` is modelled as `b < a`. A type whose `operator>` is not the converse of its `operator<` is not covered.
- Utility.Sgn: modelled over `int` only. For a floating-point NaN the source gives 0, because both comparisons are false.
- Utility.SgnNoZero: modelled over `int` only. For a floating-point NaN the source gives 0, so "never 0" holds only for ordered values.
- Utility.ForEachRef: a functor is modelled as a pure state transition on its own state. Side effects through pointers it holds, and changes it makes to the elements through `*it`, are not modelled.
- Utility.ForEachItref: the functor is taken by value, so its state is discarded; the model captures only the iterator's final position.
- Utility.FindNonconst: element comparison is Dafny's `==`. A user-defined `operator==`, and the caching that the non-const element allows it to do, are not modelled.
- Utility.FindIfItrefNonconst: the predicate is a pure function; a stateful predicate functor is not modelled.
- Iterators are positions in one sequence. The requirement that `end` be reachable from `it` is a precondition (`it <= end`); the source's behaviour otherwise is undefined.
- `toRadians`, `toDegrees` and `signedAngle`: floating-point arithmetic with `M_PI` and the host's `MVector`.
- `SETUPOPENGLSHADERS` and `SetupOpenGLShaders`: OpenGL shader compile and link calls.
- `ArgList_ArgumentNodes`, `ArgList_GetObjects`, `ArgList_GetDagPaths`, `ArgList_GetModelObjectsT` and `ArgList_GetModelObjects`: they wrap the host's argument database and selection list.
- `SelectedBases`, `HelixBase_NextBase`, `GetSelectedObjectsOfType`, `GetObjectOrParentsOfType`, `HelixBases_sort`, `HelixBase_RemoveAllAimConstraints`, `CVCurveFromObject` and `MSceneMessage_AfterImportOpen_CallbackFunc`: only declared in the header, and they act on host scene objects and callbacks.
- `Date`, `Debug::printf`, `Debug::evaluate`, `HPRINT` and the `HMEVALUATE*` macros: they depend on the clock and on console output.
- The selection colour constants and `VHELIXAPI` in `include/Definition.h`: plain constants and build plumbing with no behaviour.
- include/model/Helix.h and include/model/Base.h: their methods are only declared, and every one reads or writes host dependency-graph nodes.
