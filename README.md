# stringset in Dafny

A model of `struct stringset` from donmccaughey/stringset: a C string set
kept as a heap buffer `members` of owned string copies together with the
number `count` of live entries. The model has these parts:

- **Members** (`members.dfy`) describes the live prefix
  `members[0..count)` as a `seq<string>`. It defines what each operation
  leaves there (`Added`, `AddAll`, `Removed`, `RemoveAll`) and proves what
  these functions mean as sets: union, difference, membership and
  cardinality.
- **StringSets** (`string_set.dfy`) is the library itself:
  - A class `StringSet` with the fields `members: array<string>` and
    `count: int`. Its invariant is that the live prefix fits the buffer
    and holds no string twice.
  - Methods for the functions that src/stringset.c implements (alloc, free,
    add, contains) and for those that src/stringset.h only declares (add_array,
    clear, compact, remove, remove_array, alloc_union, add_stringset,
    remove_stringset).
  - Each method is proved against the Members functions. Add keeps the C
    code's structure: membership test, `realloc` to `count + 1` entries,
    `strdup` into index `count`, then raising `count`. Contains is the
    linear scan of src/stringset.c.
- **SetAlgebra** (`set_algebra.dfy`) covers the superset, disjointness,
  intersection, symmetric difference and retain operations. They appear
  only in the test programs of a later interface. They are functions on
  member sequences, each proved equal to the set operation it names.
- **CanonicalOrder** (`canonical_order.dfy`) is a separate refinement. The
  tests of the later interface read `members[i]` and expect ascending
  `strcmp` order (tests/test_add_array.c:23-27,
  tests/test_alloc_union.c:29-36). src/stringset.c appends in insertion
  order instead, so sortedness is never claimed of the model. This module
  proves the following:
  - a sorted, duplicate-free member array is determined by its member set;
  - it therefore equals `Sort` of the insertion-ordered members;
  - sorted add and remove agree with `Added` and `Removed`.
- **TestScenarios** (`test_scenarios.dfy`) and **MainPrograms**
  (`main_programs.dfy`) restate what the test programs assert. They are
  lemmas on concrete sets, plus imperative drivers for the tests in
  tests/main.c, which use the interface of src/stringset.c.

The C conventions are carried over as follows:

| C | Model |
|---|---|
| NULL set | `null` |
| NULL string | `None` |
| `int` result with `errno` | `Status` (`Ok` or `Fail(EINVAL)` / `Fail(ENOMEM)`) |
| `struct stringset **` out-parameter | `Handle` object |

`calloc`, `realloc` and `strdup` may fail at any call. The model chooses
their success arbitrarily, so every contract covers the failure paths.

The bulk operations are declared in src/stringset.h without a body. Their
header comments say what they compute, not what happens when an element
fails. The model therefore chooses a behaviour: each is a loop of the
single operation. It stops at the first failing call, keeps what was done
before it and, like `stringset_add`, keeps insertion order.

Two points of order and buffer size:
- src/stringset.c:50-57 appends a new member at index `count`, and
  src/stringset.c:73-75 searches linearly. The model keeps that insertion
  order. The tests of the later interface read ascending order
  (tests/test_add_array.c:23-27); CanonicalOrder relates the two.
- `stringset_remove` and `stringset_remove_array` leave the buffer at its
  size. src/stringset.h:66-68 tells callers to call `stringset_compact`
  after removing.

## Model

| member | source | states |
|---|---|---|
| Members.Added | src/stringset.c:48-61 | the members after an add are the old members plus the string; duplicate-freedom is kept; the sequence is unchanged exactly when the string was already a member |
| Members.AddedCount | src/stringset.c:48-60 | count after an add is the size of old ∪ {x}: up by exactly one iff the string was not a member |
| Members.AddedIdempotent | tests/main.c:45-58 | adding the same string a second time changes nothing |
| Members.AddAll | src/stringset.h:45-50 | the members after a bulk add are the union of the old members and the added strings, with no duplicate |
| Members.AddAllCount | src/stringset.h:45-50 | count after a bulk add is the size of old ∪ array |
| Members.AddAllKeepsPrefix | src/stringset.c:50-57 | a bulk add only appends: earlier members keep their indices and values |
| Members.AddAllAbsorbed | src/stringset.h:40-43 | adding strings that are all members already leaves the set unchanged |
| Members.AddAllFresh | src/stringset.c:50-60 | adding distinct non-members appends them in order |
| Members.AddAllToEmpty | src/stringset.h:79-83 | copying a duplicate-free set into an empty one reproduces it exactly |
| Members.AddAllOrderIrrelevant | src/stringset.h:45-50 | the member set after a bulk add does not depend on the order or repetition of the added strings |
| Members.Removed | src/stringset.h:60-64 | after a remove the string is not a member and every other member remains; nothing is added; a non-member leaves the sequence unchanged |
| Members.RemovedCount | src/stringset.h:60-64 | count drops by one iff the string was a member |
| Members.RemovedAt | src/stringset.h:60-64 | removing the member at index i closes the gap: later entries move down by one |
| Members.RemoveAll | src/stringset.h:66-72 | the members after a bulk remove are the old members minus the removed strings; absent strings are ignored |
| Members.RemoveAllCount | src/stringset.h:66-72 | count after a bulk remove is the size of old \ array |
| Members.RemoveUndoesAdd | src/stringset.h:40-43 | adding a non-member and removing it again restores the exact member sequence |
| Members.CardElems | src/stringset.h:8-11 | for a duplicate-free member array, `count` is the cardinality of the member set |
| StringSets.StringSet.constructor | src/stringset.c:16 | a zero-filled struct is a valid empty set |
| StringSets.Calloc | src/stringset.c:16 | allocation yields a fresh valid empty set or NULL |
| StringSets.Realloc | src/stringset.c:53-54 | a resize yields NULL, leaving the old buffer in place, or a fresh buffer of the requested size holding the common prefix |
| StringSets.Strdup | src/stringset.c:57-58 | a copy equals its original, or is NULL |
| StringSets.Alloc | src/stringset.c:8-18 | a NULL out-parameter gives EINVAL and nothing is allocated; otherwise the result is 0 iff the caller's pointer is a fresh, valid set with count 0, and else ENOMEM with the pointer NULL |
| StringSets.Free | src/stringset.c:21-37 | a NULL handle is ignored; otherwise the caller's pointer is NULL afterwards |
| StringSets.Contains | src/stringset.c:65-78 | a NULL set or string gives false with EINVAL; otherwise the result is true iff some index below `count` holds an equal string |
| StringSets.Add | src/stringset.c:40-62 | a NULL argument gives EINVAL and leaves the set unchanged; adding a member returns 0 and changes nothing; otherwise the result is 0, with members = `Added(old, x)`, or ENOMEM with members unchanged; the invariant is kept on every path |
| StringSets.Compact | src/stringset.h:56-58 | membership and count never change; an empty set always succeeds; on success the buffer holds exactly `count` entries |
| StringSets.Clear | src/stringset.h:52-54 | afterwards count is 0, nothing is a member and the buffer is released |
| StringSets.Remove | src/stringset.h:60-64 | a NULL argument gives EINVAL; otherwise the result is 0, the members are `Removed(old, x)` and the buffer is the same one, not compacted |
| StringSets.AddArray | src/stringset.h:45-50 | a NULL set, a NULL array with count > 0, or a negative count gives EINVAL with nothing changed; on 0 every entry was non-NULL and the members are `AddAll(old, array)`; on failure there is a first failing index k, the members are `AddAll(old, array[..k])`, and the error is EINVAL iff entry k is NULL |
| StringSets.RemoveArray | src/stringset.h:66-72 | the same argument checks; the result is 0 iff no entry is NULL; on 0 the members are `RemoveAll(old, array)`; at a NULL entry k the members are `RemoveAll(old, array[..k])`; the buffer is not compacted |
| StringSets.AddStringset | src/stringset.h:85-89 | a NULL argument gives EINVAL; on 0 the members are old ∪ other via `AddAll`; on ENOMEM a prefix of `other` has been added; `other` is not modified |
| StringSets.AllocUnion | src/stringset.h:79-83 | a NULL argument gives EINVAL with the handle untouched; on 0 the caller's pointer is a fresh valid set holding `AddAll(first, second)`; on ENOMEM the pointer is NULL |
| StringSets.RemoveStringset | src/stringset.h:96-100 | a NULL argument gives EINVAL; otherwise the result is 0, the members are `RemoveAll(old, other)` and `other` is not modified |
| SetAlgebra.IsSupersetOf | tests/test_is_superset_of.c:33-56 | true iff every member of `other` is a member of `set` |
| SetAlgebra.IsDisjointFrom | tests/test_is_disjoint_from.c:40-68 | true iff the two member sets do not intersect |
| SetAlgebra.Retained | tests/test_retain_stringset.c:26-34 | the members kept by retain and allocated by intersection are exactly those in both sets, with no duplicate |
| SetAlgebra.SymmetricDifference | tests/test_alloc_symmetric_difference.c:24-32 | the members are those in exactly one of the two sets, with no duplicate |
| SetAlgebra.SupersetAntisymmetric | tests/test_is_superset_of.c:42-44 | two sets that contain each other have the same members and the same count |
| SetAlgebra.SupersetBoundaries | tests/test_is_superset_of.c:49-56 | every set contains the empty set and itself; the empty set contains only the empty set |
| SetAlgebra.DisjointIffNoIntersection | tests/test_is_disjoint_from.c:40-68 | two sets are disjoint iff their intersection is empty |
| SetAlgebra.DisjointSymmetric | tests/test_is_disjoint_from.c:40-68 | disjointness is symmetric; every set is disjoint from the empty set; a set is disjoint from itself iff it is empty |
| SetAlgebra.IntersectionProperties | tests/test_alloc_intersection.c:40-58 | the intersection is contained in both sets, has the same members in either argument order, and its count is the size of the set intersection |
| SetAlgebra.RetainBoundaries | tests/test_retain_array.c:27-31 | retaining a set's own members changes nothing; retaining nothing empties the set |
| SetAlgebra.RetainSuperset | tests/test_retain_stringset.c:26-30 | retaining a superset of the members changes nothing |
| SetAlgebra.SymmetricDifferenceIsUnionMinusIntersection | tests/test_alloc_symmetric_difference.c:24-27 | the symmetric difference is the union minus the intersection, in members and in count |
| SetAlgebra.SymmetricDifferenceBoundaries | tests/test_alloc_symmetric_difference.c:24-27 | a set's symmetric difference with itself is empty; with the empty set it is the set itself |
| CanonicalOrder.BelowIrreflexive | tests/test_add_array.c:23-27 | no string is `strcmp`-below itself |
| CanonicalOrder.BelowAsymmetric | tests/test_add_array.c:23-27 | `strcmp` order is asymmetric |
| CanonicalOrder.BelowTransitive | tests/test_add_array.c:23-27 | `strcmp` order is transitive |
| CanonicalOrder.BelowTotal | tests/test_add_array.c:23-27 | any two different strings are ordered one way or the other |
| CanonicalOrder.SortedByNeighbours | tests/test_alloc_union.c:29-36 | each entry below the next means the whole array is strictly sorted |
| CanonicalOrder.SortedNoDuplicates | tests/test_alloc_union.c:29-36 | a strictly sorted array holds no duplicate |
| CanonicalOrder.SortedUnique | tests/test_alloc_union.c:29-36 | two strictly sorted arrays with the same members are equal |
| CanonicalOrder.Insert | tests/test_add_array.c:18-27 | sorted insertion keeps the array strictly sorted and adds exactly the string |
| CanonicalOrder.Sort | tests/test_add_array.c:23-27 | the sorted listing is strictly sorted with the same members |
| CanonicalOrder.SortIsCanonical | tests/test_alloc_union.c:29-36 | any strictly sorted array with the same members as `c` is `Sort(c)` |
| CanonicalOrder.SortCount | tests/test_add_array.c:21 | the sorted listing of a duplicate-free array has the same count |
| CanonicalOrder.InsertAgreesWithAdded | tests/test_add_array.c:18-27 | sorted insertion into the sorted listing gives the sorted listing of `Added` |
| CanonicalOrder.RemovedKeepsSorted | tests/test_remove_array.c:27-29 | removing from a sorted array keeps it sorted |
| CanonicalOrder.RemovedAgreesWithSort | tests/test_remove_array.c:22-29 | removing from the sorted listing gives the sorted listing of `Removed` |
| TestScenarios.AddArrayScenario | tests/test_add_array.c:18-27 | five distinct strings give count 5; the model keeps array order; sorted, they read apple, banana, mango, strawberry, watermelon |
| TestScenarios.UnionScenario | tests/test_alloc_union.c:24-36 | the union of the fruits and the colours has count 8 and the eight strings in the asserted sorted order |
| TestScenarios.DifferenceScenario | tests/test_remove_array.c:22-29 | removing mango, green and banana leaves count 3: apple, strawberry, watermelon |
| TestScenarios.RemoveScenario | tests/test_remove.c:16-39 | removing banana, watermelon, apple, mango and strawberry in turn leaves counts 4, 3, 2 and 1, then the empty set |
| TestScenarios.SymmetricDifferenceScenario | tests/test_alloc_symmetric_difference.c:24-32 | the symmetric difference has count 4: apple, green, strawberry, watermelon |
| TestScenarios.IntersectionScenario | tests/test_alloc_intersection.c:40-45 | the intersection has count 2, holding banana and mango |
| TestScenarios.IntersectionBoundaryScenario | tests/test_alloc_intersection.c:47-67 | disjoint sets and the empty set give count 0; a set with itself gives the set |
| TestScenarios.RetainScenario | tests/test_retain_array.c:21-31 | retaining leaves banana and mango with count 2; retaining nothing then leaves count 0 |
| TestScenarios.OverlapScenario | tests/test_is_disjoint_from.c:40-61 | each of the twelve pairs the test asserts not disjoint is not disjoint: the three sets holding mango, in every order and with themselves; the second set and the colours, both ways; the colours with themselves |
| TestScenarios.DisjointScenario | tests/test_is_disjoint_from.c:43-60 | the fruits and the colours are disjoint, in both orders |
| TestScenarios.SupersetScenario | tests/test_is_superset_of.c:33-42 | the superset answers for the three non-empty sets |
| TestScenarios.AddSameMemberScenario | tests/main.c:45-58 | adding "foo" three times leaves the single member "foo" |
| MainPrograms.AllocAndFree | tests/main.c:8-19 | when allocation succeeds, count is 0 and free clears the pointer; the only failure is ENOMEM |
| MainPrograms.AddOneMember | tests/main.c:22-35 | when nothing fails, count is 1 and "foo" is found |
| MainPrograms.AddSameMemberMultipleTimes | tests/main.c:38-61 | when nothing fails, all three adds return 0, count is 1 after each and "foo" is found; a failure can only come from the allocation or the first add, so no add has returned 0 when it occurs |
| MainPrograms.AddOneHundredMembers | tests/main.c:64-88 | after 100 distinct adds the count is 100, and a probe is found iff it was added |

## Left out

- Free: the `free` calls of src/stringset.c:27-33 are not modelled. The model has garbage collection, so Free only clears the caller's pointer.
- Add: does not model overflow of `count + 1` past `INT_MAX`, nor of the `size_t` byte count passed to `realloc` (src/stringset.c:51-52). `count` is an unbounded integer.
- Alloc: on a `calloc` failure the result is `Fail(ENOMEM)`. The C code returns -1 and relies on `calloc` to set `errno`.
- `errno` is not a global. It is the `Fail` case of the returned `Status`, and a successful call does not touch it.
- The zero-filled struct that `calloc` returns has a NULL `members` pointer. The model uses an empty array instead, because `realloc(NULL, n)` acts as an allocation.
- Contains, Add and the other methods require that a non-NULL set satisfy `Valid()`. This means `count` lies within the buffer, which is C's memory-safety condition. It also means no member occurs twice, which every operation preserves. A NULL set is accepted and gives EINVAL. Array arguments must hold `count` entries.
- Two distinct sets must not share a `members` buffer, which is what ownership guarantees in C. It is stated as a precondition of RemoveStringset.
- String comparison (`Below`) compares Dafny characters. `strcmp` compares unsigned bytes; the two agree for the ASCII strings the tests use. A Dafny string may contain the character `'\0'`, but no C string can, since `strcmp` and `strdup` stop at the first NUL. Such strings lie outside what a C caller can pass in.
- The later interface that most test programs call is not modelled as methods. This covers pointer-returning `stringset_alloc()`, `stringset_alloc_from_array`, `stringset_alloc_from_stringset`, `stringset_alloc_intersection`, `stringset_alloc_symmetric_difference`, `stringset_is_superset_of`, `stringset_is_disjoint_from` and `stringset_retain_*`. Its set operations are the pure functions of SetAlgebra. A set built from an array is `AddAll([], array)`.
- The in-place retain of that later interface is modelled only as the value `Retained`, not as a method that updates a set.
- The strings "1" to "100" that tests/main.c:71-78 and tests/test_clear.c:14-21 format with `asprintf` are not modelled. AddOneHundredMembers takes one hundred distinct strings and the probe strings as parameters.
- The test driver `main` in tests/main.c:91-99 is not modelled; it only runs the tests.
