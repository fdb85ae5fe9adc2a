/** The expectations of the repository's test programs, restated on the
    model. The sets the tests build are written out as member sequences;
    `AddAll([], xs)` is a set allocated from the array `xs`. Where a test
    reads `members[i]`, it reads a sorted `stringset`, so those indices are
    checked against `Sort` of the insertion-ordered members. */
module TestScenarios {
  import opened Members
  import opened SetAlgebra
  import opened CanonicalOrder

  const Fruits: seq<string> := ["watermelon", "mango", "apple", "banana", "strawberry"]
  const MangoGreenBanana: seq<string> := ["mango", "green", "banana"]
  const MangoWatermelonBanana: seq<string> := ["mango", "watermelon", "banana"]
  const Colors: seq<string> := ["red", "green", "blue"]

  const SortedFruits: seq<string> := ["apple", "banana", "mango", "strawberry", "watermelon"]
  const SortedUnion: seq<string> :=
    ["apple", "banana", "blue", "green", "mango", "red", "strawberry", "watermelon"]
  const SortedDifference: seq<string> := ["apple", "strawberry", "watermelon"]
  const SortedSymmetricDifference: seq<string> := ["apple", "green", "strawberry", "watermelon"]

  lemma Distinct()
    ensures NoDuplicates(Fruits) && NoDuplicates(Colors)
    ensures NoDuplicates(MangoGreenBanana) && NoDuplicates(MangoWatermelonBanana)
  {
  }

  lemma MemberSets()
    ensures Elems(Fruits) == {"watermelon", "mango", "apple", "banana", "strawberry"}
    ensures Elems(MangoGreenBanana) == {"mango", "green", "banana"}
    ensures Elems(MangoWatermelonBanana) == {"mango", "watermelon", "banana"}
    ensures Elems(Colors) == {"red", "green", "blue"}
  {
  }

  lemma SortedSets()
    ensures Elems(SortedDifference) == {"apple", "strawberry", "watermelon"}
    ensures Elems(SortedSymmetricDifference) == {"apple", "green", "strawberry", "watermelon"}
  {
  }

  lemma SetArithmetic()
    ensures {"watermelon", "mango", "apple", "banana", "strawberry"} - {"mango", "green", "banana"}
      == {"apple", "strawberry", "watermelon"}
    ensures {"mango", "green", "banana"} - {"watermelon", "mango", "apple", "banana", "strawberry"}
      == {"green"}
    ensures {"watermelon", "mango", "apple", "banana", "strawberry"} * {"mango", "green", "banana"}
      == {"banana", "mango"}
    ensures {"mango", "watermelon", "banana"} * {"red", "green", "blue"} == {}
  {
  }

  lemma FruitsAndColors()
    ensures Elems(Fruits) !! Elems(Colors)
  {
  }

  lemma SortedListings()
    ensures StrictlySorted(SortedFruits) && StrictlySorted(SortedDifference)
    ensures StrictlySorted(SortedSymmetricDifference)
  {
    SortedByNeighbours(SortedFruits);
    SortedByNeighbours(SortedDifference);
    SortedByNeighbours(SortedSymmetricDifference);
  }

  lemma SortedUnionListing()
    ensures StrictlySorted(SortedUnion)
  {
    assert Below("apple", "banana") && Below("banana", "blue") && Below("blue", "green");
    assert Below("green", "mango") && Below("mango", "red") && Below("red", "strawberry");
    assert Below("strawberry", "watermelon");
    SortedByNeighbours(SortedUnion);
  }

  /** tests/test_add_array.c:18-27: five distinct strings give count 5; the
      model keeps them in array order, a sorted set reads them back in
      ascending order. */
  lemma AddArrayScenario()
    ensures AddAll([], Fruits) == Fruits && |AddAll([], Fruits)| == 5
    ensures Sort(AddAll([], Fruits)) == SortedFruits
  {
    Distinct();
    AddAllToEmpty(Fruits);
    SortedListings();
    assert Elems(Fruits) == Elems(SortedFruits);
    SortIsCanonical(Fruits, SortedFruits);
  }

  /** tests/test_alloc_union.c:24-36 and tests/test_add_stringset.c:24-36:
      the union of five fruits and three colours has count 8; the model
      appends the colours after the fruits. */
  lemma UnionScenario()
    ensures AddAll(Fruits, Colors) == Fruits + Colors && |AddAll(Fruits, Colors)| == 8
    ensures Sort(AddAll(Fruits, Colors)) == SortedUnion
  {
    Distinct();
    FruitsAndColors();
    AddAllFresh(Fruits, Colors);
    SortedUnionListing();
    assert Elems(Fruits + Colors) == Elems(SortedUnion);
    SortIsCanonical(Fruits + Colors, SortedUnion);
  }

  /** tests/test_remove_array.c:22-29 and tests/test_remove_stringset.c:24-31:
      removing mango, green and banana leaves three fruits. */
  lemma DifferenceScenario()
    ensures |RemoveAll(Fruits, MangoGreenBanana)| == 3
    ensures Sort(RemoveAll(Fruits, MangoGreenBanana)) == SortedDifference
  {
    MemberSets();
    Distinct();
    RemoveAllCount(Fruits, MangoGreenBanana);
    var d := RemoveAll(Fruits, MangoGreenBanana);
    SetArithmetic();
    SortedSets();
    assert Elems(d) == Elems(SortedDifference);
    SortedListings();
    SortIsCanonical(d, SortedDifference);
    SortedNoDuplicates(SortedDifference);
    CardElems(SortedDifference);
  }

  /** tests/test_remove.c:16-39: removing the five members one by one
      drops the count by one each time: 4, 3, 2, 1, then the empty set. */
  lemma RemoveScenario()
    ensures |Removed(Fruits, "banana")| == 4
    ensures |Removed(Removed(Fruits, "banana"), "watermelon")| == 3
    ensures |Removed(Removed(Removed(Fruits, "banana"), "watermelon"), "apple")| == 2
    ensures |Removed(Removed(Removed(Removed(Fruits, "banana"), "watermelon"), "apple"), "mango")| == 1
    ensures RemoveAll(Fruits, ["banana", "watermelon", "apple", "mango", "strawberry"]) == []
  {
    Distinct();
    var c1 := Removed(Fruits, "banana");
    var c2 := Removed(c1, "watermelon");
    var c3 := Removed(c2, "apple");
    RemovedCount(Fruits, "banana");
    RemovedCount(c1, "watermelon");
    RemovedCount(c2, "apple");
    RemovedCount(c3, "mango");
    EmptyElems(RemoveAll(Fruits, ["banana", "watermelon", "apple", "mango", "strawberry"]));
  }

  /** tests/test_alloc_symmetric_difference.c:24-32: four strings are in
      exactly one of the two sets. */
  lemma SymmetricDifferenceScenario()
    ensures |SymmetricDifference(Fruits, MangoGreenBanana)| == 4
    ensures Sort(SymmetricDifference(Fruits, MangoGreenBanana)) == SortedSymmetricDifference
  {
    Distinct();
    var d := SymmetricDifference(Fruits, MangoGreenBanana);
    MemberSets();
    SetArithmetic();
    SortedSets();
    assert Elems(d) == Elems(SortedSymmetricDifference);
    SortedListings();
    SortIsCanonical(d, SortedSymmetricDifference);
    SortCount(d);
    SortedNoDuplicates(SortedSymmetricDifference);
    CardElems(SortedSymmetricDifference);
  }

  /** tests/test_alloc_intersection.c:40-45: the fruits and the first
      three-member set share banana and mango. */
  lemma IntersectionScenario()
    ensures |Retained(Fruits, MangoGreenBanana)| == 2
    ensures Elems(Retained(Fruits, MangoGreenBanana)) == {"banana", "mango"}
  {
    MemberSets();
    Distinct();
    SetArithmetic();
    IntersectionProperties(Fruits, MangoGreenBanana);
  }

  /** tests/test_alloc_intersection.c:47-67: sets with nothing in common,
      a set with itself, and the empty set. */
  lemma IntersectionBoundaryScenario()
    ensures Retained(MangoWatermelonBanana, Colors) == []
    ensures Retained(Colors, Colors) == Colors && |Colors| == 3
    ensures Retained(Colors, []) == [] && Retained([], []) == []
  {
    MemberSets();
    SetArithmetic();
    EmptyElems(Retained(MangoWatermelonBanana, Colors));
    RetainBoundaries(Colors);
  }

  /** tests/test_retain_array.c:21-31 and tests/test_retain_stringset.c:26-34:
      retaining mango, green and banana leaves banana and mango; retaining
      nothing then leaves count 0. */
  lemma RetainScenario()
    ensures |Retained(Fruits, MangoGreenBanana)| == 2
    ensures "banana" in Retained(Fruits, MangoGreenBanana)
    ensures "mango" in Retained(Fruits, MangoGreenBanana)
    ensures Retained(Retained(Fruits, MangoGreenBanana), []) == []
  {
    IntersectionScenario();
    assert "banana" in Elems(Retained(Fruits, MangoGreenBanana));
    assert "mango" in Elems(Retained(Fruits, MangoGreenBanana));
    RetainBoundaries(Retained(Fruits, MangoGreenBanana));
  }

  /** tests/test_is_disjoint_from.c:40-61: every pair of sets sharing a
      member (mango, green, or any set with itself) is not disjoint. */
  lemma OverlapScenario()
    ensures !IsDisjointFrom(Fruits, Fruits) && !IsDisjointFrom(Fruits, MangoGreenBanana)
    ensures !IsDisjointFrom(Fruits, MangoWatermelonBanana)
    ensures !IsDisjointFrom(MangoGreenBanana, Fruits) && !IsDisjointFrom(MangoGreenBanana, MangoGreenBanana)
    ensures !IsDisjointFrom(MangoGreenBanana, MangoWatermelonBanana)
    ensures !IsDisjointFrom(MangoGreenBanana, Colors)
    ensures !IsDisjointFrom(MangoWatermelonBanana, Fruits)
    ensures !IsDisjointFrom(MangoWatermelonBanana, MangoGreenBanana)
    ensures !IsDisjointFrom(MangoWatermelonBanana, MangoWatermelonBanana)
    ensures !IsDisjointFrom(Colors, MangoGreenBanana) && !IsDisjointFrom(Colors, Colors)
  {
    MemberSets();
    assert "mango" in Elems(Fruits) * Elems(MangoGreenBanana);
    assert "mango" in Elems(Fruits) * Elems(MangoWatermelonBanana);
    assert "mango" in Elems(MangoGreenBanana) * Elems(Fruits);
    assert "mango" in Elems(MangoGreenBanana) * Elems(MangoGreenBanana);
    assert "mango" in Elems(MangoGreenBanana) * Elems(MangoWatermelonBanana);
    assert "mango" in Elems(MangoWatermelonBanana) * Elems(Fruits);
    assert "mango" in Elems(MangoWatermelonBanana) * Elems(MangoGreenBanana);
    assert "mango" in Elems(MangoWatermelonBanana) * Elems(MangoWatermelonBanana);
    assert "green" in Elems(MangoGreenBanana) * Elems(Colors);
    assert "red" in Elems(Colors) * Elems(Colors);
  }

  /** tests/test_is_disjoint_from.c:43-60: the fruits and the colours have
      no member in common. */
  lemma DisjointScenario()
    ensures IsDisjointFrom(Fruits, Colors) && IsDisjointFrom(Colors, Fruits)
    ensures IsDisjointFrom(MangoWatermelonBanana, Colors)
  {
    FruitsAndColors();
    MemberSets();
    SetArithmetic();
    DisjointSymmetric(Fruits, Colors);
  }

  /** tests/test_is_superset_of.c:33-44: the fruits contain the second
      three-member set but not the first; the smaller sets contain neither
      each other nor the fruits, but do contain themselves. */
  lemma SupersetScenario()
    ensures !IsSupersetOf(Fruits, MangoGreenBanana) && IsSupersetOf(Fruits, MangoWatermelonBanana)
    ensures !IsSupersetOf(MangoGreenBanana, Fruits)
    ensures !IsSupersetOf(MangoGreenBanana, MangoWatermelonBanana)
    ensures !IsSupersetOf(MangoWatermelonBanana, Fruits)
    ensures !IsSupersetOf(MangoWatermelonBanana, MangoGreenBanana)
    ensures IsSupersetOf(MangoWatermelonBanana, MangoWatermelonBanana)
  {
    MemberSets();
    assert "green" in Elems(MangoGreenBanana) - Elems(Fruits);
    assert "apple" in Elems(Fruits) - Elems(MangoGreenBanana);
    assert "watermelon" in Elems(MangoWatermelonBanana) - Elems(MangoGreenBanana);
    assert "green" in Elems(MangoGreenBanana) - Elems(MangoWatermelonBanana);
    assert "apple" in Elems(Fruits) - Elems(MangoWatermelonBanana);
    SupersetBoundaries(MangoWatermelonBanana);
  }

  /** tests/main.c:45-58: adding "foo" three times leaves one member. */
  lemma AddSameMemberScenario()
    ensures Added([], "foo") == ["foo"]
    ensures Added(Added(Added([], "foo"), "foo"), "foo") == ["foo"]
  {
    AddedIdempotent(["foo"], "foo");
  }
}
