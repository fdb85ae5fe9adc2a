/** The relational and intersection operations of the later `stringset`
    interface (`stringset_is_superset_of`, `stringset_is_disjoint_from`,
    `stringset_alloc_intersection`, `stringset_alloc_symmetric_difference`,
    `stringset_retain_array`, `stringset_retain_stringset`). Only the test
    programs show them, so they are written as functions on member
    sequences, each proved against the set operation it stands for. */
module SetAlgebra {
  import opened Members

  /** `stringset_is_superset_of(set, other)`: every member of `other` is a
      member of `set`, checked one member of `other` at a time. */
  function IsSupersetOf(c: seq<string>, other: seq<string>): (r: bool)
    ensures r <==> Elems(other) <= Elems(c)
  {
    if other == [] then true
    else
      assert Elems(other) == {other[0]} + Elems(other[1..]);
      other[0] in c && IsSupersetOf(c, other[1..])
  }

  /** `stringset_is_disjoint_from(set, other)`: no member of `set` is a
      member of `other`. */
  function IsDisjointFrom(c: seq<string>, other: seq<string>): (r: bool)
    ensures r <==> Elems(c) !! Elems(other)
  {
    if c == [] then true
    else
      assert Elems(c) == {c[0]} + Elems(c[1..]);
      c[0] !in other && IsDisjointFrom(c[1..], other)
  }

  /** The members of `c` that are also in `keep`, in their order in `c`:
      `stringset_retain_stringset(set, other)` and `stringset_retain_array`
      leave this in `set`, and `stringset_alloc_intersection(first, second)`
      allocates a set holding it. */
  function Retained(c: seq<string>, keep: seq<string>): (r: seq<string>)
    ensures Elems(r) == Elems(c) * Elems(keep)
    ensures NoDuplicates(c) ==> NoDuplicates(r)
    ensures |r| <= |c|
  {
    if c == [] then []
    else
      assert Elems(c) == {c[0]} + Elems(c[1..]);
      var rest := Retained(c[1..], keep);
      if c[0] in keep then
        assert Elems([c[0]] + rest) == {c[0]} + Elems(rest);
        assert NoDuplicates(c) ==> c[0] !in Elems(c[1..]);
        [c[0]] + rest
      else rest
  }

  /** `stringset_alloc_symmetric_difference(first, second)`: the members of
      `first` not in `second`, then the members of `second` not in `first`. */
  function SymmetricDifference(first: seq<string>, second: seq<string>): (r: seq<string>)
    ensures Elems(r) == (Elems(first) - Elems(second)) + (Elems(second) - Elems(first))
    ensures NoDuplicates(first) && NoDuplicates(second) ==> NoDuplicates(r)
  {
    var a := RemoveAll(first, second);
    var b := RemoveAll(second, first);
    assert Elems(a) !! Elems(b);
    assert forall i, j :: 0 <= i < |a| && 0 <= j < |b| ==> a[i] != b[j] by {
      forall i, j | 0 <= i < |a| && 0 <= j < |b|
        ensures a[i] != b[j]
      {
        assert a[i] in Elems(a) && b[j] in Elems(b);
      }
    }
    a + b
  }

  /** Sets that contain each other have the same member count. */
  lemma SupersetAntisymmetric(a: seq<string>, b: seq<string>)
    requires NoDuplicates(a) && NoDuplicates(b)
    requires IsSupersetOf(a, b) && IsSupersetOf(b, a)
    ensures Elems(a) == Elems(b) && |a| == |b|
  {
    CardElems(a);
    CardElems(b);
  }

  /** The empty set is a superset only of the empty set, and every set is a
      superset of the empty set and of itself. */
  lemma SupersetBoundaries(c: seq<string>)
    ensures IsSupersetOf(c, []) && IsSupersetOf(c, c)
    ensures IsSupersetOf([], c) <==> c == []
  {
    if c != [] {
      assert c[0] in Elems(c);
    }
  }

  /** Disjoint exactly when the intersection is empty. */
  lemma DisjointIffNoIntersection(a: seq<string>, b: seq<string>)
    ensures IsDisjointFrom(a, b) <==> Retained(a, b) == []
  {
    var r := Retained(a, b);
    if r != [] {
      assert r[0] in Elems(r);
    }
  }

  /** Disjointness does not depend on the order of the arguments, every set
      is disjoint from the empty set, and a set is disjoint from itself only
      when it is empty. */
  lemma DisjointSymmetric(a: seq<string>, b: seq<string>)
    ensures IsDisjointFrom(a, b) == IsDisjointFrom(b, a)
    ensures IsDisjointFrom(a, []) && IsDisjointFrom([], a)
    ensures IsDisjointFrom(a, a) <==> a == []
  {
    if a != [] {
      assert a[0] in Elems(a);
    }
  }

  /** The intersection is contained in both arguments, has the same members
      whichever argument comes first, and its count is the size of the set
      intersection. */
  lemma IntersectionProperties(a: seq<string>, b: seq<string>)
    requires NoDuplicates(a) && NoDuplicates(b)
    ensures IsSupersetOf(a, Retained(a, b)) && IsSupersetOf(b, Retained(a, b))
    ensures Elems(Retained(a, b)) == Elems(Retained(b, a))
    ensures |Retained(a, b)| == |Retained(b, a)| == |Elems(a) * Elems(b)|
  {
    CardElems(Retained(a, b));
    CardElems(Retained(b, a));
  }

  /** Retaining every member of a set is a no-op, and retaining nothing
      empties the set (tests/test_retain_array.c:27-31). */
  lemma {:induction false} RetainBoundaries(c: seq<string>)
    ensures Retained(c, c) == c
    ensures Retained(c, []) == []
  {
    RetainSuperset(c, c);
    EmptyElems(Retained(c, []));
  }

  /** Retaining a superset of the members changes nothing. */
  lemma {:induction false} RetainSuperset(c: seq<string>, keep: seq<string>)
    requires Elems(c) <= Elems(keep)
    ensures Retained(c, keep) == c
  {
    if c != [] {
      assert Elems(c) == {c[0]} + Elems(c[1..]);
      RetainSuperset(c[1..], keep);
      assert [c[0]] + c[1..] == c;
    }
  }

  /** The symmetric difference is the union minus the intersection, and its
      count is the union's count minus the intersection's count. */
  lemma SymmetricDifferenceIsUnionMinusIntersection(a: seq<string>, b: seq<string>)
    requires NoDuplicates(a) && NoDuplicates(b)
    ensures Elems(SymmetricDifference(a, b)) == Elems(AddAll(a, b)) - Elems(Retained(a, b))
    ensures |SymmetricDifference(a, b)| == |AddAll(a, b)| - |Retained(a, b)|
  {
    var u := Elems(a) + Elems(b);
    var i := Elems(a) * Elems(b);
    assert Elems(SymmetricDifference(a, b)) == u - i;
    assert i <= u;
    CardElems(SymmetricDifference(a, b));
    CardElems(AddAll(a, b));
    CardElems(Retained(a, b));
  }

  /** The symmetric difference of a set with itself is empty, and with the
      empty set it is the set itself. */
  lemma {:induction false} SymmetricDifferenceBoundaries(c: seq<string>)
    requires NoDuplicates(c)
    ensures SymmetricDifference(c, c) == []
    ensures SymmetricDifference(c, []) == c && SymmetricDifference([], c) == c
  {
    EmptyElems(SymmetricDifference(c, c));
    EmptyElems(RemoveAll([], c));
    assert SymmetricDifference(c, []) == c + [];
    assert SymmetricDifference([], c) == [] + RemoveAll(c, []);
  }
}
