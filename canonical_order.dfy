/** A refinement that the insertion-ordered model does NOT claim: the test
    programs (tests/test_add_array.c:23-27, tests/test_alloc_union.c:29-36,
    tests/test_remove_array.c:27-29,
    tests/test_alloc_symmetric_difference.c:29-32) read `members[i]` of a
    later `stringset` that keeps its members in ascending `strcmp` order.
    This module defines that order and shows that such a sorted member
    array is fully determined by the member set: it is the sorted listing
    of the insertion-ordered members the model keeps, and every operation
    of the model has a sorted counterpart with the same members. */
module CanonicalOrder {
  import opened Members

  /** `strcmp(a, b) < 0`: the first differing character of `a` is smaller,
      or `a` is a proper prefix of `b`. */
  predicate Below(a: string, b: string)
  {
    |b| > 0 && (|a| == 0 || a[0] < b[0] || (a[0] == b[0] && Below(a[1..], b[1..])))
  }

  lemma {:induction false} BelowIrreflexive(a: string)
    ensures !Below(a, a)
  {
    if |a| > 0 {
      BelowIrreflexive(a[1..]);
    }
  }

  lemma {:induction false} BelowAsymmetric(a: string, b: string)
    requires Below(a, b)
    ensures !Below(b, a)
  {
    if |a| > 0 && a[0] == b[0] {
      BelowAsymmetric(a[1..], b[1..]);
    }
  }

  lemma {:induction false} BelowTransitive(a: string, b: string, c: string)
    requires Below(a, b) && Below(b, c)
    ensures Below(a, c)
  {
    if |a| > 0 && a[0] == b[0] && b[0] == c[0] {
      BelowTransitive(a[1..], b[1..], c[1..]);
    }
  }

  /** Two different strings are always ordered one way or the other. */
  lemma {:induction false} BelowTotal(a: string, b: string)
    ensures a == b || Below(a, b) || Below(b, a)
  {
    if |a| > 0 && |b| > 0 && a[0] == b[0] {
      BelowTotal(a[1..], b[1..]);
      if a[1..] == b[1..] {
        assert a == [a[0]] + a[1..] && b == [b[0]] + b[1..];
      }
    }
  }

  /** Members in strictly ascending `strcmp` order. */
  predicate StrictlySorted(c: seq<string>)
  {
    forall i, j :: 0 <= i < j < |c| ==> Below(c[i], c[j])
  }

  /** Each entry below the next is enough: the order is transitive. */
  lemma {:induction false} SortedByNeighbours(c: seq<string>)
    requires forall i :: 0 <= i < |c| - 1 ==> Below(c[i], c[i + 1])
    ensures StrictlySorted(c)
  {
    if |c| > 1 {
      SortedByNeighbours(c[1..]);
      forall j | 1 < j < |c| ensures Below(c[0], c[j]) {
        assert c[1..][0] == c[1] && c[1..][j - 1] == c[j];
        BelowTransitive(c[0], c[1], c[j]);
      }
    }
  }

  /** Strictly ascending order leaves no room for a duplicate. */
  lemma SortedNoDuplicates(c: seq<string>)
    requires StrictlySorted(c)
    ensures NoDuplicates(c)
  {
    forall i, j | 0 <= i < j < |c|
      ensures c[i] != c[j]
    {
      BelowIrreflexive(c[i]);
    }
  }

  /** The first entry of a sorted sequence is below every later entry. */
  lemma SortedHead(c: seq<string>, y: string)
    requires StrictlySorted(c) && |c| > 0 && y in c[1..]
    ensures Below(c[0], y)
  {
    var k :| 0 <= k < |c[1..]| && c[1..][k] == y;
    assert c[k + 1] == y;
  }

  /** A sorted member array is determined by its member set: two sorted
      sequences with the same members are equal. */
  lemma {:induction false} SortedUnique(a: seq<string>, b: seq<string>)
    requires StrictlySorted(a) && StrictlySorted(b) && Elems(a) == Elems(b)
    ensures a == b
    decreases |a|
  {
    EmptyElems(a);
    EmptyElems(b);
    if a != [] {
      assert a[0] in Elems(b) && b[0] in Elems(a);
      if a[0] != b[0] {
        assert a[0] in b[1..] by {
          var j :| 0 <= j < |b| && b[j] == a[0];
          assert j != 0;
          assert b[1..][j - 1] == a[0];
        }
        assert b[0] in a[1..] by {
          var i :| 0 <= i < |a| && a[i] == b[0];
          assert i != 0;
          assert a[1..][i - 1] == b[0];
        }
        SortedHead(b, a[0]);
        SortedHead(a, b[0]);
        BelowAsymmetric(a[0], b[0]);
        assert false;
      }
      SortedNoDuplicates(a);
      SortedNoDuplicates(b);
      assert Elems(a) == {a[0]} + Elems(a[1..]) && a[0] !in Elems(a[1..]);
      assert Elems(b) == {b[0]} + Elems(b[1..]) && b[0] !in Elems(b[1..]);
      SortedUnique(a[1..], b[1..]);
      assert a == [a[0]] + a[1..] && b == [b[0]] + b[1..];
    }
  }

  /** The sorted variant of `stringset_add`: the string goes at its place
      in ascending order, unless it is already a member. */
  function Insert(c: seq<string>, x: string): (r: seq<string>)
    requires StrictlySorted(c)
    ensures StrictlySorted(r)
    ensures Elems(r) == Elems(c) + {x}
  {
    if c == [] then [x]
    else if c[0] == x then c
    else if Below(x, c[0]) then
      assert StrictlySorted([x] + c) by {
        forall j | 0 < j < |c| ensures Below(x, c[j]) {
          BelowTransitive(x, c[0], c[j]);
        }
      }
      [x] + c
    else
      BelowTotal(x, c[0]);
      var rest := Insert(c[1..], x);
      assert Elems(c) == {c[0]} + Elems(c[1..]);
      assert Elems([c[0]] + rest) == {c[0]} + Elems(rest);
      assert StrictlySorted([c[0]] + rest) by {
        forall y | y in rest ensures Below(c[0], y) {
          assert y in Elems(rest);
          if y != x {
            SortedHead(c, y);
          }
        }
      }
      [c[0]] + rest
  }

  /** The sorted listing of a member sequence: its members inserted one
      after another in ascending order. */
  function Sort(c: seq<string>): (r: seq<string>)
    ensures StrictlySorted(r)
    ensures Elems(r) == Elems(c)
  {
    if c == [] then []
    else
      var front := c[..|c| - 1];
      assert Elems(c) == Elems(front) + {c[|c| - 1]};
      Insert(Sort(front), c[|c| - 1])
  }

  /** Any sorted sequence with the same members as `c` is `Sort(c)`: the
      member array a sorted `stringset` holds is the sorted listing of the
      insertion-ordered members this model keeps. */
  lemma SortIsCanonical(c: seq<string>, s: seq<string>)
    requires StrictlySorted(s) && Elems(s) == Elems(c)
    ensures s == Sort(c)
  {
    SortedUnique(s, Sort(c));
  }

  /** The sorted listing has the same count as a duplicate-free sequence. */
  lemma SortCount(c: seq<string>)
    requires NoDuplicates(c)
    ensures |Sort(c)| == |c|
  {
    SortedNoDuplicates(Sort(c));
    CardElems(Sort(c));
    CardElems(c);
  }

  /** Inserting into the sorted listing gives the sorted listing of a
      single add: the sorted `stringset_add` agrees with `Added`. */
  lemma InsertAgreesWithAdded(c: seq<string>, x: string)
    ensures Insert(Sort(c), x) == Sort(Added(c, x))
  {
    SortIsCanonical(Added(c, x), Insert(Sort(c), x));
  }

  /** Removing from a sorted sequence keeps it sorted, so the sorted
      `stringset_remove` is `Removed` applied to the sorted listing. */
  lemma {:induction false} RemovedKeepsSorted(c: seq<string>, x: string)
    requires StrictlySorted(c)
    ensures StrictlySorted(Removed(c, x))
  {
    if c != [] {
      RemovedKeepsSorted(c[1..], x);
      var rest := Removed(c[1..], x);
      if c[0] != x {
        assert Removed(c, x) == [c[0]] + rest;
        forall y | y in rest ensures Below(c[0], y) {
          assert y in Elems(rest);
          SortedHead(c, y);
        }
      }
    }
  }

  /** The sorted listing commutes with a single remove. */
  lemma RemovedAgreesWithSort(c: seq<string>, x: string)
    ensures Removed(Sort(c), x) == Sort(Removed(c, x))
  {
    RemovedKeepsSorted(Sort(c), x);
    SortIsCanonical(Removed(c, x), Removed(Sort(c), x));
  }
}
