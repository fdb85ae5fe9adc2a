/** The abstract value of a string set: the live prefix `members[0..count)`
    of `struct stringset`, taken as a sequence of strings, and what each
    operation of the C library does to it, written as functions on values.
    The class in string_set.dfy is proved against these functions; the
    lemmas here say what they mean as sets. */
module Members {

  /** The strings held by a member sequence. */
  function Elems(c: seq<string>): set<string>
  {
    set x | x in c
  }

  /** No string occurs twice: the invariant every `struct stringset` keeps. */
  predicate NoDuplicates(c: seq<string>)
  {
    forall i, j :: 0 <= i < j < |c| ==> c[i] != c[j]
  }

  /** A sequence without members is empty. */
  lemma EmptyElems(c: seq<string>)
    ensures Elems(c) == {} <==> c == []
  {
    if c != [] {
      assert c[0] in Elems(c);
    }
  }

  /** A duplicate-free sequence has as many members as entries, so `count`
      is the cardinality of the member set. */
  lemma {:induction false} CardElems(c: seq<string>)
    requires NoDuplicates(c)
    ensures |Elems(c)| == |c|
  {
    if c != [] {
      var p := c[..|c| - 1];
      assert Elems(c) == Elems(p) + {c[|c| - 1]};
      assert c[|c| - 1] !in Elems(p);
      CardElems(p);
    }
  }

  /** The members after `stringset_add`: a copy of `x` goes at index `count`
      unless `x` is already a member. */
  function Added(c: seq<string>, x: string): (r: seq<string>)
    ensures Elems(r) == Elems(c) + {x}
    ensures NoDuplicates(c) ==> NoDuplicates(r)
    ensures x in c <==> r == c
  {
    if x in c then c else c + [x]
  }

  /** The members after adding each string of `xs` in turn, as
      `stringset_add_array` and `stringset_add_stringset` do. */
  function AddAll(c: seq<string>, xs: seq<string>): (r: seq<string>)
    ensures Elems(r) == Elems(c) + Elems(xs)
    ensures NoDuplicates(c) ==> NoDuplicates(r)
    decreases |xs|
  {
    if xs == [] then c
    else
      var front := xs[..|xs| - 1];
      assert Elems(xs) == Elems(front) + {xs[|xs| - 1]};
      Added(AddAll(c, front), xs[|xs| - 1])
  }

  /** The members after `stringset_remove`: every entry equal to `x` is
      gone and the others keep their order. */
  function Removed(c: seq<string>, x: string): (r: seq<string>)
    ensures Elems(r) == Elems(c) - {x}
    ensures NoDuplicates(c) ==> NoDuplicates(r)
    ensures |r| <= |c|
    ensures x !in c ==> r == c
  {
    if c == [] then []
    else
      assert Elems(c) == {c[0]} + Elems(c[1..]);
      var rest := Removed(c[1..], x);
      if c[0] == x then rest
      else
        assert Elems([c[0]] + rest) == {c[0]} + Elems(rest);
        assert NoDuplicates(c) ==> c[0] !in Elems(c[1..]);
        [c[0]] + rest
  }

  /** The members after removing each string of `xs` in turn, as
      `stringset_remove_array` and `stringset_remove_stringset` do. */
  function RemoveAll(c: seq<string>, xs: seq<string>): (r: seq<string>)
    ensures Elems(r) == Elems(c) - Elems(xs)
    ensures NoDuplicates(c) ==> NoDuplicates(r)
    decreases |xs|
  {
    if xs == [] then c
    else
      var front := xs[..|xs| - 1];
      assert Elems(xs) == Elems(front) + {xs[|xs| - 1]};
      Removed(RemoveAll(c, front), xs[|xs| - 1])
  }

  /** One more string at the end of a bulk add is one more single add. */
  lemma AddAllSnoc(c: seq<string>, xs: seq<string>, x: string)
    ensures AddAll(c, xs + [x]) == Added(AddAll(c, xs), x)
  {
    assert (xs + [x])[..|xs|] == xs;
  }

  /** One more string at the end of a bulk remove is one more single remove. */
  lemma RemoveAllSnoc(c: seq<string>, xs: seq<string>, x: string)
    ensures RemoveAll(c, xs + [x]) == Removed(RemoveAll(c, xs), x)
  {
    assert (xs + [x])[..|xs|] == xs;
  }

  /** A bulk add over one more entry of `xs` is one more single add. */
  lemma AddAllStep(c: seq<string>, xs: seq<string>, i: nat)
    requires i < |xs|
    ensures AddAll(c, xs[..i + 1]) == Added(AddAll(c, xs[..i]), xs[i])
  {
    assert xs[..i + 1] == xs[..i] + [xs[i]];
    AddAllSnoc(c, xs[..i], xs[i]);
  }

  /** A bulk remove over one more entry of `xs` is one more single remove. */
  lemma RemoveAllStep(c: seq<string>, xs: seq<string>, i: nat)
    requires i < |xs|
    ensures RemoveAll(c, xs[..i + 1]) == Removed(RemoveAll(c, xs[..i]), xs[i])
  {
    assert xs[..i + 1] == xs[..i] + [xs[i]];
    RemoveAllSnoc(c, xs[..i], xs[i]);
  }

  /** Removing a member that sits at index `i` of a duplicate-free sequence
      closes the gap: the entries after it move down by one. */
  lemma {:induction false} RemovedAt(c: seq<string>, i: nat)
    requires NoDuplicates(c) && i < |c|
    ensures Removed(c, c[i]) == c[..i] + c[i + 1..]
  {
    if i == 0 {
      assert c[0] !in c[1..];
      assert c[..0] + c[1..] == c[1..];
    } else {
      RemovedAt(c[1..], i - 1);
      assert c[1..][i - 1] == c[i];
      assert [c[0]] + (c[1..][..i - 1] + c[1..][i..]) == c[..i] + c[i + 1..];
    }
  }

  /** `count` after a single add: up by one exactly when the string was
      not yet a member. */
  lemma AddedCount(c: seq<string>, x: string)
    requires NoDuplicates(c)
    ensures |Added(c, x)| == |Elems(c) + {x}|
    ensures |Added(c, x)| == if x in c then |c| else |c| + 1
  {
    CardElems(Added(c, x));
  }

  /** `count` after a single remove: down by one exactly when the string was
      a member. */
  lemma RemovedCount(c: seq<string>, x: string)
    requires NoDuplicates(c)
    ensures |Removed(c, x)| == if x in c then |c| - 1 else |c|
  {
    CardElems(c);
    CardElems(Removed(c, x));
  }

  /** A bulk add only appends: the members present before keep their
      indices and values. */
  lemma {:induction false} AddAllKeepsPrefix(c: seq<string>, xs: seq<string>)
    ensures |c| <= |AddAll(c, xs)| && AddAll(c, xs)[..|c|] == c
    decreases |xs|
  {
    if xs != [] {
      AddAllKeepsPrefix(c, xs[..|xs| - 1]);
    }
  }

  /** Adding is idempotent: a second add of the same string changes nothing. */
  lemma AddedIdempotent(c: seq<string>, x: string)
    ensures Added(Added(c, x), x) == Added(c, x)
  {
  }

  /** Adding a non-member and then removing it restores the exact member
      sequence, order included. */
  lemma {:induction false} RemoveUndoesAdd(c: seq<string>, x: string)
    requires x !in c
    ensures Removed(Added(c, x), x) == c
  {
    var a := c + [x];
    assert Added(c, x) == a;
    if c == [] {
      assert a[1..] == [];
    } else {
      assert a[1..] == c[1..] + [x];
      RemoveUndoesAdd(c[1..], x);
      assert Added(c[1..], x) == a[1..];
      assert Removed(a, x) == [c[0]] + Removed(a[1..], x);
      assert [c[0]] + c[1..] == c;
    }
  }

  /** Bulk add of strings that are all members already changes nothing. */
  lemma {:induction false} AddAllAbsorbed(c: seq<string>, xs: seq<string>)
    requires Elems(xs) <= Elems(c)
    ensures AddAll(c, xs) == c
    decreases |xs|
  {
    if xs != [] {
      var front := xs[..|xs| - 1];
      assert Elems(xs) == Elems(front) + {xs[|xs| - 1]};
      AddAllAbsorbed(c, front);
    }
  }

  /** Adding duplicate-free strings none of which is a member appends them
      all, in order. */
  lemma {:induction false} AddAllFresh(c: seq<string>, xs: seq<string>)
    requires NoDuplicates(xs) && Elems(c) !! Elems(xs)
    ensures AddAll(c, xs) == c + xs
    decreases |xs|
  {
    if xs != [] {
      var front := xs[..|xs| - 1];
      var x := xs[|xs| - 1];
      assert Elems(xs) == Elems(front) + {x};
      AddAllFresh(c, front);
      assert x !in front && x !in Elems(c);
      assert (c + front) + [x] == c + xs;
    }
  }

  /** Adding a duplicate-free sequence to an empty set copies it entry by
      entry: the first step of `stringset_alloc_union`. */
  lemma AddAllToEmpty(xs: seq<string>)
    requires NoDuplicates(xs)
    ensures AddAll([], xs) == xs
  {
    AddAllFresh([], xs);
    assert [] + xs == xs;
  }

  /** After a bulk add, `count` is the size of the union of the old members
      and the added strings: duplicates are not added twice. */
  lemma AddAllCount(c: seq<string>, xs: seq<string>)
    requires NoDuplicates(c)
    ensures |AddAll(c, xs)| == |Elems(c) + Elems(xs)|
  {
    CardElems(AddAll(c, xs));
  }

  /** After a bulk remove, `count` is the size of the set difference. */
  lemma RemoveAllCount(c: seq<string>, xs: seq<string>)
    requires NoDuplicates(c)
    ensures |RemoveAll(c, xs)| == |Elems(c) - Elems(xs)|
  {
    CardElems(RemoveAll(c, xs));
  }

  /** The final member set of a bulk add depends only on which strings are
      added, not on their order or repetition. */
  lemma AddAllOrderIrrelevant(c: seq<string>, xs: seq<string>, ys: seq<string>)
    requires Elems(xs) == Elems(ys)
    ensures Elems(AddAll(c, xs)) == Elems(AddAll(c, ys))
  {
  }
}
