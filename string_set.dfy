/** `struct stringset` and the functions of src/stringset.h over it.

    The C library's conventions are kept in Dafny terms:
    - a `struct stringset *` argument is a `StringSet?`, NULL being `null`;
    - a `char const *` argument is a `CString`, NULL being `None`;
    - a `char const *const *` array with its `int count` is an optional
      sequence of `CString` and an `int`;
    - the `int` result, 0 or -1 with `errno` set, is a `Status`;
    - `struct stringset **` out-parameters are `Handle` objects;
    - `calloc`, `realloc` and `strdup` may fail at any call, which the
      allocation helpers below model by choosing success arbitrarily.

    The live members are `members[0..count)`; `members.Length` is the size
    the buffer was last allocated with. The functions in module Members give
    the members each operation leaves behind. */
module StringSets {
  import opened Members

  /** The `errno` values the library reports. */
  datatype Errno = EINVAL | ENOMEM

  /** A function's `int` result: 0, or -1 with `errno` set. */
  datatype Status = Ok | Fail(errno: Errno)

  datatype Option<T> = None | Some(value: T)

  /** A `char const *`: a string, or NULL. */
  type CString = Option<string>

  /** `struct stringset`: an allocated buffer of owned string copies whose
      first `count` entries are the members. */
  class StringSet {
    var members: array<string>
    var count: int

    /** The live prefix fits the buffer and holds no string twice. */
    ghost predicate Valid()
      reads this, members
    {
      0 <= count <= members.Length && NoDuplicates(members[..count])
    }

    /** The members, in the order they are stored. */
    ghost function Contents(): seq<string>
      reads this, members
      requires Valid()
    {
      members[..count]
    }

    /** A zero-filled struct, as `calloc` returns it: no buffer, no members. */
    constructor ()
      ensures Valid() && fresh(members) && members.Length == 0 && count == 0
    {
      members := new string[0];
      count := 0;
    }
  }

  /** A caller's `struct stringset *` variable, passed by address. */
  class Handle {
    var target: StringSet?

    constructor (target: StringSet?)
      ensures this.target == target
    {
      this.target := target;
    }
  }

  /** `calloc(1, sizeof(struct stringset))`: a fresh empty set, or NULL. */
  method Calloc() returns (s: StringSet?)
    ensures s != null ==> fresh(s) && fresh(s.members) && s.Valid() && s.Contents() == []
  {
    var ok: bool := *;
    if ok {
      s := new StringSet();
    } else {
      s := null;
    }
  }

  /** `realloc(a, n * sizeof(char *))`: NULL with `a` untouched, or a fresh
      buffer of `n` entries whose common prefix with `a` is copied. */
  method Realloc(a: array<string>, n: nat) returns (b: array?<string>)
    ensures b != null ==> fresh(b) && b.Length == n
    ensures b != null ==> forall i :: 0 <= i < n && i < a.Length ==> b[i] == a[i]
  {
    var ok: bool := *;
    if !ok {
      return null;
    }
    b := new string[n];
    var kept := if n < a.Length then n else a.Length;
    var i := 0;
    while i < kept
      invariant 0 <= i <= kept
      invariant forall j :: 0 <= j < i ==> b[j] == a[j]
    {
      b[i] := a[i];
      i := i + 1;
    }
  }

  /** `strdup(str)`: a copy of the string, or NULL. */
  method Strdup(str: string) returns (copy: CString)
    ensures copy.Some? ==> copy.value == str
  {
    var ok: bool := *;
    copy := if ok then Some(str) else None;
  }

  /********************************
   * Creation and destruction
   ********************************/

  /** `stringset_alloc`: store a fresh empty set through the out-parameter. */
  method Alloc(h: Handle?) returns (status: Status)
    modifies h
    ensures h == null ==> status == Fail(EINVAL)
    ensures h != null ==> (status == Ok <==> h.target != null)
    ensures h != null && status != Ok ==> status == Fail(ENOMEM)
    ensures h != null && h.target != null ==>
      fresh(h.target) && h.target.Valid() && h.target.count == 0 && h.target.Contents() == []
  {
    if h == null {
      return Fail(EINVAL);
    }
    h.target := Calloc();
    status := if h.target != null then Ok else Fail(ENOMEM);
  }

  /** `stringset_free`: release the set the handle points to, if any, and
      clear the caller's pointer. A NULL handle is ignored. */
  method Free(h: Handle?)
    modifies h
    ensures h != null ==> h.target == null
  {
    if h == null {
      return;
    }
    h.target := null;
  }

  /********************************
   * Test membership
   ********************************/

  /** `stringset_contains`: a linear scan of `members[0..count)`. */
  method Contains(s: StringSet?, str: CString) returns (found: bool, status: Status)
    requires s != null ==> s.Valid()
    ensures s == null || str.None? ==> !found && status == Fail(EINVAL)
    ensures s != null && str.Some? ==>
      status == Ok && (found <==> exists i :: 0 <= i < s.count && s.members[i] == str.value)
  {
    if s == null || str.None? {
      return false, Fail(EINVAL);
    }
    var i := 0;
    while i < s.count
      invariant 0 <= i <= s.count
      invariant forall j :: 0 <= j < i ==> s.members[j] != str.value
    {
      if str.value == s.members[i] {
        return true, Ok;
      }
      i := i + 1;
    }
    return false, Ok;
  }

  /********************************
   * Insert and delete members
   ********************************/

  /** `stringset_add`: a string that is not a member is copied into a slot
      appended to the buffer. Either allocation may fail; `count` is raised
      only once both have succeeded. */
  method Add(s: StringSet?, str: CString) returns (status: Status)
    requires s != null ==> s.Valid()
    modifies s
    ensures s != null ==> s.Valid()
    ensures s == null || str.None? ==> status == Fail(EINVAL)
    ensures s != null && str.Some? ==> status == Ok || status == Fail(ENOMEM)
    ensures s != null && str.Some? ==>
      s.Contents() == if status == Ok then Added(old(s.Contents()), str.value) else old(s.Contents())
    ensures s != null && str.Some? && str.value in old(s.Contents()) ==> status == Ok
    ensures s != null && str.None? ==> unchanged(s)
  {
    if s == null || str.None? {
      return Fail(EINVAL);
    }
    var found, _ := Contains(s, str);
    if found {
      return Ok;
    }
    var newIndex := s.count;
    var newCount := s.count + 1;
    var newMembers := Realloc(s.members, newCount);
    if newMembers == null {
      return Fail(ENOMEM);
    }
    s.members := newMembers;
    assert s.Contents() == old(s.Contents());
    var copy := Strdup(str.value);
    if copy.None? {
      return Fail(ENOMEM);
    }
    newMembers[newIndex] := copy.value;
    s.count := newCount;
    assert s.Contents() == old(s.Contents()) + [str.value];
    return Ok;
  }

  /** `stringset_compact`: shrink the buffer to exactly `count` entries, or
      release it when the set is empty. Membership never changes. */
  method Compact(s: StringSet?) returns (status: Status)
    requires s != null ==> s.Valid()
    modifies s
    ensures s == null ==> status == Fail(EINVAL)
    ensures s != null ==> s.Valid() && s.count == old(s.count) && s.Contents() == old(s.Contents())
    ensures s != null ==> status == Ok || status == Fail(ENOMEM)
    ensures s != null && old(s.count) == 0 ==> status == Ok
    ensures s != null && status == Ok ==> s.members.Length == s.count
  {
    if s == null {
      return Fail(EINVAL);
    }
    if s.count == 0 {
      s.members := new string[0];
      return Ok;
    }
    var newMembers := Realloc(s.members, s.count);
    if newMembers == null {
      return Fail(ENOMEM);
    }
    s.members := newMembers;
    assert s.Contents() == old(s.Contents());
    return Ok;
  }

  /** `stringset_clear`: drop every member and compact the set. */
  method Clear(s: StringSet?) returns (status: Status)
    requires s != null ==> s.Valid()
    modifies s
    ensures s == null ==> status == Fail(EINVAL)
    ensures s != null ==>
      status == Ok && s.Valid() && s.count == 0 && s.Contents() == [] && s.members.Length == 0
  {
    if s == null {
      return Fail(EINVAL);
    }
    s.count := 0;
    status := Compact(s);
  }

  /** `stringset_remove`: a member is taken out by moving the entries after
      it down one slot; a non-member is ignored. The buffer keeps its size. */
  method Remove(s: StringSet?, str: CString) returns (status: Status)
    requires s != null ==> s.Valid()
    modifies if s == null then {} else {s, s.members}
    ensures status == if s == null || str.None? then Fail(EINVAL) else Ok
    ensures s != null ==> s.Valid() && s.members == old(s.members)
    ensures s != null && str.None? ==> s.Contents() == old(s.Contents())
    ensures s != null && str.Some? ==> s.Contents() == Removed(old(s.Contents()), str.value)
  {
    if s == null || str.None? {
      return Fail(EINVAL);
    }
    var x := str.value;
    ghost var c := s.Contents();
    var i := 0;
    while i < s.count && s.members[i] != x
      invariant 0 <= i <= s.count
      invariant forall j :: 0 <= j < i ==> s.members[j] != x
    {
      i := i + 1;
    }
    if i == s.count {
      assert x !in c;
      return Ok;
    }
    var j := i;
    while j < s.count - 1
      invariant s.members == old(s.members) && s.count == |c| <= s.members.Length
      invariant i <= j < s.count
      invariant forall k :: 0 <= k < i ==> s.members[k] == c[k]
      invariant forall k :: i <= k < j ==> s.members[k] == c[k + 1]
      invariant forall k :: j < k < s.count ==> s.members[k] == c[k]
    {
      s.members[j] := s.members[j + 1];
      j := j + 1;
    }
    s.count := s.count - 1;
    RemovedAt(c, i);
    assert s.members[..s.count] == c[..i] + c[i + 1..];
    return Ok;
  }

  /********************************
   * Bulk insert and delete
   ********************************/

  /** The entries `array[0..count)` of a C array argument. */
  function Entries(values: Option<seq<CString>>, count: int): (r: seq<CString>)
    requires values.Some? && 0 <= count ==> count <= |values.value|
    ensures |r| == if values.Some? && 0 <= count then count else 0
  {
    if values.Some? && 0 <= count then values.value[..count] else []
  }

  /** No entry is NULL. */
  predicate NoNulls(a: seq<CString>)
  {
    forall i :: 0 <= i < |a| ==> a[i].Some?
  }

  /** The strings of entries that are all non-NULL. */
  function Strings(a: seq<CString>): (r: seq<string>)
    ensures |r| == |a|
  {
    seq(|a|, i requires 0 <= i < |a| => if a[i].Some? then a[i].value else "")
  }

  /** `a` holds exactly the strings `xs`, none of them NULL. */
  predicate Spells(a: seq<CString>, xs: seq<string>)
  {
    |a| == |xs| && forall j :: 0 <= j < |a| ==> a[j] == Some(xs[j])
  }

  /** An array spelling `xs` has no NULL entry, and its strings are `xs`. */
  lemma StringsOf(a: seq<CString>, xs: seq<string>)
    requires Spells(a, xs)
    ensures NoNulls(a) && Strings(a) == xs
  {
  }

  /** One more non-NULL entry extends the spelled strings by that string. */
  lemma SpellsStep(a: seq<CString>, i: nat, xs: seq<string>, x: string)
    requires i < |a| && Spells(a[..i], xs) && a[i] == Some(x)
    ensures Spells(a[..i + 1], xs + [x])
  {
    assert a[..i + 1] == a[..i] + [a[i]];
  }

  /** The arguments `stringset_add_array` and `stringset_remove_array`
      reject with EINVAL before touching the set. */
  predicate BadArray(values: Option<seq<CString>>, count: int)
  {
    count < 0 || (values.None? && count > 0)
  }

  /** The loop of `stringset_add_array`: `stringset_add` on each entry in
      turn, stopping at the first failure. */
  method AddEach(s: StringSet, entries: seq<CString>) returns (status: Status)
    requires s.Valid()
    modifies s
    ensures s.Valid()
    ensures status == Ok ==>
      NoNulls(entries) && s.Contents() == AddAll(old(s.Contents()), Strings(entries))
    ensures status.Fail? ==>
      exists k :: 0 <= k < |entries| && NoNulls(entries[..k]) &&
        (status == Fail(EINVAL) <==> entries[k].None?) &&
        s.Contents() == AddAll(old(s.Contents()), Strings(entries[..k]))
  {
    ghost var c := s.Contents();
    ghost var added: seq<string> := [];
    var i := 0;
    while i < |entries|
      invariant 0 <= i <= |entries|
      invariant s.Valid()
      invariant Spells(entries[..i], added)
      invariant s.Contents() == AddAll(c, added)
    {
      var str := entries[i];
      status := Add(s, str);
      if status.Fail? {
        StringsOf(entries[..i], added);
        return;
      }
      AddAllSnoc(c, added, str.value);
      SpellsStep(entries, i, added, str.value);
      added := added + [str.value];
      i := i + 1;
    }
    assert entries[..i] == entries;
    StringsOf(entries, added);
    return Ok;
  }

  /** `stringset_add_array`: add `array[0..count)` one after another, as
      `stringset_add` does, stopping at the first failure. The strings added
      before a failure stay added. */
  method AddArray(s: StringSet?, values: Option<seq<CString>>, count: int) returns (status: Status)
    requires s != null ==> s.Valid()
    requires values.Some? && 0 <= count ==> count <= |values.value|
    modifies s
    ensures s != null ==> s.Valid()
    ensures s == null || BadArray(values, count) ==> status == Fail(EINVAL)
    ensures s != null && BadArray(values, count) ==> unchanged(s)
    ensures s != null && !BadArray(values, count) && status == Ok ==>
      NoNulls(Entries(values, count)) &&
      s.Contents() == AddAll(old(s.Contents()), Strings(Entries(values, count)))
    ensures s != null && !BadArray(values, count) && status.Fail? ==>
      exists k :: 0 <= k < count && NoNulls(Entries(values, count)[..k]) &&
        (status == Fail(EINVAL) <==> Entries(values, count)[k].None?) &&
        s.Contents() == AddAll(old(s.Contents()), Strings(Entries(values, count)[..k]))
  {
    if s == null || BadArray(values, count) {
      return Fail(EINVAL);
    }
    status := AddEach(s, Entries(values, count));
  }

  /** The loop of `stringset_remove_array`: `stringset_remove` on each entry
      in turn, stopping at the first NULL entry. */
  method RemoveEach(s: StringSet, entries: seq<CString>) returns (status: Status)
    requires s.Valid()
    modifies s, s.members
    ensures s.Valid() && s.members == old(s.members)
    ensures status == Ok || status == Fail(EINVAL)
    ensures status == Ok <==> NoNulls(entries)
    ensures status == Ok ==> s.Contents() == RemoveAll(old(s.Contents()), Strings(entries))
    ensures status.Fail? ==>
      exists k :: 0 <= k < |entries| && NoNulls(entries[..k]) && entries[k].None? &&
        s.Contents() == RemoveAll(old(s.Contents()), Strings(entries[..k]))
  {
    ghost var c := s.Contents();
    ghost var removed: seq<string> := [];
    var i := 0;
    while i < |entries|
      invariant 0 <= i <= |entries|
      invariant s.Valid() && s.members == old(s.members)
      invariant Spells(entries[..i], removed)
      invariant s.Contents() == RemoveAll(c, removed)
    {
      var str := entries[i];
      status := Remove(s, str);
      if status.Fail? {
        StringsOf(entries[..i], removed);
        return;
      }
      RemoveAllSnoc(c, removed, str.value);
      SpellsStep(entries, i, removed, str.value);
      removed := removed + [str.value];
      i := i + 1;
    }
    assert entries[..i] == entries;
    StringsOf(entries, removed);
    return Ok;
  }

  /** `stringset_remove_array`: remove `array[0..count)` one after another,
      as `stringset_remove` does, stopping at the first NULL entry. Strings
      that are not members are ignored; the buffer keeps its size. */
  method RemoveArray(s: StringSet?, values: Option<seq<CString>>, count: int) returns (status: Status)
    requires s != null ==> s.Valid()
    requires values.Some? && 0 <= count ==> count <= |values.value|
    modifies if s == null then {} else {s, s.members}
    ensures s != null ==> s.Valid() && s.members == old(s.members)
    ensures s == null || BadArray(values, count) ==> status == Fail(EINVAL)
    ensures s != null && BadArray(values, count) ==> s.Contents() == old(s.Contents())
    ensures s != null && !BadArray(values, count) ==>
      (status == Ok <==> NoNulls(Entries(values, count))) && (status == Ok || status == Fail(EINVAL))
    ensures s != null && !BadArray(values, count) && status == Ok ==>
      s.Contents() == RemoveAll(old(s.Contents()), Strings(Entries(values, count)))
    ensures s != null && !BadArray(values, count) && status.Fail? ==>
      exists k :: 0 <= k < count && NoNulls(Entries(values, count)[..k]) &&
        Entries(values, count)[k].None? &&
        s.Contents() == RemoveAll(old(s.Contents()), Strings(Entries(values, count)[..k]))
  {
    if s == null || BadArray(values, count) {
      return Fail(EINVAL);
    }
    status := RemoveEach(s, Entries(values, count));
  }

  /********************************
   * Union operations
   ********************************/

  /** `stringset_add_stringset`: add every member of `other`, in its order,
      as `stringset_add` does, stopping at the first allocation failure.
      `other` is only read. */
  method AddStringset(s: StringSet?, other: StringSet?) returns (status: Status)
    requires s != null ==> s.Valid()
    requires other != null ==> other.Valid()
    modifies s
    ensures s != null ==> s.Valid()
    ensures other != null && other != s ==> unchanged(other) && other.Valid()
    ensures s == null || other == null ==> status == Fail(EINVAL)
    ensures s != null && other == null ==> unchanged(s)
    ensures s != null && other != null ==> status == Ok || status == Fail(ENOMEM)
    ensures s != null && other != null && status == Ok ==>
      s.Contents() == AddAll(old(s.Contents()), old(other.Contents()))
    ensures s != null && other != null && status.Fail? ==>
      exists k :: 0 <= k < |old(other.Contents())| &&
        s.Contents() == AddAll(old(s.Contents()), old(other.Contents())[..k])
  {
    if s == null || other == null {
      return Fail(EINVAL);
    }
    var xs := other.members[..other.count];
    ghost var c := s.Contents();
    assert xs == old(other.Contents());
    var i := 0;
    while i < |xs|
      invariant 0 <= i <= |xs|
      invariant s.Valid()
      invariant s.Contents() == AddAll(c, xs[..i])
    {
      status := Add(s, Some(xs[i]));
      if status.Fail? {
        assert s.Contents() == AddAll(c, old(other.Contents())[..i]);
        return;
      }
      AddAllStep(c, xs, i);
      i := i + 1;
    }
    assert xs[..|xs|] == xs;
    return Ok;
  }

  /** `stringset_alloc_union`: store through the out-parameter a new set
      holding a copy of `first` followed by the members of `second` it lacks.
      On an allocation failure the partial set is released and the caller's
      pointer is NULL. Neither input is modified. */
  method AllocUnion(h: Handle?, first: StringSet?, second: StringSet?) returns (status: Status)
    requires first != null ==> first.Valid()
    requires second != null ==> second.Valid()
    modifies h
    ensures h == null || first == null || second == null ==> status == Fail(EINVAL)
    ensures h != null && (first == null || second == null) ==> unchanged(h)
    ensures h != null && first != null && second != null ==>
      (status == Ok || status == Fail(ENOMEM)) && (status == Ok <==> h.target != null)
    ensures h != null && first != null && second != null && status == Ok ==>
      fresh(h.target) && h.target.Valid() &&
      h.target.Contents() == AddAll(first.Contents(), second.Contents())
  {
    if h == null || first == null || second == null {
      return Fail(EINVAL);
    }
    var result := Calloc();
    if result == null {
      h.target := null;
      return Fail(ENOMEM);
    }
    status := AddStringset(result, first);
    if status == Ok {
      AddAllToEmpty(first.Contents());
      status := AddStringset(result, second);
    }
    if status.Fail? {
      h.target := null;
      return;
    }
    h.target := result;
  }

  /********************************
   * Difference operations
   ********************************/

  /** `stringset_remove_stringset`: remove every member of `other`, as
      `stringset_remove` does. Two distinct sets never share a buffer; when
      they are distinct, `other` is only read. */
  method RemoveStringset(s: StringSet?, other: StringSet?) returns (status: Status)
    requires s != null ==> s.Valid()
    requires other != null ==> other.Valid()
    requires s != null && other != null && s != other ==> s.members != other.members
    modifies if s == null then {} else {s, s.members}
    ensures s != null ==> s.Valid() && s.members == old(s.members)
    ensures other != null && other != s ==> unchanged(other) && other.Contents() == old(other.Contents())
    ensures status == if s == null || other == null then Fail(EINVAL) else Ok
    ensures s != null && other == null ==> s.Contents() == old(s.Contents())
    ensures s != null && other != null ==>
      s.Contents() == RemoveAll(old(s.Contents()), old(other.Contents()))
  {
    if s == null || other == null {
      return Fail(EINVAL);
    }
    var xs := other.members[..other.count];
    ghost var c := s.Contents();
    var i := 0;
    while i < |xs|
      invariant 0 <= i <= |xs|
      invariant s.Valid() && s.members == old(s.members)
      invariant s.Contents() == RemoveAll(c, xs[..i])
      invariant other != s ==> unchanged(other) && other.members[..other.count] == xs
    {
      status := Remove(s, Some(xs[i]));
      RemoveAllStep(c, xs, i);
      i := i + 1;
    }
    assert xs[..|xs|] == xs;
    return Ok;
  }
}
