/** The test programs of tests/main.c, which call the interface of
    src/stringset.c directly: each is a method that drives the model the way
    the test drives the library, and its postcondition is what the test
    asserts. An allocation may fail at any call, so each program returns
    the first failure it meets, and the assertions are promised for the run
    in which nothing failed. */
module MainPrograms {
  import opened Members
  import opened StringSets

  /** `test_alloc_and_free` (tests/main.c:8-19): a new set has count 0, and
      freeing it clears the caller's pointer. */
  method AllocAndFree() returns (result: Status, count: int, cleared: bool)
    ensures result == Ok || result == Fail(ENOMEM)
    ensures result == Ok ==> count == 0 && cleared
  {
    var h := new Handle(null);
    result := Alloc(h);
    if result.Fail? {
      return result, 0, false;
    }
    count := h.target.count;
    Free(h);
    cleared := h.target == null;
  }

  /** `test_add_one_member` (tests/main.c:22-35): after adding "foo" the
      count is 1 and "foo" is a member. */
  method AddOneMember() returns (result: Status, count: int, found: bool)
    ensures result == Ok || result == Fail(ENOMEM)
    ensures result == Ok ==> count == 1 && found
  {
    var h := new Handle(null);
    result := Alloc(h);
    if result.Fail? {
      return result, 0, false;
    }
    var strset := h.target;
    result := Add(strset, Some("foo"));
    if result.Fail? {
      Free(h);
      return result, 0, false;
    }
    count := strset.count;
    var status;
    found, status := Contains(strset, Some("foo"));
    assert strset.members[0] == "foo";
    Free(h);
  }

  /** `test_add_same_member_multiple_times` (tests/main.c:38-61): adding
      "foo" three times leaves count 1 after each add. `adds` counts the
      adds that returned 0: only the allocation and the first add can fail,
      because adding a member again returns 0 before allocating anything
      (src/stringset.c:48). */
  method AddSameMemberMultipleTimes() returns (result: Status, adds: int, counts: seq<int>, found: bool)
    ensures result == Ok || result == Fail(ENOMEM)
    ensures result == Ok ==> adds == 3 && counts == [1, 1, 1] && found
    ensures result.Fail? ==> adds == 0 && counts == []
  {
    var h := new Handle(null);
    result := Alloc(h);
    if result.Fail? {
      return result, 0, [], false;
    }
    var strset := h.target;
    counts := [];
    adds := 0;
    while adds < 3
      invariant 0 <= adds <= 3 && |counts| == adds
      invariant result == Ok && strset.Valid()
      invariant strset.Contents() == if adds == 0 then [] else ["foo"]
      invariant forall k :: 0 <= k < adds ==> counts[k] == 1
    {
      result := Add(strset, Some("foo"));
      if result.Fail? {
        Free(h);
        return result, adds, [], false;
      }
      counts := counts + [strset.count];
      adds := adds + 1;
    }
    var status;
    found, status := Contains(strset, Some("foo"));
    assert strset.members[0] == "foo";
    Free(h);
  }

  /** `test_add_one_hundred_members` (tests/main.c:64-88): adding one
      hundred distinct strings one after another gives count 100, and each
      probe is found exactly when it is one of them. The test formats the
      numbers 1 to 100 as its strings and probes "0", "1", "50", "100" and
      "101"; here the strings and the probes are parameters. */
  method AddOneHundredMembers(names: seq<string>, probes: seq<string>)
    returns (result: Status, count: int, found: seq<bool>)
    requires |names| == 100 && NoDuplicates(names)
    ensures result == Ok || result == Fail(ENOMEM)
    ensures result == Ok ==> count == 100 && |found| == |probes|
    ensures result == Ok ==> forall k :: 0 <= k < |probes| ==> (found[k] <==> probes[k] in names)
  {
    var h := new Handle(null);
    result := Alloc(h);
    if result.Fail? {
      return result, 0, [];
    }
    var strset := h.target;
    var i := 0;
    while i < |names|
      invariant 0 <= i <= |names| && result == Ok
      invariant strset.Valid() && strset.Contents() == names[..i]
    {
      result := Add(strset, Some(names[i]));
      if result.Fail? {
        Free(h);
        return result, 0, [];
      }
      assert names[i] !in names[..i];
      assert names[..i + 1] == names[..i] + [names[i]];
      i := i + 1;
    }
    assert strset.Contents() == names;
    count := strset.count;
    found := [];
    var k := 0;
    while k < |probes|
      invariant 0 <= k <= |probes| && |found| == k
      invariant strset.Valid() && strset.Contents() == names
      invariant forall j :: 0 <= j < k ==> (found[j] <==> probes[j] in names)
    {
      var hit, status := Contains(strset, Some(probes[k]));
      found := found + [hit];
      k := k + 1;
    }
    Free(h);
  }
}
