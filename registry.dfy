/**
 * The registry: the fixed-capacity global array of named tests that every
 * `TEST(NAME)` declaration appends to before the runner starts, and the
 * by-name selection `enable_test` performs on it.
 */
module Registry {
  import opened Assertions

  /** The default of `TEST_COUNT`, the capacity of the global array; a
      program may define its own before including the header. */
  const TestCount := 256

  datatype Option<T> = None | Some(value: T)

  /** The header's `NamedTest`: the function pointer is replaced by the
      body the test executes. */
  datatype NamedTest = NamedTest(name: string, body: seq<Step>, toRun: bool)

  function Names(entries: seq<NamedTest>): seq<string> {
    seq(|entries|, i requires 0 <= i < |entries| => entries[i].name)
  }

  /** `entries[i]` is the first entry called `name`. */
  predicate IsFirstMatch(entries: seq<NamedTest>, name: string, i: int) {
    0 <= i < |entries| && entries[i].name == name &&
    forall k :: 0 <= k < i ==> entries[k].name != name
  }

  /** The index of the first entry called `name`, if there is one. */
  function FindFirst(entries: seq<NamedTest>, name: string): (r: Option<nat>)
    ensures r.Some? <==> exists i :: 0 <= i < |entries| && entries[i].name == name
    ensures r.Some? ==> IsFirstMatch(entries, name, r.value)
    decreases |entries|
  {
    if entries == [] then None
    else if entries[0].name == name then Some(0)
    else match FindFirst(entries[1..], name)
      case None => None
      case Some(j) => Some(j + 1)
  }

  /** Where a first match exists, it is the only index that is one. */
  lemma FirstMatchUnique(entries: seq<NamedTest>, name: string, i: int)
    ensures IsFirstMatch(entries, name, i) <==> FindFirst(entries, name) == Some(i)
  {
    if IsFirstMatch(entries, name, i) {
      var r := FindFirst(entries, name);
      assert r.Some?;
    }
  }

  /** The state `enable_test(name)` leaves behind: the first entry called
      `name` is marked to run; nothing else changes. */
  function Enable(entries: seq<NamedTest>, name: string): (r: seq<NamedTest>)
    ensures |r| == |entries|
    ensures forall i :: 0 <= i < |r| ==> r[i].name == entries[i].name && r[i].body == entries[i].body
    ensures forall i :: 0 <= i < |r| ==> (r[i].toRun <==> entries[i].toRun || IsFirstMatch(entries, name, i))
  {
    match FindFirst(entries, name)
    case None => entries
    case Some(j) =>
      assert forall i :: IsFirstMatch(entries, name, i) ==> i == j by {
        forall i | IsFirstMatch(entries, name, i) ensures i == j {
          FirstMatchUnique(entries, name, i);
        }
      }
      entries[j := entries[j].(toRun := true)]
  }

  /** Entries that agree on everything but the selection flag. */
  predicate SameTests(a: seq<NamedTest>, b: seq<NamedTest>) {
    |a| == |b| &&
    forall i :: 0 <= i < |a| ==> a[i].name == b[i].name && a[i].body == b[i].body
  }

  /** Lookup by name ignores the selection flags. */
  lemma FindFirstIgnoresFlags(a: seq<NamedTest>, b: seq<NamedTest>, name: string)
    requires SameTests(a, b)
    ensures FindFirst(a, name) == FindFirst(b, name)
  {
    var ra, rb := FindFirst(a, name), FindFirst(b, name);
    if ra.Some? {
      assert b[ra.value].name == name;
      FirstMatchUnique(b, name, ra.value);
    }
  }

  /** An unknown name leaves the registry as it was. */
  lemma EnableUnknown(entries: seq<NamedTest>, name: string)
    requires FindFirst(entries, name).None?
    ensures Enable(entries, name) == entries
  {
    var r := Enable(entries, name);
    assert forall i :: 0 <= i < |r| ==> r[i] == entries[i];
  }

  /** Enabling a test twice is the same as enabling it once. */
  lemma EnableIdempotent(entries: seq<NamedTest>, name: string)
    ensures Enable(Enable(entries, name), name) == Enable(entries, name)
  {
    var once := Enable(entries, name);
    var twice := Enable(once, name);
    forall i | 0 <= i < |once| ensures twice[i] == once[i] {
      if IsFirstMatch(once, name, i) {
        assert IsFirstMatch(entries, name, i);
      }
    }
  }

  /** The order in which names are enabled does not matter. */
  lemma EnableCommutes(entries: seq<NamedTest>, a: string, b: string)
    ensures Enable(Enable(entries, a), b) == Enable(Enable(entries, b), a)
  {
    var ea, eb := Enable(entries, a), Enable(entries, b);
    var ab, ba := Enable(ea, b), Enable(eb, a);
    forall i | 0 <= i < |ab| ensures ab[i] == ba[i] {
      assert IsFirstMatch(ea, b, i) <==> IsFirstMatch(entries, b, i);
      assert IsFirstMatch(eb, a, i) <==> IsFirstMatch(entries, a, i);
    }
  }

  /** The global `tests` array of `capacity` slots (`TEST_COUNT`) and the
      counter `num_tests`. */
  class TestRegistry {
    const capacity: nat
    const tests: array<NamedTest>
    var numTests: int

    ghost predicate Valid()
      reads this
    {
      tests.Length == capacity && 0 <= numTests <= capacity
    }

    /** The registered tests, in registration order. */
    ghost function Entries(): seq<NamedTest>
      reads this, tests
      requires Valid()
    {
      tests[..numTests]
    }

    /** The zero-initialised static array of `TEST_COUNT` slots and
        `num_tests = 0`. */
    constructor (testCount: nat)
      ensures Valid() && fresh(tests)
      ensures capacity == testCount && Entries() == []
    {
      capacity := testCount;
      tests := new NamedTest[testCount](_ => NamedTest("", [], false));
      numTests := 0;
    }

    /** The `register_NAME` function a `TEST(NAME)` declaration generates:
        the new entry goes at index `num_tests`, not selected, and the
        counter goes up by one. Past the capacity the C code writes outside
        the array, so the caller must stay below it. */
    method Register(name: string, body: seq<Step>)
      requires Valid() && numTests < capacity
      modifies this, tests
      ensures Valid()
      ensures numTests == old(numTests) + 1
      ensures Entries() == old(Entries()) + [NamedTest(name, body, false)]
    {
      tests[numTests] := NamedTest(name, body, false);
      numTests := numTests + 1;
    }

    /** `enable_test`: a linear scan for the first entry called `name`,
        which is then marked to run. */
    method EnableTest(name: string) returns (found: bool)
      requires Valid()
      modifies tests
      ensures Valid()
      ensures found <==> exists i :: 0 <= i < |old(Entries())| && old(Entries())[i].name == name
      ensures Entries() == Enable(old(Entries()), name)
    {
      var i := 0;
      while i < numTests
        invariant 0 <= i <= numTests
        invariant forall k :: 0 <= k < i ==> tests[k].name != name
        invariant tests[..] == old(tests[..])
      {
        if tests[i].name == name {
          assert IsFirstMatch(Entries(), name, i);
          FirstMatchUnique(Entries(), name, i);
          tests[i] := tests[i].(toRun := true);
          assert Entries() == old(Entries())[i := old(Entries())[i].(toRun := true)];
          return true;
        }
        i := i + 1;
      }
      assert FindFirst(Entries(), name).None?;
      return false;
    }

    /** `test_names`: the names it prints, one per line, in registration
        order; it returns 0. */
    method TestNames() returns (code: int, names: seq<string>)
      requires Valid()
      ensures code == 0
      ensures names == Names(Entries())
    {
      names := [];
      var i := 0;
      while i < numTests
        invariant 0 <= i <= numTests
        invariant names == Names(tests[..i])
      {
        assert tests[..i + 1] == tests[..i] + [tests[i]];
        names := names + [tests[i].name];
        i := i + 1;
      }
      code := 0;
    }
  }
}
