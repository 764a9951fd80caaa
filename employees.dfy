/**
 * The `Employees` holder of the prototype-pattern example: a container with
 * one final reference to a mutable, ordered list of employee names, which it
 * can load with four fixed names, hand out by reference, and clone by a
 * shallow (field-by-field) copy.
 *
 * The list is a heap object (`NameList`) so that reference identity, sharing
 * and in-place mutation are stated directly with `==` on references, `fresh`
 * and `old`.
 */
module Prototype {

  /** The unchecked exceptions the holder's operations can raise. */
  datatype Exception = NullPointer | UnsupportedOperation

  /** What a Java call does: return normally with a value, or throw. */
  datatype Result<T> = Ok(value: T) | Threw(error: Exception)

  /** The names `loadData` appends, in the order it appends them. */
  const DefaultNames: seq<string> := ["Pankaj", "Raj", "David", "Lisa"]

  /** The list contents after one `loadData` on a list holding `s`. */
  function AfterLoad(s: seq<string>): seq<string>
  {
    s + DefaultNames
  }

  /** The list contents after `n` successive `loadData` calls on a list holding `s`. */
  function LoadTimes(s: seq<string>, n: nat): seq<string>
  {
    if n == 0 then s else AfterLoad(LoadTimes(s, n - 1))
  }

  /**
   * Loading never disturbs what was there: the old contents stay a prefix,
   * and each call adds exactly four names, the k-th added name being
   * `DefaultNames[k % 4]` (the four names repeated, in order, with
   * duplicates kept).
   */
  lemma {:induction false} LoadTimesShape(s: seq<string>, n: nat)
    ensures |LoadTimes(s, n)| == |s| + 4 * n
    ensures LoadTimes(s, n)[..|s|] == s
    ensures forall k :: 0 <= k < 4 * n ==> LoadTimes(s, n)[|s| + k] == DefaultNames[k % 4]
  {
    if n > 0 {
      LoadTimesShape(s, n - 1);
      var prev := LoadTimes(s, n - 1);
      var next := LoadTimes(s, n);
      assert next == prev + DefaultNames;
      forall k | 0 <= k < 4 * n
        ensures next[|s| + k] == DefaultNames[k % 4]
      {
        if k >= 4 * (n - 1) {
          var j := k - 4 * (n - 1);
          assert k == 4 * (n - 1) + j && 0 <= j < 4;
          assert k % 4 == j;
        }
      }
    }
  }

  /**
   * `loadData` has no guard against repeats: after `n` calls every one of
   * the four names occurs `n` more times than before, and every other name
   * occurs as often as before.
   */
  lemma {:induction false} LoadTimesCounts(s: seq<string>, n: nat, name: string)
    ensures multiset(LoadTimes(s, n))[name] ==
              multiset(s)[name] + (if name in DefaultNames then n else 0)
  {
    if n > 0 {
      LoadTimesCounts(s, n - 1, name);
      var prev := LoadTimes(s, n - 1);
      assert LoadTimes(s, n) == prev + DefaultNames;
      assert multiset(prev + DefaultNames) == multiset(prev) + multiset(DefaultNames);
      assert multiset(DefaultNames) == multiset{"Pankaj", "Raj", "David", "Lisa"};
    }
  }

  /**
   * A `java.util.List<String>` on the heap: an ordered list of names. Not
   * every list can grow: `growable` is false for fixed-size and unmodifiable
   * lists (`Arrays.asList(..)`, `List.of(..)`), whose `add` throws.
   */
  class NameList {
    var items: seq<string>
    const growable: bool

    /** `new ArrayList<String>()`: a fresh, empty, growable list. */
    constructor ()
      ensures items == [] && growable
    {
      items := [];
      growable := true;
    }

    /** A fixed-size or unmodifiable list holding `names`, such as `List.of(..)`. */
    constructor FixedSize(names: seq<string>)
      ensures items == names && !growable
    {
      items := names;
      growable := false;
    }

    /** `new ArrayList<String>(other)`: a fresh, growable list holding a copy of `other`'s names. */
    constructor CopyOf(other: NameList)
      ensures items == other.items && growable
    {
      items := other.items;
      growable := true;
    }

    /**
     * `add`: on a growable list, appends one name at the end, in place, and
     * reports success; on any other list it throws and changes nothing.
     */
    method Add(name: string) returns (ok: bool)
      modifies this
      ensures ok == growable
      ensures items == if growable then old(items) + [name] else old(items)
    {
      ok := growable;
      if ok {
        items := items + [name];
      }
    }
  }

  /**
   * The holder. `empList` is `final`: a `const`, so no operation rebinds it.
   * It may be null, since the list-taking constructor accepts null.
   */
  class Employees {
    const empList: NameList?

    /** The no-argument constructor: the holder owns a freshly allocated, empty, growable list. */
    constructor ()
      ensures empList != null && fresh(empList)
      ensures empList.items == [] && empList.growable
    {
      empList := new NameList();
    }

    /**
     * The list-taking constructor: the holder stores the caller's reference
     * itself, null included, and copies nothing, so the caller and the
     * holder see the same list from now on.
     */
    constructor Wrap(list: NameList?)
      ensures empList == list
      ensures list != null ==> list.items == old(list.items)
    {
      empList := list;
    }

    /**
     * `loadData`: appends "Pankaj", "Raj", "David", "Lisa", in that order, to
     * the held list, in place; only that list's contents change. A null list
     * throws NullPointerException; a list that cannot grow throws
     * UnsupportedOperationException at the first `add`, before anything changed.
     */
    method LoadData() returns (r: Result<()>)
      modifies empList
      ensures empList == null ==> r == Threw(NullPointer)
      ensures empList != null && empList.growable ==>
                r == Ok(()) && empList.items == AfterLoad(old(empList.items))
      ensures empList != null && !empList.growable ==>
                r == Threw(UnsupportedOperation) && empList.items == old(empList.items)
    {
      if empList == null {
        return Threw(NullPointer);
      }
      var ok := empList.Add("Pankaj");
      if ok { ok := empList.Add("Raj"); }
      if ok { ok := empList.Add("David"); }
      if ok { ok := empList.Add("Lisa"); }
      r := if ok then Ok(()) else Threw(UnsupportedOperation);
    }

    /** `getEmpList`: the live list itself (null if the holder wraps null), not a copy; nothing changes. */
    method GetEmpList() returns (list: NameList?)
      ensures list == empList
    {
      list := empList;
    }

    /**
     * `clone`: a field-by-field copy. The result is a new holder, distinct
     * from this one, whose list is this holder's very list (null if this
     * one's is); nothing is modified.
     */
    method Clone() returns (copy: Employees)
      ensures fresh(copy) && copy != this
      ensures copy.empList == empList
      ensures empList != null ==> empList.items == old(empList.items)
    {
      copy := new Employees.Wrap(empList);
    }

    /**
     * The deep-copy alternative left commented out in `clone`: a new holder
     * wrapping a new, growable list with the same names, so the two share
     * nothing. Copying a null list throws NullPointerException.
     */
    method DeepCopy() returns (r: Result<Employees>)
      ensures empList == null ==> r == Threw(NullPointer)
      ensures empList != null ==>
                r.Ok? && fresh(r.value) && r.value.empList != null && fresh(r.value.empList) &&
                r.value.empList != empList &&
                r.value.empList.items == empList.items && r.value.empList.growable
      ensures empList != null ==> empList.items == old(empList.items)
    {
      var list := GetEmpList();
      if list == null {
        return Threw(NullPointer);
      }
      var temp := new NameList.CopyOf(list);
      var copy := new Employees.Wrap(temp);
      r := Ok(copy);
    }
  }
}
