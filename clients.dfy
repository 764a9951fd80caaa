/**
 * Callers of `Employees`, proved from its contracts alone: what a client of
 * the prototype example can rely on about loading, wrapping and cloning.
 */
module Clients {
  import opened Prototype

  /** A fresh holder loaded once holds exactly the four names. */
  method LoadOnceFromEmpty() returns (names: seq<string>)
    ensures names == ["Pankaj", "Raj", "David", "Lisa"]
  {
    var e := new Employees();
    var _ := e.LoadData();
    var list := e.GetEmpList();
    names := list.items;
  }

  /** Loading twice keeps the first four names and adds the same four again. */
  method LoadTwiceFromEmpty() returns (names: seq<string>)
    ensures |names| == 8
    ensures names == ["Pankaj", "Raj", "David", "Lisa", "Pankaj", "Raj", "David", "Lisa"]
  {
    var e := new Employees();
    var _ := e.LoadData();
    var _ := e.LoadData();
    var list := e.GetEmpList();
    names := list.items;
  }

  /**
   * Calling `loadData` `n` times in a row, stopping at the first exception:
   * on a growable list the names become `LoadTimes` of the old names; on a
   * list that cannot grow nothing changes and the first call throws; on a
   * null list the first call throws.
   */
  method LoadRepeatedly(e: Employees, n: nat) returns (r: Result<()>)
    modifies e.empList
    ensures n == 0 ==> r == Ok(())
    ensures n > 0 && e.empList == null ==> r == Threw(NullPointer)
    ensures e.empList != null && e.empList.growable ==>
              r == Ok(()) && e.empList.items == LoadTimes(old(e.empList.items), n)
    ensures n > 0 && e.empList != null && !e.empList.growable ==>
              r == Threw(UnsupportedOperation) && e.empList.items == old(e.empList.items)
  {
    var i := 0;
    r := Ok(());
    while i < n && r.Ok?
      invariant 0 <= i <= n
      invariant i == 0 ==> r == Ok(())
      invariant i > 0 && e.empList == null ==> r == Threw(NullPointer)
      invariant e.empList != null && e.empList.growable ==>
                  r == Ok(()) && e.empList.items == LoadTimes(old(e.empList.items), i)
      invariant i > 0 && e.empList != null && !e.empList.growable ==>
                  r == Threw(UnsupportedOperation)
      invariant e.empList != null && !e.empList.growable ==>
                  e.empList.items == old(e.empList.items)
    {
      r := e.LoadData();
      i := i + 1;
    }
  }

  /** Loading a fresh holder `n` times gives `4 * n` names, each of the four exactly `n` times. */
  method LoadManyFromEmpty(n: nat) returns (names: seq<string>)
    ensures |names| == 4 * n
    ensures multiset(names)["Pankaj"] == n && multiset(names)["Lisa"] == n
  {
    var e := new Employees();
    var _ := LoadRepeatedly(e, n);
    var list := e.GetEmpList();
    names := list.items;
    LoadTimesShape([], n);
    LoadTimesCounts([], n, "Pankaj");
    LoadTimesCounts([], n, "Lisa");
  }

  /**
   * A holder built around a caller's list shares it: a name the caller
   * appends to its own list afterwards is seen through the holder.
   */
  method WrappedListIsShared(name: string) returns (seen: seq<string>)
    ensures seen == [name]
  {
    var mine := new NameList();
    var e := new Employees.Wrap(mine);
    var _ := mine.Add(name);
    var list := e.GetEmpList();
    seen := list.items;
  }

  /**
   * A holder may wrap null: getting the list gives null back, cloning
   * shares the null, and loading throws NullPointerException.
   */
  method WrappedNullThrowsOnLoad() returns (list: NameList?, cloned: NameList?, r: Result<()>)
    ensures list == null && cloned == null
    ensures r == Threw(NullPointer)
  {
    var e := new Employees.Wrap(null);
    list := e.GetEmpList();
    var copy := e.Clone();
    cloned := copy.GetEmpList();
    r := e.LoadData();
  }

  /**
   * A holder around a fixed-size list such as `List.of(..)` throws
   * UnsupportedOperationException on load and keeps the list's names.
   */
  method WrappedFixedSizeThrowsOnLoad(names: seq<string>) returns (r: Result<()>, after: seq<string>)
    ensures r == Threw(UnsupportedOperation)
    ensures after == names
  {
    var fixed := new NameList.FixedSize(names);
    var e := new Employees.Wrap(fixed);
    r := e.LoadData();
    after := fixed.items;
  }

  /**
   * A clone is a different holder with the same list: loading through the
   * clone is seen through the original.
   */
  method CloneSharesList() returns (distinct: bool, viaOriginal: seq<string>)
    ensures distinct
    ensures viaOriginal == ["Pankaj", "Raj", "David", "Lisa"]
  {
    var original := new Employees();
    var copy := original.Clone();
    distinct := copy != original;
    var _ := copy.LoadData();
    var list := original.GetEmpList();
    viaOriginal := list.items;
  }

  /** Cloning a holder that wraps an empty list gives a holder whose list is empty. */
  method CloneOfEmptyIsEmpty() returns (names: seq<string>)
    ensures names == []
  {
    var empty := new NameList();
    var e := new Employees.Wrap(empty);
    var copy := e.Clone();
    var list := copy.GetEmpList();
    names := list.items;
  }

  /**
   * By contrast, the deep copy is independent: loading through it leaves the
   * original's names as they were.
   */
  method DeepCopyIsIndependent() returns (original: seq<string>, copied: seq<string>)
    ensures original == ["Pankaj", "Raj", "David", "Lisa"]
    ensures copied == original + original
  {
    var e := new Employees();
    var _ := e.LoadData();
    var r := e.DeepCopy();
    var copy := r.value;
    var _ := copy.LoadData();
    var list := e.GetEmpList();
    original := list.items;
    list := copy.GetEmpList();
    copied := list.items;
  }
}
