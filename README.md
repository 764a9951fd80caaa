# Employees: the prototype pattern, modelled in Dafny

This project models `Employees`, the one class of a teaching example of the
prototype pattern. An `Employees` holder keeps one `final` reference to a
mutable list of names. It can be built empty, or around a caller's list, which
it then shares with the caller. `loadData` appends four fixed names in place.
`getEmpList` hands out the live list. `clone` makes a new holder by a
field-by-field copy, so the clone shares the original's list: a shallow copy.

The Java list is modelled as a heap object, `Prototype.NameList`, with a
field `items: seq<string>` and a constant `growable: bool`. `Employees` is a
class with `const empList: NameList?`:
a Dafny `const` field cannot be reassigned after construction, so "no operation
rebinds the list" holds by construction. Identity and sharing are stated with
reference equality and `fresh`. In-place updates are stated with `modifies`
and `old`. The list-taking constructor accepts any `List<String>`, so the
held reference may be null and the list may be one that cannot grow
(`Arrays.asList(..)`, `List.of(..)`); `NameList.growable` tells the two kinds
of list apart. Java's exceptions become a `Result` value: `loadData` on a null
list throws `NullPointerException`, and on a list that cannot grow its first
`add` throws `UnsupportedOperationException`.

Files:
- `employees.dfy`, module `Prototype`: the two classes, the functions
  `AfterLoad` and `LoadTimes` that give the list contents after one and after
  `n` loads, and the lemmas about them.
- `clients.dfy`, module `Clients`: callers proved from the contracts alone.
  They cover loading once, twice and `n` times, sharing through the wrapping
  constructor, wrapping null or a fixed-size list, sharing through `clone`,
  cloning an empty holder, and the independence of a deep copy.

The list-taking constructor is called `Wrap`, since Dafny constructors of one
class need distinct names.

## Model

| member | source | states |
|---|---|---|
| Prototype.Employees.constructor | Creational/prototype/src/Employees.java:8-10 | the holder's list is freshly allocated, empty and growable |
| Prototype.Employees.Wrap | Creational/prototype/src/Employees.java:12-14 | the holder's list is the caller's list reference itself, null included; its names are not copied or changed |
| Prototype.Employees.LoadData | Creational/prototype/src/Employees.java:15-21 | only the held list may change; on a growable list it returns normally and the new contents are the old contents followed by "Pankaj", "Raj", "David", "Lisa"; on a null list it throws NullPointerException; on a list that cannot grow it throws UnsupportedOperationException and the contents are unchanged |
| Prototype.Employees.GetEmpList | Creational/prototype/src/Employees.java:23-25 | the returned list is the held list reference itself (null if the holder wraps null), not a copy, and nothing is modified |
| Prototype.Employees.Clone | Creational/prototype/src/Employees.java:27-32 | the result is a freshly allocated holder distinct from `this`; its list is the same reference as the original's, null included; no list contents change |
| Prototype.Employees.DeepCopy | Creational/prototype/src/Employees.java:29-30 | the commented-out alternative: a fresh holder with a fresh growable list, not aliased to the original's, holding equal names; a null list throws NullPointerException |
| Prototype.NameList.constructor | Creational/prototype/src/Employees.java:9 | `new ArrayList<String>()` gives an empty, growable list |
| Prototype.NameList.FixedSize | Creational/prototype/src/Employees.java:12 | a list the constructor may be handed that cannot grow, such as `List.of(..)`, holding the given names |
| Prototype.NameList.CopyOf | Creational/prototype/src/Employees.java:29 | `new ArrayList<String>(list)` is growable and holds the same names as `list` |
| Prototype.NameList.Add | Creational/prototype/src/Employees.java:17-20 | `add` on a growable list appends exactly one name at the end; on any other list it fails and changes nothing |
| Prototype.LoadTimesShape | Creational/prototype/src/Employees.java:15-21 | after `n` loads the old contents are a prefix, the length grew by exactly 4n, and the k-th added name is the (k mod 4)-th of the four names |
| Prototype.LoadTimesCounts | Creational/prototype/src/Employees.java:15-21 | with no guard, `n` loads add each of the four names exactly `n` more times, duplicates kept, and leave every other name's count alone |
| Clients.LoadOnceFromEmpty | Creational/prototype/src/Employees.java:8-25 | a fresh holder loaded once holds exactly ["Pankaj", "Raj", "David", "Lisa"] |
| Clients.LoadTwiceFromEmpty | Creational/prototype/src/Employees.java:15-21 | loading twice gives 8 names: the four repeated in order |
| Clients.LoadRepeatedly | Creational/prototype/src/Employees.java:15-21 | `n` successive loads on a growable list leave exactly `LoadTimes(old names, n)`; on a list that cannot grow the first throws and nothing changes; on a null list the first throws NullPointerException |
| Clients.LoadManyFromEmpty | Creational/prototype/src/Employees.java:15-21 | a fresh holder loaded `n` times holds 4n names, "Pankaj" and "Lisa" each exactly `n` times |
| Clients.WrappedNullThrowsOnLoad | Creational/prototype/src/Employees.java:12-25 | a holder around null hands out null, its clone holds null, and loading throws NullPointerException |
| Clients.WrappedFixedSizeThrowsOnLoad | Creational/prototype/src/Employees.java:12-21 | a holder around a fixed-size list throws UnsupportedOperationException on load and leaves the list's names as they were |
| Clients.WrappedListIsShared | Creational/prototype/src/Employees.java:12-14 | a name the caller appends to its own list after wrapping is seen through the holder's getter |
| Clients.CloneSharesList | Creational/prototype/src/Employees.java:27-32 | the clone is a different holder, and names loaded through the clone are seen through the original |
| Clients.CloneOfEmptyIsEmpty | Creational/prototype/src/Employees.java:27-32 | cloning a holder that wraps an empty list gives a holder whose list is empty |
| Clients.DeepCopyIsIndependent | Creational/prototype/src/Employees.java:29-30 | loading through a deep copy leaves the original's names unchanged |

## Left out

- Java's reflective `Object.clone` (Employees.java:31) is modelled as an explicit field-by-field copy: a new holder that receives the same list reference.
- The `CloneNotSupportedException` path of `clone` is not modelled: `clone` declares `throws CloneNotSupportedException` (Employees.java:28), but the class implements `Cloneable` (Employees.java:4), so `Object.clone` cannot throw it.
- The database that the comment in `loadData` mentions (Employees.java:16) does not exist in the code; `loadData` is modelled as the four literal appends.
- The internals of `java.util.ArrayList` (capacity, growth, `modCount`) are not modelled; the list is an abstract sequence held in a heap object.
- Of the lists that cannot grow, only the "every `add` throws" behaviour is modelled; other `List` implementations with unusual `add` semantics (capacity-bounded or element-rejecting lists) are not.
- Concurrent mutation of one list shared by two holders is not modelled; the example is single-threaded.
