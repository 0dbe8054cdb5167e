# CustomArray<T> — a verified model

`CustomArray<T>` (namespace `ArrayEvent`) is a fixed-length container whose
logical indices start at an arbitrary `First` rather than at 0. It has three
constructors: by length, from a `params T[]` and from an `IEnumerable<T>`. Its
indexer `this[int]` maps logical index `i` to storage slot `i - First`. The
setter writes in place and may then raise two events, in order:
`OnChangeElement` when the stored value changed, and `OnChangeEqualElement`
when the new value also equals its index. `GetEnumerator` walks the storage in
storage order.

The project has three modules:

- `CustomArrayModel` (array_model.dfy) holds the observable state of an
  instance as a value, `Snapshot<T>`. It has a function for each constructor,
  the getter, the setter, the `Array` property and the enumeration, plus the
  notification policy (`Notifications`). The exceptions are an `Error`
  datatype returned in a `Result`/`Outcome`. A null reference is `None`.
- `ArrayEvent` (custom_array.dfy) holds the class `CustomArray<T>`. Its
  storage is an `array`, and the setter overwrites one slot in place and
  appends handler invocations to an event log. A failing constructor becomes
  a static factory method that returns `Err`. The factories, `Get`, `Set`,
  `GetArray` and `GetEnumerator` are proved against their functions in
  `CustomArrayModel`; `SetHandler`, which stands for the events' add and
  remove accessors, has a contract of its own.
- `IndexerTraces` (indexer_traces.dfy) looks at arbitrary sequences of
  indexer calls. It proves that they never reach storage slot 0 and never
  change the instance's shape. It proves that they only append to the event
  log, and only invocations the policy allows. On an instance built from an
  `IEnumerable<T>` they change nothing at all.

The bounds check is `item <= First || item >= First + Length`. It rejects
`First` itself but accepts `Last = First + Length - 1`, so the indices the
indexer accepts are `First + 1 .. Last`. Storage slot 0 is unreachable through
the indexer, though enumeration still yields it. An instance of length 1
accepts no index at all. The model reproduces this exactly.

Two of the class's behaviours are foreign code, and the model makes them
parameters. `default(T)` is the `defaultValue` parameter of the by-length
constructor. `value.Equals(item)`, comparing an element with an `int` index,
is the `equalsIndex` parameter of the setter. `value.Equals(oldValue)` is
Dafny equality on `Option<T>`.

## Model

| member | source | states |
|---|---|---|
| `CustomArrayModel.Slot` | CustomArray.cs:127-129 | the bounds check accepts `item` exactly when `First < item <= Last`; an accepted index maps to slot `item - First`, which lies in `1 .. Length-1`, never 0 |
| `CustomArrayModel.FromLength` | CustomArray.cs:75-80 | construction by length succeeds exactly when `length > 0` (otherwise the Length setter's `ArgumentException("Value < 0")`); then `First == first`, `Length == length`, `Last == first + length - 1`, every slot holds `default(T)`, storage is a `T[]` and nothing is logged |
| `CustomArrayModel.FromParams` | CustomArray.cs:106-113 | a null list gives `ArgumentNullException("list")`, an empty one `ArgumentException("List is empty")`; otherwise it succeeds with the list's elements as storage, `Length` its count and `First == first` |
| `CustomArrayModel.FromEnumerable` | CustomArray.cs:89-97 | a null input gives `NullReferenceException("List is null")`; an input that is not a `List<T>` also ends in a `NullReferenceException`; an empty list gives `ArgumentException("Count < 0")`; otherwise it succeeds with the list as storage, `Length` its count, `First == first`, and storage that is not a `T[]` |
| `CustomArrayModel.IndexerGet` | CustomArray.cs:125-130 | a read succeeds exactly when the storage is a `T[]` and `First < item <= Last`, and then returns slot `item - First`; the bounds error comes first and is raised exactly when the index is out of range; the only other error is the null dereference on `List<T>` storage |
| `CustomArrayModel.Notifications` | CustomArray.cs:139-146 | no invocation when the new value equals the old one, even if it equals the index, and none when no handler is attached; otherwise `OnChangeElement(item, "The value has been changed", value)` is present exactly when it has a handler, and `OnChangeEqualElement` with the same payload exactly when it has a handler and the value equals the index; each subscription is checked on its own; at most two invocations, in that order |
| `CustomArrayModel.IndexerSet` | CustomArray.cs:131-149 | a write succeeds exactly when the index is in range, the value is non-null and the storage is a `T[]`; the range error comes before the null error, which comes before the null dereference; a failed write changes nothing and logs nothing; a successful one replaces only slot `item - First` (even with an equal value), after which a read at `item` returns the value, and appends exactly the policy's notifications; `First`, `Length` and the handlers never change |
| `CustomArrayModel.ArrayView` | CustomArray.cs:63-66 | the `Array` property succeeds exactly when the storage is a `T[]` (otherwise an invalid cast), and then yields the whole storage, slot 0 included, the same sequence enumeration yields, agreeing with the indexer at every accepted index |
| `CustomArrayModel.Enumerate` | CustomArray.cs:155-158 | enumeration yields every storage slot in storage order, slot 0 included, for either kind of storage; on `T[]` storage it agrees with the indexer at every accepted index |
| `CustomArrayModel.ParamsEnumerated` | CustomArray.cs:106-113 | an instance built from a non-empty `params` array enumerates exactly that array |
| `CustomArrayModel.ListEnumerated` | CustomArray.cs:89-97 | an instance built from a non-empty `List<T>` enumerates exactly that list |
| `CustomArrayModel.LengthEnumerated` | CustomArray.cs:75-80 | an instance built with length `n > 0` enumerates `n` copies of `default(T)` |
| `CustomArrayModel.SingleElementUnreachable` | CustomArray.cs:127 | on an instance of length 1 every index is rejected by the bounds check |
| `CustomArrayModel.BoundsExample` | CustomArray.cs:127 | with `First = 5` and length 3, the indexer accepts exactly 6 and 7 (= `Last`) |
| `CustomArrayModel.BothEventsExample` | CustomArray.cs:139-146 | writing 2 at index 2 over 3, with both events handled, fires `OnChangeElement` then `OnChangeEqualElement` with the same payload |
| `ArrayEvent.CustomArray.Model` | CustomArray.cs:29-42 | the observable state has `Length == length` and `Last == First + Length - 1` |
| `ArrayEvent.CustomArray.Init` | CustomArray.cs:9-11 | the new instance holds the given first index, length and storage, with no handler attached and an empty log |
| `ArrayEvent.CustomArray.FromLength` | CustomArray.cs:75-80 | fails exactly as `CustomArrayModel.FromLength` does; on success returns a fresh instance with fresh storage whose state is the one that function gives |
| `ArrayEvent.CustomArray.FromParams` | CustomArray.cs:106-113 | fails exactly as `CustomArrayModel.FromParams` does; on success returns a fresh instance whose state is the one that function gives |
| `ArrayEvent.CustomArray.FromEnumerable` | CustomArray.cs:89-97 | fails exactly as `CustomArrayModel.FromEnumerable` does; on success returns a fresh instance whose state is the one that function gives |
| `ArrayEvent.CustomArray.SetHandler` | CustomArray.cs:19-24 | attaching a handler to one event, or removing its last handler, sets only that event's subscription and changes nothing else |
| `ArrayEvent.CustomArray.Get` | CustomArray.cs:125-130 | the read returns `CustomArrayModel.IndexerGet` of the current state: success exactly for `First < item <= Last` on `T[]` storage, with the stored slot `item - First`; it changes no state |
| `ArrayEvent.CustomArray.Set` | CustomArray.cs:131-149 | the in-place write leaves the instance in exactly the state `CustomArrayModel.IndexerSet` gives from the old state, and returns that function's outcome |
| `ArrayEvent.CustomArray.GetArray` | CustomArray.cs:63-66 | the `Array` property returns `CustomArrayModel.ArrayView` of the current state |
| `ArrayEvent.CustomArray.GetEnumerator` | CustomArray.cs:155-158 | the enumeration is `CustomArrayModel.Enumerate` of the current state |
| `IndexerTraces.Apply` | CustomArray.cs:123-150 | one indexer call, a read or a write, keeps `First`, `Length`, the kind of storage and both subscriptions |
| `IndexerTraces.StepLogsPermitted` | CustomArray.cs:139-146 | one indexer call only appends to the event log, and only invocations the notification policy permits |
| `IndexerTraces.Run` | CustomArray.cs:123-150 | any sequence of indexer calls keeps `First`, `Length`, the kind of storage and both subscriptions |
| `IndexerTraces.SlotZeroNeverWritten` | CustomArray.cs:133-137 | no sequence of indexer calls changes storage slot 0 |
| `IndexerTraces.LoggedEventsPermitted` | CustomArray.cs:139-146 | the event log only grows, and every appended invocation has an index in `First+1 .. Last`, the message "The value has been changed", a handler attached to its event, and for `OnChangeEqualElement` a value equal to its index |
| `IndexerTraces.AtMostTwoEventsPerCall` | CustomArray.cs:139-146 | `n` indexer calls append at most `2n` invocations |
| `IndexerTraces.UnobservedCallsLogNothing` | CustomArray.cs:141-145 | with no handler attached, no sequence of calls logs anything |
| `IndexerTraces.ListBackedIsInert` | CustomArray.cs:128-136 | on an instance built from an `IEnumerable<T>`, no sequence of indexer calls changes anything |
| `IndexerTraces.ListEnumeratedAfterCalls` | CustomArray.cs:89-97 | an instance built from a `List<T>` still enumerates that list after any sequence of indexer calls |
| `IndexerTraces.FirstEnumeratedUnchanged` | CustomArray.cs:133-137 | after any sequence of indexer calls, the first element enumerated is the one the instance started with |
| `IndexerTraces.RepeatedWriteIsSilent` | CustomArray.cs:136-139 | writing the same value a second time at the same index succeeds, changes nothing and fires nothing, even when the value equals the index |

## Left out

- Delegates and multicast invocation lists are not modelled. Each event is a flag, true when the delegate is non-null. `SetHandler(kind, true)` stands for a `+=`, and `SetHandler(kind, false)` for the `-=` that removes the last remaining handler; a `-=` that leaves other handlers attached keeps the delegate non-null and is not an operation of the model. The `sender` argument and what handlers do are foreign code. An invocation is an `Event` record appended to a log.
- Aliasing is not modelled. The `params` and `IEnumerable` constructors keep the caller's own array or list, and `Array` returns the backing array itself. The model copies into storage the instance owns, and `GetArray` returns a snapshot. A caller's later writes through its own reference are not modelled.
- Runtime types are reduced to a flag. `backedByArray` records whether the storage is a `T[]`. It decides the indexer's `array as T[]` (a null dereference when false) and the `Array` property's `(T[])` cast (an invalid cast when false). The `IEnumerable` input is either a `List<T>` or some other enumerable; the model keeps only that distinction.
- 32-bit overflow is not modelled. `First + Length` and `First + Length - 1` use unbounded integers. For `First` near `int.MaxValue` the C# sums wrap, and the bounds check and `Last` then differ from the model.
- `value.Equals(oldValue)` is not modelled for user-overridden `Equals`. It is equality on `Option<T>`: a null old value never equals the non-null new one. A type whose `Equals` is not structural can behave differently.
- `value.Equals(item)` is the caller-supplied function `equalsIndex`. Boxing and virtual dispatch are not modelled.
- `default(T)` is the caller-supplied `defaultValue`: null for reference types, zero-like for value types.
- The enumerator is not modelled as an object. Lazy `IEnumerator<T>` objects and the non-generic `IEnumerable.GetEnumerator` are left out. Only the enumerated sequence is modelled.
- Field assignments in a constructor that then throws are not modelled: such an instance is never returned.
