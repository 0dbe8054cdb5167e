/** The CustomArray<T> class: a fixed-length container whose logical indices
    start at `first`, with an indexer that writes into the storage in place and
    logs the handler invocations of its two change events. The constructors
    and every member of the class except SetHandler are proved against their
    counterparts in CustomArrayModel. */
module ArrayEvent {
  import opened CustomArrayModel

  class CustomArray<T(==)> {
    var first: int
    var length: int
    /** The storage; a null element is None. */
    var cells: array<Option<T>>
    /** False when the storage is the caller's List<T> (IEnumerable constructor). */
    var backedByArray: bool
    /** OnChangeElement != null. */
    var changeSubscribed: bool
    /** OnChangeEqualElement != null. */
    var equalSubscribed: bool
    /** The handler invocations made so far, in order. */
    var events: seq<Event<T>>

    /** The Length setter's guard holds, and the storage has Length slots. */
    ghost predicate Valid()
      reads this
    {
      length > 0 && cells.Length == length
    }

    /** The observable state of this instance. */
    function Model(): (m: Snapshot<T>)
      reads this, cells
      requires Valid()
      ensures m.Length() == length && m.Last() == first + length - 1
    {
      Snapshot(first, cells[..], backedByArray, changeSubscribed, equalSubscribed, events)
    }

    constructor Init(first: int, length: int, cells: array<Option<T>>, backedByArray: bool)
      requires length > 0 && cells.Length == length
      ensures Valid()
      ensures this.first == first && this.length == length && this.cells == cells
      ensures this.backedByArray == backedByArray
      ensures !changeSubscribed && !equalSubscribed && events == []
    {
      this.first := first;
      this.length := length;
      this.cells := cells;
      this.backedByArray := backedByArray;
      changeSubscribed, equalSubscribed := false, false;
      events := [];
    }

    /** CustomArray(first, length); `defaultValue` stands for default(T). */
    static method FromLength(first: int, length: int, defaultValue: Option<T>)
      returns (r: Result<CustomArray<T>>)
      ensures r.Ok? <==> CustomArrayModel.FromLength(first, length, defaultValue).Ok?
      ensures r.Err? ==> r.error == CustomArrayModel.FromLength(first, length, defaultValue).error
      ensures r.Ok? ==> fresh(r.value) && fresh(r.value.cells) && r.value.Valid()
                        && r.value.Model() == CustomArrayModel.FromLength(first, length, defaultValue).value
    {
      if length <= 0 {
        return Err(ArgumentException("Value < 0"));
      }
      var a := new Option<T>[length](_ => defaultValue);
      var c := new CustomArray.Init(first, length, a, true);
      return Ok(c);
    }

    /** CustomArray(first, params T[] list). */
    static method FromParams(first: int, list: Option<seq<Option<T>>>)
      returns (r: Result<CustomArray<T>>)
      ensures r.Ok? <==> CustomArrayModel.FromParams(first, list).Ok?
      ensures r.Err? ==> r.error == CustomArrayModel.FromParams(first, list).error
      ensures r.Ok? ==> fresh(r.value) && fresh(r.value.cells) && r.value.Valid()
                        && r.value.Model() == CustomArrayModel.FromParams(first, list).value
    {
      if list.None? {
        return Err(ArgumentNullException("list"));
      }
      var items := list.value;
      if |items| == 0 {
        return Err(ArgumentException("List is empty"));
      }
      var a := new Option<T>[|items|](i requires 0 <= i < |items| => items[i]);
      var c := new CustomArray.Init(first, |items|, a, true);
      return Ok(c);
    }

    /** CustomArray(first, IEnumerable<T> list). */
    static method FromEnumerable(first: int, list: Option<Enumerable<T>>)
      returns (r: Result<CustomArray<T>>)
      ensures r.Ok? <==> CustomArrayModel.FromEnumerable(first, list).Ok?
      ensures r.Err? ==> r.error == CustomArrayModel.FromEnumerable(first, list).error
      ensures r.Ok? ==> fresh(r.value) && fresh(r.value.cells) && r.value.Valid()
                        && r.value.Model() == CustomArrayModel.FromEnumerable(first, list).value
    {
      if list.None? {
        return Err(NullReferenceException("List is null"));
      }
      if list.value.OtherEnumerable? {
        return Err(NotAList);
      }
      var items := list.value.items;
      if |items| == 0 {
        return Err(ArgumentException("Count < 0"));
      }
      var a := new Option<T>[|items|](i requires 0 <= i < |items| => items[i]);
      var c := new CustomArray.Init(first, |items|, a, false);
      return Ok(c);
    }

    /** Attaches a handler to one event (`attached`), or removes its last
        remaining handler, so that the event becomes null. */
    method SetHandler(kind: EventKind, attached: bool)
      requires Valid()
      modifies this
      ensures Valid()
      ensures kind == ChangeElement ==>
                changeSubscribed == attached && equalSubscribed == old(equalSubscribed)
      ensures kind == ChangeEqualElement ==>
                equalSubscribed == attached && changeSubscribed == old(changeSubscribed)
      ensures first == old(first) && length == old(length) && cells == old(cells)
      ensures backedByArray == old(backedByArray) && events == old(events)
    {
      if kind == ChangeElement {
        changeSubscribed := attached;
      } else {
        equalSubscribed := attached;
      }
    }

    /** The indexer's getter, this[item]. */
    method Get(item: int) returns (r: Result<Option<T>>)
      requires Valid()
      ensures r == IndexerGet(Model(), item)
      ensures r.Ok? <==> backedByArray && first < item <= first + length - 1
      ensures r.Ok? ==> r.value == cells[item - first]
    {
      if item <= first || item >= first + length {
        return Err(IndexOutOfRange);
      }
      if !backedByArray {
        return Err(NotAnArray);
      }
      return Ok(cells[item - first]);
    }

    /** The indexer's setter, this[item] = value. `equalsIndex` stands for
        value.Equals(item). */
    method Set(item: int, value: Option<T>, equalsIndex: (T, int) -> bool) returns (outcome: Outcome)
      requires Valid()
      modifies this, cells
      ensures Valid() && cells == old(cells) && length == old(length)
      ensures Model() == IndexerSet(old(Model()), item, value, equalsIndex).after
      ensures outcome == IndexerSet(old(Model()), item, value, equalsIndex).outcome
    {
      if item <= first || item >= first + length {
        return Fail(IndexOutOfRange);
      }
      if value.None? {
        return Fail(NullValue);
      }
      if !backedByArray {
        return Fail(NotAnArray);
      }
      var k := item - first;
      var previous := cells[k];
      cells[k] := value;
      if previous != value {
        if changeSubscribed {
          events := events + [Event(ChangeElement, item, ChangedMessage, value.value)];
        }
        if equalSubscribed && equalsIndex(value.value, item) {
          events := events + [Event(ChangeEqualElement, item, ChangedMessage, value.value)];
        }
      }
      return Pass;
    }

    /** The Array property. */
    method GetArray() returns (r: Result<seq<Option<T>>>)
      requires Valid()
      ensures r == ArrayView(Model())
    {
      if !backedByArray {
        return Err(InvalidCastException);
      }
      return Ok(cells[..]);
    }

    /** GetEnumerator: the elements in storage order. */
    method GetEnumerator() returns (items: seq<Option<T>>)
      requires Valid()
      ensures items == Enumerate(Model())
    {
      items := cells[..];
    }
  }
}
