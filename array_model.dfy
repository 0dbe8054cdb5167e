/** The abstract state of a CustomArray<T> (an array whose logical indices start
    at an arbitrary First) and the behaviour of its constructors, its indexer
    and its two change events, stated as functions on that state. The class in
    module ArrayEvent is proved against these functions. */
module CustomArrayModel {

  /** A reference that may be null: None stands for the null reference. */
  datatype Option<T> = None | Some(value: T)

  /** The exceptions the class throws, with the messages it passes them. */
  datatype Error =
    | ArgumentException(message: string)
    | ArgumentNullException(paramName: string)
    | NullReferenceException(message: string)
    | InvalidCastException

  datatype Result<R> = Ok(value: R) | Err(error: Error)

  /** The outcome of an operation that returns nothing. */
  datatype Outcome = Pass | Fail(error: Error)

  /** The two events: OnChangeElement and OnChangeEqualElement. */
  datatype EventKind = ChangeElement | ChangeEqualElement

  /** One invocation of an event handler, with its ArrayEventArgs payload. */
  datatype Event<T> = Event(kind: EventKind, index: int, message: string, value: T)

  const ChangedMessage: string := "The value has been changed"

  /** Thrown by the indexer's bounds check. */
  const IndexOutOfRange: Error := ArgumentException("Index out of array range")

  /** Thrown by the setter when the value is null. */
  const NullValue: Error := ArgumentNullException("value")

  /** Thrown when the indexer dereferences `array as T[]` on an instance
      whose storage is a List<T>: the cast yields null. */
  const NotAnArray: Error := NullReferenceException("Object reference not set to an instance of an object.")

  /** Thrown by the IEnumerable<T> constructor when its input is not a
      List<T>: `list as List<T>` yields null, and reading its Count
      dereferences it. */
  const NotAList: Error := NullReferenceException("Object reference not set to an instance of an object.")

  /** The input of the IEnumerable<T> constructor: either a List<T>, or some
      other enumerable, on which `list as List<T>` yields null. */
  datatype Enumerable<T> = ListOf(items: seq<Option<T>>) | OtherEnumerable(items: seq<Option<T>>)

  /** Everything observable about one instance: its first index, its storage
      in storage order, whether that storage is a T[] (the params and length
      constructors) or the caller's List<T> (the IEnumerable constructor),
      whether each event has at least one handler, and the log of handler
      invocations so far. Length is |cells|. */
  datatype Snapshot<T> = Snapshot(
    first: int,
    cells: seq<Option<T>>,
    backedByArray: bool,
    changeSubscribed: bool,
    equalSubscribed: bool,
    events: seq<Event<T>>)
  {
    function Length(): int { |cells| }

    /** The Last property: First + Length - 1. */
    function Last(): int { first + |cells| - 1 }
  }

  /** A freshly built instance: no handler attached, nothing logged. */
  function Fresh<T>(first: int, cells: seq<Option<T>>, backedByArray: bool): Snapshot<T>
  {
    Snapshot(first, cells, backedByArray, false, false, [])
  }

  /** The storage slot the indexer uses for logical index `item`, or None when
      the bounds check rejects it. The check rejects First itself but accepts
      Last, so slot 0 is never reachable. */
  function Slot(first: int, length: int, item: int): (r: Option<nat>)
    ensures r.Some? <==> first < item <= first + length - 1
    ensures r.Some? ==> 1 <= r.value < length && first + r.value == item
  {
    if item <= first || item >= first + length then None else Some(item - first)
  }

  /** CustomArray(first, length): `length` default-valued slots, or an
      ArgumentException from the Length setter when length <= 0.
      `defaultValue` stands for default(T). */
  function FromLength<T>(first: int, length: int, defaultValue: Option<T>): (r: Result<Snapshot<T>>)
    ensures r.Ok? <==> length > 0
    ensures r.Err? ==> r.error == ArgumentException("Value < 0")
    ensures r.Ok? ==> r.value.first == first && r.value.Length() == length
                      && r.value.Last() == first + length - 1
    ensures r.Ok? ==> forall k :: 0 <= k < length ==> r.value.cells[k] == defaultValue
    ensures r.Ok? ==> r.value.backedByArray && r.value.events == []
  {
    if length <= 0 then Err(ArgumentException("Value < 0"))
    else Ok(Fresh(first, seq(length, _ => defaultValue), true))
  }

  /** CustomArray(first, params T[] list). */
  function FromParams<T>(first: int, list: Option<seq<Option<T>>>): (r: Result<Snapshot<T>>)
    ensures list.None? ==> r == Err(ArgumentNullException("list"))
    ensures list == Some([]) ==> r == Err(ArgumentException("List is empty"))
    ensures r.Ok? <==> list.Some? && |list.value| > 0
    ensures r.Ok? ==> r.value.first == first && r.value.cells == list.value
                      && r.value.Length() == |list.value| && r.value.backedByArray
                      && r.value.events == []
  {
    match list
    case None => Err(ArgumentNullException("list"))
    case Some(items) =>
      if |items| == 0 then Err(ArgumentException("List is empty"))
      else Ok(Fresh(first, items, true))
  }

  /** CustomArray(first, IEnumerable<T> list). A null input and an input that
      is not a List<T> both end in a NullReferenceException; the instance it
      builds keeps the List<T> as its storage, so it is not backed by a T[]. */
  function FromEnumerable<T>(first: int, list: Option<Enumerable<T>>): (r: Result<Snapshot<T>>)
    ensures list.None? ==> r == Err(NullReferenceException("List is null"))
    ensures list.Some? && list.value.OtherEnumerable? ==> r == Err(NotAList)
    ensures list == Some(ListOf([])) ==> r == Err(ArgumentException("Count < 0"))
    ensures r.Ok? <==> list.Some? && list.value.ListOf? && |list.value.items| > 0
    ensures r.Ok? ==> r.value.first == first && r.value.cells == list.value.items
                      && r.value.Length() == |list.value.items| && !r.value.backedByArray
                      && r.value.events == []
  {
    match list
    case None => Err(NullReferenceException("List is null"))
    case Some(OtherEnumerable(_)) => Err(NotAList)
    case Some(ListOf(items)) =>
      if |items| == 0 then Err(ArgumentException("Count < 0"))
      else Ok(Fresh(first, items, false))
  }

  /** The indexer's getter. The bounds check comes first; on an instance whose
      storage is a List<T> an in-range read dereferences null. */
  function IndexerGet<T>(s: Snapshot<T>, item: int): (r: Result<Option<T>>)
    ensures r.Ok? <==> s.backedByArray && s.first < item <= s.Last()
    ensures r.Ok? ==> r.value == s.cells[item - s.first]
    ensures r == Err(IndexOutOfRange) <==> !(s.first < item <= s.Last())
    ensures r.Err? && r != Err(IndexOutOfRange) ==> r.error == NotAnArray
  {
    match Slot(s.first, |s.cells|, item)
    case None => Err(IndexOutOfRange)
    case Some(k) => if s.backedByArray then Ok(s.cells[k]) else Err(NotAnArray)
  }

  /** The handler invocations a write of `value` over `previous` at `item`
      makes: none when the value is unchanged; otherwise OnChangeElement if it
      has a handler, then OnChangeEqualElement if it has a handler and the
      value equals the index. `equalsIndex` stands for value.Equals(item). */
  function Notifications<T(==)>(item: int, previous: Option<T>, value: T,
                                equalsIndex: (T, int) -> bool,
                                changeSubscribed: bool, equalSubscribed: bool): (r: seq<Event<T>>)
    ensures previous == Some(value) ==> r == []
    ensures |r| <= 2
    ensures !changeSubscribed && !equalSubscribed ==> r == []
    ensures forall e :: e in r ==> e.index == item && e.message == ChangedMessage && e.value == value
    ensures Event(ChangeElement, item, ChangedMessage, value) in r
            <==> previous != Some(value) && changeSubscribed
    ensures Event(ChangeEqualElement, item, ChangedMessage, value) in r
            <==> previous != Some(value) && equalSubscribed && equalsIndex(value, item)
    ensures |r| == 2 ==> r[0].kind == ChangeElement && r[1].kind == ChangeEqualElement
  {
    if previous == Some(value) then []
    else
      (if changeSubscribed then [Event(ChangeElement, item, ChangedMessage, value)] else [])
      + (if equalSubscribed && equalsIndex(value, item)
         then [Event(ChangeEqualElement, item, ChangedMessage, value)] else [])
  }

  /** The state after a call of the indexer's setter, and how the call ended. */
  datatype Step<T> = Step(after: Snapshot<T>, outcome: Outcome)

  /** The indexer's setter: bounds check, then null check, then the write
      (made even when the value is unchanged), then the notifications. */
  function IndexerSet<T(==)>(s: Snapshot<T>, item: int, value: Option<T>,
                             equalsIndex: (T, int) -> bool): (r: Step<T>)
    ensures r.outcome.Pass? <==> s.first < item <= s.Last() && value.Some? && s.backedByArray
    ensures r.outcome.Fail? ==> r.after == s
    ensures r.outcome == Fail(IndexOutOfRange) <==> !(s.first < item <= s.Last())
    ensures s.first < item <= s.Last() && value.None? ==> r.outcome == Fail(NullValue)
    ensures s.first < item <= s.Last() && value.Some? && !s.backedByArray ==> r.outcome == Fail(NotAnArray)
    ensures r.after.first == s.first && |r.after.cells| == |s.cells|
    ensures r.after.backedByArray == s.backedByArray
    ensures r.after.changeSubscribed == s.changeSubscribed && r.after.equalSubscribed == s.equalSubscribed
    ensures r.outcome.Pass? ==>
              r.after.cells == s.cells[item - s.first := value]
              && IndexerGet(r.after, item) == Ok(value)
              && r.after.events == s.events + Notifications(item, s.cells[item - s.first], value.value,
                                                             equalsIndex, s.changeSubscribed, s.equalSubscribed)
  {
    match Slot(s.first, |s.cells|, item)
    case None => Step(s, Fail(IndexOutOfRange))
    case Some(k) =>
      if value.None? then Step(s, Fail(NullValue))
      else if !s.backedByArray then Step(s, Fail(NotAnArray))
      else
        var fired := Notifications(item, s.cells[k], value.value, equalsIndex,
                                   s.changeSubscribed, s.equalSubscribed);
        Step(s.(cells := s.cells[k := value], events := s.events + fired), Pass)
  }

  /** The Array property: the storage as a T[], or an InvalidCastException
      when the storage is a List<T>. */
  function ArrayView<T>(s: Snapshot<T>): (r: Result<seq<Option<T>>>)
    ensures r.Ok? <==> s.backedByArray
    ensures r.Err? ==> r.error == InvalidCastException
    ensures r.Ok? ==> r.value == Enumerate(s)
    ensures r.Ok? ==> |r.value| == s.Length()
                      && forall i :: s.first < i <= s.Last() ==> IndexerGet(s, i) == Ok(r.value[i - s.first])
  {
    if s.backedByArray then Ok(s.cells) else Err(InvalidCastException)
  }

  /** What GetEnumerator yields: the storage in storage order, slot 0
      included, whichever kind of storage the instance has. */
  function Enumerate<T>(s: Snapshot<T>): (r: seq<Option<T>>)
    ensures |r| == s.Length()
    ensures s.backedByArray ==>
              forall i :: s.first < i <= s.Last() ==> IndexerGet(s, i) == Ok(r[i - s.first])
    ensures forall k :: 0 <= k < |r| ==> r[k] == s.cells[k]
  {
    s.cells
  }

  /** Enumerating an instance built from a params array yields that array. */
  lemma ParamsEnumerated<T>(first: int, items: seq<Option<T>>)
    requires |items| > 0
    ensures FromParams(first, Some(items)).Ok?
    ensures Enumerate(FromParams(first, Some(items)).value) == items
  {
  }

  /** Enumerating an instance built from a List<T> yields that list. */
  lemma ListEnumerated<T>(first: int, items: seq<Option<T>>)
    requires |items| > 0
    ensures FromEnumerable(first, Some(ListOf(items))).Ok?
    ensures Enumerate(FromEnumerable(first, Some(ListOf(items))).value) == items
  {
  }

  /** Enumerating an instance built by length yields `length` default values. */
  lemma LengthEnumerated<T>(first: int, length: int, defaultValue: Option<T>)
    requires length > 0
    ensures FromLength(first, length, defaultValue).Ok?
    ensures Enumerate(FromLength(first, length, defaultValue).value) == seq(length, _ => defaultValue)
  {
  }

  /** An instance of Length 1 has First == Last, so its indexer accepts no
      index at all. */
  lemma SingleElementUnreachable<T>(s: Snapshot<T>, item: int)
    requires |s.cells| == 1
    ensures IndexerGet(s, item) == Err(IndexOutOfRange)
  {
  }

  /** With first = 5 and three elements, the indexer accepts 6 and 7 (= Last)
      and nothing else: First is rejected, Last is not. */
  lemma BoundsExample()
    ensures forall i :: Slot(5, 3, i).Some? <==> i == 6 || i == 7
  {
  }

  /** Writing 2 at index 2 over a different value, with both events handled
      and Equals comparing a value with the index numerically, fires both
      events in order. */
  lemma BothEventsExample()
    ensures Notifications(2, Some(3), 2, (v: int, i: int) => v == i, true, true)
            == [Event(ChangeElement, 2, ChangedMessage, 2), Event(ChangeEqualElement, 2, ChangedMessage, 2)]
  {
  }
}
