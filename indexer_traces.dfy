/** What any sequence of indexer calls on one CustomArray<T> can and cannot do:
    it never reaches storage slot 0, it never changes the shape of the
    instance, it only appends to the event log, every logged invocation is one
    the notification policy allows, and on a List<T>-backed instance it does
    nothing at all. */
module IndexerTraces {
  import opened CustomArrayModel

  /** One use of the indexer: a read this[item] or a write this[item] = value. */
  datatype Access<T> = Read(item: int) | Write(item: int, value: Option<T>)

  /** The state after one indexer call; a read changes nothing. */
  function Apply<T(==)>(s: Snapshot<T>, call: Access<T>, equalsIndex: (T, int) -> bool): (r: Snapshot<T>)
    ensures r.first == s.first && |r.cells| == |s.cells| && r.backedByArray == s.backedByArray
    ensures r.changeSubscribed == s.changeSubscribed && r.equalSubscribed == s.equalSubscribed
  {
    match call
    case Read(_) => s
    case Write(item, value) => IndexerSet(s, item, value, equalsIndex).after
  }

  /** The state after the calls, in order. The instance keeps its first index,
      its length, its kind of storage and its handlers. */
  function Run<T(==)>(s: Snapshot<T>, calls: seq<Access<T>>, equalsIndex: (T, int) -> bool): (r: Snapshot<T>)
    ensures r.first == s.first && |r.cells| == |s.cells| && r.backedByArray == s.backedByArray
    ensures r.changeSubscribed == s.changeSubscribed && r.equalSubscribed == s.equalSubscribed
    decreases |calls|
  {
    if calls == [] then s else Run(Apply(s, calls[0], equalsIndex), calls[1..], equalsIndex)
  }

  /** An invocation the notification policy allows on an instance shaped like
      `s`: an index the bounds check accepts, the fixed message, a handler
      attached to its event, and for OnChangeEqualElement a value equal to the
      index. */
  ghost predicate Permitted<T>(s: Snapshot<T>, e: Event<T>, equalsIndex: (T, int) -> bool)
  {
    && s.first < e.index <= s.Last()
    && e.message == ChangedMessage
    && (e.kind == ChangeElement ==> s.changeSubscribed)
    && (e.kind == ChangeEqualElement ==> s.equalSubscribed && equalsIndex(e.value, e.index))
  }

  /** Storage slot 0 is never written through the indexer. */
  lemma {:induction false} SlotZeroNeverWritten<T>(s: Snapshot<T>, calls: seq<Access<T>>,
                                                   equalsIndex: (T, int) -> bool)
    requires |s.cells| > 0
    ensures Run(s, calls, equalsIndex).cells[0] == s.cells[0]
    decreases |calls|
  {
    if calls != [] {
      var t := Apply(s, calls[0], equalsIndex);
      assert t.cells[0] == s.cells[0];
      SlotZeroNeverWritten(t, calls[1..], equalsIndex);
    }
  }

  /** One indexer call only appends to the log, and only permitted invocations. */
  lemma StepLogsPermitted<T>(s: Snapshot<T>, call: Access<T>, equalsIndex: (T, int) -> bool)
    ensures |s.events| <= |Apply(s, call, equalsIndex).events|
    ensures Apply(s, call, equalsIndex).events[..|s.events|] == s.events
    ensures forall k :: |s.events| <= k < |Apply(s, call, equalsIndex).events| ==>
              Permitted(s, Apply(s, call, equalsIndex).events[k], equalsIndex)
  {
  }

  /** The event log only grows, and everything appended to it is permitted. */
  lemma {:induction false} LoggedEventsPermitted<T>(s: Snapshot<T>, calls: seq<Access<T>>,
                                                    equalsIndex: (T, int) -> bool)
    ensures |s.events| <= |Run(s, calls, equalsIndex).events|
    ensures Run(s, calls, equalsIndex).events[..|s.events|] == s.events
    ensures forall k :: |s.events| <= k < |Run(s, calls, equalsIndex).events| ==>
              Permitted(s, Run(s, calls, equalsIndex).events[k], equalsIndex)
    decreases |calls|
  {
    if calls != [] {
      var t := Apply(s, calls[0], equalsIndex);
      StepLogsPermitted(s, calls[0], equalsIndex);
      LoggedEventsPermitted(t, calls[1..], equalsIndex);
      var r := Run(t, calls[1..], equalsIndex);
      assert r == Run(s, calls, equalsIndex);
      assert r.events[..|s.events|] == r.events[..|t.events|][..|s.events|];
      forall k | |s.events| <= k < |r.events| ensures Permitted(s, r.events[k], equalsIndex) {
        if k < |t.events| {
          assert r.events[k] == r.events[..|t.events|][k] == t.events[k];
        } else {
          assert Permitted(t, r.events[k], equalsIndex);
        }
      }
    }
  }

  /** Each write appends at most two invocations. */
  lemma {:induction false} AtMostTwoEventsPerCall<T>(s: Snapshot<T>, calls: seq<Access<T>>,
                                                     equalsIndex: (T, int) -> bool)
    ensures |Run(s, calls, equalsIndex).events| <= |s.events| + 2 * |calls|
    decreases |calls|
  {
    if calls != [] {
      var t := Apply(s, calls[0], equalsIndex);
      assert |t.events| <= |s.events| + 2;
      AtMostTwoEventsPerCall(t, calls[1..], equalsIndex);
    }
  }

  /** With no handler attached, no call ever logs anything. */
  lemma {:induction false} UnobservedCallsLogNothing<T>(s: Snapshot<T>, calls: seq<Access<T>>,
                                                        equalsIndex: (T, int) -> bool)
    requires !s.changeSubscribed && !s.equalSubscribed
    ensures Run(s, calls, equalsIndex).events == s.events
    decreases |calls|
  {
    if calls != [] {
      var t := Apply(s, calls[0], equalsIndex);
      assert t.events == s.events;
      UnobservedCallsLogNothing(t, calls[1..], equalsIndex);
    }
  }

  /** On an instance whose storage is a List<T>, every write fails, so no
      sequence of calls changes anything. */
  lemma {:induction false} ListBackedIsInert<T>(s: Snapshot<T>, calls: seq<Access<T>>,
                                                equalsIndex: (T, int) -> bool)
    requires !s.backedByArray
    ensures Run(s, calls, equalsIndex) == s
    decreases |calls|
  {
    if calls != [] {
      assert Apply(s, calls[0], equalsIndex) == s;
      ListBackedIsInert(s, calls[1..], equalsIndex);
    }
  }

  /** An instance built from a List<T> enumerates that list after any
      sequence of indexer calls. */
  lemma {:induction false} ListEnumeratedAfterCalls<T>(first: int, items: seq<Option<T>>,
                                                       calls: seq<Access<T>>, equalsIndex: (T, int) -> bool)
    requires |items| > 0
    ensures FromEnumerable(first, Some(ListOf(items))).Ok?
    ensures Enumerate(Run(FromEnumerable(first, Some(ListOf(items))).value, calls, equalsIndex)) == items
  {
    ListBackedIsInert(FromEnumerable(first, Some(ListOf(items))).value, calls, equalsIndex);
  }

  /** Whatever indexer calls are made, the first element enumerated is still
      the one the instance was built with. */
  lemma {:induction false} FirstEnumeratedUnchanged<T>(s: Snapshot<T>, calls: seq<Access<T>>,
                                                       equalsIndex: (T, int) -> bool)
    requires |s.cells| > 0
    ensures Enumerate(Run(s, calls, equalsIndex))[0] == Enumerate(s)[0]
  {
    SlotZeroNeverWritten(s, calls, equalsIndex);
  }

  /** Writing the same value again stores nothing new and fires nothing, even
      when the value equals the index. */
  lemma RepeatedWriteIsSilent<T>(s: Snapshot<T>, item: int, value: T, equalsIndex: (T, int) -> bool)
    requires IndexerSet(s, item, Some(value), equalsIndex).outcome.Pass?
    ensures var once := IndexerSet(s, item, Some(value), equalsIndex).after;
            IndexerSet(once, item, Some(value), equalsIndex) == Step(once, Pass)
  {
  }
}
