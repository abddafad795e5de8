/** History events and the caller's filter (history.rs), shared by the watcher and by run waiting. */
module History {
  import opened Wrappers

  datatype Kind = Completed | Stopped | Failed | ActionCompleted | Other

  datatype Event = Event(
    recordId: nat, eventId: nat, kind: Kind, timestamp: int,
    task: Option<string>, instance: Option<nat>, code: Option<int>)

  datatype Query = Query(task: Option<string>, instance: Option<nat>, since: Option<int>, limit: Option<nat>)

  predicate SinceAllows(since: Option<int>, e: Event) {
    since.None? || since.value <= e.timestamp
  }

  /** The filter both readers apply to each event. */
  predicate Matches(q: Query, e: Event) {
    && (q.task.None? || e.task == q.task)
    && (q.instance.None? || e.instance == q.instance)
    && SinceAllows(q.since, e)
  }

  /** The events of a stretch of the log that a query asks for, in order. */
  function Selected(q: Query, events: seq<Event>): seq<Event> {
    if events == [] then []
    else
      var init := Selected(q, events[..|events| - 1]);
      if Matches(q, events[|events| - 1]) then init + [events[|events| - 1]] else init
  }

  lemma {:induction false} SelectedConcat(q: Query, a: seq<Event>, b: seq<Event>)
    ensures Selected(q, a + b) == Selected(q, a) + Selected(q, b)
  {
    if b == [] {
      assert a + b == a;
    } else {
      var init := b[..|b| - 1];
      assert (a + b)[..|a + b| - 1] == a + init;
      SelectedConcat(q, a, init);
    }
  }

  lemma SelectedOne(q: Query, e: Event)
    ensures Selected(q, [e]) == if Matches(q, e) then [e] else []
  {
  }

  lemma {:induction false} SelectedNothing(q: Query, events: seq<Event>)
    requires forall e <- events :: !Matches(q, e)
    ensures Selected(q, events) == []
  {
    if events != [] {
      SelectedNothing(q, events[..|events| - 1]);
    }
  }

  /** A selection holds exactly the events asked for: none of another task or instance than the given one, and none
      from before the given time. */
  lemma {:induction false} SelectionHolds(q: Query, events: seq<Event>)
    ensures forall e :: e in Selected(q, events) <==> e in events && Matches(q, e)
    ensures forall e :: e in events && e !in Selected(q, events)
                        <==> e in events && ((q.task.Some? && (e.task.None? || e.task.value != q.task.value))
                                             || (q.instance.Some? && (e.instance.None? || e.instance.value != q.instance.value))
                                             || (q.since.Some? && e.timestamp < q.since.value))
  {
    if events != [] {
      var init, last := events[..|events| - 1], events[|events| - 1];
      SelectionHolds(q, init);
      assert events == init + [last];
    }
  }
}
