/** Waiting for one run (client/wait.rs): correlating history events with an instance, bounded history
    scans, and the polling loop with its labelled fallback. */
module Wait {
  import opened Wrappers
  import opened History

  datatype RunHandle = RunHandle(path: string, instance: nat)

  datatype Fault =
    InvalidDefinition | Cancelled | Timeout | QueryLimit | AccessDenied | HistoryUnavailable | WorkerStopped
  datatype Result<T> = Ok(value: T) | Err(fault: Fault)

  /** SCHED_S_TASK_TERMINATED, reported for a stopped run that carries no code. */
  const STOPPED_CODE := 0x0004_1306

  // ---- what a list of events proves ------------------------------------------------------------

  predicate Mine(h: RunHandle, e: Event) { e.instance == Some(h.instance) && e.task == Some(h.path) }

  predicate LaunchFailure(e: Event) { e.kind.Failed? && e.eventId in {101, 103, 104, 311} }

  /** The code one event settles by itself. */
  function Concludes(h: RunHandle, e: Event): Option<int> {
    if !Mine(h, e) then None
    else if e.kind.Completed? || LaunchFailure(e) then e.code
    else if e.kind.Stopped? then Some(if e.code.Some? then e.code.value else STOPPED_CODE)
    else None
  }

  /** The conclusion read last. */
  function LastConclusion(h: RunHandle, events: seq<Event>): Option<int> {
    if events == [] then None
    else
      var own := Concludes(h, events[|events| - 1]);
      if own.Some? then own else LastConclusion(h, events[..|events| - 1])
  }

  predicate Finished(h: RunHandle, events: seq<Event>) { exists e <- events :: Mine(h, e) && e.kind.Completed? }

  predicate ActionResult(h: RunHandle, e: Event) { Mine(h, e) && e.kind.ActionCompleted? && e.code.Some? }

  /** The record and code of the latest action, by record id. */
  function LatestAction(h: RunHandle, events: seq<Event>): Option<(nat, int)> {
    if events == [] then None
    else
      var earlier, e := LatestAction(h, events[..|events| - 1]), events[|events| - 1];
      if ActionResult(h, e) && (earlier.None? || e.recordId > earlier.value.0) then Some((e.recordId, e.code.value))
      else earlier
  }

  function Verdict(h: RunHandle, events: seq<Event>): Option<int> {
    var conclusion, action := LastConclusion(h, events), LatestAction(h, events);
    if conclusion.Some? then conclusion
    else if Finished(h, events) && action.Some? then Some(action.value.1)
    else None
  }

  /** One event of this very run from which the code can be read. */
  predicate Proves(h: RunHandle, e: Event, code: int) {
    Mine(h, e)
    && ((e.code == Some(code) && (e.kind.Completed? || e.kind.Stopped? || LaunchFailure(e) || e.kind.ActionCompleted?))
        || (e.kind.Stopped? && e.code.None? && code == 267_014))
  }

  lemma {:induction false} ConclusionIsProved(h: RunHandle, events: seq<Event>)
    ensures var c := LastConclusion(h, events); c.Some? ==> exists e <- events :: Proves(h, e, c.value)
    ensures LastConclusion(h, events).None? <==> forall e <- events :: Concludes(h, e).None?
  {
    if events != [] {
      var init, last := events[..|events| - 1], events[|events| - 1];
      assert events == init + [last];
      ConclusionIsProved(h, init);
      if Concludes(h, last).Some? {
        assert last in events;
      }
    }
  }

  lemma {:induction false} LatestActionIsLatest(h: RunHandle, events: seq<Event>)
    ensures var a := LatestAction(h, events);
      (a.Some? ==> exists e <- events :: ActionResult(h, e) && e.recordId == a.value.0 && e.code == Some(a.value.1))
      && (forall e <- events :: ActionResult(h, e) ==> a.Some? && e.recordId <= a.value.0)
  {
    if events != [] {
      var init, last := events[..|events| - 1], events[|events| - 1];
      assert events == init + [last];
      LatestActionIsLatest(h, init);
    }
  }

  /** Every verdict rests on an event of the same instance and path; a verdict taken from an action needs
      a completion as well, and is the code of the latest action. */
  lemma VerdictIsProved(h: RunHandle, events: seq<Event>)
    ensures var v := Verdict(h, events);
      v.Some? ==>
        exists e <- events :: Proves(h, e, v.value)
                              && (LastConclusion(h, events).None? ==>
                                    Finished(h, events) && ActionResult(h, e)
                                    && forall other <- events :: ActionResult(h, other) ==> other.recordId <= e.recordId)
  {
    ConclusionIsProved(h, events);
    LatestActionIsLatest(h, events);
    var v := Verdict(h, events);
    if v.Some? && LastConclusion(h, events).Some? {
      var e :| e in events && Proves(h, e, v.value);
    } else if v.Some? {
      var a := LatestAction(h, events).value;
      var e :| e in events && ActionResult(h, e) && e.recordId == a.0 && e.code == Some(a.1);
      assert Proves(h, e, v.value);
    }
  }

  lemma {:induction false} ConclusionOfConcat(h: RunHandle, a: seq<Event>, b: seq<Event>)
    ensures LastConclusion(h, a + b)
            == if LastConclusion(h, b).Some? then LastConclusion(h, b) else LastConclusion(h, a)
  {
    if b == [] {
      assert a + b == a;
    } else {
      assert (a + b)[..|a + b| - 1] == a + b[..|b| - 1];
      ConclusionOfConcat(h, a, b[..|b| - 1]);
    }
  }

  /** Actions that have been seen before add nothing. */
  lemma {:induction false} KnownActionsAddNothing(h: RunHandle, a: seq<Event>, b: seq<Event>)
    requires forall e <- b :: ActionResult(h, e) ==>
      LatestAction(h, a).Some? && e.recordId <= LatestAction(h, a).value.0
    ensures LatestAction(h, a + b) == LatestAction(h, a)
  {
    if b == [] {
      assert a + b == a;
    } else {
      assert (a + b)[..|a + b| - 1] == a + b[..|b| - 1];
      KnownActionsAddNothing(h, a, b[..|b| - 1]);
    }
  }

  /** Reading the same history again, as every polling round does, changes nothing. */
  lemma VerdictSurvivesRereading(h: RunHandle, before: seq<Event>, page: seq<Event>)
    ensures Verdict(h, before + page + page) == Verdict(h, before + page)
  {
    ConclusionOfConcat(h, before, page);
    ConclusionOfConcat(h, before + page, page);
    LatestActionIsLatest(h, before + page);
    KnownActionsAddNothing(h, before + page, page);
    assert forall e :: e in before + page + page <==> e in before + page;
  }

  /** The history query of an instance wait. */
  function Own(h: RunHandle): Query { Query(Some(h.path), Some(h.instance), None, Some(256)) }

  lemma OwnStep(h: RunHandle, events: seq<Event>)
    requires events != []
    ensures var init, last := events[..|events| - 1], events[|events| - 1];
      events == init + [last]
      && Selected(Own(h), events) == (if Mine(h, last) then Selected(Own(h), init) + [last] else Selected(Own(h), init))
  {
  }

  lemma {:induction false} ConclusionIgnoresOthers(h: RunHandle, events: seq<Event>)
    ensures LastConclusion(h, Selected(Own(h), events)) == LastConclusion(h, events)
  {
    if events != [] {
      var init, last := events[..|events| - 1], events[|events| - 1];
      ConclusionIgnoresOthers(h, init);
      OwnStep(h, events);
      hide Selected;
      ConclusionOfConcat(h, Selected(Own(h), init), [last]);
      ConclusionOfConcat(h, init, [last]);
    }
  }

  lemma {:induction false} ActionIgnoresOthers(h: RunHandle, events: seq<Event>)
    ensures LatestAction(h, Selected(Own(h), events)) == LatestAction(h, events)
  {
    if events != [] {
      var init, last := events[..|events| - 1], events[|events| - 1];
      ActionIgnoresOthers(h, init);
      OwnStep(h, events);
      var own := Selected(Own(h), init);
      hide Selected;
      assert (own + [last])[..|own|] == own;
    }
  }

  lemma {:induction false} FinishIgnoresOthers(h: RunHandle, events: seq<Event>)
    ensures Finished(h, Selected(Own(h), events)) <==> Finished(h, events)
  {
    SelectionHolds(Own(h), events);
    forall e | e in events && Mine(h, e) ensures e in Selected(Own(h), events) {
      assert Matches(Own(h), e);
    }
  }

  /** Events of other runs never change a verdict. */
  lemma VerdictIgnoresOthers(h: RunHandle, events: seq<Event>)
    ensures Verdict(h, Selected(Own(h), events)) == Verdict(h, events)
  {
    ConclusionIgnoresOthers(h, events);
    ActionIgnoresOthers(h, events);
    FinishIgnoresOthers(h, events);
  }

  lemma OneMore(h: RunHandle, events: seq<Event>, e: Event)
    ensures Finished(h, events + [e]) <==> Finished(h, events) || (Mine(h, e) && e.kind.Completed?)
    ensures LastConclusion(h, events + [e]) == if Concludes(h, e).Some? then Concludes(h, e) else LastConclusion(h, events)
    ensures var earlier := LatestAction(h, events);
      LatestAction(h, events + [e])
      == if ActionResult(h, e) && (earlier.None? || e.recordId > earlier.value.0) then Some((e.recordId, e.code.value))
         else earlier
  {
    var more := events + [e];
    assert more[..|more| - 1] == events && more[|more| - 1] == e;
    assert forall x :: x in more <==> x in events || x == e;
  }

  // ---- the correlation object ------------------------------------------------------------------------

  class Correlation {
    var completed: bool
    var action: Option<(nat, int)>
    var terminal: Option<int>
    ghost var seen: seq<Event>

    constructor ()
      ensures seen == []
      ensures forall h :: Follows(h)
    {
      completed, action, terminal, seen := false, None, None, [];
    }

    /** The fields summarize what has been seen so far. */
    ghost predicate Follows(h: RunHandle)
      reads this
    {
      && (completed <==> Finished(h, seen))
      && action == LatestAction(h, seen)
      && terminal == LastConclusion(h, seen)
    }

    /** Correlation::ingest. */
    method Ingest(h: RunHandle, events: seq<Event>) returns (r: Option<int>)
      requires Follows(h)
      modifies this
      ensures Follows(h) && seen == old(seen) + events
      ensures r == Verdict(h, seen)
    {
      ghost var before := seen;
      for i := 0 to |events|
        invariant Follows(h) && seen == before + events[..i]
      {
        var e := events[i];
        IngestOne(h, e);
        assert before + events[..i + 1] == before + events[..i] + [e];
      }
      assert events[..|events|] == events;
      r := if terminal.Some? then terminal
           else if completed && action.Some? then Some(action.value.1)
           else None;
    }

    method IngestOne(h: RunHandle, e: Event)
      requires Follows(h)
      modifies this
      ensures Follows(h) && seen == old(seen) + [e]
    {
      hide LastConclusion, LatestAction, Finished;
      OneMore(h, seen, e);
      seen := seen + [e];
      if e.instance != Some(h.instance) || e.task != Some(h.path) {
        return;
      }
      match e.kind {
        case Completed =>
          completed := true;
          terminal := if e.code.Some? then e.code else terminal;
        case Stopped =>
          terminal := Some(if e.code.Some? then e.code.value else STOPPED_CODE);
        case Failed =>
          if e.eventId in {101, 103, 104, 311} {
            terminal := if e.code.Some? then e.code else terminal;
          }
        case ActionCompleted =>
          if e.code.Some? && (action.None? || e.recordId > action.value.0) {
            action := Some((e.recordId, e.code.value));
          }
        case Other =>
      }
    }
  }

  // ---- bounded scans --------------------------------------------------------------------------------------

  /** The rows of one native query; reading them may fail. */
  class EventStream {
    const events: seq<Event>
    var position: nat
    ghost var failures: seq<Fault>

    ghost predicate Valid() reads this { position <= |events| }

    constructor (events: seq<Event>)
      ensures Valid() && this.events == events && position == 0 && failures == []
    {
      this.events, position, failures := events, 0, [];
    }

    method Next() returns (r: Result<Option<Event>>)
      requires Valid()
      modifies this
      ensures Valid() && failures == old(failures) + (if r.Err? then [r.fault] else [])
      ensures r.Err? ==> position == old(position)
      ensures r.Ok? && old(position) == |events| ==> r.value.None? && position == old(position)
      ensures r.Ok? && old(position) < |events| ==> r.value == Some(events[old(position)]) && position == old(position) + 1
    {
      var broken: bool := *;
      if broken {
        var any: Fault := *;
        failures := failures + [any];
        return Err(any);
      }
      if position == |events| {
        return Ok(None);
      }
      position := position + 1;
      r := Ok(Some(events[position - 1]));
    }
  }

  function Wanted(q: Query): nat { if q.limit.Some? then q.limit.value else 256 }

  /** The run whose outcome ends an exact scan. */
  function ExactRun(q: Query, exact: bool): Option<RunHandle> {
    if exact && q.task.Some? && q.instance.Some? then Some(RunHandle(q.task.value, q.instance.value)) else None
  }

  /** These rows fill the limit or prove the outcome of the run. */
  ghost predicate Enough(q: Query, exact: bool, rows: seq<Event>) {
    || |Selected(q, rows)| == (if q.limit.None? then 256 else q.limit.value)
    || (exact && q.task.Some? && q.instance.Some?
        && Verdict(RunHandle(q.task.value, q.instance.value), Selected(q, rows)).Some?)
  }

  lemma FullIsEnough(q: Query, exact: bool, rows: seq<Event>)
    requires |Selected(q, rows)| == Wanted(q)
    ensures Enough(q, exact, rows)
  {
  }

  lemma NothingIsEnough(q: Query, exact: bool)
    ensures Selected(q, []) == [] && (Enough(q, exact, []) <==> Wanted(q) == 0)
  {
  }

  datatype Row = Broken(fault: Fault) | End | Read(output: seq<Event>, enough: bool)

  /** One turn of the scan loop. */
  method ReadRow(q: Query, exact: bool, correlation: Correlation, output: seq<Event>, stream: EventStream)
    returns (row: Row)
    requires stream.Valid() && output == Selected(q, stream.events[..stream.position])
    requires ExactRun(q, exact).Some? ==> correlation.Follows(ExactRun(q, exact).value) && correlation.seen == output
    requires !Enough(q, exact, stream.events[..stream.position])
    modifies stream, correlation
    ensures stream.Valid() && stream.failures == old(stream.failures) + (if row.Broken? then [row.fault] else [])
    ensures row.Broken? ==> stream.position == old(stream.position)
    ensures row.End? ==> stream.position == old(stream.position) == |stream.events|
    ensures row.Read? ==>
      && stream.position == old(stream.position) + 1
      && row.output == Selected(q, stream.events[..stream.position])
      && (row.enough <==> Enough(q, exact, stream.events[..stream.position]))
      && (ExactRun(q, exact).Some? ==>
            correlation.Follows(ExactRun(q, exact).value) && correlation.seen == row.output)
  {
    hide Selected, Verdict;
    ghost var before := stream.events[..stream.position];
    var next := stream.Next();
    if next.Err? {
      return Broken(next.fault);
    }
    if next.value.None? {
      return End;
    }
    var event := next.value.value;
    assert stream.events[..stream.position] == before + [event];
    SelectedConcat(q, before, [event]);
    SelectedOne(q, event);
    if !Matches(q, event) {
      assert output + [] == output;
      return Read(output, false);
    }
    var complete := false;
    var run := ExactRun(q, exact);
    if run.Some? {
      var verdict := correlation.Ingest(run.value, [event]);
      complete := verdict.Some?;
    }
    row := Read(output + [event], complete || |output| + 1 == Wanted(q));
  }

  /** Some scan of at most so many rows comes to an answer: there is a first row that makes it enough, or the end
      of the stream is noticed, which takes one more turn than there are rows. */
  ghost predicate Answerable(q: Query, exact: bool, maximum: nat, events: seq<Event>) {
    maximum > 0
    && (|events| < maximum || exists j :: 0 <= j <= maximum <= |events| && Enough(q, exact, events[..j]))
  }

  lemma {:induction false} SelectedIsShorter(q: Query, events: seq<Event>)
    ensures |Selected(q, events)| <= |events|
  {
    if events != [] {
      SelectedIsShorter(q, events[..|events| - 1]);
    }
  }

  /** A stream that ends exactly at the scan limit, with fewer rows than are wanted, comes to no answer, although
      every one of its rows has been read; one more turn would do. */
  lemma EndAtTheLimit(q: Query, events: seq<Event>)
    requires |events| < Wanted(q)
    ensures !Answerable(q, false, |events|, events) && Answerable(q, false, |events| + 1, events)
  {
    forall j | 0 <= j <= |events| ensures !Enough(q, false, events[..j]) {
      SelectedIsShorter(q, events[..j]);
    }
  }

  /** scan_history: the answer is never cut short.  It holds every matching row read so far, and reading
      ended at the first row that made it enough, or at the end of the stream; otherwise the scan limit
      is reported, after exactly `maximum` rows. */
  method ScanHistory(q: Query, exact: bool, maximum: nat, stream: EventStream) returns (r: Result<seq<Event>>)
    requires stream.Valid() && stream.position == 0
    modifies stream
    ensures stream.Valid() && stream.position <= maximum
    ensures r.Ok? ==>
      && r.value == Selected(q, stream.events[..stream.position])
      && (Enough(q, exact, stream.events[..stream.position]) || stream.position == |stream.events| < maximum)
      && (forall j :: 0 <= j < stream.position ==> !Enough(q, exact, stream.events[..j]))
    ensures stream.failures == old(stream.failures)
            || (r.Err? && stream.failures == old(stream.failures) + [r.fault])
    ensures stream.failures == old(stream.failures) && r.Err? ==>
      && r.fault == QueryLimit && stream.position == maximum
      && (maximum > 0 ==> forall j :: 0 <= j <= maximum ==> !Enough(q, exact, stream.events[..j]))
    ensures stream.failures == old(stream.failures) ==> (r.Ok? <==> Answerable(q, exact, maximum, stream.events))
  {
    hide Enough, Selected;
    var correlation := new Correlation();
    var output: seq<Event> := [];
    assert stream.events[..0] == [];
    NothingIsEnough(q, exact);
    for i := 0 to maximum
      invariant stream.Valid() && stream.position == i && stream.failures == old(stream.failures)
      invariant output == Selected(q, stream.events[..i])
      invariant ExactRun(q, exact).Some? ==>
        correlation.Follows(ExactRun(q, exact).value) && correlation.seen == output
      invariant forall j :: 0 <= j < i ==> !Enough(q, exact, stream.events[..j])
      invariant i > 0 ==> !Enough(q, exact, stream.events[..i])
    {
      if |output| == Wanted(q) {
        FullIsEnough(q, exact, stream.events[..i]);
        return Ok(output);
      }
      var row := ReadRow(q, exact, correlation, output, stream);
      if row.Broken? {
        return Err(row.fault);
      }
      if row.End? {
        return Ok(output);
      }
      output := row.output;
      if row.enough {
        return Ok(output);
      }
    }
    r := Err(QueryLimit);
  }

  // ---- the polling loop ---------------------------------------------------------------------------------

  /** Durations in nanoseconds. */
  const SECOND := 1_000_000_000

  datatype Options = Options(poll: nat, timeout: nat, grace: nat, fallback: bool)
  datatype Confidence = Exact | PollingFallback
  datatype Reason = HistoryNotReadable | CompletionNotObserved
  datatype RunOutcome = RunOutcome(instance: nat, code: int, confidence: Confidence, reason: Option<Reason>)

  /** One look at the running instances: when, and whether this run was among them. */
  datatype Probe = Probe(time: nat, present: bool)

  function Min(a: nat, b: nat): nat { if a < b then a else b }

  method AnyPause() returns (d: nat) {
    var any: int := *;
    d := if any < 0 then 0 else any;
  }

  /** The clock and the scheduler as one wait sees them. */
  class Observer {
    const instance: nat
    var clock: nat                 // time since the wait began
    ghost var served: seq<Event>   // every event handed out
    ghost var readings: nat        // how often the history was read
    ghost var probes: seq<Probe>
    ghost var lastResults: seq<int>
    ghost var naps: seq<nat>
    ghost var historyFault: Option<Fault> // how the history could not be read
    ghost var broken: Option<Fault>       // how anything else could not be read
    ghost var cancelled: bool             // the caller has asked for an end

    /** Nothing has happened yet. */
    ghost predicate Fresh() reads this {
      && clock == 0 && served == [] && readings == 0 && probes == [] && lastResults == [] && naps == []
      && historyFault.None? && broken.None? && !cancelled
    }

    constructor (instance: nat)
      ensures this.instance == instance && Fresh()
    {
      this.instance, clock := instance, 0;
      served, readings, probes, lastResults, naps := [], 0, [], [], [];
      historyFault, broken, cancelled := None, None, false;
    }

    method CancelRequested() returns (cancel: bool)
      modifies this`cancelled
      ensures cancelled <==> old(cancelled) || cancel
    {
      var any: bool := *;
      cancel := any;
      cancelled := cancelled || cancel;
    }

    method Elapsed() returns (t: nat)
      modifies this`clock
      ensures old(clock) <= clock == t
    {
      var pause := AnyPause();
      clock := clock + pause;
      t := clock;
    }

    method Sleep(d: nat)
      modifies this`clock, this`naps
      ensures clock >= old(clock) + d && naps == old(naps) + [d]
    {
      var more := AnyPause();
      clock := clock + d + more;
      naps := naps + [d];
    }

    method History() returns (r: Result<seq<Event>>)
      modifies this`clock, this`served, this`readings, this`historyFault
      ensures clock >= old(clock)
      ensures r.Ok? ==> served == old(served) + r.value && readings == old(readings) + 1 && historyFault == old(historyFault)
      ensures r.Err? ==> served == old(served) && readings == old(readings) && historyFault == Some(r.fault)
    {
      var pause := AnyPause();
      clock := clock + pause;
      var fails: bool := *;
      if fails {
        var any: Fault := *;
        historyFault := Some(any);
        return Err(any);
      }
      var events: seq<Event> := *;
      served, readings := served + events, readings + 1;
      r := Ok(events);
    }

    method Running() returns (r: Result<seq<nat>>)
      modifies this`clock, this`probes, this`broken
      ensures clock >= old(clock)
      ensures r.Ok? ==> probes == old(probes) + [Probe(clock, instance in r.value)] && broken == old(broken)
      ensures r.Err? ==> probes == old(probes) && broken == Some(r.fault)
    {
      var pause := AnyPause();
      clock := clock + pause;
      var fails: bool := *;
      if fails {
        var any: Fault := *;
        broken := Some(any);
        return Err(any);
      }
      var instances: seq<nat> := *;
      probes := probes + [Probe(clock, instance in instances)];
      r := Ok(instances);
    }

    method LastResult() returns (r: Result<int>)
      modifies this`clock, this`lastResults, this`broken
      ensures clock >= old(clock)
      ensures r.Ok? ==> lastResults == old(lastResults) + [r.value] && broken == old(broken)
      ensures r.Err? ==> lastResults == old(lastResults) && broken == Some(r.fault)
    {
      var pause := AnyPause();
      clock := clock + pause;
      var fails: bool := *;
      if fails {
        var any: Fault := *;
        broken := Some(any);
        return Err(any);
      }
      var code: int := *;
      lastResults := lastResults + [code];
      r := Ok(code);
    }
  }

  /** The probes since the run was last seen, all without it, the first one no later than `since`. */
  ghost predicate AbsentFrom(probes: seq<Probe>, first: nat, since: nat) {
    && first < |probes| && probes[first].time <= since
    && (forall j :: first <= j < |probes| ==> !probes[j].present)
    && (first > 0 ==> probes[first - 1].present)
  }

  /** The run has been missing for the whole grace period. */
  ghost predicate GraceOver(probes: seq<Probe>, grace: nat, now: nat) {
    exists first :: 0 <= first < |probes| && AbsentFrom(probes, first, probes[first].time)
                    && probes[first].time + grace <= now
  }

  ghost predicate Seen(probes: seq<Probe>) { exists p <- probes :: p.present }

  /** What the loop remembers about the probes. */
  ghost predicate Remembers(probes: seq<Probe>, observedRunning: bool, absentSince: Option<nat>) {
    && (observedRunning <==> Seen(probes))
    && (absentSince.None? ==> probes == [] || probes[|probes| - 1].present)
    && (absentSince.Some? ==> exists first :: 0 <= first < |probes| && AbsentFrom(probes, first, absentSince.value))
  }

  lemma ProbeAdded(probes: seq<Probe>, observedRunning: bool, absentSince: Option<nat>, p: Probe, now: nat)
    requires Remembers(probes, observedRunning, absentSince) && p.time <= now
    ensures Remembers(probes + [p], observedRunning || p.present,
                      if p.present then None else if absentSince.Some? then absentSince else Some(now))
  {
    var more := probes + [p];
    assert more[|probes|] == p;
    assert forall q :: q in more <==> q in probes || q == p;
    if !p.present {
      if absentSince.Some? {
        var first :| 0 <= first < |probes| && AbsentFrom(probes, first, absentSince.value);
        assert AbsentFrom(more, first, absentSince.value);
      } else {
        assert AbsentFrom(more, |probes|, now);
      }
    }
  }

  ghost predicate AllAbsent(probes: seq<Probe>, first: nat, last: int) {
    forall j :: first <= j <= last < |probes| ==> !probes[j].present
  }

  ghost predicate AbsentSince(probes: seq<Probe>, first: nat) { AllAbsent(probes, first, |probes| - 1) }

  /** What is remembered as the beginning of an absence is no later than any probe after its first. */
  ghost predicate Timely(probes: seq<Probe>, absentSince: Option<nat>, clock: nat) {
    && (forall i, j :: 0 <= i < j < |probes| ==> probes[i].time <= probes[j].time)
    && (forall p <- probes :: p.time <= clock)
    && (absentSince.None? ==> probes == [] || probes[|probes| - 1].present)
    && (absentSince.Some? ==>
          && absentSince.value <= clock
          && forall first :: 0 <= first < |probes| - 1 && AbsentSince(probes, first)
                             ==> absentSince.value <= probes[first + 1].time)
  }

  lemma ProbeIsTimely(probes: seq<Probe>, absentSince: Option<nat>, clock: nat, p: Probe, now: nat)
    requires Timely(probes, absentSince, clock) && clock <= p.time <= now
    ensures Timely(probes + [p], if p.present then None else if absentSince.Some? then absentSince else Some(now), now)
  {
    var more := probes + [p];
    var n := |probes|;
    assert more[n] == p && forall i :: 0 <= i < n ==> more[i] == probes[i];
    forall q | q in more ensures q.time <= now {
      assert q in probes || q == p;
    }
    if !p.present {
      forall first | 0 <= first < n && AbsentSince(more, first)
        ensures absentSince.Some? && absentSince.value <= more[first + 1].time
      {
        assert !more[n - 1].present;
        assert AbsentSince(probes, first) by {
          assert forall j :: first <= j < n ==> more[j] == probes[j] && !more[j].present;
        }
      }
    }
  }

  lemma TimelyLater(probes: seq<Probe>, absentSince: Option<nat>, clock: nat, later: nat)
    requires Timely(probes, absentSince, clock) && clock <= later
    ensures Timely(probes, absentSince, later)
  {
  }

  /** In some completed round the run had been absent for a whole grace period: it was missing in a row of probes,
      and from the second of them to the last the grace period had passed. */
  ghost predicate GraceIgnored(probes: seq<Probe>, grace: nat) {
    exists first, last :: 0 <= first < last < |probes| && AllAbsent(probes, first, last)
                          && probes[first + 1].time + grace <= probes[last].time
  }

  lemma NothingIgnored(probes: seq<Probe>, p: Probe, absent: Option<nat>, grace: nat, clock: nat)
    requires !GraceIgnored(probes, grace) && Timely(probes + [p], absent, clock)
    requires absent.None? || absent.value + grace > clock || clock < grace
    ensures !GraceIgnored(probes + [p], grace)
  {
    var more := probes + [p];
    forall first, last | 0 <= first < last < |more| && AllAbsent(more, first, last)
      ensures more[first + 1].time + grace > more[last].time
    {
      if last < |probes| {
        assert AllAbsent(probes, first, last) by {
          assert forall j :: first <= j <= last ==> more[j] == probes[j];
        }
      } else {
        assert !more[last].present && more[last] in more && AbsentSince(more, first);
      }
    }
  }

  lemma GraceIsOver(probes: seq<Probe>, since: nat, grace: nat, now: nat)
    requires exists first :: 0 <= first < |probes| && AbsentFrom(probes, first, since)
    requires since + grace <= now
    ensures GraceOver(probes, grace, now)
  {
    var first :| 0 <= first < |probes| && AbsentFrom(probes, first, since);
    assert AbsentFrom(probes, first, probes[first].time);
  }

  /** The shortest pause between two full rounds. */
  function Step(options: Options): nat { if options.poll < 1_000_000_000 then options.poll else 1_000_000_000 }

  /** What a result says about what was observed. */
  ghost predicate Justified(h: RunHandle, options: Options, o: RunOutcome, served: seq<Event>, probes: seq<Probe>,
                            lastResults: seq<int>, historyFailed: bool, now: nat) {
    o.instance == h.instance
    && match o.confidence
       case Exact => Verdict(h, served) == Some(o.code) && o.reason.None?
       case PollingFallback =>
         && options.fallback && Verdict(h, served).None?
         && GraceOver(probes, options.grace, now) && (Seen(probes) || options.grace <= now)
         && lastResults != [] && o.code == lastResults[|lastResults| - 1]
         && o.reason == Some(if historyFailed then HistoryNotReadable else CompletionNotObserved)
  }

  lemma RoundsAddUp(options: Options, n: nat, t: nat, now: nat, later: nat)
    requires n * Step(options) <= t <= now < options.timeout
    requires later >= now + Min(Min(options.poll, options.timeout - now), SECOND)
    ensures later >= options.timeout || (n + 1) * Step(options) <= later
  {
    assert (n + 1) * Step(options) == n * Step(options) + Step(options);
  }

  lemma GraceStaysOver(probes: seq<Probe>, observedRunning: bool, absentSince: Option<nat>, grace: nat, now: nat, later: nat)
    requires Remembers(probes, observedRunning, absentSince) && absentSince.Some?
    requires absentSince.value + grace <= now <= later
    ensures GraceOver(probes, grace, later) && (observedRunning ==> Seen(probes))
  {
    GraceIsOver(probes, absentSince.value, grace, later);
  }

  /** Look once whether the run is still there. */
  method ProbeOnce(observer: Observer, h: RunHandle, observedRunning: bool, absentSince: Option<nat>)
    returns (fault: Option<Fault>, running: bool, absent: Option<nat>)
    requires observer.instance == h.instance && Remembers(observer.probes, observedRunning, absentSince)
    requires Timely(observer.probes, absentSince, observer.clock)
    modifies observer`clock, observer`probes, observer`broken
    ensures observer.clock >= old(observer.clock)
    ensures fault.None? ==> observer.probes != [] && observer.probes[..|observer.probes| - 1] == old(observer.probes)
                            && Remembers(observer.probes, running, absent)
                            && Timely(observer.probes, absent, observer.clock) && observer.broken == old(observer.broken)
    ensures fault.Some? ==> observer.probes == old(observer.probes) && observer.broken == fault
  {
    hide Remembers, Timely;
    running, absent := observedRunning, absentSince;
    var listed := observer.Running();
    if listed.Err? {
      return Some(listed.fault), running, absent;
    }
    ghost var p := observer.probes[|observer.probes| - 1];
    if h.instance in listed.value {
      ProbeAdded(old(observer.probes), running, absent, p, observer.clock);
      ProbeIsTimely(old(observer.probes), absent, old(observer.clock), p, observer.clock);
      running, absent := true, None;
    } else {
      var now := observer.Elapsed();
      ProbeAdded(old(observer.probes), running, absent, p, now);
      ProbeIsTimely(old(observer.probes), absent, old(observer.clock), p, now);
      absent := if absent.Some? then absent else Some(now);
    }
    fault := None;
  }

  /** The labelled fallback, once the run has been missing for the whole grace period. */
  method FallBack(observer: Observer, h: RunHandle, options: Options, historyError: bool, running: bool, absent: Option<nat>)
    returns (r: Option<Result<RunOutcome>>)
    requires Remembers(observer.probes, running, absent) && historyError == observer.historyFault.Some?
    requires Verdict(h, observer.served).None?
    modifies observer`clock, observer`lastResults, observer`broken
    ensures observer.clock >= old(observer.clock)
    ensures r.Some? && r.value.Ok? ==>
      Justified(h, options, r.value.value, observer.served, observer.probes, observer.lastResults,
                observer.historyFault.Some?, observer.clock)
    ensures if r.Some? && r.value.Err? then observer.broken == Some(r.value.fault)
            else observer.broken == old(observer.broken)
    ensures r.None? ==>
              !options.fallback || absent.None? || absent.value + options.grace > old(observer.clock)
              || (!running && old(observer.clock) < options.grace)
  {
    hide Verdict, Remembers, GraceOver, Seen;
    if !options.fallback || absent.None? {
      return None;
    }
    var now := observer.Elapsed();
    if absent.value + options.grace > now {
      return None;
    }
    var again := now;
    if !running {
      again := observer.Elapsed();
      if again < options.grace {
        return None;
      }
    }
    var last := observer.LastResult();
    if last.Err? {
      return Some(Err(last.fault));
    }
    GraceStaysOver(observer.probes, running, absent, options.grace, now, observer.clock);
    r := Some(Ok(RunOutcome(h.instance, last.value, PollingFallback,
                            Some(if historyError then HistoryNotReadable else CompletionNotObserved))));
  }

  /** Read the history unless it has failed before. */
  method Correlate(observer: Observer, h: RunHandle, options: Options, correlation: Correlation, historyError: bool)
    returns (r: Option<Result<RunOutcome>>, failed: bool)
    requires correlation.Follows(h) && correlation.seen == observer.served
    requires Verdict(h, observer.served).None? && (historyError ==> options.fallback)
    requires historyError == observer.historyFault.Some?
    modifies observer`clock, observer`served, observer`readings, observer`historyFault, correlation
    ensures correlation.Follows(h) && correlation.seen == observer.served && failed == observer.historyFault.Some?
    ensures observer.clock >= old(observer.clock)
    ensures r.None? ==> Verdict(h, observer.served).None? && (failed ==> options.fallback)
    ensures observer.readings == old(observer.readings) + (if failed then 0 else 1)
    ensures r.Some? && r.value.Ok? ==>
      r.value.value.confidence.Exact?
      && Justified(h, options, r.value.value, observer.served, observer.probes, observer.lastResults,
                   observer.historyFault.Some?, observer.clock)
    ensures r.Some? && r.value.Err? ==> observer.historyFault == Some(r.value.fault) && !options.fallback
    ensures r.Some? && r.value.Ok? ==> !failed
    ensures historyError ==> failed
  {
    hide Verdict;
    failed := historyError;
    if historyError {
      return None, failed;
    }
    var events := observer.History();
    if events.Err? {
      failed := true;
      return if options.fallback then None else Some(Err(events.fault)), failed;
    }
    var code := correlation.Ingest(h, events.value);
    r := if code.Some? then Some(Ok(RunOutcome(h.instance, code.value, Exact, None))) else None;
  }

  /** Why a wait ends without an outcome: something could not be read, the caller asked for an end, or time ran out
      without a verdict and, where the fallback is allowed, without a whole grace period of absence. */
  ghost predicate Explained(h: RunHandle, options: Options, fault: Fault, observer: Observer)
    reads observer
  {
    || observer.broken == Some(fault)
    || (!options.fallback && observer.historyFault == Some(fault))
    || (fault == Cancelled && observer.cancelled)
    || (fault == Timeout && observer.clock >= options.timeout && Verdict(h, observer.served).None?
        && (options.fallback ==> !GraceIgnored(observer.probes, options.grace)))
  }

  /** observe_run.  It ends within timeout / min(poll, 1 s) rounds, rounded up, and never sleeps longer than that
      step; an exact code rests on events of this run, the fallback on a full grace period of absence, and a
      timeout on neither.  The history is read in every round until it fails, a failure ends the wait unless it
      is one of the history and the fallback is allowed, and so does a request to cancel. */
  method ObserveRun(observer: Observer, h: RunHandle, options: Options) returns (r: Result<RunOutcome>)
    requires observer.instance == h.instance && observer.Fresh()
    modifies observer
    ensures r.Ok? ==>
      Justified(h, options, r.value, observer.served, observer.probes, observer.lastResults,
                observer.historyFault.Some?, observer.clock)
    ensures |observer.probes| > 0 ==> (|observer.probes| - 1) * Step(options) < options.timeout
    ensures forall k :: 0 <= k < |observer.naps| ==> observer.naps[k] <= Step(options)
    ensures options.poll == 0 ==> r == Err(InvalidDefinition) && observer.clock == 0 && observer.probes == []
    ensures options.poll > 0 && r.Err? ==> Explained(h, options, r.fault, observer)
    ensures observer.broken.Some? ==> r == Err(observer.broken.value)
    ensures observer.historyFault.Some? && !options.fallback ==> r == Err(observer.historyFault.value)
    ensures observer.cancelled ==> r == Err(Cancelled)
    ensures observer.historyFault.None? ==> observer.readings >= |observer.probes|
  {
    hide Verdict, Remembers, Justified, Timely, GraceIgnored;
    if options.poll == 0 {
      return Err(InvalidDefinition);
    }
    var historyError, running := false, false;
    var absent: Option<nat> := None;
    var correlation := new Correlation();
    NothingObserved(h, options.grace);
    while true
      invariant fresh(correlation) && Undecided(observer, h, options, correlation, historyError, running, absent)
      invariant observer.clock >= options.timeout || |observer.probes| * Step(options) <= observer.clock
      invariant |observer.probes| > 0 ==> (|observer.probes| - 1) * Step(options) < options.timeout
      invariant forall k :: 0 <= k < |observer.naps| ==> observer.naps[k] <= Step(options)
      invariant !observer.cancelled
      decreases options.timeout - observer.clock
    {
      ghost var began := observer.clock;
      var cancel := observer.CancelRequested();
      if cancel {
        return Err(Cancelled);
      }
      var before := observer.Elapsed();
      TimelyLater(observer.probes, absent, began, before);
      if before >= options.timeout {
        return Err(Timeout);
      }
      ghost var rounds := |observer.probes|;
      var result;
      result, historyError, running, absent := WaitRound(observer, h, options, correlation, historyError, running, absent);
      if result.Some? {
        return result.value;
      }
      ghost var clock := observer.clock;
      var nap := Rest(observer, options, before, rounds);
      TimelyLater(observer.probes, absent, clock, observer.clock);
    }
  }

  /** The pause between two rounds: the poll interval, but no longer than what is left and than a second. */
  method Rest(observer: Observer, options: Options, before: nat, ghost rounds: nat) returns (nap: nat)
    requires rounds * Step(options) <= before <= observer.clock && before < options.timeout && options.poll > 0
    modifies observer`clock, observer`naps
    ensures observer.clock >= options.timeout
            || (observer.clock > old(observer.clock) && (rounds + 1) * Step(options) <= observer.clock)
    ensures observer.clock >= old(observer.clock)
    ensures observer.naps == old(observer.naps) + [nap] && nap <= Step(options)
    ensures old(observer.clock) < options.timeout ==> old(observer.clock) + nap <= options.timeout
  {
    var now := observer.Elapsed();
    nap := Min(Min(options.poll, if now < options.timeout then options.timeout - now else 0), SECOND);
    observer.Sleep(nap);
    if now < options.timeout {
      RoundsAddUp(options, rounds, before, now, observer.clock);
    }
  }

  /** What holds between two rounds. */
  ghost predicate Undecided(observer: Observer, h: RunHandle, options: Options, correlation: Correlation,
                            historyError: bool, running: bool, absent: Option<nat>)
    reads observer, correlation
  {
    && observer.instance == h.instance && correlation.Follows(h) && correlation.seen == observer.served
    && historyError == observer.historyFault.Some? && (historyError ==> options.fallback)
    && Verdict(h, observer.served).None? && Remembers(observer.probes, running, absent)
    && Timely(observer.probes, absent, observer.clock)
    && (options.fallback ==> !GraceIgnored(observer.probes, options.grace))
    && (!historyError ==> observer.readings == |observer.probes|) && observer.broken.None?
  }

  /** One round: the history, one probe, the fallback. */
  method WaitRound(observer: Observer, h: RunHandle, options: Options, correlation: Correlation,
                   historyError: bool, running: bool, absent: Option<nat>)
    returns (r: Option<Result<RunOutcome>>, historyError': bool, running': bool, absent': Option<nat>)
    requires Undecided(observer, h, options, correlation, historyError, running, absent)
    modifies observer`clock, observer`served, observer`readings, observer`probes, observer`lastResults,
             observer`historyFault, observer`broken, correlation
    ensures observer.clock >= old(observer.clock) && |old(observer.probes)| <= |observer.probes| <= |old(observer.probes)| + 1
    ensures r.None? ==> Undecided(observer, h, options, correlation, historyError', running', absent')
                        && |observer.probes| == |old(observer.probes)| + 1
    ensures r.Some? && r.value.Ok? ==>
      Justified(h, options, r.value.value, observer.served, observer.probes, observer.lastResults,
                observer.historyFault.Some?, observer.clock)
    ensures r.Some? && r.value.Err? ==>
      observer.broken == Some(r.value.fault) || (!options.fallback && observer.historyFault == Some(r.value.fault))
    ensures observer.broken.Some? ==> r == Some(Err(observer.broken.value))
    ensures observer.historyFault.Some? && !options.fallback ==> r == Some(Err(observer.historyFault.value))
    ensures observer.historyFault.None? ==> observer.readings >= |observer.probes|
  {
    hide Verdict, Remembers, Justified, Timely, GraceIgnored;
    historyError', running', absent' := historyError, running, absent;
    var exact;
    exact, historyError' := Correlate(observer, h, options, correlation, historyError);
    if exact.Some? {
      return exact, historyError', running', absent';
    }
    TimelyLater(observer.probes, absent, old(observer.clock), observer.clock);
    var fault: Option<Fault>;
    fault, running', absent' := ProbeOnce(observer, h, running, absent);
    if fault.Some? {
      return Some(Err(fault.value)), historyError', running', absent';
    }
    ghost var probed := observer.clock;
    r := FallBack(observer, h, options, historyError', running', absent');
    if r.None? {
      ghost var probes := old(observer.probes);
      assert observer.probes == probes + [observer.probes[|probes|]];
      if options.fallback {
        NothingIgnored(probes, observer.probes[|probes|], absent', options.grace, probed);
      }
      TimelyLater(observer.probes, absent', probed, observer.clock);
    }
  }

  lemma NothingObserved(h: RunHandle, grace: nat)
    ensures Verdict(h, []).None? && Remembers([], false, None) && Timely([], None, 0) && !GraceIgnored([], grace)
  {
  }
}
