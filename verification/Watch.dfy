/** Bookmark-based delivery of history events (client/watch.rs) over an event log that others append to,
    trim and clear while it is read. */
module Watch {
  import opened Wrappers
  import opened History

  datatype Fault = Timeout | HistoryGap | AccessDenied | HistoryUnavailable | Serialization | WorkerStopped
  datatype Result<T> = Ok(value: T) | Err(fault: Fault)

  function FaultOf<T>(r: Result<T>): Option<Fault> { if r.Ok? then None else Some(r.fault) }

  datatype Cursor = Cursor(bookmark: nat, recordId: nat, timestamp: int)
  datatype Page = Page(events: seq<Event>, cursor: Option<Cursor>, more: bool)

  /** A native event handle; the index only says which entry it is. */
  datatype Handle = Handle(index: nat, event: Event)

  // ---- the log ---------------------------------------------------------------------------------

  predicate SameIdentity(a: Event, b: Event) { a.recordId == b.recordId && a.timestamp == b.timestamp }

  /** Record ids may be reused after a clear, but then with another time. */
  ghost predicate Unique(history: seq<Event>) {
    forall i, j :: 0 <= i < j < |history| ==> !SameIdentity(history[i], history[j])
  }

  predicate Is(e: Event, c: Cursor) { e.recordId == c.recordId && e.timestamp == c.timestamp }

  /** The cursor stands for entry `i`. */
  predicate Names(history: seq<Event>, c: Cursor, i: int) { 0 <= i < |history| && Is(history[i], c) }

  /** And its bookmark leads there. */
  predicate Marks(history: seq<Event>, c: Cursor, i: int) { Names(history, c, i) && c.bookmark == i }

  /** The channel: everything ever written, and the first entry that has not been trimmed or cleared. */
  class Log {
    var history: seq<Event>
    var floor: nat
    ghost var failures: seq<Fault>  // failures without a cause in the log, in order

    ghost predicate Valid() reads this { floor <= |history| && Unique(history) }

    twostate predicate Moved()
      reads this
    {
      Valid() && old(history) <= history && old(floor) <= floor && old(failures) <= failures
    }

    constructor (history: seq<Event>, floor: nat)
      requires floor <= |history| && Unique(history)
      ensures Valid() && this.history == history && this.floor == floor && failures == []
    {
      this.history, this.floor, failures := history, floor, [];
    }

    /** Other processes write, and old entries go. */
    method Others()
      requires Valid()
      modifies this`history, this`floor
      ensures Moved()
    {
      var more: seq<Event> := *;
      if Fresh(history, more) {
        history := history + more;
      }
      var gone: nat := *;
      if floor <= gone <= |history| {
        floor := gone;
      }
    }

    method Fail() returns (fault: Fault)
      modifies this`failures
      ensures failures == old(failures) + [fault]
    {
      var any: Fault := *;
      fault := any;
      failures := failures + [fault];
    }

    /** Nothing failed without a cause. */
    twostate predicate Sound() reads this { failures == old(failures) }

    /** What an operation reports is what failed; a gap may also be found without a failure. */
    twostate predicate Reports(new failed: Option<Fault>)
      reads this
    {
      if failed.None? then Sound() else failures == old(failures) + [failed.value] || (Sound() && failed.value == HistoryGap)
    }
  }

  /** Whether new entries keep identities unique. */
  predicate Fresh(history: seq<Event>, more: seq<Event>)
    ensures Fresh(history, more) && Unique(history) ==> Unique(history + more)
  {
    && (forall i, j :: 0 <= i < j < |more| ==> !SameIdentity(more[i], more[j]))
    && (forall i, j :: 0 <= i < |history| && 0 <= j < |more| ==> !SameIdentity(history[i], more[j]))
  }

  // ---- one native query --------------------------------------------------------------------------------

  /** The handles are the entries from `from` to `to` that the channel's time filter lets through. */
  ghost predicate Reading(handles: seq<Handle>, history: seq<Event>, since: Option<int>, from: nat, to: nat) {
    && from <= to <= |history|
    && (forall k :: 0 <= k < |handles| ==>
          from <= handles[k].index < to && handles[k].event == history[handles[k].index]
          && SinceAllows(since, handles[k].event))
    && (forall j, k :: 0 <= j < k < |handles| ==> handles[j].index < handles[k].index)
    && (forall i :: from <= i < to && SinceAllows(since, history[i]) ==> Listed(handles, i))
  }

  ghost predicate Listed(handles: seq<Handle>, i: nat) { exists k :: 0 <= k < |handles| && handles[k].index == i }

  /** There is something to read at or after `from`. */
  ghost predicate Available(history: seq<Event>, since: Option<int>, from: nat) {
    exists i :: from <= i < |history| && SinceAllows(since, history[i])
  }

  /** The entry after the last of the first `k` handles. */
  function Reached(handles: seq<Handle>, from: nat, k: nat): nat
    requires k <= |handles|
  {
    if k == 0 then from else handles[k - 1].index + 1
  }

  lemma ReadingAdvances(handles: seq<Handle>, history: seq<Event>, since: Option<int>, from: nat, to: nat, i: nat)
    requires Reading(handles, history, since, from, to) && to <= i < |history| && SinceAllows(since, history[i])
    requires forall j :: to <= j < i ==> !SinceAllows(since, history[j])
    ensures Reading(handles + [Handle(i, history[i])], history, since, from, i + 1)
  {
    var more := handles + [Handle(i, history[i])];
    forall j | from <= j < i + 1 && SinceAllows(since, history[j]) ensures Listed(more, j) {
      if j == i {
        assert more[|handles|].index == j;
      } else {
        var k :| 0 <= k < |handles| && handles[k].index == j;
        assert more[k].index == j;
      }
    }
  }

  /** Collect entries from the position on; the caller's buffer may come back partly filled. */
  method Scan(history: seq<Event>, since: Option<int>, from: nat, count: nat) returns (handles: seq<Handle>, to: nat)
    requires from <= |history| && count > 0
    ensures Reading(handles, history, since, from, to) && |handles| <= count
    ensures to == Reached(handles, from, |handles|)
    ensures handles == [] ==> !Available(history, since, from)
  {
    handles, to := [], from;
    var i := from;
    while i < |history| && |handles| < count
      invariant from <= to <= i <= |history| && |handles| <= count
      invariant Reading(handles, history, since, from, to)
      invariant to == Reached(handles, from, |handles|)
      invariant forall j :: to <= j < i ==> !SinceAllows(since, history[j])
    {
      if SinceAllows(since, history[i]) {
        ReadingAdvances(handles, history, since, from, to, i);
        handles, to := handles + [Handle(i, history[i])], i + 1;
      }
      i := i + 1;
      var early: bool := *;
      if early && handles != [] {
        break;
      }
    }
  }

  class PageSource {
    const log: Log
    const since: Option<int>
    var position: nat

    ghost predicate Valid() reads this, log { log.Valid() && position <= |log.history| }

    /** EvtQuery in forward direction: reading starts at the oldest entry there is. */
    constructor (log: Log, since: Option<int>)
      requires log.Valid()
      ensures Valid() && this.log == log && this.since == since && position == log.floor
    {
      this.log, this.since, position := log, since, log.floor;
    }

    /** EvtSeek relative to the bookmark.  It finds the anchor if it is there; otherwise it reports the
        loss or, when record ids have been reused, ends up somewhere else. */
    method Seek(cursor: Cursor) returns (r: Result<()>)
      requires Valid()
      modifies this, log
      ensures Valid() && log.Moved() && log.Reports(FaultOf(r))
      ensures log.Sound() ==>
        forall i :: log.floor <= i && Marks(log.history, cursor, i) ==> r.Ok? && position == i
      ensures log.Sound() && r.Err? ==> r.fault == HistoryGap
    {
      log.Others();
      var broken: bool := *;
      if broken {
        var fault := log.Fail();
        return Err(fault);
      }
      if log.floor <= cursor.bookmark && Names(log.history, cursor, cursor.bookmark) {
        position := cursor.bookmark;
        return Ok(());
      }
      var elsewhere: nat := *;
      if log.floor <= elsewhere < |log.history| {
        position := elsewhere;
        return Ok(());
      }
      return Err(HistoryGap);
    }

    /** EvtNext: at most `count` entries from the position on, perhaps fewer than there are; it fails when
        the position has been trimmed away. */
    method Next(count: nat) returns (r: Result<seq<Handle>>)
      requires Valid() && count > 0
      modifies this, log
      ensures Valid() && log.Moved() && log.Reports(FaultOf(r))
      ensures r.Ok? ==> |r.value| <= count && old(position) >= log.floor
      ensures r.Ok? ==> Reading(r.value, log.history, since, old(position), position)
                        && position == Reached(r.value, old(position), |r.value|)
      ensures log.Sound() && r.Err? ==> r.fault == HistoryGap && old(position) < log.floor
      ensures log.Sound() && r.Ok? && r.value == [] ==> !Available(log.history, since, old(position))
    {
      log.Others();
      var broken: bool := *;
      if broken {
        var fault := log.Fail();
        return Err(fault);
      }
      if position < log.floor {
        return Err(HistoryGap);
      }
      var handles, to := Scan(log.history, since, position, count);
      position := to;
      r := Ok(handles);
    }

    method Render(handle: Handle) returns (r: Result<Event>)
      requires log.Valid()
      modifies log
      ensures log.Moved() && (r.Ok? ==> r.value == handle.event)
      ensures log.failures == old(log.failures) + (if r.Err? then [r.fault] else [])
    {
      log.Others();
      var broken: bool := *;
      if broken {
        var fault := log.Fail();
        return Err(fault);
      }
      r := Ok(handle.event);
    }

    method Bookmark(handle: Handle) returns (r: Result<nat>)
      requires log.Valid()
      modifies log
      ensures log.Moved() && (r.Ok? ==> r.value == handle.index)
      ensures log.failures == old(log.failures) + (if r.Err? then [r.fault] else [])
    {
      log.Others();
      var broken: bool := *;
      if broken {
        var fault := log.Fail();
        return Err(fault);
      }
      r := Ok(handle.index);
    }
  }

  // ---- reading a page -----------------------------------------------------------------------------------

  /** Between two consecutive handles the channel's filter lets nothing through. */
  lemma NothingBetween(handles: seq<Handle>, history: seq<Event>, since: Option<int>, from: nat, to: nat, k: nat, i: nat)
    requires Reading(handles, history, since, from, to) && k < |handles|
    requires Reached(handles, from, k) <= i < handles[k].index
    ensures i < |history| && !SinceAllows(since, history[i])
  {
    forall j | 0 <= j < |handles| ensures handles[j].index != i {
      if j < k - 1 {
        assert handles[j].index < handles[k - 1].index;
      }
    }
    assert !Listed(handles, i);
  }

  lemma SelectionSkips(q: Query, a: seq<Event>, b: seq<Event>, e: Event)
    requires forall x <- b :: !Matches(q, x)
    ensures Selected(q, a + b + [e]) == Selected(q, a) + (if Matches(q, e) then [e] else [])
  {
    SelectedNothing(q, b);
    SelectedOne(q, e);
    hide Selected;
    SelectedConcat(q, a, b);
    SelectedConcat(q, a + b, [e]);
    assert Selected(q, a) + [] == Selected(q, a);
  }

  /** One more handle extends the selection over the entries up to and including its own. */
  lemma SelectionAdvances(q: Query, history: seq<Event>, handles: seq<Handle>, from: nat, to: nat, k: nat)
    requires Reading(handles, history, q.since, from, to) && k < |handles|
    ensures from <= Reached(handles, from, k) <= handles[k].index < |history|
    ensures Selected(q, history[from..handles[k].index + 1])
            == Selected(q, history[from..Reached(handles, from, k)])
               + (if Matches(q, handles[k].event) then [handles[k].event] else [])
  {
    hide Selected;
    forall i | Reached(handles, from, k) <= i < handles[k].index ensures !Matches(q, history[i]) {
      NothingBetween(handles, history, q.since, from, to, k, i);
    }
    var a, b := Reached(handles, from, k), handles[k].index;
    SelectionSkips(q, history[from..a], history[a..b], history[b]);
    assert history[from..b + 1] == history[from..a] + history[a..b] + [history[b]];
  }

  /** What a page with this outcome says about the log. */
  ghost predicate PageOf(page: Page, q: Query, cursor: Option<Cursor>, history: seq<Event>, from: nat, to: nat) {
    && from <= to <= |history|
    && page.events == Selected(q, history[from..to])
    && (if to == from then page.cursor == cursor else page.cursor.Some? && Marks(history, page.cursor.value, to - 1))
    && (cursor.Some? ==> Names(history, cursor.value, from - 1))
  }

  /** The anchor check: position the query just after the entry the cursor stands for. */
  method Resume(source: PageSource, cursor: Cursor) returns (r: Result<()>)
    requires source.Valid()
    modifies source, source.log
    ensures source.Valid() && source.log.Moved() && source.log.Reports(FaultOf(r))
    ensures r.Ok? ==> Names(source.log.history, cursor, source.position - 1)
    ensures source.log.Sound() && r.Err? ==> r.fault == HistoryGap
    ensures r.Ok? ==> source.position > old(source.log.floor)
    ensures source.log.Sound() && r.Err? ==>
      forall i :: Marks(old(source.log.history), cursor, i) && SinceAllows(source.since, source.log.history[i])
                  ==> i < source.log.floor
  {
    var sought := source.Seek(cursor);
    assert forall i :: Marks(old(source.log.history), cursor, i) ==> Marks(source.log.history, cursor, i);
    if sought.Err? {
      return sought;
    }
    ghost var position := source.position;
    var handles := source.Next(1);
    if handles.Err? {
      return Err(handles.fault);
    }
    if handles.value == [] {
      return Err(HistoryGap);
    }
    ghost var history := source.log.history;
    AnchorIsFirst(handles.value, history, source.since, position, source.position);
    var anchor := source.Render(handles.value[0]);
    if anchor.Err? {
      return Err(anchor.fault);
    }
    if anchor.value.recordId != cursor.recordId || anchor.value.timestamp != cursor.timestamp {
      return Err(HistoryGap);
    }
    assert history[source.position - 1] == source.log.history[source.position - 1];
    r := Ok(());
  }

  /** The first entry read is the one sought, if that one can be read. */
  lemma AnchorIsFirst(handles: seq<Handle>, history: seq<Event>, since: Option<int>, position: nat, to: nat)
    requires Reading(handles, history, since, position, to) && |handles| == 1 && to == Reached(handles, position, 1)
    ensures handles[0].event == history[to - 1]
    ensures position < |history| && SinceAllows(since, history[position]) ==> to == position + 1
  {
    if position < |history| && SinceAllows(since, history[position]) {
      assert Listed(handles, position);
    }
  }

  /** The entry a cursor stands for has been trimmed or cleared away. */
  ghost predicate Lost(history: seq<Event>, floor: nat, cursor: Option<Cursor>) {
    cursor.Some? && exists i :: 0 <= i < floor && Names(history, cursor.value, i)
  }

  /** The entry a cursor stands for is still there and passes the channel's filter. */
  ghost predicate Kept(history: seq<Event>, floor: nat, since: Option<int>, cursor: Option<Cursor>) {
    cursor.Some? && exists i :: floor <= i < |history| && Marks(history, cursor.value, i) && SinceAllows(since, history[i])
  }

  lemma OnlyOneName(history: seq<Event>, cursor: Cursor, i: int, j: int)
    requires Unique(history) && Names(history, cursor, i) && Names(history, cursor, j)
    ensures i == j
  {
  }

  predicate Stands(c: Cursor, handle: Handle) { c.bookmark == handle.index && Is(handle.event, c) }

  /** One entry and the cursor that stands for it. */
  method RenderOne(source: PageSource, handle: Handle) returns (event: Result<Event>, cursor: Option<Cursor>)
    requires source.Valid()
    modifies source.log
    ensures source.Valid() && source.log.Moved()
    ensures event.Ok? ==> event.value == handle.event && cursor.Some? && Stands(cursor.value, handle)
    ensures source.log.failures == old(source.log.failures) + (if event.Err? then [event.fault] else [])
  {
    event := source.Render(handle);
    if event.Err? {
      return event, None;
    }
    var bookmark := source.Bookmark(handle);
    if bookmark.Err? {
      return Err(bookmark.fault), None;
    }
    cursor := Some(Cursor(bookmark.value, event.value.recordId, event.value.timestamp));
  }

  /** What has been collected from the first `k` handles. */
  ghost predicate Collected(events: seq<Event>, next: Option<Cursor>, query: Query, cursor: Option<Cursor>,
                            history: seq<Event>, handles: seq<Handle>, from: nat, k: nat)
    requires k <= |handles|
  {
    && from <= Reached(handles, from, k) <= |history|
    && events == Selected(query, history[from..Reached(handles, from, k)])
    && (if k == 0 then next == cursor else next.Some? && Stands(next.value, handles[k - 1]))
  }

  lemma CollectedFirst(query: Query, cursor: Option<Cursor>, history: seq<Event>, handles: seq<Handle>,
                       from: nat, to: nat)
    requires Reading(handles, history, query.since, from, to)
    ensures Collected([], cursor, query, cursor, history, handles, from, 0)
  {
    assert history[from..from] == [];
  }

  lemma CollectedNext(events: seq<Event>, next: Option<Cursor>, query: Query, cursor: Option<Cursor>,
                      history: seq<Event>, handles: seq<Handle>, from: nat, to: nat, k: nat, here: Option<Cursor>)
    requires k < |handles| && Reading(handles, history, query.since, from, to)
    requires Collected(events, next, query, cursor, history, handles, from, k)
    requires here.Some? && Stands(here.value, handles[k])
    ensures Collected(if Matches(query, handles[k].event) then events + [handles[k].event] else events, here,
                      query, cursor, history, handles, from, k + 1)
  {
    hide Selected, Matches, Reading;
    SelectionAdvances(query, history, handles, from, to, k);
  }

  lemma CollectedAll(events: seq<Event>, next: Option<Cursor>, query: Query, cursor: Option<Cursor>,
                     history: seq<Event>, history': seq<Event>, handles: seq<Handle>, from: nat, to: nat, more: bool)
    requires Reading(handles, history, query.since, from, to) && to == Reached(handles, from, |handles|)
    requires Collected(events, next, query, cursor, history, handles, from, |handles|) && history <= history'
    requires cursor.Some? ==> Names(history, cursor.value, from - 1)
    ensures PageOf(Page(events, next, more), query, cursor, history', from, to)
  {
    assert history[from..to] == history'[from..to];
  }

  /** Render one batch: keep what the query asks for and remember the last entry. */
  method RenderAll(source: PageSource, query: Query, handles: seq<Handle>, cursor: Option<Cursor>, ghost from: nat)
    returns (r: Result<Page>)
    requires source.Valid() && source.since == query.since
    requires Reading(handles, source.log.history, query.since, from, source.position)
    requires source.position == Reached(handles, from, |handles|)
    requires cursor.Some? ==> Names(source.log.history, cursor.value, from - 1)
    modifies source.log
    ensures source.Valid() && source.log.Moved()
    ensures r.Ok? ==> PageOf(r.value, query, cursor, source.log.history, from, source.position)
    ensures r.Ok? ==> (r.value.more <==> |handles| == 256)
    ensures source.log.failures == old(source.log.failures) + (if r.Err? then [r.fault] else [])
  {
    hide Reading, Selected, Matches, PageOf, Reached, Unique, Names, Collected;
    ghost var history := source.log.history;
    var next, events := cursor, [];
    CollectedFirst(query, cursor, history, handles, from, source.position);
    for k := 0 to |handles|
      invariant source.Valid() && source.log.Moved() && source.log.Sound()
      invariant Collected(events, next, query, cursor, history, handles, from, k)
    {
      var event, here := RenderOne(source, handles[k]);
      if event.Err? {
        return Err(event.fault);
      }
      CollectedNext(events, next, query, cursor, history, handles, from, source.position, k, here);
      next := here;
      if Matches(query, event.value) {
        events := events + [event.value];
      }
    }
    CollectedAll(events, next, query, cursor, history, source.log.history, handles, from, source.position, |handles| == 256);
    r := Ok(Page(events, next, |handles| == 256));
  }

  /** read_page: on success the page is the selection of one stretch of the log that starts right after
      the cursor's entry.  Without failures of its own it succeeds as long as that entry is there, and
      reports a gap when it is gone. */
  method ReadPage(source: PageSource, query: Query, cursor: Option<Cursor>) returns (r: Result<Page>, ghost from: nat)
    requires source.Valid() && source.since == query.since
    modifies source, source.log
    ensures source.Valid() && source.log.Moved() && source.log.Reports(FaultOf(r))
    ensures r.Ok? ==> PageOf(r.value, query, cursor, source.log.history, from, source.position)
    ensures r.Ok? && cursor.None? ==> from == old(source.position)
    ensures Lost(old(source.log.history), old(source.log.floor), cursor) ==> r.Err?
    ensures source.log.Sound() ==>
      && (r.Err? ==> r.fault == HistoryGap)
      && (Kept(old(source.log.history), source.log.floor, query.since, cursor) ==> r.Ok?)
      && (r.Ok? && source.position == from ==> !Available(old(source.log.history), query.since, from))
  {
    from := source.position;
    if cursor.Some? {
      var resumed := Resume(source, cursor.value);
      if resumed.Err? {
        return Err(resumed.fault), from;
      }
      from := source.position;
    }
    ghost var history := source.log.history;
    var handles := source.Next(256);
    if handles.Err? {
      return Err(handles.fault), from;
    }
    r := RenderAll(source, query, handles.value, cursor, from);
  }

  lemma LostStays(history: seq<Event>, floor: nat, history': seq<Event>, floor': nat, cursor: Option<Cursor>)
    requires Lost(history, floor, cursor) && history <= history' && floor <= floor'
    ensures Lost(history', floor', cursor)
  {
    var i :| 0 <= i < floor && Names(history, cursor.value, i);
    assert Names(history', cursor.value, i);
  }

  /** One continuation request through the worker: open the query, then read a page. */
  method Fetch(log: Log, query: Query, cursor: Option<Cursor>) returns (r: Result<Page>, ghost from: nat, ghost to: nat)
    requires log.Valid()
    modifies log
    ensures log.Moved() && log.Reports(FaultOf(r))
    ensures r.Ok? ==> PageOf(r.value, query, cursor, log.history, from, to)
    ensures r.Ok? && cursor.None? ==> old(log.floor) <= from <= log.floor
    ensures Lost(old(log.history), old(log.floor), cursor) ==> r.Err?
    ensures log.Sound() ==>
      && (r.Err? ==> r.fault == HistoryGap)
      && (Kept(old(log.history), log.floor, query.since, cursor) ==> r.Ok?)
      && (r.Ok? && to == from ==> !Available(old(log.history), query.since, from))
  {
    from, to := 0, 0;
    var broken: bool := *;
    if broken {
      var fault := log.Fail();
      return Err(fault), from, to;
    }
    log.Others();
    ghost var history := log.history;
    if Lost(old(log.history), old(log.floor), cursor) {
      LostStays(old(log.history), old(log.floor), history, log.floor, cursor);
    }
    var source := new PageSource(log, query.since);
    r, from := ReadPage(source, query, cursor);
    to := source.position;
  }

  // ---- delivery -----------------------------------------------------------------------------------------------

  datatype Delivery = Accepted | Full | Disconnected

  /** The bounded queue to the caller, and the channel on which the caller asks to stop. */
  class Outbox {
    var sent: seq<Result<Event>>
    ghost var stopped: bool // the caller has asked to stop or is gone
    ghost var full: nat     // how often there was no room
    ghost var asked: nat    // how often the watcher looked for a request to stop

    constructor ()
      ensures sent == [] && !stopped && full == 0 && asked == 0
    {
      sent, stopped, full, asked := [], false, 0, 0;
    }

    method TrySend(item: Result<Event>) returns (d: Delivery)
      modifies this
      ensures sent == if d.Accepted? then old(sent) + [item] else old(sent)
      ensures stopped <==> old(stopped) || d.Disconnected?
      ensures full == old(full) + (if d.Full? then 1 else 0) && asked == old(asked)
    {
      var any: Delivery := *;
      d := any;
      match d
      case Accepted => { sent := sent + [item]; }
      case Full => { full := full + 1; }
      case Disconnected => { stopped := true; }
    }

    method StopRequested() returns (stop: bool)
      modifies this`stopped, this`asked
      ensures (stopped <==> old(stopped) || stop) && asked == old(asked) + 1
    {
      var any: bool := *;
      stop := any;
      stopped, asked := stopped || stop, asked + 1;
    }
  }

  datatype Sending = Done | GivenUp | StillWaiting

  /** send: retry while the queue is full and nobody asks to stop; `patience` bounds the retries looked at. */
  method Send(out: Outbox, item: Result<Event>, patience: nat) returns (sending: Sending)
    requires !out.stopped
    modifies out
    ensures out.sent == if sending.Done? then old(out.sent) + [item] else old(out.sent)
    ensures (out.stopped <==> sending.GivenUp?) && out.full >= old(out.full) && out.asked >= old(out.asked)
    ensures sending.StillWaiting? ==> out.full == old(out.full) + patience
  {
    var left := patience;
    while left > 0
      invariant 0 <= left <= patience && out.sent == old(out.sent) && !out.stopped
      invariant out.full == old(out.full) + (patience - left) && out.asked >= old(out.asked)
    {
      left := left - 1;
      var d := out.TrySend(item);
      if d.Accepted? {
        return Done;
      }
      if d.Disconnected? {
        return GivenUp;
      }
      var stop := out.StopRequested();
      if stop {
        return GivenUp;
      }
    }
    sending := StillWaiting;
  }

  /** Where a watcher is: between two rounds, waiting for room in the queue, told to stop, or at the end
      after a final error. */
  datatype Ending = Idle | Blocked | Quit | Reported(fault: Fault)

  function Oks(events: seq<Event>): seq<Result<Event>> { seq(|events|, i requires 0 <= i < |events| => Ok(events[i])) }

  /** What the caller has received when the watcher has selected these events so far. */
  ghost predicate Delivered(sent: seq<Result<Event>>, events: seq<Event>, ending: Ending) {
    match ending
    case Idle => sent == Oks(events)
    case Blocked => sent <= Oks(events)
    case Quit => sent <= Oks(events)
    case Reported(fault) => sent == Oks(events) + [Err(fault)] && fault != Timeout
  }

  /** The cursor stands for the last entry of the stretch that has been read. */
  ghost predicate Following(cursor: Option<Cursor>, history: seq<Event>, start: nat, end: nat) {
    start <= end <= |history| && (if cursor.None? then start == end else Marks(history, cursor.value, end - 1))
  }

  /** The next page carries on exactly where the last one ended. */
  lemma PageContinues(q: Query, history: seq<Event>, cursor: Option<Cursor>, start: nat, end: nat,
                      page: Page, from: nat, to: nat)
    requires Unique(history) && Following(cursor, history, start, end)
    requires PageOf(page, q, cursor, history, from, to)
    ensures cursor.Some? ==> from == end
    ensures var first := if cursor.None? then from else start;
      Following(page.cursor, history, first, to)
      && Selected(q, history[first..to]) == Selected(q, history[start..end]) + page.events
  {
    if cursor.Some? {
      OnlyOneName(history, cursor.value, from - 1, end - 1);
      SelectedConcat(q, history[start..end], history[from..to]);
      assert history[start..end] + history[from..to] == history[start..to];
    } else {
      assert history[start..end] == [];
      assert [] + page.events == page.events;
    }
  }

  lemma StretchStays(q: Query, history: seq<Event>, history': seq<Event>, cursor: Option<Cursor>, start: nat, end: nat)
    requires history <= history' && Following(cursor, history, start, end)
    ensures Following(cursor, history', start, end)
    ensures history[start..end] == history'[start..end]
  {
  }

  lemma OksAppend(a: seq<Event>, b: seq<Event>)
    ensures Oks(a + b) == Oks(a) + Oks(b)
  {
  }

  /** Hand a page to the caller. */
  method SendPage(out: Outbox, events: seq<Event>, patience: nat) returns (ending: Ending)
    requires !out.stopped
    modifies out
    ensures !ending.Reported? && (out.stopped <==> ending.Quit?) && out.full >= old(out.full)
    ensures out.asked >= old(out.asked)
    ensures ending.Blocked? ==> out.full >= old(out.full) + patience
    ensures if ending.Idle? then out.sent == old(out.sent) + Oks(events)
            else old(out.sent) <= out.sent <= old(out.sent) + Oks(events)
  {
    for i := 0 to |events|
      invariant out.sent == old(out.sent) + Oks(events)[..i] && !out.stopped && out.full >= old(out.full)
      invariant out.asked >= old(out.asked)
    {
      var sending := Send(out, Ok(events[i]), patience);
      if sending.GivenUp? {
        return Quit;
      }
      if sending.StillWaiting? {
        return Blocked;
      }
    }
    ending := Idle;
  }

  /** How a round answers failures.  Goes on only after a timeout; any other failure is reported, unless the caller
      stopped or left no room; and what is reported is what failed, or a gap that was found. */
  ghost predicate Answered(failures: seq<Fault>, failures': seq<Fault>, ending: Ending) {
    && failures <= failures'
    && (ending.Idle? ==> forall k :: |failures| <= k < |failures'| ==> failures'[k] == Timeout)
    && (forall k :: |failures| <= k < |failures'| - 1 ==> failures'[k] == Timeout)
    && (ending.Reported? ==>
          || (|failures'| > |failures| && failures'[|failures'| - 1] == ending.fault && ending.fault != Timeout)
          || (ending.fault == HistoryGap && forall k :: |failures| <= k < |failures'| ==> failures'[k] == Timeout))
  }

  /** There is less to read further on, and more when more has been written. */
  lemma AvailableShrinks(history: seq<Event>, history': seq<Event>, since: Option<int>, from: nat, from': nat)
    requires from <= from' && history <= history' && Available(history, since, from')
    ensures Available(history', since, from)
  {
    var i :| from' <= i < |history| && SinceAllows(since, history[i]);
    assert history'[i] == history[i];
  }

  /** The body of deliver's loop.  A watch that goes on without failures has either read more or had nothing left
      to read.  The first page begins at the oldest entry kept when it is requested.  Once the cursor's entry is
      gone, no round delivers an event any more, and without failures the next one ends the watch with a gap
      unless it is stopped or kept waiting. */
  method Round(log: Log, query: Query, out: Outbox, cursor: Option<Cursor>, patience: nat, ghost start: nat, ghost end: nat)
    returns (ending: Ending, next: Option<Cursor>, ghost start': nat, ghost end': nat)
    requires log.Valid() && Following(cursor, log.history, start, end) && (cursor.None? ==> end <= log.floor)
    requires out.sent == Oks(Selected(query, log.history[start..end])) && !out.stopped
    modifies log, out
    ensures log.Moved() && Following(next, log.history, start', end') && (next.None? ==> end' <= log.floor)
    ensures Delivered(out.sent, Selected(query, log.history[start'..end']), ending)
    ensures (out.stopped <==> ending.Quit?) && (ending.Blocked? ==> out.full >= old(out.full) + patience)
    ensures out.asked > old(out.asked)
    ensures end' >= end && end' - start' >= end - start && (cursor.Some? ==> start' == start && next.Some?)
    ensures cursor.None? && next.Some? ==> old(log.floor) <= start' <= log.floor
    ensures Lost(old(log.history), old(log.floor), cursor) ==> next == cursor && start' == start && end' == end
    ensures Answered(old(log.failures), log.failures, ending)
    ensures log.Sound() ==>
      && (ending.Idle? && end' - start' == end - start ==> !Available(old(log.history), query.since, end'))
      && (Lost(old(log.history), old(log.floor), cursor) ==> !ending.Idle?)
  {
    hide PageOf, Selected, Matches, Lost, Available;
    next, start', end' := cursor, start, end;
    var stop := out.StopRequested();
    if stop {
      return Quit, next, start', end';
    }
    var page, from, to := Fetch(log, query, cursor);
    StretchStays(query, old(log.history), log.history, cursor, start, end);
    if page.Err? {
      if page.fault == Timeout {
        var quit := out.StopRequested();
        return if quit then Quit else Idle, next, start', end';
      }
      var sending := Send(out, Err(page.fault), patience);
      ending := match sending case Done => Reported(page.fault) case GivenUp => Quit case StillWaiting => Blocked;
      return;
    }
    PageContinues(query, log.history, cursor, start, end, page.value, from, to);
    PageIsForward(page.value, query, cursor, log.history, from, to);
    OksAppend(Selected(query, log.history[start..end]), page.value.events);
    start', end', next := if cursor.None? then from else start, to, page.value.cursor;
    ending := SendPage(out, page.value.events, patience);
    if ending.Idle? && !page.value.more {
      var quit := out.StopRequested();
      ending := if quit then Quit else Idle;
    }
  }

  lemma PageIsForward(page: Page, q: Query, cursor: Option<Cursor>, history: seq<Event>, from: nat, to: nat)
    requires PageOf(page, q, cursor, history, from, to)
    ensures from <= to && (page.cursor.None? ==> cursor.None? && to == from) && (to > from ==> page.cursor.Some?)
  {
  }

  /** deliver: over any number of rounds, what the caller receives is the selection of one contiguous
      stretch of the log, in order and without repetition or hole, followed by at most one final error.  The
      stretch begins at the oldest entry kept when the first page is read, not when the watch was begun.  It ends
      early only if the caller stopped, left no room or was told of an error; otherwise, without failures, every
      round has read on or everything written before the watch began had been read. */
  method Deliver(log: Log, query: Query, out: Outbox, rounds: nat, patience: nat)
    returns (ending: Ending, ghost start: nat, ghost end: nat)
    requires log.Valid() && out.sent == [] && !out.stopped
    modifies log, out
    ensures log.Moved() && start <= end <= |log.history|
    ensures end > start ==> old(log.floor) <= start <= log.floor
    ensures Delivered(out.sent, Selected(query, log.history[start..end]), ending)
    ensures (out.stopped <==> ending.Quit?) && (ending.Blocked? ==> out.full >= patience)
    ensures ending.Idle? ==> out.asked >= old(out.asked) + rounds
    ensures Answered(old(log.failures), log.failures, ending)
    ensures log.Sound() ==>
      && (ending.Reported? ==> ending.fault == HistoryGap)
      && (ending.Idle? ==> end - start >= rounds || !Available(old(log.history), query.since, end))
  {
    hide Selected, Matches, Available;
    start, end := 0, 0;
    var cursor: Option<Cursor> := None;
    SelectedNothing(query, []);
    assert log.history[0..0] == [];
    for round := 0 to rounds
      invariant log.Moved() && Following(cursor, log.history, start, end) && !out.stopped
      invariant if cursor.None? then end <= log.floor else old(log.floor) <= start <= log.floor
      invariant out.sent == Oks(Selected(query, log.history[start..end]))
      invariant Answered(old(log.failures), log.failures, Idle) && out.asked >= old(out.asked) + round
      invariant log.Sound() ==>
        end - start >= round || !Available(old(log.history), query.since, end)
    {
      ghost var history, end0, size := log.history, end, end - start;
      ending, cursor, start, end := Round(log, query, out, cursor, patience, start, end);
      if !ending.Idle? {
        return;
      }
      if Available(old(log.history), query.since, end) {
        AvailableShrinks(old(log.history), old(log.history), query.since, end0, end);
        AvailableShrinks(old(log.history), history, query.since, end, end);
      }
    }
    ending := Idle;
  }

  /** No entry is delivered twice: the events selected from one stretch have distinct identities. */
  lemma {:induction false} SelectionIsUnique(q: Query, events: seq<Event>)
    requires Unique(events)
    ensures Unique(Selected(q, events))
    ensures forall e <- Selected(q, events) :: e in events
  {
    if events != [] {
      var init, last := events[..|events| - 1], events[|events| - 1];
      SelectionIsUnique(q, init);
      assert events == init + [last];
      forall e | e in Selected(q, init) ensures !SameIdentity(e, last) {
        var i :| 0 <= i < |init| && init[i] == e;
        assert events[i] == e;
      }
    }
  }
}
