/** How the journal, the trace and the scheduler's log grow together, and what they say about interference. */
module Accounting {
  import opened Wrappers
  import opened Scheduler
  import opened Planning
  import opened SchedulerBackend
  import opened Recovery
  import opened ApplySpec

  /** Since apply began (`base`), the scheduler's log is exactly what the events of the trace account for, the
      journal attests exactly the changing calls in it, and each event rests on what came before it. */
  ghost predicate AccountedFor(log: seq<Entry>, base: seq<Entry>, journal: seq<JournalEntry>, trace: seq<Event>) {
    && log == base + Entries(trace)
    && JournalFootprints(journal) == Footprints(CallsOf(Entries(trace)))
    && Guarded(trace)
  }

  /** The trace only grows, and what it knows about other targets stays known. */
  ghost predicate Extends(trace: seq<Event>, trace': seq<Event>, t: Target) {
    && trace <= trace'
    && (forall other, v :: other != t && Knows(trace, other, v) ==> Knows(trace', other, v))
  }

  /** The trace only grows by events that write nothing. */
  ghost predicate Quiet(trace: seq<Event>, trace': seq<Event>) {
    && trace <= trace'
    && (forall t, v :: Knows(trace, t, v) ==> Knows(trace', t, v))
    && (forall t, v :: Spotted(trace, t, v) ==> Spotted(trace', t, v))
    && (OnlyRead(trace) ==> OnlyRead(trace'))
    && (forall c :: Changed(trace, c) ==> Changed(trace', c))
  }

  lemma QuietExtends(trace: seq<Event>, trace': seq<Event>, t: Target)
    requires Quiet(trace, trace')
    ensures Extends(trace, trace', t)
  {
    hide Knows, Spotted, OnlyRead, Changed;
  }

  lemma QuietTransitive(a: seq<Event>, b: seq<Event>, c: seq<Event>)
    requires Quiet(a, b) && Quiet(b, c)
    ensures Quiet(a, c)
  {
    hide Knows, Spotted, OnlyRead, Changed;
  }

  lemma ExtendsTransitive(a: seq<Event>, b: seq<Event>, c: seq<Event>, t: Target)
    requires Extends(a, b, t) && Extends(b, c, t)
    ensures Extends(a, c, t)
  {
    hide Knows;
  }

  lemma TraceGrows(trace: seq<Event>, e: Event)
    ensures Guarded(trace) && Justified(trace, e) ==> Guarded(trace + [e])
    ensures !e.Asked? ==> Extends(trace, trace + [e], ChangeTarget(e.change))
    ensures e.Asked? || e.Saw? || e.Left? ==> Quiet(trace, trace + [e])
    ensures e.Saw? ==> Spotted(trace + [e], ChangeTarget(e.change), e.seen)
    ensures e.Left? || (e.Saw? && OnlyRead(trace)) ==> Knows(trace + [e], ChangeTarget(e.change), e.seen)
    ensures e.Wrote? && e.phase.Mutation? && e.calls != [] ==> Changed(trace + [e], e.change)
  {
    hide Justified;
    assert (trace + [e])[..|trace|] == trace;
  }

  lemma WritingIsAccountedFor(log: seq<Entry>, base: seq<Entry>, journal: seq<JournalEntry>, trace: seq<Event>,
                              native: seq<JournalEntry>, change: Change, phase: Phase, calls: seq<Call>,
                              answers: seq<Entry>)
    requires AccountedFor(log, base, journal, trace) && Cleared(trace, change, phase)
    requires phase.Mutation? || phase.Rollback?
    requires JournalFootprints(native) == Footprints(calls)
    requires (forall call <- calls :: CallTarget(call) == ChangeTarget(change)) && AllReads(answers)
    ensures var trace' := trace + [Wrote(change, phase, calls, answers)];
      && AccountedFor(log + (Calling(calls) + answers), base, journal + native, trace')
      && Extends(trace, trace', ChangeTarget(change))
      && (phase.Mutation? && calls != [] ==> Changed(trace', change))
  {
    hide Cleared, Knows, Spotted, Changed, Extends, Footprints, JournalFootprints, CallsOf, AllReads, Calling, Entries, Guarded;
    var e := Wrote(change, phase, calls, answers);
    JournalAppend(journal, native);
    CallsOfEvent(calls, answers);
    GrowingByCalls(trace, e, calls);
    assert Justified(trace, e);
    TraceGrows(trace, e);
    assert base + Entries(trace) + EventEntries(e) == base + (Entries(trace) + EventEntries(e));
  }

  lemma CallsOfEvent(calls: seq<Call>, answers: seq<Entry>)
    requires AllReads(answers)
    ensures CallsOf(Calling(calls) + answers) == calls
  {
    CallsOfAppend(Calling(calls), answers);
    CallsOfCalling(calls);
    ReadsCallNothing(answers);
  }

  lemma GrowingByCalls(trace: seq<Event>, e: Event, calls: seq<Call>)
    requires CallsOf(EventEntries(e)) == calls
    ensures Entries(trace + [e]) == Entries(trace) + EventEntries(e)
    ensures Footprints(CallsOf(Entries(trace + [e]))) == Footprints(CallsOf(Entries(trace))) + Footprints(calls)
  {
    hide EventEntries, CallsOf, Footprints;
    EntriesGrow(trace, e);
    CallsOfAppend(Entries(trace), EventEntries(e));
    CallsAppend(CallsOf(Entries(trace)), calls);
  }

  lemma StoppingIsAccountedFor(log: seq<Entry>, base: seq<Entry>, journal: seq<JournalEntry>, trace: seq<Event>,
                               change: Change)
    requires Replaces(change) && AccountedFor(log, base, journal, trace) && Cleared(trace, change, Stop)
    ensures var stop := StopAll(change.path);
      var trace' := trace + [StopRequested(change, stop)];
      && AccountedFor(log + [Called(stop)], base,
                      journal + [JournalEntry(PhaseName, change, Stop, Attempted, None)], trace')
      && Extends(trace, trace', ChangeTarget(change)) && Cleared(trace', change, Mutation)
  {
    hide Cleared, Knows, Spotted, Changed, Extends, Footprints, JournalFootprints, CallsOf, Entries, Guarded;
    var stop := StopAll(change.path);
    var attempt := JournalEntry(PhaseName, change, Stop, Attempted, None);
    var e := StopRequested(change, stop);
    assert Justified(trace, e);
    JournalAppend(journal, [attempt]);
    OneEntry(attempt);
    OneCall(stop);
    StopClears(trace, change);
    GrowingByCalls(trace, e, [stop]);
    TraceGrows(trace, e);
    assert base + Entries(trace) + [Called(stop)] == base + (Entries(trace) + [Called(stop)]);
  }

  lemma StopClears(trace: seq<Event>, change: Change)
    requires Replaces(change)
    ensures var stop := StopAll(change.path);
      CallsOf([Called(stop)]) == [stop] && Cleared(trace + [StopRequested(change, stop)], change, Mutation)
  {
    hide Knows;
    var stop := StopAll(change.path);
    assert CallsOf([Called(stop)]) == [stop] + CallsOf([]);
  }

  /** Answers that show a target, answers on which nothing rests, and a confirmed state. */
  lemma ReadingIsAccountedFor(log: seq<Entry>, base: seq<Entry>, journal: seq<JournalEntry>, trace: seq<Event>, e: Event)
    requires e.Asked? || e.Saw? || e.Left?
    requires AccountedFor(log, base, journal, trace) && Justified(trace, e)
    ensures AccountedFor(log + EventEntries(e), base, journal, trace + [e]) && Quiet(trace, trace + [e])
    ensures e.Saw? ==> Spotted(trace + [e], ChangeTarget(e.change), e.seen)
    ensures e.Left? || (e.Saw? && OnlyRead(trace)) ==> Knows(trace + [e], ChangeTarget(e.change), e.seen)
  {
    hide Knows, Spotted, Changed, Justified, Quiet, Footprints, JournalFootprints, CallsOf;
    JustifiedReads(trace, e);
    ReadsCallNothing(EventEntries(e));
    GrowingByCalls(trace, e, []);
    assert Footprints([]) == [];
    TraceGrows(trace, e);
    assert base + Entries(trace) + EventEntries(e) == base + (Entries(trace) + EventEntries(e));
  }

  lemma JustifiedReads(trace: seq<Event>, e: Event)
    requires (e.Asked? || e.Saw? || e.Left?) && Justified(trace, e)
    ensures AllReads(EventEntries(e))
  {
    hide Knows, Spotted, OnlyRead, Changed;
  }

  lemma RecordingIsAccountedFor(log: seq<Entry>, base: seq<Entry>, journal: seq<JournalEntry>, trace: seq<Event>,
                                e: JournalEntry)
    requires e.operation == PhaseName && (e.outcome == Attempted ==> e.phase != Stop)
    requires AccountedFor(log, base, journal, trace)
    ensures AccountedFor(log, base, journal + [e], trace)
  {
    hide Guarded, Footprints, JournalFootprints, Entries;
    JournalAppend(journal, [e]);
    OneEntry(e);
  }

  // ---- where the events are in the log -------------------------------------------------------------

  lemma {:induction false} GuardedEverywhere(trace: seq<Event>, j: nat)
    requires Guarded(trace) && j < |trace|
    ensures Guarded(trace[..j]) && Justified(trace[..j], trace[j])
  {
    var n := |trace| - 1;
    if j < n {
      GuardedEverywhere(trace[..n], j);
      assert trace[..n][..j] == trace[..j];
    }
  }

  /** The position in the log at which event number `j` begins. */
  ghost function At(base: seq<Entry>, trace: seq<Event>, j: nat): nat
    requires j <= |trace|
  {
    |base| + |Entries(trace[..j])|
  }

  /** The log in which the run's events are found. */
  ghost predicate Traced(log: seq<Entry>, base: seq<Entry>, trace: seq<Event>) {
    log == base + Entries(trace) && Guarded(trace)
  }

  lemma {:induction false} EntriesOfPrefix(trace: seq<Event>, j: nat)
    requires j <= |trace|
    ensures Entries(trace[..j]) <= Entries(trace)
  {
    var n := |trace| - 1;
    if j == |trace| {
      assert trace[..j] == trace;
    } else {
      EntriesOfPrefix(trace[..n], j);
      assert trace[..n][..j] == trace[..j];
    }
  }

  /** Event number `j` accounts for its own segment of the log. */
  ghost predicate Found(log: seq<Entry>, base: seq<Entry>, trace: seq<Event>, j: nat)
    requires j < |trace|
  {
    && |base| <= At(base, trace, j) <= At(base, trace, j + 1) <= |log|
    && log[At(base, trace, j)..At(base, trace, j + 1)] == EventEntries(trace[j])
  }

  lemma SegmentAt(log: seq<Entry>, base: seq<Entry>, trace: seq<Event>, j: nat)
    requires Traced(log, base, trace) && j < |trace|
    ensures Found(log, base, trace, j)
  {
    hide Guarded, EventEntries;
    EntriesOfPrefix(trace, j + 1);
    assert trace[..j + 1] == trace[..j] + [trace[j]];
    EntriesGrow(trace[..j], trace[j]);
  }

  /** The entry of a stop request. */
  lemma StopSegment(log: seq<Entry>, base: seq<Entry>, trace: seq<Event>, j: nat)
    requires j < |trace| && Found(log, base, trace, j) && trace[j].StopRequested?
    ensures At(base, trace, j + 1) == At(base, trace, j) + 1 && log[At(base, trace, j)] == Called(trace[j].call)
  {
    hide Entries;
    assert log[At(base, trace, j)..At(base, trace, j + 1)][0] == log[At(base, trace, j)];
  }

  lemma AtGrows(base: seq<Entry>, trace: seq<Event>, i: nat, j: nat)
    requires i <= j <= |trace|
    ensures At(base, trace, i) <= At(base, trace, j)
  {
    EntriesOfPrefix(trace[..j], i);
    assert trace[..j][..i] == trace[..i];
  }

  /** The event a position of the log belongs to. */
  lemma {:induction false} EventOf(base: seq<Entry>, trace: seq<Event>, k: nat, n: nat) returns (j: nat)
    requires n <= |trace| && |base| <= k < At(base, trace, n)
    ensures j < n && At(base, trace, j) <= k < At(base, trace, j + 1)
    decreases n
  {
    assert n > 0;
    if At(base, trace, n - 1) <= k {
      j := n - 1;
    } else {
      j := EventOf(base, trace, k, n - 1);
    }
  }

  // ---- interference ------------------------------------------------------------------------------------

  /** A call that writes to a target; a stop request only concerns running instances. */
  predicate Writes(e: Entry, t: Target) { e.Called? && !e.call.StopAll? && CallTarget(e.call) == t }

  /** Nothing was written to the target between two positions of the log. */
  ghost predicate Unwritten(log: seq<Entry>, t: Target, from: nat, to: nat) {
    to <= |log| && forall k :: from <= k < to ==> !Writes(log[k], t)
  }

  /** A stretch of adjacent log entries. */
  datatype Stretch = Stretch(from: nat, to: nat)

  predicate SeenIn(log: seq<Entry>, t: Target, s: Stretch, v: Observed) {
    s.from < s.to <= |log| && Shows(t, log[s.from..s.to]) == Some(v)
  }

  /** The answers of the later stretch show the target just as those of the earlier one did. */
  predicate SeenAgain(log: seq<Entry>, t: Target, earlier: Stretch, last: Stretch) {
    && earlier.from < earlier.to <= last.from < last.to <= |log|
    && var (v, w) := (Shows(t, log[earlier.from..earlier.to]), Shows(t, log[last.from..last.to]));
    v.Some? && w.Some? && Same(w.value, v.value)
  }

  lemma SightAt(log: seq<Entry>, base: seq<Entry>, trace: seq<Event>, i: nat)
    requires Traced(log, base, trace) && i < |trace| && trace[i].Saw?
    ensures |base| <= At(base, trace, i)
    ensures SeenIn(log, ChangeTarget(trace[i].change), Stretch(At(base, trace, i), At(base, trace, i + 1)), trace[i].seen)
  {
    GuardedEverywhere(trace, i);
    SegmentAt(log, base, trace, i);
  }

  lemma EventWritesElsewhere(trace: seq<Event>, e: Event, t: Target, entry: Entry)
    requires Justified(trace, e) && !(e.Wrote? && About(e, t)) && entry in EventEntries(e)
    ensures !Writes(entry, t)
  {
    hide Cleared, Knows, Spotted, Changed;
    if e.Asked? || e.Saw? || e.Left? {
      JustifiedReads(trace, e);
    } else if e.Wrote? && entry.Called? {
      assert entry in Calling(e.calls);
    }
  }

  /** A stretch of events none of which writes to the target is a stretch of the log in which nothing does. */
  lemma UnwrittenBetween(log: seq<Entry>, base: seq<Entry>, trace: seq<Event>, t: Target, i: nat, j: nat)
    requires Traced(log, base, trace) && i <= j <= |trace|
    requires forall k :: i <= k < j ==> !(trace[k].Wrote? && About(trace[k], t))
    ensures Unwritten(log, t, At(base, trace, i), At(base, trace, j))
  {
    hide Justified, Guarded, EventEntries, Entries;
    EntriesOfPrefix(trace, j);
    forall p | At(base, trace, i) <= p < At(base, trace, j) ensures !Writes(log[p], t) {
      var k := EventOf(base, trace, p, j);
      if k < i {
        AtGrows(base, trace, k + 1, i);
      } else {
        GuardedEverywhere(trace, k);
        SegmentAt(log, base, trace, k);
        assert log[p] == log[At(base, trace, k)..At(base, trace, k + 1)][p - At(base, trace, k)];
        EventWritesElsewhere(trace[..k], trace[k], t, log[p]);
      }
    }
  }

  /** What was spotted was seen, and nothing has been written to the target since. */
  lemma {:induction false} SpottedSight(trace: seq<Event>, t: Target, v: Observed) returns (i: nat)
    requires Spotted(trace, t, v)
    ensures i < |trace| && trace[i].Saw? && About(trace[i], t) && trace[i].seen == v
    ensures forall k :: i <= k < |trace| ==> !(trace[k].Wrote? && About(trace[k], t))
  {
    var n := |trace| - 1;
    var e := trace[n];
    if e.Saw? && About(e, t) && e.seen == v {
      i := n;
    } else {
      i := SpottedSight(trace[..n], t, v);
    }
  }

  /** What is known was seen before the first change, or was left by a change of the same target. */
  lemma {:induction false} KnownSince(trace: seq<Event>, t: Target, v: Observed) returns (i: nat)
    requires Knows(trace, t, v)
    ensures i < |trace| && About(trace[i], t) && (trace[i].Left? || (trace[i].Saw? && OnlyRead(trace[..i])))
    ensures (trace[i].Saw? || trace[i].Left?) && trace[i].seen == v
    ensures forall k :: i <= k < |trace| ==> !(trace[k].Wrote? && About(trace[k], t))
  {
    hide OnlyRead;
    var n := |trace| - 1;
    var e := trace[n];
    if About(e, t) && (e.Left? || (e.Saw? && OnlyRead(trace[..n]))) && e.seen == v {
      i := n;
    } else {
      i := KnownSince(trace[..n], t, v);
      assert trace[..n][..i] == trace[..i];
    }
  }

  lemma {:induction false} LastWriteAt(trace: seq<Event>, t: Target) returns (m: nat)
    requires LastWrite(trace, t).Some?
    ensures m < |trace| && trace[m] == LastWrite(trace, t).value
    ensures forall k :: m < k < |trace| ==> !(trace[k].Wrote? && About(trace[k], t))
  {
    var n := |trace| - 1;
    if trace[n].Wrote? && About(trace[n], t) {
      m := n;
    } else {
      m := LastWriteAt(trace[..n], t);
    }
  }

  /** Nothing has been called yet since `start`. */
  ghost predicate Uncalled(log: seq<Entry>, start: nat, to: nat) {
    to <= |log| && forall k :: start <= k < to ==> !log[k].Called?
  }

  /** While apply has only read, the scheduler has received no call. */
  lemma ReadingCallsNothing(log: seq<Entry>, base: seq<Entry>, trace: seq<Event>, j: nat)
    requires Traced(log, base, trace) && j <= |trace| && OnlyRead(trace[..j])
    ensures Uncalled(log, |base|, At(base, trace, j))
  {
    hide Justified, Guarded, EventEntries, Entries;
    EntriesOfPrefix(trace, j);
    forall p | |base| <= p < At(base, trace, j) ensures !log[p].Called? {
      var k := EventOf(base, trace, p, j);
      GuardedEverywhere(trace, k);
      SegmentAt(log, base, trace, k);
      assert trace[..j][k] == trace[k];
      JustifiedReads(trace[..k], trace[k]);
      assert log[p] == log[At(base, trace, k)..At(base, trace, k + 1)][p - At(base, trace, k)];
    }
  }

  /** Where an expectation comes from: a sight before the first call of all, or one that followed the calls of a
      change of the same target before anything else was written to it. */
  ghost predicate Origin(log: seq<Entry>, base: seq<Entry>, trace: seq<Event>, t: Target, sight: Stretch) {
    Uncalled(log, |base|, sight.to) || exists m :: 0 <= m < |trace| && LeftBy(log, base, trace, t, sight, m)
  }

  ghost predicate LeftBy(log: seq<Entry>, base: seq<Entry>, trace: seq<Event>, t: Target, sight: Stretch, m: nat)
    requires m < |trace|
  {
    && trace[m].Wrote? && trace[m].phase.Mutation? && About(trace[m], t) && trace[m].calls != []
    && Found(log, base, trace, m) && (forall call <- trace[m].calls :: CallTarget(call) == t)
    && |base| <= At(base, trace, m + 1) <= sight.from
    && Unwritten(log, t, At(base, trace, m + 1), sight.to)
  }

  /** What the run takes for granted about a target at some point is what the scheduler's answers showed before
      its first call, or right after the last change of that target; and the scheduler has received nothing that
      writes to that target since. */
  lemma KnowledgeIsFresh(log: seq<Entry>, base: seq<Entry>, trace: seq<Event>, j: nat, t: Target, v: Observed)
    returns (sight: Stretch)
    requires Traced(log, base, trace) && j <= |trace| && Knows(trace[..j], t, v)
    ensures |base| <= sight.from < sight.to <= At(base, trace, j)
    ensures SeenIn(log, t, sight, v) && Unwritten(log, t, sight.from, At(base, trace, j))
    ensures Origin(log, base, trace, t, sight)
  {
    hide Guarded, Entries, OnlyRead, Spotted, Changed, Unwritten, Uncalled;
    var i := KnownSince(trace[..j], t, v);
    assert trace[..j][i] == trace[i] && trace[..j][..i] == trace[..i];
    assert forall k :: i <= k < j ==> trace[..j][k] == trace[k];
    UnwrittenBetween(log, base, trace, t, i, j);
    if trace[i].Saw? {
      SightAt(log, base, trace, i);
      AtGrows(base, trace, i + 1, j);
      sight := Stretch(At(base, trace, i), At(base, trace, i + 1));
      ReadingCallsNothing(log, base, trace, i);
      SegmentAt(log, base, trace, i);
      UncalledFurther(log, t, |base|, sight);
    } else {
      GuardedEverywhere(trace, i);
      var m;
      m, sight := ConfirmedSight(log, base, trace, i, trace[i].change, v);
      AtGrows(base, trace, i, j);
      UnwrittenWithin(log, t, At(base, trace, m + 1), At(base, trace, i), At(base, trace, m + 1), sight.to);
      UnwrittenWithin(log, t, At(base, trace, m + 1), At(base, trace, i), sight.from, At(base, trace, i));
      UnwrittenJoins(log, t, sight.from, At(base, trace, i), At(base, trace, j));
      assert LeftBy(log, base, trace, t, sight, m);
    }
  }

  lemma UncalledFurther(log: seq<Entry>, t: Target, start: nat, s: Stretch)
    requires s.from <= s.to <= |log| && Shows(t, log[s.from..s.to]).Some? && Uncalled(log, start, s.from)
    ensures Uncalled(log, start, s.to)
  {
    SightWritesNothing(log, t, s);
  }

  lemma UnwrittenWithin(log: seq<Entry>, t: Target, a: nat, d: nat, b: nat, c: nat)
    requires a <= b && c <= d && Unwritten(log, t, a, d)
    ensures Unwritten(log, t, b, c)
  {
  }

  lemma UnwrittenJoins(log: seq<Entry>, t: Target, a: nat, b: nat, c: nat)
    requires Unwritten(log, t, a, b) && Unwritten(log, t, b, c)
    ensures Unwritten(log, t, a, c)
  {
  }

  /** The sight that cleared the calls issued by event number `j`, immediately before it but for a stop request
      for the same task. */
  lemma ClearingSight(log: seq<Entry>, base: seq<Entry>, trace: seq<Event>, j: nat, c: Change, phase: Phase)
    returns (q: nat, v: Observed)
    requires Traced(log, base, trace) && j <= |trace| && Cleared(trace[..j], c, phase)
    ensures q < j && trace[q].Saw? && About(trace[q], ChangeTarget(c)) && Same(trace[q].seen, v)
    ensures if phase.Rollback? then Left(c, v) in trace[..q] else Knows(trace[..q], ChangeTarget(c), v)
    ensures |base| <= At(base, trace, q) && At(base, trace, q + 1) <= At(base, trace, j) <= |log|
    ensures SeenIn(log, ChangeTarget(c), Stretch(At(base, trace, q), At(base, trace, q + 1)), trace[q].seen)
    ensures !phase.Mutation? ==> At(base, trace, q + 1) == At(base, trace, j)
    ensures forall k :: At(base, trace, q + 1) <= k < At(base, trace, j) ==>
              log[k].Called? && log[k].call.StopAll? && CallTarget(log[k].call) == ChangeTarget(c)
  {
    hide Guarded, Entries, Knows, EventEntries;
    q := j - 1;
    assert trace[..j][q] == trace[q] && trace[..j][..q] == trace[..q];
    if !trace[q].Saw? {
      GuardedEverywhere(trace, q);
      SegmentAt(log, base, trace, q);
      StopSegment(log, base, trace, q);
      q := q - 1;
      assert trace[..j - 1][q] == trace[q] && trace[..j - 1][..q] == trace[..q];
    }
    v :| Same(trace[q].seen, v)
         && (if phase.Rollback? then Left(c, v) in trace[..q] else Knows(trace[..q], ChangeTarget(c), v));
    SightAt(log, base, trace, q);
    AtGrows(base, trace, q + 1, j);
  }

  /** Interference safety of a forward change, whoever else writes.  Immediately before its call, but for its
      own stop request, the scheduler's answers showed the target just as they had before the first call of
      the run or right after the last change of that target, and since then the scheduler had received nothing
      that writes to the target. */
  lemma ForwardWritesAreSafe(log: seq<Entry>, base: seq<Entry>, trace: seq<Event>, j: nat)
    returns (earlier: Stretch, last: Stretch)
    requires Traced(log, base, trace) && j < |trace| && trace[j].Wrote? && trace[j].phase.Mutation?
    ensures var (t, at) := (ChangeTarget(trace[j].change), At(base, trace, j));
      && |base| <= earlier.from && SeenAgain(log, t, earlier, last) && Origin(log, base, trace, t, earlier)
      && last.to <= at && Unwritten(log, t, earlier.from, at)
      && (forall k :: last.to <= k < at ==>
            log[k].Called? && log[k].call.StopAll? && CallTarget(log[k].call) == t)
      && Found(log, base, trace, j)
  {
    hide Guarded, Entries, Knows, Cleared;
    GuardedEverywhere(trace, j);
    SegmentAt(log, base, trace, j);
    var c := trace[j].change;
    var q, v := ClearingSight(log, base, trace, j, c, Mutation);
    earlier := KnowledgeIsFresh(log, base, trace, q, ChangeTarget(c), v);
    last := Stretch(At(base, trace, q), At(base, trace, q + 1));
    SegmentAt(log, base, trace, q);
    SightWritesNothing(log, ChangeTarget(c), last);
  }

  lemma SightWritesNothing(log: seq<Entry>, t: Target, s: Stretch)
    requires s.from <= s.to <= |log| && Shows(t, log[s.from..s.to]).Some?
    ensures forall k :: s.from <= k < s.to ==> !log[k].Called?
  {
    forall k | s.from <= k < s.to ensures !log[k].Called? {
      assert log[k] == log[s.from..s.to][k - s.from];
    }
  }

  /** Interference safety of a compensation, whoever else writes.  The very change it takes back was carried out
      by event number `m`, its effect was seen before anything else was written to the target, and immediately
      before the compensating calls the scheduler's answers showed the target just like that. */
  lemma CompensationsAreSafe(log: seq<Entry>, base: seq<Entry>, trace: seq<Event>, j: nat)
    returns (m: nat, confirmed: Stretch, last: Stretch)
    requires Traced(log, base, trace) && j < |trace| && trace[j].Wrote? && trace[j].phase == Phase.Rollback
    ensures m < j && trace[m].Wrote? && trace[m].change == trace[j].change
    ensures var t := ChangeTarget(trace[j].change);
      && LeftBy(log, base, trace, t, confirmed, m) && SeenAgain(log, t, confirmed, last)
      && last.to == At(base, trace, j) && Found(log, base, trace, j)
  {
    hide Guarded, Entries, Spotted, Cleared, Changed, EventEntries, Unwritten;
    GuardedEverywhere(trace, j);
    SegmentAt(log, base, trace, j);
    var c := trace[j].change;
    var t := ChangeTarget(c);
    var q, v := ClearingSight(log, base, trace, j, c, Phase.Rollback);
    var l :| 0 <= l < q && trace[..q][l] == Left(c, v);
    GuardedEverywhere(trace, l);
    AtGrows(base, trace, l, q);
    m, confirmed := ConfirmedSight(log, base, trace, l, c, v);
    UnwrittenWithin(log, t, At(base, trace, m + 1), At(base, trace, l), At(base, trace, m + 1), confirmed.to);
    last := Stretch(At(base, trace, q), At(base, trace, q + 1));
  }

  /** A state that a change was confirmed to leave was seen after its calls, before any other write. */
  lemma ConfirmedSight(log: seq<Entry>, base: seq<Entry>, trace: seq<Event>, l: nat, c: Change, v: Observed)
    returns (m: nat, sight: Stretch)
    requires Traced(log, base, trace) && l <= |trace|
    requires Spotted(trace[..l], ChangeTarget(c), v) && Changed(trace[..l], c)
    ensures m < l && trace[m].Wrote? && trace[m].change == c && trace[m].phase.Mutation? && trace[m].calls != []
    ensures |base| <= At(base, trace, m + 1) <= sight.from < sight.to <= At(base, trace, l)
    ensures SeenIn(log, ChangeTarget(c), sight, v) && Found(log, base, trace, m)
    ensures Unwritten(log, ChangeTarget(c), At(base, trace, m + 1), At(base, trace, l))
    ensures forall call <- trace[m].calls :: CallTarget(call) == ChangeTarget(c)
  {
    hide Guarded, Entries, Spotted, LastWrite, EventEntries, Unwritten, Cleared;
    var t := ChangeTarget(c);
    m := LastWriteAt(trace[..l], t);
    var i := SpottedSight(trace[..l], t, v);
    GuardedEverywhere(trace, m);
    assert trace[..l][m] == trace[m] && trace[..l][i] == trace[i];
    SegmentAt(log, base, trace, m);
    SightAt(log, base, trace, i);
    AtGrows(base, trace, m + 1, i);
    AtGrows(base, trace, i + 1, l);
    assert forall k :: m < k < l ==> trace[..l][k] == trace[k];
    UnwrittenBetween(log, base, trace, t, m + 1, l);
    sight := Stretch(At(base, trace, i), At(base, trace, i + 1));
  }

  // ---- the log alone -----------------------------------------------------------------------------------

  /** A call that was watched over: its target was seen since `start`, before any call or after one for the same
      target, and seen again just the same, and between the second sight and this call there are only calls for
      the same target. */
  ghost predicate Watched(log: seq<Entry>, start: nat, k: nat)
    requires k < |log| && log[k].Called?
  {
    exists earlier, last :: WatchedBy(log, start, k, earlier, last)
  }

  ghost predicate CalledBefore(log: seq<Entry>, t: Target, start: nat, to: nat) {
    exists k :: start <= k < to <= |log| && log[k].Called? && CallTarget(log[k].call) == t
  }

  lemma OriginIsLogged(log: seq<Entry>, base: seq<Entry>, trace: seq<Event>, t: Target, s: Stretch)
    requires Origin(log, base, trace, t, s) && s.from <= |log|
    ensures Uncalled(log, |base|, s.to) || CalledBefore(log, t, |base|, s.from)
  {
    hide Entries, Unwritten, Uncalled, EventEntries, LeftBy, CalledBefore;
    if !Uncalled(log, |base|, s.to) {
      var m :| 0 <= m < |trace| && LeftBy(log, base, trace, t, s, m);
      LeftIsLogged(log, base, trace, t, s, m);
    }
  }

  lemma LeftIsLogged(log: seq<Entry>, base: seq<Entry>, trace: seq<Event>, t: Target, s: Stretch, m: nat)
    requires m < |trace| && LeftBy(log, base, trace, t, s, m) && s.from <= |log|
    ensures CalledBefore(log, t, |base|, s.from)
  {
    hide Entries, Unwritten;
    var at := At(base, trace, m);
    assert log[at..At(base, trace, m + 1)][0] == Called(trace[m].calls[0]);
    assert log[at].Called? && trace[m].calls[0] in trace[m].calls;
  }

  ghost predicate WatchedBy(log: seq<Entry>, start: nat, k: nat, earlier: Stretch, last: Stretch)
    requires k < |log| && log[k].Called?
  {
    var t := CallTarget(log[k].call);
    && start <= earlier.from && SeenAgain(log, t, earlier, last) && last.to <= k
    && (Uncalled(log, start, earlier.to) || CalledBefore(log, t, start, earlier.from))
    && forall i :: last.to <= i < k ==> log[i].Called? && CallTarget(log[i].call) == t
  }

  /** Whoever else writes and whatever fails: every changing call the scheduler received was watched over. */
  lemma EveryCallIsWatched(log: seq<Entry>, base: seq<Entry>, trace: seq<Event>, k: nat)
    requires Traced(log, base, trace) && |base| <= k < |log| && log[k].Called?
    ensures Watched(log, |base|, k)
  {
    hide Guarded, Entries, Cleared, EventEntries, SeenAgain, Unwritten, Uncalled, CalledBefore, LeftBy, Origin;
    assert trace[..|trace|] == trace;
    var j := EventOf(base, trace, k, |trace|);
    var e, at := trace[j], At(base, trace, j);
    GuardedEverywhere(trace, j);
    SegmentAt(log, base, trace, j);
    CallsComeFirst(trace[..j], e, k - at);
    assert log[at..At(base, trace, j + 1)][k - at] == log[k];
    var earlier, last;
    if e.StopRequested? {
      earlier, last := StopsAreSafe(log, base, trace, j);
      SeenInside(log, ChangeTarget(e.change), earlier, last);
      OriginIsLogged(log, base, trace, ChangeTarget(e.change), earlier);
    } else if e.phase.Mutation? {
      earlier, last := ForwardWritesAreSafe(log, base, trace, j);
      SeenInside(log, ChangeTarget(e.change), earlier, last);
      OriginIsLogged(log, base, trace, ChangeTarget(e.change), earlier);
    } else {
      var m;
      m, earlier, last := CompensationsAreSafe(log, base, trace, j);
      SeenInside(log, ChangeTarget(e.change), earlier, last);
      LeftIsLater(log, base, trace, ChangeTarget(e.change), earlier, m);
      LeftIsLogged(log, base, trace, ChangeTarget(e.change), earlier, m);
    }
    forall i | last.to <= i < k ensures log[i].Called? && CallTarget(log[i].call) == ChangeTarget(e.change) {
      if at <= i {
        assert log[at..At(base, trace, j + 1)][i - at] == log[i];
      }
    }
    assert WatchedBy(log, |base|, k, earlier, last);
  }

  /** The log and the journal of a run, without its trace: every call was watched over, and the journal attests
      exactly the calls the scheduler received, in order. */
  ghost predicate Overseen(log: seq<Entry>, base: seq<Entry>, journal: seq<JournalEntry>) {
    && base <= log && JournalFootprints(journal) == Footprints(CallsOf(log[|base|..]))
    && forall k :: |base| <= k < |log| && log[k].Called? ==> Watched(log, |base|, k)
  }

  lemma RunIsWatched(log: seq<Entry>, base: seq<Entry>, journal: seq<JournalEntry>, trace: seq<Event>)
    requires AccountedFor(log, base, journal, trace)
    ensures Overseen(log, base, journal)
  {
    hide Watched, Guarded, Entries;
    assert log[|base|..] == Entries(trace);
    forall k | |base| <= k < |log| && log[k].Called? ensures Watched(log, |base|, k) {
      EveryCallIsWatched(log, base, trace, k);
    }
  }

  lemma SeenInside(log: seq<Entry>, t: Target, earlier: Stretch, last: Stretch)
    requires SeenAgain(log, t, earlier, last)
    ensures earlier.from <= |log|
  {
  }

  lemma LeftIsLater(log: seq<Entry>, base: seq<Entry>, trace: seq<Event>, t: Target, s: Stretch, m: nat)
    requires m < |trace| && LeftBy(log, base, trace, t, s, m)
    ensures |base| <= s.from
  {
    hide Entries, Unwritten, EventEntries;
  }

  lemma StopsAreSafe(log: seq<Entry>, base: seq<Entry>, trace: seq<Event>, j: nat)
    returns (earlier: Stretch, last: Stretch)
    requires Traced(log, base, trace) && j < |trace| && trace[j].StopRequested?
    ensures |base| <= earlier.from && last.to == At(base, trace, j)
    ensures SeenAgain(log, ChangeTarget(trace[j].change), earlier, last)
    ensures Origin(log, base, trace, ChangeTarget(trace[j].change), earlier)
  {
    hide Guarded, Entries, Knows, Cleared, Origin, Unwritten;
    GuardedEverywhere(trace, j);
    var c := trace[j].change;
    var q, v := ClearingSight(log, base, trace, j, c, Stop);
    earlier := KnowledgeIsFresh(log, base, trace, q, ChangeTarget(c), v);
    last := Stretch(At(base, trace, q), At(base, trace, q + 1));
  }

  lemma AnswersAreBehind(calls: seq<Call>, answers: seq<Entry>)
    ensures forall p {:trigger (Calling(calls) + answers)[p]} :: |calls| <= p < |calls| + |answers| ==>
              (Calling(calls) + answers)[p] in answers
  {
  }

  /** In what an event accounts for, a call is preceded by calls alone, all for the change's target. */
  lemma CallsComeFirst(trace: seq<Event>, e: Event, p: nat)
    requires Justified(trace, e) && p < |EventEntries(e)| && EventEntries(e)[p].Called?
    ensures e.StopRequested? || e.Wrote?
    ensures forall i :: 0 <= i <= p ==>
              EventEntries(e)[i].Called? && CallTarget(EventEntries(e)[i].call) == ChangeTarget(e.change)
    ensures e.StopRequested? ==> p == 0
  {
    hide Cleared, Knows, Spotted, Changed;
    if e.Asked? || e.Saw? || e.Left? {
      JustifiedReads(trace, e);
    } else if e.Wrote? {
      AnswersAreBehind(e.calls, e.answers);
    }
  }
}
