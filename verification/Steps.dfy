/** One forward step of apply_backend and one step of compensate_observed (reconcile.rs, recovery.rs). */
module Steps {
  import opened Wrappers
  import opened Paths
  import opened Scheduler
  import opened Manifests
  import opened Planning
  import opened SchedulerBackend
  import opened Recovery
  import opened ApplySpec
  import opened Accounting
  import opened Journaling
  import opened Compensation
  import opened Progress

  /** The journal and the trace agree with the scheduler's log since apply began, and the report says what the
      journal says. */
  ghost predicate Accounted(b: Backend, base: seq<Entry>, report: ApplyReport, trace: seq<Event>)
    reads b`log
  {
    AccountedFor(b.log, base, report.journal, trace) && Told(report)
  }

  // ---- carrying out and taking back --------------------------------------------------------------

  /** What carrying out one change between two moments may do; `error` and `P'` are what is returned. */
  ghost predicate Executed(pre: Tally, post: Tally, standard: Acl, m: Manifest, change: Change, P: Prepared,
                           error: Option<ErrorKind>, P': Prepared) {
    var call := Enactment(m, change, P);
    var calm := post.foreign == pre.foreign;
    var faultless := (post.refused, post.lost, post.wild) == (pre.refused, pre.lost, pre.wild);
    && P' == (if call.Ok? then Spent(P, change) else P)
    && (calm ==> OnlyTouches(pre.state, post.state, ChangeTarget(change)))
    && (call.Err? ==> error.Some? && faultless && (calm ==> post.state == pre.state))
    && (call.Ok? && calm ==>
          var (next, refusal) := Effect(call.value, pre.state, standard);
          && (faultless ==> post.state == next && (refusal.Some? ==> error.Some?))
          && (faultless && post.lostReads == pre.lostReads && refusal.None? ==> error.None?)
          && (post.refused > pre.refused ==> post.state == pre.state && error.Some?)
          && (post.lost > pre.lost ==> post.state == next && error.Some? && post.lostCall == Some(call.value)))
  }

  function EnactedCalls(m: Manifest, change: Change, P: Prepared): seq<Call> {
    var call := Enactment(m, change, P);
    if call.Ok? then [call.value] else []
  }

  lemma EnactsOwnTarget(m: Manifest, change: Change, P: Prepared)
    ensures var call := Enactment(m, change, P); call.Ok? ==> CallTarget(call.value) == ChangeTarget(change)
    ensures Footprints([]) == []
  {
    hide OwnedDefinition, FindTask, RegisteredDefinition;
  }

  lemma RegisteredIsThere(m: Manifest, change: Change, P: Prepared, s: State, standard: Acl)
    ensures var call := Enactment(m, change, P);
      Registers(change) && call.Ok? && Effect(call.value, s, standard).1.None?
      ==> change.path in Effect(call.value, s, standard).0.tasks
  {
    hide OwnedDefinition, FindTask, RegisteredDefinition;
  }

  /** execute_change. */
  method ExecuteChange(recorded: Recorded, b: Backend, m: Manifest, P: Prepared)
    returns (error: Option<ErrorKind>, P': Prepared, ghost answers: seq<Entry>)
    requires recorded.inner == b
    modifies recorded, b
    ensures old(recorded.Orderly()) ==> recorded.Orderly()
    ensures b.Counting() && b.refused + b.lost + b.wild <= old(b.refused) + old(b.lost) + old(b.wild) + 1
    ensures Executed(old(b.Now()), b.Now(), b.standard, m, recorded.change, P, error, P')
    ensures b.Alone() && ChangeTarget(recorded.change) != b.chosen ==> b.Sight() == old(b.Sight())
    ensures b.log == old(b.log) + (Calling(EnactedCalls(m, recorded.change, P)) + answers) && AllReads(answers)
    ensures forall call <- EnactedCalls(m, recorded.change, P) :: CallTarget(call) == ChangeTarget(recorded.change)
    ensures JournalFootprints(recorded.journal)
            == old(JournalFootprints(recorded.journal)) + Footprints(EnactedCalls(m, recorded.change, P))
  {
    hide Enactment, Effect, Spent, CallTarget, OnlyTouches, JournalFootprints;
    var change := recorded.change;
    var call := Enactment(m, change, P);
    EnactsOwnTarget(m, change, P);
    NothingTouched(b.state, ChangeTarget(change));
    answers := [];
    if call.Err? {
      return Some(call.error), P, answers;
    }
    P' := Spent(P, change);
    ghost var s := b.state;
    error := recorded.Invoke(call.value);
    RegisteredIsThere(m, change, P, s, b.standard);
    if error.None? && Registers(change) {
      var readBack := recorded.GetTask(change.path);
      answers := [TaskRead(change.path, readBack)];
      if readBack.Err? {
        error := Some(readBack.error);
      }
    }
  }

  lemma TouchesCompose(a: State, b: State, c: State, t: Target)
    requires OnlyTouches(a, b, t) && OnlyTouches(b, c, t)
    ensures OnlyTouches(a, c, t)
  {
    forall other | other != t ensures View(a, other) == View(c, other) {
      assert View(a, other) == View(b, other);
    }
  }

  /** One call, and a second one unless the first failed. */
  method InvokeBoth(recorded: Recorded, b: Backend, first: Call, second: Call)
    returns (firstFailed: bool, error: Option<ErrorKind>, ghost calls: seq<Call>)
    requires recorded.inner == b
    requires CallTarget(first) == CallTarget(second) == ChangeTarget(recorded.change)
    modifies recorded, b
    ensures old(recorded.Orderly()) ==> recorded.Orderly()
    ensures b.Counting() && b.log == old(b.log) + Calling(calls)
    ensures calls == (if firstFailed then [first] else [first, second])
    ensures firstFailed ==> error.Some?
    ensures b.Calm() ==> OnlyTouches(old(b.state), b.state, CallTarget(first))
    ensures b.Alone() && CallTarget(first) != b.chosen ==> b.Sight() == old(b.Sight())
    ensures JournalFootprints(recorded.journal) == old(JournalFootprints(recorded.journal)) + Footprints(calls)
    ensures b.Clean() && AllFine([first, second], old(b.state), b.standard) ==>
              error.None? && b.state == RunCalls([first, second], old(b.state), b.standard)
  {
    ghost var s0 := b.state;
    TwoCalls(first, second, s0, b.standard);
    CallsAppend([first], [second]);
    calls := [first];
    error := recorded.Invoke(first);
    firstFailed := error.Some?;
    if firstFailed {
      return;
    }
    ghost var s1 := b.state;
    error := recorded.Invoke(second);
    assert [first, second] == [first] + [second];
    calls := [first, second];
    if b.Calm() {
      TouchesCompose(s0, s1, b.state, CallTarget(first));
    }
  }

  /** The three calls that put a replaced or deleted task back.  Access recovery is independent of the
      enabled flag: once the definition is registered both are attempted even if one fails. */
  method RestoreTask(recorded: Recorded, b: Backend, path: TaskPath, backup: TaskBackup)
    returns (error: Option<ErrorKind>, ghost calls: seq<Call>)
    requires recorded.inner == b && ChangeTarget(recorded.change) == TaskTarget(path)
    modifies recorded, b
    ensures old(recorded.Orderly()) ==> recorded.Orderly()
    ensures b.Counting() && b.log == old(b.log) + Calling(calls)
    ensures b.Calm() ==> OnlyTouches(old(b.state), b.state, TaskTarget(path))
    ensures b.Alone() && TaskTarget(path) != b.chosen ==> b.Sight() == old(b.Sight())
    ensures JournalFootprints(recorded.journal) == old(JournalFootprints(recorded.journal)) + Footprints(calls)
    ensures var all := [RegisterRaw(path, backup.raw, backup.logon, backup.password),
                        WriteEnabled(path, backup.enabled)]
                       + (if backup.security.Some? then [WriteTaskSecurity(path, backup.security.value)] else []);
      && (calls == all || (calls == all[..1] && error.Some?))
      && (b.Clean() && AllFine(all, old(b.state), b.standard) ==>
            error.None? && b.state == RunCalls(all, old(b.state), b.standard))
  {
    hide AllFine, RunCalls, Effect, OnlyTouches, JournalFootprints, Footprints;
    var register := RegisterRaw(path, backup.raw, backup.logon, backup.password);
    var flag := WriteEnabled(path, backup.enabled);
    ghost var s0 := b.state;
    var registerFailed;
    registerFailed, error, calls := InvokeBoth(recorded, b, register, flag);
    TwoCalls(register, flag, s0, b.standard);
    if backup.security.None? {
      assert [register, flag] + [] == [register, flag];
      return;
    }
    var security := WriteTaskSecurity(path, backup.security.value);
    ThreeCalls(register, flag, security, s0, b.standard);
    assert [register, flag] + [security] == [register, flag, security];
    if registerFailed {
      return;
    }
    ghost var s2 := b.state;
    CallsAppend(calls, [security]);
    var securityError := recorded.Invoke(security);
    calls := calls + [security];
    if b.Calm() {
      TouchesCompose(s0, s2, b.state, TaskTarget(path));
    }
    error := if error.Some? then error else securityError;
  }

  /** What the compensating calls look like. */
  lemma UndoShape(change: Change, P: Prepared, stopRunning: bool)
    ensures Footprints([]) == []
    ensures var all := UndoCalls(change, P, stopRunning);
      all.Ok? ==>
        && (forall c <- all.value :: CallTarget(c) == ChangeTarget(change))
        && (if Replaces(change) then
              change.path in P.taskBackups
              && var backup := P.taskBackups[change.path];
                 all.value == [RegisterRaw(change.path, backup.raw, backup.logon, backup.password),
                               WriteEnabled(change.path, backup.enabled)]
                              + (if backup.security.Some? then [WriteTaskSecurity(change.path, backup.security.value)]
                                 else [])
            else if change.CreateTask? && stopRunning then all.value == [StopAll(change.path), DropTask(change.path)]
            else |all.value| == 1)
  {
  }

  /** compensate_change. */
  method CompensateChange(recorded: Recorded, b: Backend, P: Prepared, stopRunning: bool)
    returns (error: Option<ErrorKind>, P': Prepared, ghost calls: seq<Call>)
    requires recorded.inner == b
    modifies recorded, b
    ensures old(recorded.Orderly()) ==> recorded.Orderly()
    ensures P' == Consumed(recorded.change, P)
    ensures b.Counting() && b.log == old(b.log) + Calling(calls)
    ensures forall c <- calls :: CallTarget(c) == ChangeTarget(recorded.change)
    ensures b.Calm() ==> OnlyTouches(old(b.state), b.state, ChangeTarget(recorded.change))
    ensures b.Alone() && ChangeTarget(recorded.change) != b.chosen ==> b.Sight() == old(b.Sight())
    ensures JournalFootprints(recorded.journal) == old(JournalFootprints(recorded.journal)) + Footprints(calls)
    ensures var all := UndoCalls(recorded.change, P, stopRunning);
      && (all.Err? ==> error.Some? && calls == [])
      && (all.Ok? ==> calls <= all.value && calls != []
                      && (error.None? ==> calls == all.value || Replaces(recorded.change)))
      && (b.Clean() && all.Ok? && AllFine(all.value, old(b.state), b.standard) ==>
            error.None? && b.state == RunCalls(all.value, old(b.state), b.standard))
  {
    hide UndoCalls, AllFine, RunCalls, CallTarget, Effect, Consumed, OnlyTouches, JournalFootprints, Footprints;
    var change := recorded.change;
    P' := Consumed(change, P);
    var all := UndoCalls(change, P, stopRunning);
    UndoShape(change, P, stopRunning);
    NothingTouched(b.state, ChangeTarget(change));
    calls := [];
    if all.Err? {
      return Some(all.error), P', calls;
    }
    if Replaces(change) {
      var backup := P.taskBackups[change.path];
      error, calls := RestoreTask(recorded, b, change.path, backup);
      return;
    }
    ghost var s0 := b.state;
    var last := all.value[|all.value| - 1];
    if change.CreateTask? && stopRunning {
      var stop := StopAll(change.path);
      assert all.value == [stop, last];
      var stopFailed;
      stopFailed, error, calls := InvokeBoth(recorded, b, stop, last);
      return;
    }
    assert all.value == [last];
    OneCallRuns(last, s0, b.standard);
    error := recorded.Invoke(last);
    calls := [last];
  }

  // ---- a forward step --------------------------------------------------------------------------------

  /** How a forward step ended: refused before the change was issued; failed and left nothing behind;
      confirmed, possibly although an error was reported; or left in doubt. */
  datatype Verdict =
    | Halted(cause: ErrorKind)
    | Intact(cause: ErrorKind)
    | Verified(after: Observed, error: Option<ErrorKind>)
    | Doubtful(cause: ErrorKind)

  /** What a verdict adds to the applied changes, and to the unresolved ones. */
  function Counted(verdict: Verdict, c: Change): seq<Change> { if verdict.Verified? then [c] else [] }

  function InDoubt(verdict: Verdict, c: Change): seq<Change> { if verdict.Doubtful? then [c] else [] }

  /** The report with a verdict entered. */
  function Judged(r: ApplyReport, verdict: Verdict, c: Change): ApplyReport {
    r.(applied := r.applied + Counted(verdict, c), unresolved := r.unresolved + InDoubt(verdict, c))
  }

  /** A confirmed result may be attributed to a call that reported an error: tasks carry an ownership
      marker or a definition of their own, folders and access descriptors do not. */
  predicate Attributable(c: Change) {
    c.CreateTask? || c.UpdateTask? || c.AdoptTask? || c.DeleteTask? || c.SetEnabled?
  }

  /** Everything but the journal and the stop requests is as before. */
  predicate SameLedger(r: ApplyReport, r': ApplyReport) {
    r' == r.(journal := r'.journal, irreversibleEffects := r'.irreversibleEffects)
  }

  /** What a verdict gives as the reason to stop. */
  function CauseOf(verdict: Verdict): Option<ErrorKind> {
    match verdict
    case Halted(cause) => Some(cause)
    case Intact(cause) => Some(cause)
    case Verified(_, error) => error
    case Doubtful(cause) => Some(cause)
  }

  lemma SeenAsExpected(blind: bool, truth: Observed, seen: Observed, before: Observed)
    requires Sees(blind, truth, seen) && Same(seen, before)
    ensures Alike(blind, truth, before)
  {
    SightsAgree(blind, truth, seen);
    AlikeIsAnEquivalence(blind, truth, seen, before);
    AlikeIsAnEquivalence(blind, seen, before, before);
  }

  /** Reads on which nothing rests, noted in the trace. */
  ghost method Asking(b: Backend, log: seq<Entry>, base: seq<Entry>, report: ApplyReport, trace: seq<Event>)
    returns (trace': seq<Event>)
    requires AccountedFor(log, base, report.journal, trace) && Told(report)
    requires log <= b.log && forall k :: |log| <= k < |b.log| ==> !b.log[k].Called?
    ensures Accounted(b, base, report, trace') && Quiet(trace, trace')
  {
    hide AccountedFor, Quiet;
    var e := Asked(b.log[|log|..]);
    assert b.log == log + EventEntries(e);
    trace' := trace + [e];
    ReadingIsAccountedFor(log, base, report.journal, trace, e);
  }

  lemma KnowledgeStays(trace: seq<Event>, trace': seq<Event>)
    requires Quiet(trace, trace')
    ensures forall t, v :: Knows(trace, t, v) ==> Knows(trace', t, v)
    ensures forall t, v :: Spotted(trace, t, v) ==> Spotted(trace', t, v)
    ensures OnlyRead(trace) ==> OnlyRead(trace')
    ensures forall c :: Changed(trace, c) ==> Changed(trace', c)
  {
    hide Knows, Spotted, OnlyRead, Changed;
  }

  /** Observe, and note in the trace what was seen. */
  method Look(b: Backend, change: Change, allowIrreversible: bool, report: ApplyReport,
              ghost base: seq<Entry>, ghost trace: seq<Event>)
    returns (r: Result<Observed>, ghost trace': seq<Event>)
    requires Accounted(b, base, report, trace)
    modifies b
    ensures b.ReadOnly()
    ensures b.Calm() && r.Ok? ==> Sees(allowIrreversible, View(b.state, ChangeTarget(change)), r.value)
    ensures b.Calm() && b.lostReads == old(b.lostReads) ==> r == Ok(View(b.state, ChangeTarget(change)))
    ensures b.Alone() && ChangeTarget(change) == b.chosen && r.Ok? ==> Sees(allowIrreversible, b.Sight(), r.value)
    ensures Accounted(b, base, report, trace') && Quiet(trace, trace') && Extends(trace, trace', ChangeTarget(change))
    ensures |trace'| == |trace| + 1 && trace'[..|trace|] == trace
    ensures r.Ok? ==> var e := trace'[|trace|]; e.Saw? && e.change == change && e.seen == r.value
    ensures r.Ok? ==> Spotted(trace', ChangeTarget(change), r.value)
    ensures r.Ok? && OnlyRead(trace) ==> Knows(trace', ChangeTarget(change), r.value)
  {
    hide AccountedFor, Extends, Quiet, Knows, Spotted, OnlyRead, Sees, View, Shows;
    r := Observe(b, change, allowIrreversible);
    ghost var answers := b.log[|old(b.log)|..];
    assert b.log == old(b.log) + answers;
    ghost var e := if r.Ok? then Saw(change, r.value, answers) else Asked(answers);
    trace' := trace + [e];
    ReadingIsAccountedFor(old(b.log), base, report.journal, trace, e);
    QuietExtends(trace, trace', ChangeTarget(change));
  }

  /** The precondition: the target still looks as expected. */
  method CheckPrecondition(b: Backend, options: ApplyOptions, change: Change, before: Observed, report: ApplyReport,
                           ghost base: seq<Entry>, ghost trace: seq<Event>)
    returns (cause: Option<ErrorKind>, report': ApplyReport, ghost trace': seq<Event>)
    requires Accounted(b, base, report, trace) && Knows(trace, ChangeTarget(change), before)
    modifies b
    ensures Accounted(b, base, report', trace') && Extends(trace, trace', ChangeTarget(change))
    ensures report' == report.(journal := report'.journal) && b.ReadOnly()
    ensures Continued(report, report', cause)
    ensures cause.None? ==> Cleared(trace', change, Mutation) && Cleared(trace', change, Stop)
    ensures cause.None? && b.Calm() ==>
              Alike(options.allowIrreversible, View(b.state, ChangeTarget(change)), before)
    ensures cause.None? && b.Calm() && b.lostReads == old(b.lostReads) ==>
              Same(View(b.state, ChangeTarget(change)), before)
    ensures cause.None? && b.Alone() && ChangeTarget(change) == b.chosen ==>
              Alike(options.allowIrreversible, b.Sight(), before)
    ensures b.Calm() && b.lostReads == old(b.lostReads)
            ==> cause == if Same(View(b.state, ChangeTarget(change)), before) then None else Some(Conflict)
  {
    hide AccountedFor, Told, Continued, Extends, Quiet, Knows, Spotted, OnlyRead, Changed, Sees, View, Cleared, Same,
         Alike;
    var live;
    live, trace' := Look(b, change, options.allowIrreversible, report, base, trace);
    cause := if live.Err? then Some(live.error) else if Same(live.value, before) then None else Some(Conflict);
    var entry := JournalEntry(PhaseName, change, Precondition, if cause.None? then Succeeded else Failed, cause);
    RecordingIsAccountedFor(b.log, base, report.journal, trace', entry);
    report' := Record(report, change, Precondition, entry.outcome, cause);
    PreconditionTells(report, entry);
    SameAsItself(before);
    if cause.None? {
      LookClears(trace, trace', change, before, live.value);
      if b.Calm() || (b.Alone() && ChangeTarget(change) == b.chosen) {
        SeenAsExpected(options.allowIrreversible, View(b.state, ChangeTarget(change)), live.value, before);
      }
    }
  }

  lemma SameAsItself(v: Observed)
    ensures Same(v, v)
  {
  }

  lemma LookClears(trace: seq<Event>, trace': seq<Event>, change: Change, before: Observed, seen: Observed)
    requires |trace'| == |trace| + 1 && trace'[..|trace|] == trace && Knows(trace, ChangeTarget(change), before)
    requires trace'[|trace|].Saw? && trace'[|trace|].change == change && trace'[|trace|].seen == seen
    requires Same(seen, before)
    ensures Cleared(trace', change, Mutation) && Cleared(trace', change, Stop)
  {
    hide Knows, Same;
  }

  /** The precondition check and the optional stop request. */
  method Precheck(b: Backend, options: ApplyOptions, change: Change, before: Observed, report: ApplyReport,
                  ghost base: seq<Entry>, ghost trace: seq<Event>)
    returns (cause: Option<ErrorKind>, report': ApplyReport, ghost trace': seq<Event>)
    requires Accounted(b, base, report, trace) && Knows(trace, ChangeTarget(change), before)
    modifies b
    ensures Accounted(b, base, report', trace') && Extends(trace, trace', ChangeTarget(change))
    ensures SameLedger(report, report') && b.Counting() && Continued(report, report', cause)
    ensures Heralded(options.stopRunning, old(b.log), b.log)
    ensures cause.None? && options.stopRunning && (change.UpdateTask? || change.AdoptTask? || change.DeleteTask?) ==>
              |b.log| > |old(b.log)| && b.log[|b.log| - 1] == Called(StopAll(change.path))
    ensures b.Calm() ==> b.state == old(b.state) && b.wild == old(b.wild)
    ensures b.Alone() ==> b.Sight() == old(b.Sight())
    ensures b.lost > old(b.lost) ==> b.lostCall.Some? && b.lostCall.value.StopAll?
    ensures b.refused + b.lost + b.wild <= old(b.refused) + old(b.lost) + old(b.wild) + 1
    ensures cause.None? ==> Cleared(trace', change, Mutation)
    ensures cause.None? && b.Calm() ==>
              Alike(options.allowIrreversible, View(b.state, ChangeTarget(change)), before) && b.Faultless()
    ensures cause.None? && b.Calm() && b.lostReads == old(b.lostReads) ==>
              Same(View(b.state, ChangeTarget(change)), before)
    ensures cause.None? && b.Alone() && ChangeTarget(change) == b.chosen ==>
              Alike(options.allowIrreversible, b.Sight(), before)
    ensures b.Clean() && before == View(b.state, ChangeTarget(change)) ==> cause.None?
  {
    hide AccountedFor, Told, Extends, Cleared, Knows, Alike, Same, View, Open, FirstError;
    cause, report', trace' := CheckPrecondition(b, options, change, before, report, base, trace);
    SameAsItself(before);
    if cause.None? && options.stopRunning && Replaces(change) {
      ghost var trace1, report1 := trace', report';
      cause, report', trace' := RequestStop(b, change, report', base, trace');
      ExtendsTransitive(trace, trace1, trace', ChangeTarget(change));
    }
  }

  /** The stop request that precedes a replacement; it is issued by apply itself, not through Recorded. */
  method RequestStop(b: Backend, change: Change, report: ApplyReport, ghost base: seq<Entry>, ghost trace: seq<Event>)
    returns (cause: Option<ErrorKind>, report': ApplyReport, ghost trace': seq<Event>)
    requires Replaces(change) && Accounted(b, base, report, trace) && Cleared(trace, change, Stop)
    modifies b
    ensures Accounted(b, base, report', trace') && Extends(trace, trace', ChangeTarget(change))
    ensures SameLedger(report, report') && b.Counting() && b.lostReads == old(b.lostReads)
    ensures report'.irreversibleEffects == report.irreversibleEffects + [change.path]
    ensures b.log == old(b.log) + [Called(StopAll(change.path))] && Continued(report, report', cause)
    ensures b.Calm() ==> b.state == old(b.state) && b.wild == old(b.wild)
    ensures b.Alone() ==> b.Sight() == old(b.Sight())
    ensures b.lost > old(b.lost) ==> b.lostCall.Some? && b.lostCall.value.StopAll?
    ensures b.refused + b.lost + b.wild <= old(b.refused) + old(b.lost) + old(b.wild) + 1
    ensures Cleared(trace', change, Mutation)
    ensures b.Calm() ==> (cause.None? <==> b.Faultless())
  {
    hide AccountedFor, Told, Extends, Cleared, Open, FirstError;
    report' := report.(irreversibleEffects := report.irreversibleEffects + [change.path]);
    report' := Record(report', change, Stop, Attempted, None);
    StopTells(report, change);
    var stop := StopAll(change.path);
    cause := b.Invoke(stop);
    StoppingIsAccountedFor(old(b.log), base, report.journal, trace, change);
    trace' := trace + [StopRequested(change, stop)];
    var done := JournalEntry(PhaseName, change, Stop, if cause.None? then Succeeded else Unknown, cause);
    RecordingIsAccountedFor(b.log, base, report'.journal, trace', done);
    OutcomeTells(report, report', done);
    PlainlyEntered(report', done);
    report' := Record(report', change, Stop, done.outcome, cause);
  }

  lemma StopTells(report: ApplyReport, change: Change)
    requires Replaces(change) && Told(report)
    ensures var attempt := JournalEntry(PhaseName, change, Stop, Attempted, None);
      var r := report.(journal := report.journal + [attempt],
                       irreversibleEffects := report.irreversibleEffects + [change.path]);
      && Told(r) && FirstError(r.journal) == FirstError(report.journal)
      && Open(report.journal).Some? && Open(r.journal) == Some(Open(report.journal).value + [attempt])
  {
    hide Told, FirstError, Open;
    var attempt := JournalEntry(PhaseName, change, Stop, Attempted, None);
    ToldIsOpen(report);
    AttemptTells(report, attempt);
    assert report.rolledBack + [] == report.rolledBack && report.rollbackFailures + [] == report.rollbackFailures;
    assert report.unresolved + [] == report.unresolved;
  }

  /** A change for which no call can be issued is never confirmed. */
  predicate Unissuable(m: Manifest, change: Change) {
    change.CreateFolder? || change.SetFolderSecurity? || change.SetTaskSecurity? || (Registers(change) && !Desired(m, change.path))
  }

  /** The change itself, through the recording wrapper. */
  method Mutate(b: Backend, m: Manifest, change: Change, P: Prepared, report: ApplyReport,
                ghost base: seq<Entry>, ghost trace: seq<Event>)
    returns (error: Option<ErrorKind>, P': Prepared, report': ApplyReport, ghost trace': seq<Event>)
    requires Accounted(b, base, report, trace) && Cleared(trace, change, Mutation)
    modifies b
    ensures Accounted(b, base, report', trace') && Extends(trace, trace', ChangeTarget(change))
    ensures report' == report.(journal := report'.journal) && Continued(report, report', error)
    ensures CallsLogged(old(b.log), b.log, EnactedCalls(m, change, P))
    ensures b.Counting() && b.refused + b.lost + b.wild <= old(b.refused) + old(b.lost) + old(b.wild) + 1
    ensures Executed(old(b.Now()), b.Now(), b.standard, m, change, P, error, P')
    ensures b.Alone() && ChangeTarget(change) != b.chosen ==> b.Sight() == old(b.Sight())
    ensures Changed(trace', change) || (error.Some? && Unissuable(m, change))
  {
    hide AccountedFor, Told, Extends, Cleared, Changed, OnlyTouches, Effect, Spent, Continued, EnactedCalls, Executed,
         Bracketed, JournalFootprints, Footprints, Stopped, StopsIn, Unissuable, Enactment;
    report' := Record(report, change, Mutation, Attempted, None);
    RecordingIsAccountedFor(b.log, base, report.journal, trace,
                            JournalEntry(PhaseName, change, Mutation, Attempted, None));
    var recorded := new Recorded(b, change, Mutation);
    ghost var answers;
    error, P', answers := ExecuteChange(recorded, b, m, P);
    ghost var calls := EnactedCalls(m, change, P);
    WritingIsAccountedFor(old(b.log), base, report'.journal, trace, recorded.journal, change, Mutation, calls, answers);
    EnactingStopsNothing(m, change, P);
    EnactingChanges(m, change, P, old(b.Now()), b.Now(), b.standard, error, P');
    StopsAreCalls(calls);
    PhaseTells(report, JournalEntry(PhaseName, change, Mutation, Attempted, None), recorded.journal,
               JournalEntry(PhaseName, change, Mutation, if error.None? then Succeeded else Unknown, error));
    report' := report'.(journal := report'.journal + recorded.journal);
    trace' := trace + [Wrote(change, Mutation, calls, answers)];
    var done := JournalEntry(PhaseName, change, Mutation, if error.None? then Succeeded else Unknown, error);
    RecordingIsAccountedFor(b.log, base, report'.journal, trace', done);
    report' := Record(report', change, Mutation, done.outcome, error);
  }

  lemma EnactingStopsNothing(m: Manifest, change: Change, P: Prepared)
    ensures Stopped(EnactedCalls(m, change, P)) == []
  {
    hide OwnedDefinition, FindTask, RegisteredDefinition;
    NoneStopped(EnactedCalls(m, change, P));
  }

  lemma EnactingChanges(m: Manifest, change: Change, P: Prepared, pre: Tally, post: Tally, standard: Acl,
                        error: Option<ErrorKind>, P': Prepared)
    requires Executed(pre, post, standard, m, change, P, error, P')
    ensures EnactedCalls(m, change, P) != [] || (error.Some? && Unissuable(m, change))
  {
    hide OwnedDefinition, RegisteredDefinition;
  }

  /** These calls were made, and then nothing but reads. */
  ghost predicate CallsLogged(log: seq<Entry>, log': seq<Entry>, calls: seq<Call>) {
    && log + Calling(calls) <= log'
    && forall k :: |log| + |calls| <= k < |log'| ==> !log'[k].Called?
  }

  /** The verdict of a faithful look at the target. */
  function FaithfulVerdict(m: Manifest, change: Change, before: Observed, now: Observed,
                           error: Option<ErrorKind>): Verdict {
    if error.Some? && Same(now, before) then Intact(error.value)
    else if Achieved(m, change, before, now, now)
            && (error.None? || !(change.CreateFolder? || change.SetFolderSecurity? || change.SetTaskSecurity?))
    then Verified(now, error)
    else Doubtful(if error.Some? then error.value else Conflict)
  }

  /** The verdict on what was read back: nothing, or a sight and whether it is what the change should lead to. */
  function Decide(change: Change, before: Observed, seen: Result<Observed>, expected: bool,
                  error: Option<ErrorKind>): Verdict {
    if seen.Ok? && Same(seen.value, before) && error.Some? then Intact(error.value)
    else if seen.Ok? && expected && (error.None? || Attributable(change)) then Verified(seen.value, error)
    else Doubtful(if error.Some? then error.value else if seen.Err? then seen.error else Conflict)
  }

  /** What the decision rests on. */
  method ReadBack(b: Backend, m: Manifest, options: ApplyOptions, change: Change, before: Observed,
                  report: ApplyReport, ghost base: seq<Entry>, ghost trace: seq<Event>)
    returns (seen: Result<Observed>, expected: bool, ghost trace': seq<Event>)
    requires Accounted(b, base, report, trace)
    modifies b
    ensures b.ReadOnly()
    ensures Accounted(b, base, report, trace') && Quiet(trace, trace')
    ensures expected ==> seen.Ok? && Spotted(trace', ChangeTarget(change), seen.value)
    ensures expected && Registers(change) ==> Desired(m, change.path)
    ensures b.Alone() && ChangeTarget(change) == b.chosen && seen.Ok? ==>
              Sees(options.allowIrreversible, b.Sight(), seen.value)
    ensures b.Calm() ==>
              var now := View(b.state, ChangeTarget(change));
              (seen.Ok? ==> Sees(options.allowIrreversible, now, seen.value))
              && (expected ==> Achieved(m, change, before, seen.value, now))
    ensures b.Calm() && b.lostReads == old(b.lostReads) ==>
              var now := View(b.state, ChangeTarget(change));
              seen == Ok(now) && expected == Achieved(m, change, before, now, now)
  {
    hide AccountedFor, Extends, Quiet, Knows, Spotted, OnlyRead, Sees, View, Achieved, Desired;
    seen, trace' := Look(b, change, options.allowIrreversible, report, base, trace);
    expected := false;
    if seen.Ok? {
      ghost var log, trace1 := b.log, trace';
      expected := ExpectedAfter(b, before, seen.value, m, change);
      trace' := Asking(b, log, base, report, trace');
      QuietTransitive(trace, trace1, trace');
      assert Spotted(trace', ChangeTarget(change), seen.value) by { KnowledgeStays(trace1, trace'); }
    }
  }

  /** What was read back is taken for the state that the change left. */
  lemma LeavingIsAccountedFor(log: seq<Entry>, base: seq<Entry>, journal: seq<JournalEntry>, trace: seq<Event>,
                              trace1: seq<Event>, change: Change, after: Observed)
    requires AccountedFor(log, base, journal, trace1) && Quiet(trace, trace1)
    requires Changed(trace, change) && Spotted(trace1, ChangeTarget(change), after)
    ensures var trace' := trace1 + [Left(change, after)];
      AccountedFor(log, base, journal, trace') && Quiet(trace, trace') && Knows(trace', ChangeTarget(change), after)
  {
    hide AccountedFor, Quiet, Knows, Spotted, OnlyRead, Changed;
    var e := Left(change, after);
    KnowledgeStays(trace, trace1);
    assert log + EventEntries(e) == log;
    ReadingIsAccountedFor(log, base, journal, trace1, e);
    KnowledgeStays(trace1, trace1 + [e]);
    QuietTransitive(trace, trace1, trace1 + [e]);
  }

  lemma VerdictTells(report: ApplyReport, verdict: Verdict, e: JournalEntry)
    requires Told(report) && e.operation.PhaseName? && e.phase.Verify? && Consistent(e)
    requires e.outcome.Unknown? <==> verdict.Doubtful?
    ensures var r := Judged(report, verdict, e.change).(journal := report.journal + [e]);
      Told(r) && Continued(report, r, e.error)
  {
    hide FirstError, Open, JournalFootprints;
    EntryTells(report, e);
    assert report.rolledBack + [] == report.rolledBack && report.rollbackFailures + [] == report.rollbackFailures;
    assert report.irreversibleEffects + [] == report.irreversibleEffects;
  }

  /** What the verdict on a change puts into the report. */
  method EnterVerdict(b: Backend, change: Change, verdict: Verdict, failure: ErrorKind, report: ApplyReport,
                      ghost base: seq<Entry>, ghost trace: seq<Event>, ghost trace1: seq<Event>)
    returns (report': ApplyReport, ghost trace': seq<Event>)
    requires Accounted(b, base, report, trace1) && Quiet(trace, trace1)
    requires verdict.Verified? ==> Spotted(trace1, ChangeTarget(change), verdict.after) && Changed(trace, change)
    ensures Accounted(b, base, report', trace') && Extends(trace, trace', ChangeTarget(change))
    ensures report' == Judged(report, verdict, change).(journal := report'.journal)
    ensures Continued(report, report', if verdict.Doubtful? then Some(failure) else None)
    ensures verdict.Verified? ==>
              Knows(trace', ChangeTarget(change), verdict.after) && Left(change, verdict.after) in trace'
  {
    hide AccountedFor, Told, Extends, Quiet, Knows, Spotted, Changed;
    var entry := JournalEntry(PhaseName, change, Verify, if verdict.Doubtful? then Unknown else Succeeded,
                              if verdict.Doubtful? then Some(failure) else None);
    RecordingIsAccountedFor(b.log, base, report.journal, trace1, entry);
    VerdictTells(report, verdict, entry);
    report' := Judged(Record(report, change, Verify, entry.outcome, entry.error), verdict, change);
    trace' := trace1;
    if verdict.Verified? {
      LeavingIsAccountedFor(b.log, base, report'.journal, trace, trace1, change, verdict.after);
      trace' := trace1 + [Left(change, verdict.after)];
    }
    QuietExtends(trace, trace', ChangeTarget(change));
  }

  /** Reading back after an attempt, whether or not it reported an error. */
  method Confirm(b: Backend, m: Manifest, options: ApplyOptions, change: Change, before: Observed,
                 error: Option<ErrorKind>, report: ApplyReport, ghost base: seq<Entry>, ghost trace: seq<Event>)
    returns (verdict: Verdict, report': ApplyReport, ghost trace': seq<Event>)
    requires Accounted(b, base, report, trace)
    requires Changed(trace, change) || (error.Some? && Unissuable(m, change))
    requires error.Some? ==> FirstError(report.journal).Some?
    modifies b
    ensures Continued(report, report', CauseOf(verdict)) && (error.Some? ==> CauseOf(verdict) == error)
    ensures Accounted(b, base, report', trace') && Extends(trace, trace', ChangeTarget(change))
    ensures b.ReadOnly() && !verdict.Halted?
    ensures report' == Judged(report, verdict, change).(journal := report'.journal)
    ensures verdict.Verified? ==>
              verdict.error == error && Knows(trace', ChangeTarget(change), verdict.after)
              && Left(change, verdict.after) in trace'
              && (error.Some? ==> !(change.CreateFolder? || change.SetFolderSecurity? || change.SetTaskSecurity?))
    ensures b.Calm() ==>
              var now := View(b.state, ChangeTarget(change));
              (verdict.Intact? ==> error.Some? && Alike(options.allowIrreversible, now, before))
              && (verdict.Verified? ==> Sees(options.allowIrreversible, now, verdict.after)
                                        && Achieved(m, change, before, verdict.after, now))
    ensures b.Calm() && b.lostReads == old(b.lostReads) ==>
              verdict == FaithfulVerdict(m, change, before, View(b.state, ChangeTarget(change)), error)
    ensures b.Alone() && ChangeTarget(change) == b.chosen ==>
              (verdict.Intact? ==> Alike(options.allowIrreversible, b.Sight(), before))
              && (verdict.Verified? ==> Alike(options.allowIrreversible, b.Sight(), verdict.after))
  {
    hide AccountedFor, Told, Extends, Quiet, Knows, Spotted, Changed, Sees, View, Achieved, Desired, Judged, Open,
         FirstError;
    var seen, expected;
    ghost var trace1;
    seen, expected, trace1 := ReadBack(b, m, options, change, before, report, base, trace);
    verdict := Decide(change, before, seen, expected, error);
    if verdict.Intact? && (b.Calm() || (b.Alone() && ChangeTarget(change) == b.chosen)) {
      SeenAsExpected(options.allowIrreversible, View(b.state, ChangeTarget(change)), seen.value, before);
    }
    if verdict.Verified? && b.Alone() && ChangeTarget(change) == b.chosen {
      SightsAgree(options.allowIrreversible, b.Sight(), seen.value);
    }
    report', trace' :=
      EnterVerdict(b, change, verdict, if seen.Err? then seen.error else Conflict, report, base, trace, trace1);
  }

  // ---- a compensation step ---------------------------------------------------------------------------

  /** Look at a target and compare; anything else than the expected sight is reported with `kind`. */
  method LookFor(b: Backend, change: Change, expected: Observed, kind: ErrorKind, options: ApplyOptions,
                 report: ApplyReport, ghost base: seq<Entry>, ghost trace: seq<Event>)
    returns (error: Option<ErrorKind>, ghost trace': seq<Event>)
    requires Accounted(b, base, report, trace)
    modifies b
    ensures b.ReadOnly()
    ensures Accounted(b, base, report, trace') && trace <= trace'
    ensures error.None? && Left(change, expected) in trace ==> Cleared(trace', change, Rollback)
    ensures error.None? && b.Calm() ==>
              Alike(options.allowIrreversible, View(b.state, ChangeTarget(change)), expected)
    ensures b.Calm() && b.lostReads == old(b.lostReads)
            ==> error == if Same(View(b.state, ChangeTarget(change)), expected) then None else Some(kind)
    ensures error.None? && b.Alone() && ChangeTarget(change) == b.chosen ==>
              Alike(options.allowIrreversible, b.Sight(), expected)
  {
    hide AccountedFor, Knows, Spotted, OnlyRead, Sees, View, Same, Alike;
    var live;
    live, trace' := Look(b, change, options.allowIrreversible, report, base, trace);
    error := if live.Err? then Some(live.error) else if Same(live.value, expected) then None else Some(kind);
    if error.None? {
      assert trace'[..|trace|] == trace;
      if b.Calm() || (b.Alone() && ChangeTarget(change) == b.chosen) {
        SeenAsExpected(options.allowIrreversible, View(b.state, ChangeTarget(change)), live.value, expected);
      }
    }
  }

  /** The compensating calls, through the recording wrapper. */
  method Reverse(b: Backend, change: Change, options: ApplyOptions, P: Prepared, report: ApplyReport,
                 ghost base: seq<Entry>, ghost trace: seq<Event>)
    returns (error: Option<ErrorKind>, P': Prepared, report': ApplyReport, ghost trace': seq<Event>)
    requires Accounted(b, base, report, trace) && Cleared(trace, change, Rollback)
    modifies b
    ensures P' == Consumed(change, P)
    ensures Accounted(b, base, report', trace') && trace <= trace' && SameLedger(report, report')
    ensures b.Counting() && Continued(report, report', None) && Heralded(options.stopRunning, old(b.log), b.log)
    ensures b.Calm() ==> OnlyTouches(old(b.state), b.state, ChangeTarget(change))
    ensures b.Alone() && ChangeTarget(change) != b.chosen ==> b.Sight() == old(b.Sight())
    ensures var all := UndoCalls(change, P, options.stopRunning);
      b.Clean() && all.Ok? && AllFine(all.value, old(b.state), b.standard) ==>
        error.None? && b.state == RunCalls(all.value, old(b.state), b.standard)
  {
    hide AccountedFor, Told, Cleared, Extends, OnlyTouches, UndoCalls, AllFine, RunCalls, Consumed, Continued, Heralded;
    report' := report;
    if options.stopRunning && change.CreateTask? {
      report' := report'.(irreversibleEffects := report'.irreversibleEffects + [change.path]);
    }
    var recorded := new Recorded(b, change, Rollback);
    ghost var calls;
    error, P', calls := CompensateChange(recorded, b, P, options.stopRunning);
    assert Calling(calls) + [] == Calling(calls);
    WritingIsAccountedFor(old(b.log), base, report'.journal, trace, recorded.journal, change, Rollback, calls, []);
    UndoingStops(change, P, options.stopRunning, calls);
    UndoingIsHeralded(change, P, options.stopRunning, calls, old(b.log));
    StopsAreCalls(calls);
    NativeTells(report, recorded.journal, Stopped(calls));
    assert report.irreversibleEffects + [] == report.irreversibleEffects;
    report' := report'.(journal := report'.journal + recorded.journal);
    trace' := trace + [Wrote(change, Rollback, calls, [])];
  }

  /** The calls made so far of those that take a change back. */
  ghost predicate Undoing(change: Change, P: Prepared, stopRunning: bool, calls: seq<Call>) {
    var all := UndoCalls(change, P, stopRunning);
    (all.Err? ==> calls == []) && (all.Ok? ==> calls <= all.value && calls != [])
  }

  lemma UndoingStops(change: Change, P: Prepared, stopRunning: bool, calls: seq<Call>)
    requires Undoing(change, P, stopRunning, calls)
    ensures Stopped(calls) == if stopRunning && change.CreateTask? then [change.path] else []
  {
    UndoShape(change, P, stopRunning);
    if calls != [] {
      NoneStopped(calls[1..]);
    }
  }

  lemma {:induction false} NoneStopped(calls: seq<Call>)
    ensures (forall c <- calls :: !c.StopAll?) ==> Stopped(calls) == []
  {
    if calls != [] {
      NoneStopped(calls[1..]);
    }
  }

  lemma UndoingIsHeralded(change: Change, P: Prepared, stopRunning: bool, calls: seq<Call>, log: seq<Entry>)
    requires Undoing(change, P, stopRunning, calls)
    ensures Heralded(stopRunning, log, log + Calling(calls))
  {
    var log' := log + Calling(calls);
    assert forall k :: 0 <= k < |calls| ==> log'[|log| + k] == Called(calls[k]);
  }

  /** What an attempt to take a change back does to one target that nobody else changes. */
  ghost predicate BackAt(blind: bool, t: Target, entry: Undo, done: bool, v: Observed, v': Observed) {
    if ChangeTarget(entry.change) != t then v' == v else done ==> Alike(blind, v', entry.before)
  }

  /** The compensating calls, and whether the state before the change is seen again. */
  method ReverseAndCheck(b: Backend, options: ApplyOptions, entry: Undo, P: Prepared, report: ApplyReport,
                         ghost base: seq<Entry>, ghost trace: seq<Event>)
    returns (error: Option<ErrorKind>, P': Prepared, report': ApplyReport, ghost trace': seq<Event>)
    requires Accounted(b, base, report, trace) && Cleared(trace, entry.change, Rollback)
    modifies b
    ensures P' == Consumed(entry.change, P)
    ensures Accounted(b, base, report', trace') && trace <= trace' && SameLedger(report, report')
    ensures b.Counting() && Continued(report, report', None) && Heralded(options.stopRunning, old(b.log), b.log)
    ensures b.Calm() ==> OnlyTouches(old(b.state), b.state, ChangeTarget(entry.change))
    ensures b.Alone() && ChangeTarget(entry.change) != b.chosen ==> b.Sight() == old(b.Sight())
    ensures b.Alone() && ChangeTarget(entry.change) == b.chosen && error.None? ==>
              Alike(options.allowIrreversible, b.Sight(), entry.before)
    ensures b.Calm() && error.None? ==>
              Alike(options.allowIrreversible, View(b.state, ChangeTarget(entry.change)), entry.before)
    ensures var all := UndoCalls(entry.change, P, options.stopRunning);
      b.Clean() && all.Ok? && AllFine(all.value, old(b.state), b.standard)
      && Same(View(RunCalls(all.value, old(b.state), b.standard), ChangeTarget(entry.change)), entry.before) ==>
        error.None? && b.state == RunCalls(all.value, old(b.state), b.standard)
  {
    hide AccountedFor, Told, Cleared, OnlyTouches, View, Alike, UndoCalls, AllFine, RunCalls, Consumed, Same, Open,
         FirstError, Heralded;
    error, P', report', trace' := Reverse(b, entry.change, options, P, report, base, trace);
    ghost var log := b.log;
    if error.Some? {
      return;
    }
    error, trace' := LookFor(b, entry.change, entry.before, Irreversible, options, report', base, trace');
    ReadsAreHeralded(options.stopRunning, log, b.log);
    HeraldedTwice(options.stopRunning, old(b.log), log, b.log);
  }

  /** The attempt to take one confirmed change back: only from the state this apply left, and only
      believed when the state before the change is seen again. */
  method TakeBack(b: Backend, options: ApplyOptions, entry: Undo, P: Prepared, report: ApplyReport,
                  ghost base: seq<Entry>, ghost trace: seq<Event>, ghost pre: State, ghost post: State)
    returns (error: Option<ErrorKind>, P': Prepared, report': ApplyReport, ghost trace': seq<Event>)
    requires Accounted(b, base, report, trace) && Left(entry.change, entry.after) in trace
    modifies b
    ensures P' == P || P' == Consumed(entry.change, P)
    ensures Accounted(b, base, report', trace') && trace <= trace' && SameLedger(report, report')
    ensures b.Counting() && Continued(report, report', None) && Heralded(options.stopRunning, old(b.log), b.log)
    ensures b.Calm() ==> OnlyTouches(old(b.state), b.state, ChangeTarget(entry.change))
    ensures b.Alone() ==> BackAt(options.allowIrreversible, b.chosen, entry, error.None?, old(b.Sight()), b.Sight())
    ensures b.Calm() && b.lostReads == old(b.lostReads)
            && !Same(View(old(b.state), ChangeTarget(entry.change)), entry.after)
            ==> error == Some(Conflict) && b.ReadOnly()
    ensures b.Calm() && error.None? ==>
              Alike(options.allowIrreversible, View(b.state, ChangeTarget(entry.change)), entry.before)
    ensures b.Clean() && Faithful(entry, P, pre, post) && SameWorld(false, post, old(b.state)) ==>
              error.None? && SameWorld(false, pre, b.state)
  {
    hide AccountedFor, Told, Cleared, OnlyTouches, View, Alike, SameWorld, UndoCalls, AllFine, RunCalls, Consumed,
         Revocable, Same, Open, FirstError, Heralded, Faithful;
    ghost var log0 := b.log;
    ghost var t := ChangeTarget(entry.change);
    P', report' := P, report;
    ghost var s0 := b.state;
    ghost var faithful := Faithful(entry, P, pre, post) && SameWorld(false, post, s0);
    if faithful {
      FaithfulRestores(entry, P, pre, post, s0, b.standard, options.stopRunning);
    }
    NothingTouched(s0, t);
    error, trace' := LookFor(b, entry.change, entry.after, Conflict, options, report, base, trace);
    ghost var log1 := b.log;
    ReadsAreHeralded(options.stopRunning, log0, log1);
    if error.Some? {
      return;
    }
    error, P', report', trace' := ReverseAndCheck(b, options, entry, P, report, base, trace');
    HeraldedTwice(options.stopRunning, log0, log1, b.log);
  }

  lemma NothingTouched(s: State, t: Target)
    ensures OnlyTouches(s, s, t)
  {
  }

  /** A confirmed change whose observations were exact and whose compensation has all it needs. */
  ghost predicate Faithful(entry: Undo, P: Prepared, pre: State, post: State) {
    && Revocable(P, entry.change, pre, post)
    && entry.before == View(pre, ChangeTarget(entry.change))
    && entry.after == View(post, ChangeTarget(entry.change))
  }

  lemma FaithfulRestores(entry: Undo, P: Prepared, pre: State, post: State, s: State, standard: Acl, stop: bool)
    requires Faithful(entry, P, pre, post) && SameWorld(false, post, s)
    ensures var undo := UndoCalls(entry.change, P, stop);
      undo.Ok? && AllFine(undo.value, s, standard)
      && Same(View(s, ChangeTarget(entry.change)), entry.after)
      && Same(View(RunCalls(undo.value, s, standard), ChangeTarget(entry.change)), entry.before)
      && SameWorld(false, pre, RunCalls(undo.value, s, standard))
  {
    UndoRestores(P, entry.change, pre, post, s, standard, stop);
    var t := ChangeTarget(entry.change);
    assert Alike(false, View(post, t), View(s, t));
  }
}
