/** What apply (reconcile.rs) works with, and the laws its loop relies on: the chain of confirmed steps,
    the compensation of one step, and the trace of observations and calls. */
module ApplySpec {
  import opened Wrappers
  import opened Paths
  import opened Scheduler
  import opened Manifests
  import opened Planning
  import opened SchedulerBackend
  import opened Recovery

  datatype ApplyOptions = ApplyOptions(prune: bool, adopt: bool, allowIrreversible: bool, stopRunning: bool)

  function PlanningOptions(o: ApplyOptions): PlanOptions { PlanOptions(o.prune, o.adopt) }

  datatype TaskBackup = TaskBackup(
    raw: Definition, logon: LogonType, enabled: bool, security: Option<Acl>, password: bool)

  datatype Prepared = Prepared(
    taskBackups: map<TaskPath, TaskBackup>, enabledBackups: map<TaskPath, bool>,
    taskSecurity: map<TaskPath, Acl>, folderSecurity: map<FolderPath, Acl>,
    desiredPasswords: set<TaskPath>, createdFolders: set<FolderPath>)

  datatype RollbackFailure = RollbackFailure(change: Change, error: ErrorKind)

  datatype ApplyReport = ApplyReport(
    succeeded: bool, plan: seq<PlannedChange>, applied: seq<Change>, rolledBack: seq<Change>,
    rollbackFailures: seq<RollbackFailure>, journal: seq<JournalEntry>, unresolved: seq<Change>,
    irreversibleEffects: seq<TaskPath>)

  function EmptyReport(plan: seq<PlannedChange>): ApplyReport {
    ApplyReport(false, plan, [], [], [], [], [], [])
  }

  /** record. */
  function Record(report: ApplyReport, change: Change, phase: Phase, outcome: StepOutcome,
                  error: Option<ErrorKind>): ApplyReport {
    report.(journal := report.journal + [JournalEntry(PhaseName, change, phase, outcome, error)])
  }

  /** ApplyReport::succeeded and ApplyReport::rollback_complete. */
  predicate ReportSucceeded(r: ApplyReport) {
    r.succeeded && |r.applied| == |r.plan| && r.rolledBack == [] && r.rollbackFailures == [] && r.unresolved == []
  }

  predicate RollbackComplete(r: ApplyReport) {
    r.applied != [] && |r.rolledBack| == |r.applied| && r.rollbackFailures == [] && r.unresolved == []
    && r.irreversibleEffects == []
  }

  datatype Undo = Undo(change: Change, before: Observed, after: Observed)

  function Replaces(c: Change): bool { c.UpdateTask? || c.AdoptTask? || c.DeleteTask? }

  // ---- the calls that carry out and take back one change -----------------------------------

  /** The definition execute_change registers: a replaced task without a desired descriptor keeps its own. */
  function RegisteredDefinition(m: Manifest, task: ManagedTask, change: Change, prepared: Prepared): Definition {
    var d := OwnedDefinition(m, task);
    if change.CreateTask? || d.security.Some? || task.path !in prepared.taskBackups then d
    else d.(security := prepared.taskBackups[task.path].security)
  }

  /** The one changing call of execute_change, or the error it reports instead. */
  function Enactment(m: Manifest, change: Change, prepared: Prepared): Result<Call> {
    match change
    case CreateFolder(f) => Ok(MakeFolder(f))
    case DeleteTask(p) => Ok(DropTask(p))
    case SetEnabled(p, enabled) => Ok(WriteEnabled(p, enabled))
    case SetTaskSecurity(p) =>
      if TaskAcl(m, p).Some? then Ok(WriteTaskSecurity(p, TaskAcl(m, p).value)) else Err(InvalidDefinition)
    case SetFolderSecurity(f) =>
      if FolderAcl(m, f).Some? then Ok(WriteFolderSecurity(f, FolderAcl(m, f).value)) else Err(InvalidDefinition)
    case _ =>
      var found := FindTask(m.tasks, change.path);
      if found.None? then Err(InvalidDefinition)
      else Ok(Register(change.path, RegisteredDefinition(m, found.value, change, prepared), change.CreateTask?,
                       change.path in prepared.desiredPasswords))
  }

  /** The calls of compensate_change, all of them made when none fails. */
  function UndoCalls(change: Change, prepared: Prepared, stopRunning: bool): Result<seq<Call>> {
    match change
    case CreateFolder(f) => Ok([DropFolder(f)])
    case CreateTask(p) => Ok((if stopRunning then [StopAll(p)] else []) + [DropTask(p)])
    case SetEnabled(p, _) =>
      if p in prepared.enabledBackups then Ok([WriteEnabled(p, prepared.enabledBackups[p])]) else Err(Irreversible)
    case SetTaskSecurity(p) =>
      if p in prepared.taskSecurity then Ok([WriteTaskSecurity(p, prepared.taskSecurity[p])]) else Err(Irreversible)
    case SetFolderSecurity(f) =>
      if f in prepared.folderSecurity then Ok([WriteFolderSecurity(f, prepared.folderSecurity[f])])
      else Err(Irreversible)
    case _ =>
      if change.path !in prepared.taskBackups then Err(Irreversible)
      else
        var backup := prepared.taskBackups[change.path];
        if PasswordBacked(backup.logon) && !backup.password then Err(Irreversible)
        else Ok([RegisterRaw(change.path, backup.raw, backup.logon, backup.password),
                 WriteEnabled(change.path, backup.enabled)]
                + (if backup.security.Some? then [WriteTaskSecurity(change.path, backup.security.value)] else []))
  }

  function RunCalls(calls: seq<Call>, s: State, standard: Acl): State {
    if calls == [] then s else RunCalls(calls[1..], Effect(calls[0], s, standard).0, standard)
  }

  predicate AllFine(calls: seq<Call>, s: State, standard: Acl) {
    calls == []
    || (Effect(calls[0], s, standard).1.None? && AllFine(calls[1..], Effect(calls[0], s, standard).0, standard))
  }

  /** Which backups compensation consumes. */
  function Consumed(change: Change, prepared: Prepared): Prepared {
    if Replaces(change) then prepared.(taskBackups := prepared.taskBackups - {change.path})
    else if change.SetFolderSecurity? then prepared.(folderSecurity := prepared.folderSecurity - {change.folder})
    else prepared
  }

  // ---- the chain of confirmed steps ------------------------------------------------------------

  /** One confirmed step led from `pre` to `post`. */
  ghost predicate Link(blind: bool, u: Undo, pre: State, post: State) {
    && Alike(blind, View(pre, ChangeTarget(u.change)), u.before)
    && Alike(blind, View(post, ChangeTarget(u.change)), u.after)
    && OnlyTouches(pre, post, ChangeTarget(u.change))
  }

  ghost predicate Chain(blind: bool, undo: seq<Undo>, states: seq<State>) {
    |states| == |undo| + 1 && forall j :: 0 <= j < |undo| ==> Link(blind, undo[j], states[j], states[j + 1])
  }

  lemma ChainExtends(blind: bool, undo: seq<Undo>, states: seq<State>, u: Undo, post: State)
    requires Chain(blind, undo, states)
    requires Link(blind, u, states[|undo|], post)
    ensures Chain(blind, undo + [u], states + [post])
  {
  }

  /** Taking back the last link: if the target looks again as it did before that step, and nothing else
      was touched, then the whole world is back where the step began. */
  lemma ChainUnwinds(blind: bool, u: Undo, pre: State, post: State, s: State, s': State)
    requires Link(blind, u, pre, post)
    requires SameWorld(blind, post, s)
    requires OnlyTouches(s, s', ChangeTarget(u.change))
    requires Alike(blind, View(s', ChangeTarget(u.change)), u.before)
    ensures SameWorld(blind, pre, s')
  {
    forall t ensures Alike(blind, View(pre, t), View(s', t)) {
      if t == ChangeTarget(u.change) {
        AlikeIsAnEquivalence(blind, View(s', t), u.before, View(pre, t));
        AlikeIsAnEquivalence(blind, View(pre, t), u.before, View(s', t));
      } else {
        assert View(pre, t) == View(post, t);
        assert View(s, t) == View(s', t);
        assert Alike(blind, View(post, t), View(s, t));
      }
    }
  }

  /** A failed step that left its target as it was left the world as it was. */
  lemma UntouchedWorld(blind: bool, s: State, s': State, t: Target, before: Observed)
    requires OnlyTouches(s, s', t)
    requires Alike(blind, View(s, t), before) && Alike(blind, View(s', t), before)
    ensures SameWorld(blind, s, s')
  {
    forall other ensures Alike(blind, View(s, other), View(s', other)) {
      if other == t {
        AlikeIsAnEquivalence(blind, View(s', t), before, before);
        AlikeIsAnEquivalence(blind, View(s, t), before, View(s', t));
      } else {
        assert View(s, other) == View(s', other);
        AlikeIsAnEquivalence(blind, View(s, other), View(s, other), View(s, other));
      }
    }
  }

  lemma SameWorldIsReflexive(blind: bool, s: State)
    ensures SameWorld(blind, s, s)
  {
    forall t ensures Alike(blind, View(s, t), View(s, t)) {
      AlikeIsAnEquivalence(blind, View(s, t), View(s, t), View(s, t));
    }
  }

  // ---- one target on its own ------------------------------------------------------------------------

  /** Taking back the confirmed entries of one target, the last one first, leads from `v` back to `v0`. */
  ghost predicate Leads(blind: bool, undo: seq<Undo>, t: Target, v0: Observed, v: Observed) {
    if undo == [] then Alike(blind, v0, v)
    else
      var u, rest := undo[|undo| - 1], undo[..|undo| - 1];
      if ChangeTarget(u.change) != t then Leads(blind, rest, t, v0, v)
      else Alike(blind, v, u.after) && Leads(blind, rest, t, v0, u.before)
  }

  lemma {:induction false} LeadsAlike(blind: bool, undo: seq<Undo>, t: Target, v0: Observed, v: Observed, v': Observed)
    requires Leads(blind, undo, t, v0, v) && Alike(blind, v, v')
    ensures Leads(blind, undo, t, v0, v')
  {
    hide Alike;
    if undo == [] {
      AlikeIsAnEquivalence(blind, v0, v, v');
    } else if ChangeTarget(undo[|undo| - 1].change) != t {
      LeadsAlike(blind, undo[..|undo| - 1], t, v0, v, v');
    } else {
      AlikeIsAnEquivalence(blind, v, v', v');
      AlikeIsAnEquivalence(blind, v', v, undo[|undo| - 1].after);
    }
  }

  /** One more confirmed change. */
  lemma LeadsFurther(blind: bool, undo: seq<Undo>, u: Undo, t: Target, v0: Observed, v: Observed, v': Observed)
    requires Leads(blind, undo, t, v0, v)
    requires if ChangeTarget(u.change) == t then Alike(blind, v, u.before) && Alike(blind, v', u.after) else v' == v
    ensures Leads(blind, undo + [u], t, v0, v')
  {
    hide Alike;
    assert (undo + [u])[..|undo|] == undo;
    if ChangeTarget(u.change) == t {
      LeadsAlike(blind, undo, t, v0, v, u.before);
    }
  }

  /** Taking back the last one. */
  lemma LeadsBack(blind: bool, undo: seq<Undo>, u: Undo, t: Target, v0: Observed, v: Observed, v': Observed)
    requires Leads(blind, undo + [u], t, v0, v)
    requires if ChangeTarget(u.change) == t then Alike(blind, v', u.before) else v' == v
    ensures Leads(blind, undo, t, v0, v')
  {
    hide Alike;
    assert (undo + [u])[..|undo|] == undo;
    if ChangeTarget(u.change) == t {
      AlikeIsAnEquivalence(blind, v', u.before, u.before);
      LeadsAlike(blind, undo, t, v0, u.before, v');
    }
  }

  // ---- the ledger --------------------------------------------------------------------------------

  /** Both results list, in order, the changes of `order`, each in exactly one of them. */
  ghost predicate Dealt(order: seq<Change>, good: seq<Change>, bad: seq<Change>)
    decreases order
  {
    if order == [] then good == [] && bad == []
    else
      var n := |order| - 1;
      (good != [] && good[|good| - 1] == order[n] && Dealt(order[..n], good[..|good| - 1], bad))
      || (bad != [] && bad[|bad| - 1] == order[n] && Dealt(order[..n], good, bad[..|bad| - 1]))
  }

  lemma DealtGrows(order: seq<Change>, good: seq<Change>, bad: seq<Change>, c: Change)
    requires Dealt(order, good, bad)
    ensures Dealt(order + [c], good + [c], bad)
    ensures Dealt(order + [c], good, bad + [c])
  {
    assert (order + [c])[..|order|] == order;
    assert (good + [c])[..|good|] == good;
    assert (bad + [c])[..|bad|] == bad;
  }

  lemma {:induction false} DealtCounts(order: seq<Change>, good: seq<Change>, bad: seq<Change>)
    requires Dealt(order, good, bad)
    ensures |good| + |bad| == |order|
    ensures bad == [] ==> good == order
  {
    if order != [] {
      var n := |order| - 1;
      assert order == order[..n] + [order[n]];
      if good != [] && good[|good| - 1] == order[n] && Dealt(order[..n], good[..|good| - 1], bad) {
        DealtCounts(order[..n], good[..|good| - 1], bad);
        assert good == good[..|good| - 1] + [order[n]];
      } else {
        DealtCounts(order[..n], good, bad[..|bad| - 1]);
      }
    }
  }

  function Reversed(changes: seq<Change>): (r: seq<Change>)
    ensures |r| == |changes|
  {
    if changes == [] then [] else [changes[|changes| - 1]] + Reversed(changes[..|changes| - 1])
  }

  function FailedChanges(failures: seq<RollbackFailure>): (r: seq<Change>)
    ensures |r| == |failures|
  {
    seq(|failures|, i requires 0 <= i < |failures| => failures[i].change)
  }

  function ChangesOf(undo: seq<Undo>): (r: seq<Change>)
    ensures |r| == |undo|
  {
    seq(|undo|, i requires 0 <= i < |undo| => undo[i].change)
  }

  function PlanChanges(plan: seq<PlannedChange>): (r: seq<Change>)
    ensures |r| == |plan|
  {
    seq(|plan|, i requires 0 <= i < |plan| => plan[i].change)
  }

  // ---- the trace of observations and calls --------------------------------------------------------

  /** What apply did, in order, each event with the part of the scheduler's log it accounts for: it asked
      something on which no change rests, it saw a target, it took the state its own change left for
      confirmed, it asked for a stop, or it issued the calls that carry out (Mutation) or take back
      (Rollback) a change and read the result back. */
  datatype Event =
    | Asked(answers: seq<Entry>)
    | Saw(change: Change, seen: Observed, answers: seq<Entry>)
    | Left(change: Change, seen: Observed)
    | StopRequested(change: Change, call: Call)
    | Wrote(change: Change, phase: Phase, calls: seq<Call>, answers: seq<Entry>)

  function EventEntries(e: Event): seq<Entry> {
    match e
    case Asked(answers) => answers
    case Saw(_, _, answers) => answers
    case Left(_, _) => []
    case StopRequested(_, call) => [Called(call)]
    case Wrote(_, _, calls, answers) => Calling(calls) + answers
  }

  function Entries(trace: seq<Event>): seq<Entry> {
    if trace == [] then [] else Entries(trace[..|trace| - 1]) + EventEntries(trace[|trace| - 1])
  }

  lemma EntriesGrow(trace: seq<Event>, e: Event)
    ensures Entries(trace + [e]) == Entries(trace) + EventEntries(e)
  {
    assert (trace + [e])[..|trace|] == trace;
  }

  predicate About(e: Event, t: Target) { !e.Asked? && ChangeTarget(e.change) == t }

  /** `v` was seen of the target, and apply has written nothing to that target since. */
  ghost predicate Spotted(trace: seq<Event>, t: Target, v: Observed) {
    trace != []
    && (var e := trace[|trace| - 1];
        if e.Wrote? && About(e, t) then false
        else (e.Saw? && About(e, t) && e.seen == v) || Spotted(trace[..|trace| - 1], t, v))
  }

  /** Apply has only read so far. */
  ghost predicate OnlyRead(trace: seq<Event>) { forall e <- trace :: !e.Wrote? && !e.StopRequested? }

  /** What later changes may expect of the target: `v` was seen of it before the first change of all, or was
      taken for what the last change of this target left; and nothing has been written to it since. */
  ghost predicate Knows(trace: seq<Event>, t: Target, v: Observed) {
    trace != []
    && (var e := trace[|trace| - 1];
        var earlier := trace[..|trace| - 1];
        if e.Wrote? && About(e, t) then false
        else (About(e, t) && (e.Left? || (e.Saw? && OnlyRead(earlier))) && e.seen == v) || Knows(earlier, t, v))
  }

  /** The last event that wrote to a target. */
  ghost function LastWrite(trace: seq<Event>, t: Target): (last: Option<Event>)
    ensures last.Some? ==> last.value.Wrote? && About(last.value, t)
  {
    if trace == [] then None
    else
      var e := trace[|trace| - 1];
      if e.Wrote? && About(e, t) then Some(e) else LastWrite(trace[..|trace| - 1], t)
  }

  /** The last thing written to its target was this very change, and something was written. */
  ghost predicate Changed(trace: seq<Event>, c: Change) {
    var last := LastWrite(trace, ChangeTarget(c));
    last.Some? && last.value.change == c && last.value.phase.Mutation? && last.value.calls != []
  }

  /** The last thing apply did before this point was to look at the target and find what it expects. */
  ghost predicate Cleared(trace: seq<Event>, c: Change, phase: Phase) {
    trace != []
    && var e := trace[|trace| - 1];
       var earlier := trace[..|trace| - 1];
       (e.Saw? && ChangeTarget(e.change) == ChangeTarget(c)
        && exists v ::
             Same(e.seen, v)
             && (if phase.Rollback? then Left(c, v) in earlier else Knows(earlier, ChangeTarget(c), v)))
       || (phase.Mutation? && e.StopRequested? && e.change == c)
  }

  /** What an event must rest on.  A sight is what the answers show; what a change is confirmed to have left
      was seen after that change was the last to write to its target; calls were cleared, concern the
      change's own target, and come before what was read back. */
  ghost predicate Justified(trace: seq<Event>, e: Event) {
    match e
    case Asked(answers) => AllReads(answers)
    case Saw(c, seen, answers) => Shows(ChangeTarget(c), answers) == Some(seen)
    case Left(c, v) => Spotted(trace, ChangeTarget(c), v) && Changed(trace, c)
    case StopRequested(c, call) =>
      Cleared(trace, c, Stop) && Replaces(c) && call == StopAll(c.path)
    case Wrote(c, phase, calls, answers) =>
      && (phase.Mutation? || phase.Rollback?) && Cleared(trace, c, phase)
      && (forall call <- calls :: CallTarget(call) == ChangeTarget(c)) && AllReads(answers)
  }

  ghost predicate Guarded(trace: seq<Event>) {
    trace == [] || (Guarded(trace[..|trace| - 1]) && Justified(trace[..|trace| - 1], trace[|trace| - 1]))
  }
}
