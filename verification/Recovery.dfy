/** Observation on both sides of each change (reconcile/recovery.rs), inspection, and the journal. */
module Recovery {
  import opened Wrappers
  import opened Paths
  import opened Scheduler
  import opened Manifests
  import opened Planning
  import opened SchedulerBackend

  // ---- journal ---------------------------------------------------------------------------

  datatype Phase = Precondition | Stop | Mutation | Verify | Rollback
  datatype StepOutcome = Attempted | Succeeded | Failed | Unknown

  /** The operation a journal entry names: the outer phase itself, the one recorded read, or a changing call. */
  datatype Operation = PhaseName | ReadBack | Native(call: CallName)
  datatype CallName =
    | RegisterName | RegisterRawName | CreateFolderName | DeleteFolderName | DeleteTaskName
    | SetEnabledName | SetTaskSecurityName | SetFolderSecurityName | StopAllName

  datatype JournalEntry = JournalEntry(
    operation: Operation, change: Change, phase: Phase, outcome: StepOutcome, error: Option<ErrorKind>)

  function NameOf(c: Call): CallName {
    match c
    case Register(_, _, _, _) => RegisterName
    case RegisterRaw(_, _, _, _) => RegisterRawName
    case MakeFolder(_) => CreateFolderName
    case DropFolder(_) => DeleteFolderName
    case DropTask(_) => DeleteTaskName
    case WriteEnabled(_, _) => SetEnabledName
    case WriteTaskSecurity(_, _) => SetTaskSecurityName
    case WriteFolderSecurity(_, _) => SetFolderSecurityName
    case StopAll(_) => StopAllName
  }

  /** The name in the journal tells which call was made. */
  lemma NameTellsTheCall(c: Call)
    ensures match NameOf(c)
            case RegisterName => c.Register?
            case RegisterRawName => c.RegisterRaw?
            case CreateFolderName => c.MakeFolder?
            case DeleteFolderName => c.DropFolder?
            case DeleteTaskName => c.DropTask?
            case SetEnabledName => c.WriteEnabled?
            case SetTaskSecurityName => c.WriteTaskSecurity?
            case SetFolderSecurityName => c.WriteFolderSecurity?
            case StopAllName => c.StopAll?
  {
  }

  /** A changing call as the journal can tell it: its name and the object it is about. */
  datatype Footprint = Footprint(name: CallName, target: Target)

  function Footprints(calls: seq<Call>): (prints: seq<Footprint>)
    ensures |prints| == |calls|
  {
    if calls == [] then [] else [Footprint(NameOf(calls[0]), CallTarget(calls[0]))] + Footprints(calls[1..])
  }

  /** The footprint of one entry: an attempted changing call, or the attempted stop request of apply itself. */
  function EntryFootprint(e: JournalEntry): seq<Footprint> {
    if e.outcome != Attempted then []
    else if e.operation.Native? then [Footprint(e.operation.call, ChangeTarget(e.change))]
    else if e.operation.PhaseName? && e.phase.Stop? then [Footprint(StopAllName, ChangeTarget(e.change))]
    else []
  }

  function JournalFootprints(journal: seq<JournalEntry>): seq<Footprint> {
    if journal == [] then [] else EntryFootprint(journal[0]) + JournalFootprints(journal[1..])
  }

  lemma {:induction false} JournalAppend(a: seq<JournalEntry>, b: seq<JournalEntry>)
    ensures JournalFootprints(a + b) == JournalFootprints(a) + JournalFootprints(b)
  {
    if a == [] {
      assert a + b == b;
    } else {
      JournalAppend(a[1..], b);
      assert (a + b)[1..] == a[1..] + b && (a + b)[0] == a[0];
      var x, y, z := EntryFootprint(a[0]), JournalFootprints(a[1..]), JournalFootprints(b);
      assert x + (y + z) == (x + y) + z;
    }
  }

  lemma {:induction false} CallsAppend(a: seq<Call>, b: seq<Call>)
    ensures Footprints(a + b) == Footprints(a) + Footprints(b)
  {
    if a == [] {
      assert a + b == b;
    } else {
      CallsAppend(a[1..], b);
      assert (a + b)[1..] == a[1..] + b;
    }
  }

  lemma OneEntry(e: JournalEntry)
    ensures JournalFootprints([e]) == EntryFootprint(e)
  {
    assert [e][1..] == [];
  }

  lemma OneCall(c: Call)
    ensures Footprints([c]) == [Footprint(NameOf(c), CallTarget(c))]
  {
    assert [c][1..] == [];
  }

  /** The entry that follows an attempt: a call without an error succeeded, any other may have happened. */
  function Closed(attempt: JournalEntry, error: Option<ErrorKind>): JournalEntry {
    attempt.(outcome := if error.None? then Succeeded else Unknown, error := error)
  }

  /** An attempt has no error yet and a success has none at all; only a precondition can fail outright,
      whatever else goes wrong may have happened nevertheless. */
  predicate Consistent(e: JournalEntry) {
    match e.outcome
    case Attempted => e.error.None? && !e.phase.Precondition? && !e.phase.Verify?
    case Succeeded => e.error.None?
    case Failed => e.error.Some? && e.phase.Precondition?
    case Unknown => e.error.Some? && !e.phase.Precondition?
  }

  /** The attempts whose outcome has not been written yet, the latest one last; nothing if an outcome was written
      that is not the one of the latest attempt. */
  function Open(journal: seq<JournalEntry>): Option<seq<JournalEntry>> {
    if journal == [] then Some([])
    else
      var open, e := Open(journal[..|journal| - 1]), journal[|journal| - 1];
      if open.None? || e.phase.Precondition? || e.phase.Verify? then open
      else if e.outcome.Attempted? then Some(open.value + [e])
      else if open.value != [] && open.value[|open.value| - 1] == e.(outcome := Attempted, error := None) then
        Some(open.value[..|open.value| - 1])
      else None
  }

  lemma OpenGrows(journal: seq<JournalEntry>, e: JournalEntry)
    requires !e.phase.Precondition? && !e.phase.Verify? && Open(journal).Some?
    ensures e.outcome.Attempted? ==> Open(journal + [e]) == Some(Open(journal).value + [e])
    ensures !e.outcome.Attempted? ==>
              var attempt := e.(outcome := Attempted, error := None);
              forall open :: Open(journal) == Some(open + [attempt]) ==> Open(journal + [e]) == Some(open)
  {
    assert (journal + [e])[..|journal|] == journal;
  }

  /** What a native journal is added to stays open, and nothing else. */
  lemma {:induction false} OpenAppend(a: seq<JournalEntry>, b: seq<JournalEntry>)
    requires Open(a).Some? && Open(b).Some?
    ensures Open(a + b) == Some(Open(a).value + Open(b).value)
  {
    if b == [] {
      assert a + b == a && Open(a).value + [] == Open(a).value;
    } else {
      var init, e := b[..|b| - 1], b[|b| - 1];
      assert (a + b)[..|a + b| - 1] == a + init && (a + b)[|a + b| - 1] == e;
      OpenAppend(a, init);
      var x, y := Open(a).value, Open(init).value;
      if !(e.phase.Precondition? || e.phase.Verify?) {
        if e.outcome.Attempted? {
          assert x + y + [e] == x + (y + [e]);
        } else {
          assert (x + y)[..|x + y| - 1] == x + y[..|y| - 1];
        }
      }
    }
  }

  /** A journal of calls and reads alone in which every attempt has its outcome. */
  ghost predicate Bracketed(journal: seq<JournalEntry>) {
    (forall e <- journal :: Consistent(e) && !e.operation.PhaseName?) && Open(journal) == Some([])
  }

  lemma BracketGrows(journal: seq<JournalEntry>, attempt: JournalEntry, error: Option<ErrorKind>)
    requires Bracketed(journal) && !attempt.operation.PhaseName? && (attempt.phase.Mutation? || attempt.phase.Rollback?)
    requires attempt.outcome.Attempted? && attempt.error.None?
    ensures Bracketed(journal + [attempt, Closed(attempt, error)])
  {
    var done := Closed(attempt, error);
    OpenGrows(journal, attempt);
    OpenGrows(journal + [attempt], done);
    assert journal + [attempt] + [done] == journal + [attempt, done];
    assert Open(journal + [attempt]) == Some([] + [attempt]);
  }

  /** The Recorded wrapper: it writes an entry before and an entry after each call it passes on. */
  class Recorded {
    const inner: Backend
    const change: Change
    const phase: Phase
    var journal: seq<JournalEntry>

    constructor (inner: Backend, change: Change, phase: Phase)
      ensures this.inner == inner && this.change == change && this.phase == phase && journal == []
      ensures Orderly() && JournalFootprints(journal) == []
    {
      this.inner, this.change, this.phase := inner, change, phase;
      journal := [];
    }

    /** Every attempt in the journal has its outcome. */
    ghost predicate Orderly()
      reads this
    {
      phase.Mutation? || phase.Rollback? ==> Bracketed(journal)
    }

    method Invoke(call: Call) returns (error: Option<ErrorKind>)
      requires CallTarget(call) == ChangeTarget(change)
      modifies this, inner
      ensures old(Orderly()) ==> Orderly()
      ensures inner.Invoked(call, error)
      ensures var attempt := JournalEntry(Native(NameOf(call)), change, phase, Attempted, None);
        journal == old(journal) + [attempt, Closed(attempt, error)]
      ensures JournalFootprints(journal) == old(JournalFootprints(journal)) + Footprints([call])
    {
      var entry := JournalEntry(Native(NameOf(call)), change, phase, Attempted, None);
      journal := journal + [entry];
      error := inner.Invoke(call);
      var done := Closed(entry, error);
      JournalAppend(old(journal), [entry]);
      JournalAppend(journal, [done]);
      OneEntry(entry);
      OneEntry(done);
      OneCall(call);
      journal := journal + [done];
      if old(Orderly()) && (phase.Mutation? || phase.Rollback?) {
        BracketGrows(old(journal), entry, error);
        assert journal == old(journal) + [entry, done];
      }
    }

    method GetTask(path: TaskPath) returns (r: Result<Task>)
      modifies this, inner
      ensures old(Orderly()) ==> Orderly()
      ensures inner.ReadOnly()
      ensures Honest(r, inner.TaskTruth(path), inner.lostReads > old(inner.lostReads))
      ensures inner.log == old(inner.log) + [TaskRead(path, r)]
      ensures var attempt := JournalEntry(ReadBack, change, phase, Attempted, None);
        journal == old(journal) + [attempt, Closed(attempt, if r.Ok? then None else Some(r.error))]
      ensures JournalFootprints(journal) == old(JournalFootprints(journal))
    {
      var entry := JournalEntry(ReadBack, change, phase, Attempted, None);
      journal := journal + [entry];
      r := inner.GetTask(path);
      var done := Closed(entry, if r.Ok? then None else Some(r.error));
      JournalAppend(old(journal), [entry]);
      JournalAppend(journal, [done]);
      OneEntry(entry);
      OneEntry(done);
      journal := journal + [done];
      if old(Orderly()) && (phase.Mutation? || phase.Rollback?) {
        BracketGrows(old(journal), entry, if r.Ok? then None else Some(r.error));
        assert journal == old(journal) + [entry, done];
      }
    }
  }

  // ---- observation ----------------------------------------------------------------------------

  /** What answers show of a target: a task is read together with its descriptor; a folder is known by its
      descriptor or, if that cannot be read, by its listing.  Any other sequence of answers shows nothing. */
  function Shows(t: Target, answers: seq<Entry>): Option<Observed> {
    match t
    case TaskTarget(p) =>
      if answers == [TaskRead(p, Err(NotFound))] then Some(Missing)
      else if |answers| == 2 && answers[0].TaskRead? && answers[1].TaskAclRead?
              && answers[0].path == p && answers[1].path == p && answers[0].task.Ok? then
        var seen := Stripped(answers[0].task.value.definition);
        Some(TaskSeen(seen, seen.enabled, if answers[1].acl.Ok? then Some(answers[1].acl.value) else None))
      else None
    case FolderTarget(f) =>
      if |answers| == 1 && answers[0].FolderAclRead? && answers[0].folder == f then
        if answers[0].acl.Ok? then Some(FolderSeen(Some(answers[0].acl.value)))
        else if answers[0].acl == Err(NotFound) then Some(Missing)
        else None
      else if |answers| == 2 && answers[0].FolderAclRead? && answers[1].FoldersListed?
              && answers[0].folder == f && answers[1].folder == f
              && answers[0].acl.Err? && answers[0].acl != Err(NotFound) && answers[1].folders.Ok? then
        Some(FolderSeen(None))
      else None
  }

  /** observe: missing objects are reported as such; an unreadable descriptor is an error unless
      irreversible work was allowed, and is then left out. */
  method Observe(b: Backend, change: Change, allowIrreversible: bool) returns (r: Result<Observed>)
    modifies b
    ensures b.ReadOnly()
    ensures b.Calm() && r.Ok? ==> Sees(allowIrreversible, View(b.state, ChangeTarget(change)), r.value)
    ensures b.Calm() && b.lostReads == old(b.lostReads) ==> r == Ok(View(b.state, ChangeTarget(change)))
    ensures r.Ok? ==> Shows(ChangeTarget(change), b.log[|old(b.log)|..]) == Some(r.value)
    ensures b.Alone() && ChangeTarget(change) == b.chosen && r.Ok? ==> Sees(allowIrreversible, b.Sight(), r.value)
  {
    match ChangeTarget(change)
    case TaskTarget(path) => {
      var task := b.GetTask(path);
      if task == Err(NotFound) {
        return Ok(Missing);
      }
      if task.Err? {
        return Err(task.error);
      }
      var definition := Stripped(task.value.definition);
      var security := b.TaskSecurity(path);
      if security.Ok? {
        return Ok(TaskSeen(definition, definition.enabled, Some(security.value)));
      }
      if allowIrreversible {
        return Ok(TaskSeen(definition, definition.enabled, None));
      }
      return Err(security.error);
    }
    case FolderTarget(folder) => {
      var security := b.FolderSecurity(folder);
      if security.Ok? {
        return Ok(FolderSeen(Some(security.value)));
      }
      if security == Err(NotFound) {
        return Ok(Missing);
      }
      if !allowIrreversible {
        return Err(security.error);
      }
      var listed := b.ListFolders(folder);
      if listed.Err? {
        return Err(listed.error);
      }
      return Ok(FolderSeen(None));
    }
  }

  /** The descriptor of a sight grants what is desired. */
  predicate Grants(truth: Observed, desired: Acl) {
    match truth
    case Missing => false
    case TaskSeen(_, _, security) => security.Some? && AccessEquivalent(security.value, desired)
    case FolderSeen(security) => security.Some? && AccessEquivalent(security.value, desired)
  }

  /** What a change must have achieved: `before` and `after` are apply's own observations and `truth`
      is what a fresh look at the descriptor shows. */
  predicate Achieved(m: Manifest, change: Change, before: Observed, after: Observed, truth: Observed) {
    match change
    case CreateFolder(_) => after.FolderSeen?
    case DeleteTask(_) => after.Missing?
    case SetFolderSecurity(f) => after.FolderSeen? && FolderAcl(m, f).Some? && Grants(truth, FolderAcl(m, f).value)
    case SetEnabled(_, enabled) =>
      after.TaskSeen? && before.TaskSeen? && SemanticallyEqual(before.definition, after.definition)
      && after.security == before.security && after.enabled == enabled
    case SetTaskSecurity(p) =>
      var found := FindTask(m.tasks, p);
      after.TaskSeen? && before.TaskSeen? && SemanticallyEqual(before.definition, after.definition)
      && after.enabled == before.enabled
      && found.Some? && found.value.definition.security.Some?
      && Grants(truth, found.value.definition.security.value)
    case _ =>
      var found := FindTask(m.tasks, change.path);
      after.TaskSeen? && found.Some?
      && SemanticallyEqual(after.definition, OwnedDefinition(m, found.value))
      && after.enabled == found.value.definition.enabled
      && (found.value.definition.security.Some? ==> Grants(truth, found.value.definition.security.value))
  }

  /** Reading a descriptor back and comparing it; a failed read confirms nothing. */
  method ReadBackGrants(b: Backend, target: Target, desired: Acl) returns (ok: bool)
    modifies b
    ensures b.ReadOnly()
    ensures b.Calm() && ok ==> Grants(View(b.state, target), desired)
    ensures b.Calm() && b.lostReads == old(b.lostReads) ==> ok == Grants(View(b.state, target), desired)
  {
    var actual: Result<Acl>;
    match target {
      case TaskTarget(path) => actual := b.TaskSecurity(path);
      case FolderTarget(folder) => actual := b.FolderSecurity(folder);
    }
    ok := actual.Ok? && AccessEquivalent(actual.value, desired);
  }

  /** expected_after. */
  method ExpectedAfter(b: Backend, before: Observed, after: Observed, m: Manifest, change: Change) returns (ok: bool)
    modifies b
    ensures b.ReadOnly()
    ensures b.Calm() && ok ==> Achieved(m, change, before, after, View(b.state, ChangeTarget(change)))
    ensures b.Calm() && b.lostReads == old(b.lostReads)
            ==> ok == Achieved(m, change, before, after, View(b.state, ChangeTarget(change)))
    ensures ok && (change.CreateTask? || change.UpdateTask? || change.AdoptTask?) ==> Desired(m, change.path)
  {
    match change
    case CreateFolder(_) => { return after.FolderSeen?; }
    case DeleteTask(_) => { return after.Missing?; }
    case SetFolderSecurity(f) => {
      var desired := FolderAcl(m, f);
      if !after.FolderSeen? || desired.None? {
        return false;
      }
      ok := ReadBackGrants(b, FolderTarget(f), desired.value);
    }
    case SetEnabled(_, enabled) => {
      return after.TaskSeen? && before.TaskSeen? && SemanticallyEqual(before.definition, after.definition)
             && after.security == before.security && after.enabled == enabled;
    }
    case SetTaskSecurity(p) => {
      var found := FindTask(m.tasks, p);
      if !(after.TaskSeen? && before.TaskSeen? && SemanticallyEqual(before.definition, after.definition)
           && after.enabled == before.enabled && found.Some? && found.value.definition.security.Some?) {
        return false;
      }
      ok := ReadBackGrants(b, TaskTarget(p), found.value.definition.security.value);
    }
    case _ => {
      var found := FindTask(m.tasks, change.path);
      if !(after.TaskSeen? && found.Some?) {
        return false;
      }
      var expected := OwnedDefinition(m, found.value);
      if !SemanticallyEqual(after.definition, expected) || after.enabled != expected.enabled {
        return false;
      }
      if expected.security.None? {
        return true;
      }
      ok := ReadBackGrants(b, TaskTarget(change.path), expected.security.value);
    }
  }

  // ---- inspection ---------------------------------------------------------------------------------

  /** The descriptor the manifest asks for on a task. */
  function TaskAcl(m: Manifest, path: TaskPath): Option<Acl> {
    var found := FindTask(m.tasks, path);
    if found.Some? then found.value.definition.security else None
  }

  function SnapshotTask(m: Manifest, path: TaskPath, task: Task): CurrentTask {
    var d := if TaskAcl(m, path).Some? then task.definition.(security := Some(task.acl)) else task.definition;
    CurrentTask(d, task.definition.enabled, Owned(m, path, d), PasswordBacked(d.logon))
  }

  /** What a complete inspection of one state reports: everything below the namespace, with the
      descriptors the manifest cares about; nothing at all if the namespace does not exist. */
  function Snapshot(m: Manifest, s: State): CurrentState {
    if m.namespace !in s.folders then CurrentState(map[], map[])
    else CurrentState(
      map p | p in s.tasks && m.namespace <= p.folder :: SnapshotTask(m, p, s.tasks[p]),
      map f | f in s.folders && m.namespace <= f :: if FolderAcl(m, f).Some? then Some(s.folders[f]) else None)
  }

  /** inspect_backend. */
  method Inspect(b: Backend, m: Manifest) returns (r: Result<CurrentState>)
    modifies b
    ensures b.ReadOnly()
    ensures r.Ok? ==> ValidManifest(m)
    ensures b.Calm() && r.Ok? ==> r.value == Snapshot(m, b.state)
    ensures b.Calm() && b.lostReads == old(b.lostReads) ==> (r.Ok? <==> ValidManifest(m))
  {
    hide View, ValidManifest, SnapshotTask, FolderAcl;
    var valid := Validate(m);
    if !valid {
      return Err(InvalidDefinition);
    }
    var registered := b.ListTasks(m.namespace);
    if registered == Err(NotFound) {
      return Ok(CurrentState(map[], map[]));
    }
    if registered.Err? {
      return Err(registered.error);
    }
    var folders := InspectFolders(b, m);
    if folders.Err? {
      return Err(folders.error);
    }
    var tasks := InspectTasks(b, m, registered.value);
    if tasks.Err? {
      return Err(tasks.error);
    }
    r := Ok(CurrentState(tasks.value, folders.value));
  }

  method InspectFolders(b: Backend, m: Manifest) returns (r: Result<map<FolderPath, Option<Acl>>>)
    requires ValidManifest(m)
    modifies b
    ensures b.ReadOnly()
    ensures b.Calm() && m.namespace in old(b.state.folders) && r.Ok? ==> r.value == Snapshot(m, b.state).folders
    ensures b.Calm() && m.namespace in old(b.state.folders) && b.lostReads == old(b.lostReads) ==> r.Ok?
  {
    hide FindFolder, ValidManifest, FolderAcl;
    var listed := b.ListFolders(m.namespace);
    if listed.Err? {
      return Err(listed.error);
    }
    ghost var s := b.state;
    r := ReadDescriptors(b, m, listed.value + {m.namespace});
    if r.Ok? && b.Calm() && m.namespace in old(b.state.folders) {
      assert b.state == s;
      FoldersAreListed(m, b.state, r.value);
    }
  }

  /** The descriptors of the listed folders that the manifest gives one. */
  method ReadDescriptors(b: Backend, m: Manifest, listed: set<FolderPath>) returns (r: Result<map<FolderPath, Option<Acl>>>)
    requires ValidManifest(m)
    modifies b
    ensures b.ReadOnly()
    ensures r.Ok? ==> r.value.Keys == listed
    ensures r.Ok? ==> forall f :: f in r.value ==> (r.value[f].Some? <==> FolderAcl(m, f).Some?)
    ensures r.Ok? && b.Calm() ==>
      forall f :: f in r.value && r.value[f].Some? ==> f in b.state.folders && r.value[f].value == b.state.folders[f]
    ensures b.Calm() && listed <= old(b.state.folders.Keys) && b.lostReads == old(b.lostReads) ==> r.Ok?
  {
    hide FindFolder;
    var folders: map<FolderPath, Option<Acl>> := map f | f in listed :: None;
    ghost var done: set<FolderPath> := {};
    for i := 0 to |m.folders|
      invariant b.ReadOnly()
      invariant folders.Keys == listed
      invariant forall j :: 0 <= j < i ==> m.folders[j].path in done
      invariant forall f :: f in folders ==> (folders[f].Some? <==> f in done && FolderAcl(m, f).Some?)
      invariant b.Calm() ==>
        forall f :: f in folders && folders[f].Some? ==> f in b.state.folders && folders[f].value == b.state.folders[f]
    {
      var desired := m.folders[i];
      FolderAgrees(m, desired);
      done := done + {desired.path};
      if desired.path in folders && desired.security.Some? {
        var descriptor := b.FolderSecurity(desired.path);
        if descriptor.Err? {
          return Err(descriptor.error);
        }
        folders := folders[desired.path := Some(descriptor.value)];
      }
    }
    r := Ok(folders);
  }

  lemma FoldersAreListed(m: Manifest, s: State, folders: map<FolderPath, Option<Acl>>)
    requires m.namespace in s.folders
    requires forall f :: f in folders <==> f in s.folders && m.namespace <= f
    requires forall f :: f in folders ==> (folders[f].Some? <==> FolderAcl(m, f).Some?)
    requires forall f :: f in folders && folders[f].Some? ==> folders[f].value == s.folders[f]
    ensures folders == Snapshot(m, s).folders
  {
  }

  method InspectTasks(b: Backend, m: Manifest, registered: map<TaskPath, Task>)
    returns (r: Result<map<TaskPath, CurrentTask>>)
    modifies b
    ensures b.ReadOnly()
    ensures b.Calm() && (forall p :: p in registered ==> p in b.state.tasks && registered[p] == b.state.tasks[p]) ==>
      && (r.Ok? ==> r.value == map p | p in registered :: SnapshotTask(m, p, registered[p]))
      && (b.lostReads == old(b.lostReads) ==> r.Ok?)
  {
    hide TaskAcl, Owned, PasswordBacked;
    var tasks: map<TaskPath, CurrentTask> := map[];
    var remaining := registered.Keys;
    while remaining != {}
      invariant remaining <= registered.Keys
      invariant b.ReadOnly()
      invariant tasks.Keys == registered.Keys - remaining
      invariant b.Calm() && (forall p :: p in registered ==> p in b.state.tasks && registered[p] == b.state.tasks[p])
        ==> forall p :: p in tasks ==> tasks[p] == SnapshotTask(m, p, registered[p])
      decreases remaining
    {
      var path :| path in remaining;
      var definition := registered[path].definition;
      if TaskAcl(m, path).Some? {
        var security := b.TaskSecurity(path);
        if security.Err? {
          return Err(security.error);
        }
        definition := definition.(security := Some(security.value));
      }
      tasks := tasks[path := CurrentTask(definition, registered[path].definition.enabled,
                                         Owned(m, path, definition), PasswordBacked(definition.logon))];
      remaining := remaining - {path};
    }
    r := Ok(tasks);
  }

  /** agrees_with_inspection: existence, definition and enabled flag, but not the descriptor. */
  predicate AgreesWithInspection(current: CurrentState, change: Change, seen: Observed) {
    match ChangeTarget(change)
    case TaskTarget(p) =>
      if p in current.tasks
      then seen.TaskSeen? && SemanticallyEqual(current.tasks[p].definition, seen.definition)
           && current.tasks[p].enabled == seen.enabled
      else seen.Missing?
    case FolderTarget(f) => f in current.folders <==> seen.FolderSeen?
  }

  /** What is found out by that: whether the target has come or gone since the inspection, and for a task whether
      its flag or anything in its definition is different. */
  lemma AgreementExactly(m: Manifest, s: State, s': State, c: Change)
    requires m.namespace in s.folders
    requires match ChangeTarget(c) case TaskTarget(p) => m.namespace <= p.folder case FolderTarget(f) => m.namespace <= f
    ensures AgreesWithInspection(Snapshot(m, s), c, View(s', ChangeTarget(c)))
            <==> match ChangeTarget(c)
                 case FolderTarget(f) => f in s.folders <==> f in s'.folders
                 case TaskTarget(p) =>
                   (p in s.tasks <==> p in s'.tasks)
                   && (p in s.tasks ==>
                         var (d, d') := (s.tasks[p].definition, s'.tasks[p].definition);
                         d.enabled == d'.enabled && d.uri == d'.uri && d.source == d'.source && d.logon == d'.logon
                         && d.body == d'.body)
  {
    hide Owned, FindTask, FolderAcl;
  }
}
