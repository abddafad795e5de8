/** What apply does before its first change (reconcile.rs): observing every target, comparing with the
    inspection, and collecting what rollback will need. */
module Preflight {
  import opened Wrappers
  import opened Paths
  import opened Scheduler
  import opened Manifests
  import opened Planning
  import opened SchedulerBackend
  import opened Recovery
  import opened ApplySpec
  import opened Accounting
  import opened Compensation
  import opened Execution
  import opened Progress
  import opened Steps

  /** Every password the manifest needs to register its tasks can be had. */
  ghost predicate RegistrationsResolve(m: Manifest, resolver: Resolver) {
    forall t <- m.tasks :: PasswordBacked(t.definition.logon) ==> resolver(t.path, DesiredRegistration).Ok?
  }

  /** Every password that is needed to put a task of this state back can be had. */
  ghost predicate RestorationsResolve(s: State, resolver: Resolver) {
    forall p :: p in s.tasks && PasswordBacked(s.tasks[p].definition.logon) ==> resolver(p, RollbackRegistration).Ok?
  }

  /** Nothing is changed that could not be put back for want of a password: unless irreversible work is
      allowed preparation refuses by itself, otherwise the passwords must be there. */
  ghost predicate Restorable(allowIrreversible: bool, s: State, resolver: Resolver) {
    allowIrreversible ==> RestorationsResolve(s, resolver)
  }

  // ---- observing every target -------------------------------------------------------------------------

  method ObserveAll(b: Backend, options: ApplyOptions, plan: seq<PlannedChange>, report: ApplyReport,
                    ghost base: seq<Entry>, ghost trace: seq<Event>)
    returns (r: Result<seq<Observed>>, ghost trace': seq<Event>)
    requires Accounted(b, base, report, trace) && OnlyRead(trace)
    modifies b
    ensures b.ReadOnly() && Accounted(b, base, report, trace')
    ensures r.Ok? ==> |r.value| == |plan|
    ensures r.Ok? ==> forall k :: 0 <= k < |plan| ==> Knows(trace', ChangeTarget(plan[k].change), r.value[k])
    ensures b.Calm() && r.Ok? ==> forall k :: 0 <= k < |plan| ==>
              Sees(options.allowIrreversible, View(b.state, ChangeTarget(plan[k].change)), r.value[k])
    ensures b.Calm() && b.lostReads == old(b.lostReads) ==>
              r.Ok? && forall k :: 0 <= k < |plan| ==> r.value[k] == View(b.state, ChangeTarget(plan[k].change))
  {
    hide AccountedFor, Knows, Spotted, OnlyRead, Changed, Sees, View, Extends, Quiet;
    var seen: seq<Observed> := [];
    trace' := trace;
    for i := 0 to |plan|
      invariant b.ReadOnly() && Accounted(b, base, report, trace') && OnlyRead(trace') && |seen| == i
      invariant forall k :: 0 <= k < i ==> Knows(trace', ChangeTarget(plan[k].change), seen[k])
      invariant b.Calm() ==> forall k :: 0 <= k < i ==>
        Sees(options.allowIrreversible, View(b.state, ChangeTarget(plan[k].change)), seen[k])
      invariant b.Calm() && b.lostReads == old(b.lostReads) ==>
        forall k :: 0 <= k < i ==> seen[k] == View(b.state, ChangeTarget(plan[k].change))
    {
      var one;
      ghost var trace1 := trace';
      one, trace' := Look(b, plan[i].change, options.allowIrreversible, report, base, trace');
      KnowledgeStays(trace1, trace');
      if one.Err? {
        return Err(one.error), trace';
      }
      seen := seen + [one.value];
    }
    r := Ok(seen);
  }

  /** Every target still looks as it did during inspection. */
  method AllAgree(current: CurrentState, plan: seq<PlannedChange>, seen: seq<Observed>) returns (ok: bool)
    requires |seen| == |plan|
    ensures ok <==> forall k :: 0 <= k < |plan| ==> AgreesWithInspection(current, plan[k].change, seen[k])
  {
    for i := 0 to |plan|
      invariant forall k :: 0 <= k < i ==> AgreesWithInspection(current, plan[k].change, seen[k])
    {
      if !AgreesWithInspection(current, plan[i].change, seen[i]) {
        return false;
      }
    }
    ok := true;
  }

  lemma OutsideDisagrees(m: Manifest, options: PlanOptions, s: State, plan: seq<PlannedChange>,
                         blind: bool, seen: seq<Observed>, t: ManagedTask) returns (k: nat)
    requires |seen| == |plan|
    requires Tree(s) && m.namespace != [] && IsPlan(m, Snapshot(m, s), options, plan)
    requires t in m.tasks && !(m.namespace <= t.path.folder)
    ensures k < |plan|
    ensures Sees(blind, View(s, ChangeTarget(plan[k].change)), seen[k])
            ==> !AgreesWithInspection(Snapshot(m, s), plan[k].change, seen[k])
  {
    SnapshotSees(m, s);
    assert InClosure([], t.path.folder, m.namespace);
    assert Wanted(m, Snapshot(m, s), options, CreateFolder([]));
    k :| 0 <= k < |plan| && plan[k].change == CreateFolder([]);
  }

  /** A plan whose targets agree with a calm inspection lies inside the namespace: a task with the
      namespace's own path would plan to create the root, which is already there. */
  lemma AgreementIsInside(m: Manifest, options: PlanOptions, s: State, plan: seq<PlannedChange>,
                          blind: bool, seen: seq<Observed>)
    requires ValidManifest(m) && Tree(s) && IsPlan(m, Snapshot(m, s), options, plan) && |seen| == |plan|
    requires forall k :: 0 <= k < |plan| ==>
               Sees(blind, View(s, ChangeTarget(plan[k].change)), seen[k])
               && AgreesWithInspection(Snapshot(m, s), plan[k].change, seen[k])
    ensures Inside(m)
  {
    hide Sees, View, AgreesWithInspection, Snapshot;
    forall t | t in m.tasks ensures m.namespace <= t.path.folder {
      if !(m.namespace <= t.path.folder) {
        var k := OutsideDisagrees(m, options, s, plan, blind, seen, t);
        assert false;
      }
    }
  }

  /** In an inhabited tree, with every task inside the namespace, what is planned agrees with the state. */
  lemma PlanAgrees(m: Manifest, options: PlanOptions, s: State, plan: seq<PlannedChange>, k: nat)
    requires ValidManifest(m) && Inside(m) && Tree(s) && IsPlan(m, Snapshot(m, s), options, plan) && k < |plan|
    ensures AgreesWithInspection(Snapshot(m, s), plan[k].change, View(s, ChangeTarget(plan[k].change)))
  {
    hide Owned, OwnedDefinition, PasswordBacked, Snapshot, Tree, Ordered, RollbackOf, WantedOnTask, Required;
    SnapshotSees(m, s);
    var c := plan[k].change;
    assert Planned(plan, c);
    match c {
      case CreateFolder(f) => RequiredInside(m, f);
      case SetFolderSecurity(f) => FolderIsNotRoot(m, f);
      case _ =>
    }
  }

  // ---- preparation -----------------------------------------------------------------------------------------

  /** Every backup tells the truth about `s`. */
  ghost predicate Truthful(P: Prepared, s: State) {
    && (forall p :: p in P.taskBackups ==> TruthfulBackup(P.taskBackups[p], p, s))
    && (forall p :: p in P.enabledBackups ==>
          p in s.tasks && P.enabledBackups[p] == s.tasks[p].definition.enabled)
    && (forall p :: p in P.taskSecurity ==> p in s.tasks && P.taskSecurity[p] == s.tasks[p].acl)
    && (forall f :: f in P.folderSecurity ==> f in s.folders && P.folderSecurity[f] == s.folders[f])
  }

  ghost predicate TruthfulBackup(backup: TaskBackup, p: TaskPath, s: State) {
    p in s.tasks
    && Stripped(backup.raw) == Stripped(s.tasks[p].definition) && backup.logon == s.tasks[p].definition.logon
    && backup.enabled == s.tasks[p].definition.enabled && backup.security == Some(s.tasks[p].acl)
    && (PasswordBacked(backup.logon) ==> backup.password)
  }

  /** The record has an entry for everything this change needs. */
  ghost predicate Covered(m: Manifest, P: Prepared, c: Change) {
    match c
    case UpdateTask(p) => p in P.taskBackups && Registrable(m, P, p)
    case AdoptTask(p) => p in P.taskBackups && Registrable(m, P, p)
    case CreateTask(p) => Registrable(m, P, p)
    case DeleteTask(p) => p in P.taskBackups
    case SetEnabled(p, _) => p in P.enabledBackups
    case SetTaskSecurity(p) => p in P.taskSecurity
    case _ => true
  }

  predicate SamePasswords(P: Prepared, P': Prepared) {
    P'.taskBackups == P.taskBackups && P'.desiredPasswords == P.desiredPasswords
  }

  ghost predicate Grown(P: Prepared, P': Prepared) {
    && P.taskBackups.Keys <= P'.taskBackups.Keys && P.enabledBackups.Keys <= P'.enabledBackups.Keys
    && P.taskSecurity.Keys <= P'.taskSecurity.Keys && P.desiredPasswords <= P'.desiredPasswords
    && P'.createdFolders == P.createdFolders
  }

  /** What preparing one change finds in the state. */
  ghost predicate Preparable(m: Manifest, created: set<FolderPath>, s: State, c: Change) {
    match c
    case CreateFolder(_) => true
    case CreateTask(p) => Desired(m, p)
    case UpdateTask(p) => Desired(m, p) && p in s.tasks
    case AdoptTask(p) => Desired(m, p) && p in s.tasks
    case DeleteTask(p) => p in s.tasks
    case SetEnabled(p, _) => p in s.tasks
    case SetTaskSecurity(p) => TaskAcl(m, p).Some? && p in s.tasks
    case SetFolderSecurity(f) => FolderAcl(m, f).Some? && (f in created || f in s.folders)
  }

  lemma BackupIsTruthful(P: Prepared, s: State, path: TaskPath, backup: TaskBackup)
    requires Truthful(P, s) && TruthfulBackup(backup, path, s)
    ensures Truthful(P.(taskBackups := P.taskBackups[path := backup]), s)
  {
    hide TruthfulBackup;
  }

  lemma BackupIsEntitled(P: Prepared, path: TaskPath, backup: TaskBackup, resolver: Resolver)
    requires backup.password ==> resolver(path, RollbackRegistration).Ok? && PasswordBacked(backup.logon)
    ensures forall m :: Entitled(m, resolver, P) ==>
              Entitled(m, resolver, P.(taskBackups := P.taskBackups[path := backup]))
  {
    hide FindTask, PasswordBacked;
  }

  lemma PasswordsOfBackups(read: seq<Entry>, path: TaskPath, allowIrreversible: bool, resolver: Resolver,
                           backup: Result<TaskBackup>)
    requires BackedUp(read, path, allowIrreversible, resolver, backup)
    ensures backup.Ok? && backup.value.password ==>
              resolver(path, RollbackRegistration).Ok? && PasswordBacked(backup.value.logon)
  {
  }

  lemma FlagIsTruthful(P: Prepared, s: State, p: TaskPath)
    requires Truthful(P, s) && p in s.tasks
    ensures Truthful(P.(enabledBackups := P.enabledBackups[p := s.tasks[p].definition.enabled]), s)
  {
    hide TruthfulBackup;
  }

  lemma TaskAclIsTruthful(P: Prepared, s: State, p: TaskPath)
    requires Truthful(P, s) && p in s.tasks
    ensures Truthful(P.(taskSecurity := P.taskSecurity[p := s.tasks[p].acl]), s)
  {
    hide TruthfulBackup;
  }

  lemma FolderAclIsTruthful(P: Prepared, s: State, f: FolderPath)
    requires Truthful(P, s) && f in s.folders
    ensures Truthful(P.(folderSecurity := P.folderSecurity[f := s.folders[f]]), s)
  {
    hide TruthfulBackup;
  }

  lemma PasswordsAreApart(P: Prepared, s: State, passwords: set<TaskPath>)
    requires Truthful(P, s)
    ensures Truthful(P.(desiredPasswords := passwords), s)
  {
    hide TruthfulBackup;
  }

  /** What becomes of the answers to the reads of prepare_task_backup: the first failure refuses the backup, but where
      irreversible work is allowed neither a missing password nor an unreadable descriptor is one. */
  ghost predicate BackedUp(read: seq<Entry>, path: TaskPath, allowIrreversible: bool, resolver: Resolver,
                           r: Result<TaskBackup>) {
    && 1 <= |read| <= 2 && read[0].TaskRead? && read[0].path == path
    && (|read| == 2 ==> read[1].TaskAclRead? && read[1].path == path)
    && (var task := read[0].task;
        if task.Err? then r == Err(task.error) && |read| == 1
        else
          var d, asked := task.value.definition, resolver(path, RollbackRegistration);
          var needed := d.logon.Password? || d.logon.InteractiveTokenOrPassword?;
          if needed && asked.Err? && !allowIrreversible then r == Err(asked.error) && |read| == 1
          else
            |read| == 2
            && (if read[1].acl.Err? && !allowIrreversible then r == Err(read[1].acl.error)
                else r == Ok(TaskBackup(d, d.logon, d.enabled,
                                        if read[1].acl.Ok? then Some(read[1].acl.value) else None,
                                        needed && asked.Ok?))))
  }

  method ReadBackup(b: Backend, path: TaskPath, allowIrreversible: bool, resolver: Resolver)
    returns (r: Result<TaskBackup>)
    modifies b
    ensures b.ReadOnly() && BackedUp(b.log[|old(b.log)|..], path, allowIrreversible, resolver, r)
    ensures b.Calm() && b.lostReads == old(b.lostReads) && path in b.state.tasks
            ==> (r.Ok? && Restorable(allowIrreversible, b.state, resolver) ==> TruthfulBackup(r.value, path, b.state))
                && (allowIrreversible || RestorationsResolve(b.state, resolver) ==> r.Ok?)
  {
    hide View;
    var task := b.GetTask(path);
    if task.Err? {
      return Err(task.error);
    }
    var logon := task.value.definition.logon;
    var password := false;
    if PasswordBacked(logon) {
      var asked := resolver(path, RollbackRegistration);
      if asked.Err? && !allowIrreversible {
        return Err(asked.error);
      }
      password := asked.Ok?;
    }
    var security := b.TaskSecurity(path);
    if security.Err? && !allowIrreversible {
      return Err(security.error);
    }
    r := Ok(TaskBackup(task.value.definition, logon, task.value.definition.enabled,
                       if security.Ok? then Some(security.value) else None, password));
  }

  /** prepare_task_backup. */
  method PrepareTaskBackup(b: Backend, P: Prepared, path: TaskPath, allowIrreversible: bool, resolver: Resolver)
    returns (r: Result<Prepared>)
    modifies b
    ensures b.ReadOnly()
    ensures r.Ok? ==> Grown(P, r.value) && path in r.value.taskBackups
    ensures r.Ok? ==> forall m :: Entitled(m, resolver, P) ==> Entitled(m, resolver, r.value)
    ensures b.Calm() && b.lostReads == old(b.lostReads) && path in b.state.tasks
            ==> (r.Ok? && Truthful(P, b.state) && Restorable(allowIrreversible, b.state, resolver)
                 ==> Truthful(r.value, b.state))
                && (allowIrreversible || RestorationsResolve(b.state, resolver) ==> r.Ok?)
  {
    hide BackedUp, Truthful, TruthfulBackup, PasswordBacked, Entitled, Restorable, RestorationsResolve;
    if path in P.taskBackups {
      return Ok(P);
    }
    var backup := ReadBackup(b, path, allowIrreversible, resolver);
    if backup.Err? {
      return Err(backup.error);
    }
    r := Ok(P.(taskBackups := P.taskBackups[path := backup.value]));
    BackupIsEntitled(P, path, backup.value, resolver) by {
      PasswordsOfBackups(b.log[|old(b.log)|..], path, allowIrreversible, resolver, backup);
    }
    if Truthful(P, b.state) && TruthfulBackup(backup.value, path, b.state) {
      BackupIsTruthful(P, b.state, path, backup.value);
    }
  }

  /** The enabled flag of a task, unless it has been noted already. */
  method PrepareFlag(b: Backend, P: Prepared, path: TaskPath) returns (r: Result<Prepared>)
    modifies b
    ensures b.ReadOnly()
    ensures r.Ok? ==> Grown(P, r.value) && path in r.value.enabledBackups && SamePasswords(P, r.value)
    ensures b.Calm() && b.lostReads == old(b.lostReads) && path in b.state.tasks
            ==> r.Ok? && (Truthful(P, b.state) ==> Truthful(r.value, b.state))
  {
    hide Truthful;
    if path in P.enabledBackups {
      return Ok(P);
    }
    var task := b.GetTask(path);
    if task.Err? {
      return Err(task.error);
    }
    r := Ok(P.(enabledBackups := P.enabledBackups[path := task.value.definition.enabled]));
    if Truthful(P, b.state) && path in b.state.tasks {
      FlagIsTruthful(P, b.state, path);
    }
  }

  /** The descriptor of a task. */
  method PrepareTaskSecurity(b: Backend, m: Manifest, P: Prepared, path: TaskPath, allowIrreversible: bool)
    returns (r: Result<Prepared>)
    modifies b
    ensures b.ReadOnly()
    ensures r.Ok? ==> Grown(P, r.value) && SamePasswords(P, r.value)
    ensures if TaskAcl(m, path).None? then r == Err(InvalidDefinition)
            else
              var n := |old(b.log)|;
              |b.log| == n + 1 && b.log[n].TaskAclRead? && b.log[n].path == path
              && var answer := b.log[n].acl;
                 r == if answer.Ok? then Ok(P.(taskSecurity := P.taskSecurity[path := answer.value]))
                      else if allowIrreversible then Ok(P)
                      else Err(answer.error)
    ensures b.Calm() && b.lostReads == old(b.lostReads) && TaskAcl(m, path).Some? && path in b.state.tasks
            ==> r.Ok? && path in r.value.taskSecurity && (Truthful(P, b.state) ==> Truthful(r.value, b.state))
  {
    hide Truthful;
    if TaskAcl(m, path).None? {
      return Err(InvalidDefinition);
    }
    var security := b.TaskSecurity(path);
    if security.Err? {
      return if allowIrreversible then Ok(P) else Err(security.error);
    }
    r := Ok(P.(taskSecurity := P.taskSecurity[path := security.value]));
    if Truthful(P, b.state) && path in b.state.tasks {
      TaskAclIsTruthful(P, b.state, path);
    }
  }

  /** The descriptor of a folder, unless this apply is about to create the folder. */
  method PrepareFolderSecurity(b: Backend, m: Manifest, P: Prepared, folder: FolderPath, allowIrreversible: bool)
    returns (r: Result<Prepared>)
    modifies b
    ensures b.ReadOnly()
    ensures r.Ok? ==> Grown(P, r.value) && SamePasswords(P, r.value)
    ensures if folder in P.createdFolders then r == Ok(P)
            else if FolderAcl(m, folder).None? then r == Err(InvalidDefinition)
            else
              var n := |old(b.log)|;
              |b.log| == n + 1 && b.log[n].FolderAclRead? && b.log[n].folder == folder
              && var answer := b.log[n].acl;
                 r == if answer.Ok? then Ok(P.(folderSecurity := P.folderSecurity[folder := answer.value]))
                      else if allowIrreversible then Ok(P)
                      else Err(answer.error)
    ensures b.Calm() && b.lostReads == old(b.lostReads)
            && FolderAcl(m, folder).Some? && (folder in P.createdFolders || folder in b.state.folders)
            ==> r.Ok? && (Truthful(P, b.state) ==> Truthful(r.value, b.state))
  {
    hide Truthful;
    if folder in P.createdFolders {
      return Ok(P);
    }
    if FolderAcl(m, folder).None? {
      return Err(InvalidDefinition);
    }
    var security := b.FolderSecurity(folder);
    if security.Err? {
      return if allowIrreversible then Ok(P) else Err(security.error);
    }
    r := Ok(P.(folderSecurity := P.folderSecurity[folder := security.value]));
    if Truthful(P, b.state) && folder in b.state.folders {
      FolderAclIsTruthful(P, b.state, folder);
    }
  }

  /** The body of prepare's loop. */
  method PrepareOne(b: Backend, m: Manifest, c: Change, P: Prepared, allowIrreversible: bool, resolver: Resolver)
    returns (r: Result<Prepared>)
    modifies b
    ensures b.ReadOnly()
    ensures r.Ok? ==> Grown(P, r.value) && (Entitled(m, resolver, P) ==> Entitled(m, resolver, r.value))
    ensures b.Calm() && b.lostReads == old(b.lostReads) && Preparable(m, P.createdFolders, b.state, c)
            && Truthful(P, b.state)
            ==> (r.Ok? && Restorable(allowIrreversible, b.state, resolver)
                 ==> Truthful(r.value, b.state) && Covered(m, r.value, c))
    ensures b.Calm() && b.lostReads == old(b.lostReads) && Preparable(m, P.createdFolders, b.state, c)
            && RegistrationsResolve(m, resolver) && (allowIrreversible || RestorationsResolve(b.state, resolver))
            ==> r.Ok?
  {
    hide Truthful, RegistrationsResolve, RestorationsResolve, TaskAcl, FolderAcl, FindTask, Registrable;
    match c
    case CreateFolder(_) => { r := Ok(P); }
    case SetEnabled(path, _) => { r := PrepareFlag(b, P, path); }
    case SetTaskSecurity(path) => { r := PrepareTaskSecurity(b, m, P, path, allowIrreversible); }
    case SetFolderSecurity(folder) => { r := PrepareFolderSecurity(b, m, P, folder, allowIrreversible); }
    case DeleteTask(path) => { r := PrepareTaskBackup(b, P, path, allowIrreversible, resolver); }
    case _ => { r := PrepareRegistration(b, m, c, P, allowIrreversible, resolver); }
  }

  method PrepareRegistration(b: Backend, m: Manifest, c: Change, P: Prepared, allowIrreversible: bool,
                             resolver: Resolver)
    returns (r: Result<Prepared>)
    requires Registers(c)
    modifies b
    ensures b.ReadOnly()
    ensures r.Ok? ==> Grown(P, r.value) && (Entitled(m, resolver, P) ==> Entitled(m, resolver, r.value))
    ensures b.Calm() && b.lostReads == old(b.lostReads) && Preparable(m, P.createdFolders, b.state, c)
            && Truthful(P, b.state)
            ==> (r.Ok? && Restorable(allowIrreversible, b.state, resolver)
                 ==> Truthful(r.value, b.state) && Covered(m, r.value, c))
    ensures b.Calm() && b.lostReads == old(b.lostReads) && Preparable(m, P.createdFolders, b.state, c)
            && RegistrationsResolve(m, resolver) && (allowIrreversible || RestorationsResolve(b.state, resolver))
            ==> r.Ok?
  {
    hide Truthful;
    var found := FindTask(m.tasks, c.path);
    if Truthful(P, b.state) {
      PasswordsAreApart(P, b.state, P.desiredPasswords + {c.path});
    }
    if found.None? {
      return Err(InvalidDefinition);
    }
    var next := P;
    if PasswordBacked(found.value.definition.logon) {
      var asked := resolver(c.path, DesiredRegistration);
      if asked.Err? {
        return Err(asked.error);
      }
      next := P.(desiredPasswords := P.desiredPasswords + {c.path});
    }
    if c.CreateTask? {
      return Ok(next);
    }
    r := PrepareTaskBackup(b, next, c.path, allowIrreversible, resolver);
  }

  /** prepare. */
  method Prepare(b: Backend, m: Manifest, plan: seq<PlannedChange>, allowIrreversible: bool, resolver: Resolver)
    returns (r: Result<Prepared>)
    modifies b
    ensures b.ReadOnly() && (r.Ok? ==> Entitled(m, resolver, r.value))
    ensures b.Calm() && b.lostReads == old(b.lostReads)
            && (forall k :: 0 <= k < |plan| ==> Preparable(m, CreatedBy(plan), b.state, plan[k].change))
            ==> (r.Ok? && Restorable(allowIrreversible, b.state, resolver) ==> PreparedFor(m, r.value, plan, b.state))
                && (RegistrationsResolve(m, resolver) && (allowIrreversible || RestorationsResolve(b.state, resolver))
                    ==> r.Ok?)
  {
    hide Truthful, Covered, Preparable, RegistrationsResolve, RestorationsResolve, FindTask;
    var P := Prepared(map[], map[], map[], map[], {}, CreatedBy(plan));
    NothingPrepared(P, b.state);
    for i := 0 to |plan|
      invariant b.ReadOnly() && P.createdFolders == CreatedBy(plan) && Entitled(m, resolver, P)
      invariant b.Calm() && b.lostReads == old(b.lostReads) && Restorable(allowIrreversible, b.state, resolver)
        && (forall k :: 0 <= k < |plan| ==> Preparable(m, CreatedBy(plan), b.state, plan[k].change))
        ==> Truthful(P, b.state) && forall k :: 0 <= k < i ==> Covered(m, P, plan[k].change)
    {
      var next := PrepareOne(b, m, plan[i].change, P, allowIrreversible, resolver);
      if next.Err? {
        return Err(next.error);
      }
      forall k | 0 <= k < i && Covered(m, P, plan[k].change) ensures Covered(m, next.value, plan[k].change) {
        CoverageGrows(m, P, next.value, plan[k].change);
      }
      P := next.value;
    }
    r := Ok(P);
    if Truthful(P, b.state) && (forall k :: 0 <= k < |plan| ==> Covered(m, P, plan[k].change)) {
      forall k | 0 <= k < |plan| ensures PreparedForOne(m, P, plan[k].change, b.state) {
        TruthIsPreparation(m, P, plan[k].change, b.state);
      }
    }
  }

  /** The folders this plan creates. */
  function CreatedBy(plan: seq<PlannedChange>): set<FolderPath> {
    set p <- plan | p.change.CreateFolder? :: p.change.folder
  }

  lemma NothingPrepared(P: Prepared, s: State)
    requires P.taskBackups == map[] && P.enabledBackups == map[] && P.taskSecurity == map[] && P.folderSecurity == map[]
    ensures Truthful(P, s)
  {
  }

  lemma CoverageGrows(m: Manifest, P: Prepared, P': Prepared, c: Change)
    requires Covered(m, P, c) && Grown(P, P')
    ensures Covered(m, P', c)
  {
  }

  lemma TruthIsPreparation(m: Manifest, P: Prepared, c: Change, s: State)
    requires Truthful(P, s) && Covered(m, P, c)
    ensures PreparedForOne(m, P, c, s)
  {
  }

  lemma WantsDescriptor(m: Manifest, current: CurrentState, options: PlanOptions, p: TaskPath)
    requires Wanted(m, current, options, SetTaskSecurity(p))
    ensures TaskAcl(m, p).Some? && p in current.tasks
  {
  }

  /** Whatever is planned for a calm state can be prepared. */
  lemma PlanIsPreparable(m: Manifest, options: PlanOptions, s: State, plan: seq<PlannedChange>, k: nat)
    requires ValidManifest(m) && Tree(s) && IsPlan(m, Snapshot(m, s), options, plan) && k < |plan|
    ensures Preparable(m, CreatedBy(plan), s, plan[k].change)
  {
    hide OwnedDefinition, SnapshotTask, WantedOnTask, Snapshot, Tree, Ordered, RollbackOf;
    SnapshotSees(m, s);
    var c := plan[k].change;
    assert Planned(plan, c);
    if c.SetTaskSecurity? {
      WantsDescriptor(m, Snapshot(m, s), options, c.path);
    }
    if c.SetFolderSecurity? && c.folder !in s.folders {
      assert InClosure(c.folder, FindFolder(m.folders, c.folder).value.path, m.namespace);
      assert Wanted(m, Snapshot(m, s), options, CreateFolder(c.folder));
      var i :| 0 <= i < |plan| && plan[i].change == CreateFolder(c.folder);
      assert plan[i] in plan;
    }
  }
}
