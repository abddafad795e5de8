/** What execute_change and compensate_change (reconcile.rs) ask the scheduler for, and what becomes of it. */
module Execution {
  import opened Wrappers
  import opened Paths
  import opened Scheduler
  import opened Manifests
  import opened Planning
  import opened Recovery
  import opened ApplySpec
  import opened Compensation
  import opened Progress

  // ---- carrying out ---------------------------------------------------------------------------------

  /** What is registered, to the last field.  Its descriptor is the one the manifest asks for; failing that a task
      that is replaced keeps the one in its backup, and a new task gets the scheduler's own. */
  lemma RegistrationIsExact(m: Manifest, P: Prepared, c: Change, s: State, standard: Acl)
    requires c.CreateTask? || c.UpdateTask? || c.AdoptTask?
    requires Enactment(m, c, P).Ok? && Effect(Enactment(m, c, P).value, s, standard).1.None?
    ensures FindTask(m.tasks, c.path).Some? && c.path in Effect(Enactment(m, c, P).value, s, standard).0.tasks
    ensures var (task, own) :=
              (Effect(Enactment(m, c, P).value, s, standard).0.tasks[c.path], FindTask(m.tasks, c.path).value);
      && task.definition == OwnedDefinition(m, own).(security := None)
      && match own.definition.security
         case Some(acl) => task.acl == acl
         case None =>
           if !c.CreateTask? && c.path in P.taskBackups && P.taskBackups[c.path].security.Some?
           then task.acl == P.taskBackups[c.path].security.value
           else task.acl == standard
  {
    RegistrationKeepsDefinition(m, FindTask(m.tasks, c.path).value);
    hide OwnedDefinition, FindTask;
  }

  /** So a task whose descriptor the manifest leaves open keeps the one it has when it is replaced. */
  lemma ReplacingKeepsDescriptor(m: Manifest, P: Prepared, c: Change, s: State, standard: Acl)
    requires (c.UpdateTask? || c.AdoptTask?) && Insured(P, c, s) && TaskAcl(m, c.path).None?
    requires Enactment(m, c, P).Ok? && Effect(Enactment(m, c, P).value, s, standard).1.None?
    ensures c.path in Effect(Enactment(m, c, P).value, s, standard).0.tasks
    ensures Effect(Enactment(m, c, P).value, s, standard).0.tasks[c.path].acl == s.tasks[c.path].acl
  {
    hide Enactment, Effect, FindTask;
    RegistrationIsExact(m, P, c, s, standard);
  }

  /** Nothing is ever created over something that is there. */
  lemma CreatesOnlyTheMissing(m: Manifest, P: Prepared, c: Change, s: State, standard: Acl)
    requires (c.CreateTask? || c.CreateFolder?) && Enactment(m, c, P).Ok? && View(s, ChangeTarget(c)) != Missing
    ensures var (next, refusal) := Effect(Enactment(m, c, P).value, s, standard); next == s && refusal.Some?
  {
    hide OwnedDefinition, FindTask, RegisteredDefinition;
  }

  // ---- taking back -----------------------------------------------------------------------------------------

  /** A replaced task is not put back without its password exactly where the scheduler would refuse it anyway. */
  lemma RefusedBeforehand(P: Prepared, c: Change, stopRunning: bool, s: State, standard: Acl)
    requires Replaces(c) && c.path in P.taskBackups
    ensures var backup := P.taskBackups[c.path];
      UndoCalls(c, P, stopRunning).Err?
      <==> Effect(RegisterRaw(c.path, backup.raw, backup.logon, backup.password), s, standard).1 == Some(Authentication)
  {
  }

  /** A backup is used once: after that the change cannot be taken back again.  Everything else could be. */
  lemma BackupsAreUsedOnce(P: Prepared, c: Change, stopRunning: bool)
    ensures var again := UndoCalls(c, Consumed(c, P), stopRunning);
      if c.UpdateTask? || c.AdoptTask? || c.DeleteTask? || c.SetFolderSecurity? then again == Err(Irreversible)
      else again == UndoCalls(c, P, stopRunning)
  {
  }

  // ---- passwords --------------------------------------------------------------------------------------------

  /** Two kinds of account are backed by a password, the others are not. */
  lemma AccountsWithoutPassword(logon: LogonType)
    ensures PasswordBacked(logon) <==> logon !in {NoLogon, S4U, InteractiveToken, Group, ServiceAccount}
  {
  }

  /** Whether a password can be had, or the error on asking for it; the secret store itself is outside the model. */
  datatype Purpose = DesiredRegistration | RollbackRegistration
  type Resolver = (TaskPath, Purpose) -> Result<()>

  /** Passwords were asked for with the right purpose, and only where one is needed. */
  ghost predicate Entitled(m: Manifest, resolver: Resolver, P: Prepared) {
    && (forall p <- P.desiredPasswords ::
          resolver(p, DesiredRegistration).Ok?
          && FindTask(m.tasks, p).Some? && PasswordBacked(FindTask(m.tasks, p).value.definition.logon))
    && (forall p <- P.taskBackups.Keys ::
          P.taskBackups[p].password ==> resolver(p, RollbackRegistration).Ok? && PasswordBacked(P.taskBackups[p].logon))
  }

  lemma StaysEntitled(m: Manifest, resolver: Resolver, P: Prepared, c: Change)
    requires Entitled(m, resolver, P)
    ensures Entitled(m, resolver, Consumed(c, P))
  {
  }

  /** A call hands over a password only if it was resolved for that very purpose and the account needs one. */
  lemma PasswordsAreResolved(m: Manifest, resolver: Resolver, P: Prepared, c: Change, stopRunning: bool)
    requires Entitled(m, resolver, P)
    ensures var call := Enactment(m, c, P);
      call.Ok? && call.value.Register? && call.value.password ==>
        resolver(c.path, DesiredRegistration).Ok? && PasswordBacked(call.value.definition.logon)
    ensures var undo := UndoCalls(c, P, stopRunning);
      undo.Ok? ==> forall call <- undo.value :: call.RegisterRaw? ==>
        (call.password <==> PasswordBacked(call.logon)) && (call.password ==> resolver(c.path, RollbackRegistration).Ok?)
  {
    if Enactment(m, c, P).Ok? && Enactment(m, c, P).value.Register? {
      RegistrationKeepsDefinition(m, FindTask(m.tasks, c.path).value);
    }
    hide FindTask, OwnedDefinition;
  }

  /** And it hands it over once. */
  lemma PasswordsAreUsedOnce(m: Manifest, P: Prepared, c: Change)
    requires c.CreateTask? || c.UpdateTask? || c.AdoptTask?
    ensures var again := Enactment(m, c, Spent(P, c)); again.Ok? ==> again.value.Register? && !again.value.password
  {
    hide FindTask, OwnedDefinition;
  }
}
