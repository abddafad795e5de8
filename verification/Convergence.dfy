/** Why a confirmed run ends where nothing is planned, and exactly when it need not: each confirmed change
    brings the world closer to a state for which nothing is planned, unless a descriptor went unread. */
module Convergence {
  import opened Wrappers
  import opened Paths
  import opened Scheduler
  import opened Ownership
  import opened Manifests
  import opened Planning
  import opened Recovery
  import opened ApplySpec
  import opened Compensation
  import opened Progress

  // ---- what one target is asked for -------------------------------------------------------------------

  /** The snapshot without the namespace test, so that each object counts for itself. */
  function FullSnapshot(m: Manifest, s: State): CurrentState {
    CurrentState(
      map p | p in s.tasks && m.namespace <= p.folder :: SnapshotTask(m, p, s.tasks[p]),
      map f | f in s.folders && m.namespace <= f :: if FolderAcl(m, f).Some? then Some(s.folders[f]) else None)
  }

  lemma SnapshotIsFull(m: Manifest, s: State)
    requires Tree(s) || m.namespace in s.folders
    ensures Snapshot(m, s) == FullSnapshot(m, s)
  {
    if m.namespace !in s.folders {
      SnapshotSees(m, s);
      assert forall p :: p !in FullSnapshot(m, s).tasks;
      assert forall f :: f !in FullSnapshot(m, s).folders;
    }
  }

  /** Ownership is decided by URI and Source. */
  lemma OwnedReads(m: Manifest, p: TaskPath, d: Definition, d': Definition)
    requires d.uri == d'.uri && d.source == d'.source
    ensures Owned(m, p, d) <==> Owned(m, p, d')
  {
  }

  lemma OwnedKeepsAcl(m: Manifest, p: TaskPath)
    requires Desired(m, p)
    ensures OwnedDefinition(m, FindTask(m.tasks, p).value).security == TaskAcl(m, p)
  {
  }

  lemma TaskSnapshotsAgree(m: Manifest, s: State, s': State, p: TaskPath)
    requires View(s, TaskTarget(p)) == View(s', TaskTarget(p)) && p in s.tasks
    ensures p in s'.tasks
    ensures var (a, b) := (SnapshotTask(m, p, s.tasks[p]), SnapshotTask(m, p, s'.tasks[p]));
      SemanticallyEqual(a.definition, b.definition) && a.enabled == b.enabled && (a.owned <==> b.owned)
      && (TaskAcl(m, p).Some? ==> a.definition.security == b.definition.security)
  {
    hide TaskAcl, Owned, PasswordBacked;
    OwnedReads(m, p, SnapshotTask(m, p, s.tasks[p]).definition, SnapshotTask(m, p, s'.tasks[p]).definition);
  }

  lemma FullTask(m: Manifest, s: State, p: TaskPath)
    ensures p in FullSnapshot(m, s).tasks <==> p in s.tasks && m.namespace <= p.folder
    ensures p in FullSnapshot(m, s).tasks ==> FullSnapshot(m, s).tasks[p] == SnapshotTask(m, p, s.tasks[p])
  {
  }

  lemma SameDecision(a: CurrentTask, b: CurrentTask, d: Definition, c: Change)
    requires SemanticallyEqual(a.definition, b.definition) && a.enabled == b.enabled
    requires d.security.Some? ==> a.definition.security == b.definition.security
    ensures WantedOnTask(a, d, c) <==> WantedOnTask(b, d, c)
  {
  }

  lemma TaskWantedIsLocal(m: Manifest, options: PlanOptions, s: State, s': State, c: Change)
    requires ChangeTarget(c).TaskTarget? && View(s, ChangeTarget(c)) == View(s', ChangeTarget(c))
    ensures Wanted(m, FullSnapshot(m, s), options, c) <==> Wanted(m, FullSnapshot(m, s'), options, c)
  {
    hide FindTask, FindFolder, Required, OwnedDefinition, FolderAcl, SnapshotTask, WantedOnTask, FullSnapshot,
         SemanticallyEqual;
    var p := c.path;
    FullTask(m, s, p);
    FullTask(m, s', p);
    if p in s.tasks {
      TaskSnapshotsAgree(m, s, s', p);
      if FindTask(m.tasks, p).Some? {
        OwnedKeepsAcl(m, p);
        SameDecision(SnapshotTask(m, p, s.tasks[p]), SnapshotTask(m, p, s'.tasks[p]),
                     OwnedDefinition(m, FindTask(m.tasks, p).value), c);
      }
    }
  }

  /** A change is wanted or not according to its own target alone. */
  lemma WantedIsLocal(m: Manifest, options: PlanOptions, s: State, s': State, c: Change)
    requires View(s, ChangeTarget(c)) == View(s', ChangeTarget(c))
    ensures Wanted(m, FullSnapshot(m, s), options, c) <==> Wanted(m, FullSnapshot(m, s'), options, c)
  {
    hide FindTask, FindFolder, Required, OwnedDefinition, SnapshotTask, WantedOnTask;
    if ChangeTarget(c).TaskTarget? {
      TaskWantedIsLocal(m, options, s, s', c);
    }
  }

  /** No desired path is taken by a task of somebody else. */
  ghost predicate Unblocked(m: Manifest, options: PlanOptions, s: State) {
    options.adopt
    || forall t <- m.tasks :: t.path in s.tasks && m.namespace <= t.path.folder ==>
         SnapshotTask(m, t.path, s.tasks[t.path]).owned
  }

  /** The task is there, owned and as the manifest describes it, and the manifest gives it a descriptor. */
  ghost predicate Adjustable(m: Manifest, s: State, p: TaskPath) {
    && Desired(m, p) && p in s.tasks && TaskAcl(m, p).Some?
    && var a := SnapshotTask(m, p, s.tasks[p]);
       a.owned && SemanticallyEqual(a.definition, OwnedDefinition(m, FindTask(m.tasks, p).value))
  }

  /** A planned change is still called for; only a descriptor may have become right by itself. */
  ghost predicate StillWanted(m: Manifest, options: PlanOptions, s: State, c: Change) {
    if c.SetFolderSecurity? then FolderAcl(m, c.folder).Some?
    else if c.SetTaskSecurity? then Adjustable(m, s, c.path)
    else Wanted(m, FullSnapshot(m, s), options, c)
  }

  lemma WantedIsStillWanted(m: Manifest, options: PlanOptions, s: State, c: Change)
    requires Wanted(m, FullSnapshot(m, s), options, c)
    ensures StillWanted(m, options, s, c)
  {
    hide OwnedDefinition, SemanticallyEqual, Required, SnapshotTask;
    if c.SetTaskSecurity? {
      WantedFlag(m, options, s, c);
    }
  }

  /** A confirmed step as the planner needs to know it: nothing else was touched, and what was seen on both
      sides, with or without descriptors, is what the change should lead to. */
  ghost predicate Confirmed(m: Manifest, blind: bool, s: State, s': State, c: Change) {
    && OnlyTouches(s, s', ChangeTarget(c))
    && exists before, after ::
         && Alike(blind, View(s, ChangeTarget(c)), before)
         && Sees(blind, View(s', ChangeTarget(c)), after)
         && Achieved(m, c, before, after, View(s', ChangeTarget(c)))
  }

  /** Writing the enabled flag has not touched the descriptor. */
  ghost predicate DescriptorKept(c: Change, s: State, s': State) {
    c.SetEnabled? && c.path in s.tasks && c.path in s'.tasks
    ==> AccessEquivalent(s'.tasks[c.path].acl, s.tasks[c.path].acl)
  }

  /** A confirmed registration leaves a task that matches the manifest in every respect. */
  lemma ConfirmedRegistration(m: Manifest, blind: bool, s: State, s': State, c: Change)
    requires Registers(c) && Confirmed(m, blind, s, s', c)
    ensures Desired(m, c.path) && c.path in s'.tasks
    ensures var (b, d) := (s'.tasks[c.path], OwnedDefinition(m, FindTask(m.tasks, c.path).value));
      SemanticallyEqual(b.definition, d) && b.definition.enabled == d.enabled
      && (TaskAcl(m, c.path).Some? ==> AccessEquivalent(b.acl, TaskAcl(m, c.path).value))
  {
    hide OnlyTouches, FindTask, MarkedSource, Marker;
    var before, after :|
      Alike(blind, View(s, ChangeTarget(c)), before) && Sees(blind, View(s', ChangeTarget(c)), after)
      && Achieved(m, c, before, after, View(s', ChangeTarget(c)));
  }

  /** For a task that is wanted, there and owned, the planner looks at that task alone. */
  lemma WantedForOwned(m: Manifest, options: PlanOptions, s: State, c: Change)
    requires ChangeTarget(c).TaskTarget? && Desired(m, c.path) && m.namespace <= c.path.folder
    requires c.path in s.tasks && SnapshotTask(m, c.path, s.tasks[c.path]).owned
    ensures Wanted(m, FullSnapshot(m, s), options, c)
            <==> WantedOnTask(SnapshotTask(m, c.path, s.tasks[c.path]),
                              OwnedDefinition(m, FindTask(m.tasks, c.path).value), c)
  {
    hide FullSnapshot, SnapshotTask, OwnedDefinition, Required, SemanticallyEqual;
    FullTask(m, s, c.path);
  }

  lemma MatchIsNotWanted(existing: CurrentTask, d: Definition, c: Change)
    requires SemanticallyEqual(existing.definition, d) && existing.enabled == d.enabled
    requires d.security.Some? ==>
      existing.definition.security.Some? && AccessEquivalent(existing.definition.security.value, d.security.value)
    ensures !WantedOnTask(existing, d, c)
  {
  }

  lemma RegistrationSettles(m: Manifest, options: PlanOptions, blind: bool, s: State, s': State, c: Change, d: Change)
    requires Inside(m) && Registers(c) && Confirmed(m, blind, s, s', c)
    requires ChangeTarget(c) == ChangeTarget(d)
    ensures c.path in s'.tasks && SnapshotTask(m, c.path, s'.tasks[c.path]).owned
    ensures !Wanted(m, FullSnapshot(m, s'), options, d)
  {
    hide Confirmed, Owned, OwnedDefinition, PasswordBacked, Wanted, WantedOnTask, FullSnapshot, FindTask, FindFolder;
    ConfirmedRegistration(m, blind, s, s', c);
    OwnedKeepsAcl(m, c.path);
    RegisteredIsOwned(m, FindTask(m.tasks, c.path).value, s'.tasks[c.path].definition);
    WantedForOwned(m, options, s', d);
    MatchIsNotWanted(SnapshotTask(m, c.path, s'.tasks[c.path]), OwnedDefinition(m, FindTask(m.tasks, c.path).value), d);
  }

  /** A confirmed finer change leaves a task that matches the manifest except for the other finer change. */
  ghost predicate FlagSettled(m: Manifest, a: CurrentTask, b: CurrentTask, c: Change, d: Definition)
    requires c.SetEnabled? || c.SetTaskSecurity?
  {
    && SemanticallyEqual(a.definition, d) && SemanticallyEqual(b.definition, d) && a.owned && b.owned
    && (TaskAcl(m, c.path).Some? ==> a.definition.security.Some? && b.definition.security.Some?)
    && (c.SetEnabled? ==> b.enabled == d.enabled)
    && (c.SetTaskSecurity? ==>
          b.enabled == a.enabled && TaskAcl(m, c.path).Some?
          && AccessEquivalent(b.definition.security.value, TaskAcl(m, c.path).value))
  }

  /** What the planner saw when it asked for the finer change. */
  lemma WantedFlag(m: Manifest, options: PlanOptions, s: State, c: Change)
    requires (c.SetEnabled? || c.SetTaskSecurity?) && Wanted(m, FullSnapshot(m, s), options, c)
    ensures FlagAsked(m, s, c)
  {
    hide OwnedDefinition, SemanticallyEqual, Required, SnapshotTask;
    if FindTask(m.tasks, c.path).Some? {
      OwnedKeepsAcl(m, c.path);
    }
  }

  ghost predicate FlagAsked(m: Manifest, s: State, c: Change)
    requires c.SetEnabled? || c.SetTaskSecurity?
  {
    && Desired(m, c.path) && c.path in s.tasks
    && var (a, d) := (SnapshotTask(m, c.path, s.tasks[c.path]), OwnedDefinition(m, FindTask(m.tasks, c.path).value));
      a.owned && SemanticallyEqual(a.definition, d)
      && (c.SetEnabled? ==> c.enabled == d.enabled) && (c.SetTaskSecurity? ==> TaskAcl(m, c.path).Some?)
  }

  lemma StillAsked(m: Manifest, options: PlanOptions, s: State, c: Change)
    requires (c.SetEnabled? || c.SetTaskSecurity?) && StillWanted(m, options, s, c)
    ensures FlagAsked(m, s, c)
  {
    hide Wanted, SnapshotTask, OwnedDefinition, SemanticallyEqual, FullSnapshot;
    if c.SetEnabled? {
      WantedFlag(m, options, s, c);
    }
  }

  /** What its confirmation says about the task before and after. */
  lemma ConfirmedFlag(m: Manifest, blind: bool, s: State, s': State, c: Change)
    requires (c.SetEnabled? || c.SetTaskSecurity?) && Confirmed(m, blind, s, s', c) && c.path in s.tasks
    ensures c.path in s'.tasks
    ensures var (a, b) := (s.tasks[c.path], s'.tasks[c.path]);
      && SemanticallyEqual(a.definition, b.definition)
      && (c.SetEnabled? ==> b.definition.enabled == c.enabled)
      && (c.SetTaskSecurity? ==> b.definition.enabled == a.definition.enabled && TaskAcl(m, c.path).Some?
                                 && AccessEquivalent(b.acl, TaskAcl(m, c.path).value))
    ensures !blind ==> DescriptorKept(c, s, s')
  {
    hide OwnedDefinition, OnlyTouches, FindTask;
    var before, after :|
      Alike(blind, View(s, ChangeTarget(c)), before) && Sees(blind, View(s', ChangeTarget(c)), after)
      && Achieved(m, c, before, after, View(s', ChangeTarget(c)));
  }

  lemma FlagFacts(m: Manifest, blind: bool, s: State, s': State, c: Change)
    requires (c.SetEnabled? || c.SetTaskSecurity?) && Confirmed(m, blind, s, s', c) && FlagAsked(m, s, c)
    ensures c.path in s'.tasks && (!blind ==> DescriptorKept(c, s, s'))
    ensures FlagSettled(m, SnapshotTask(m, c.path, s.tasks[c.path]), SnapshotTask(m, c.path, s'.tasks[c.path]), c,
                        OwnedDefinition(m, FindTask(m.tasks, c.path).value))
  {
    hide Confirmed, Owned, PasswordBacked, FindTask, MarkedSource, DescriptorKept, OwnedDefinition;
    ConfirmedFlag(m, blind, s, s', c);
    OwnedKeepsAcl(m, c.path);
    RegisteredIsOwned(m, FindTask(m.tasks, c.path).value, s'.tasks[c.path].definition);
  }

  /** The descriptor of the task may have been replaced unseen while its flag was written. */
  ghost predicate Replaced(blind: bool, c: Change, s: State, s': State) {
    blind && c.SetEnabled? && !DescriptorKept(c, s, s')
  }

  lemma FlagSettles(m: Manifest, options: PlanOptions, blind: bool, s: State, s': State, c: Change, d: Change)
    requires Inside(m) && (c.SetEnabled? || c.SetTaskSecurity?) && Confirmed(m, blind, s, s', c)
    requires StillWanted(m, options, s, c) && ChangeTarget(c) == ChangeTarget(d)
    ensures Wanted(m, FullSnapshot(m, s'), options, d) ==>
              d != c && (Wanted(m, FullSnapshot(m, s), options, d)
                         || (Replaced(blind, c, s, s') && d == SetTaskSecurity(c.path)))
    ensures d.SetTaskSecurity? && Adjustable(m, s, d.path) ==> Adjustable(m, s', d.path)
  {
    hide Confirmed, Wanted, WantedOnTask, SnapshotTask, OwnedDefinition, FullSnapshot, FindTask, SemanticallyEqual, TaskAcl;
    StillAsked(m, options, s, c);
    FlagFacts(m, blind, s, s', c);
    OwnedKeepsAcl(m, c.path);
    var D := OwnedDefinition(m, FindTask(m.tasks, c.path).value);
    var a, b := SnapshotTask(m, c.path, s.tasks[c.path]), SnapshotTask(m, c.path, s'.tasks[c.path]);
    SnapshotAcl(m, c.path, s.tasks[c.path]);
    SnapshotAcl(m, c.path, s'.tasks[c.path]);
    FlagSettledDecides(m, a, b, c, D, d);
    WantedForOwned(m, options, s, d);
    WantedForOwned(m, options, s', d);
  }

  lemma SnapshotAcl(m: Manifest, p: TaskPath, task: Task)
    ensures TaskAcl(m, p).Some? ==> SnapshotTask(m, p, task).definition.security == Some(task.acl)
  {
    hide TaskAcl, Owned;
  }

  lemma FlagSettledDecides(m: Manifest, a: CurrentTask, b: CurrentTask, c: Change, D: Definition, d: Change)
    requires (c.SetEnabled? || c.SetTaskSecurity?) && FlagSettled(m, a, b, c, D) && D.security == TaskAcl(m, c.path)
    requires ChangeTarget(c) == ChangeTarget(d) && (c.SetEnabled? ==> c.enabled == D.enabled)
    ensures WantedOnTask(b, D, d) ==> d != c
    ensures WantedOnTask(b, D, d) && !WantedOnTask(a, D, d) ==>
              c.SetEnabled? && d == SetTaskSecurity(c.path) && TaskAcl(m, c.path).Some?
              && !AccessEquivalent(b.definition.security.value, a.definition.security.value)
  {
    hide TaskAcl, SemanticallyEqual;
  }

  lemma FolderSettles(m: Manifest, options: PlanOptions, blind: bool, s: State, s': State, c: Change, d: Change)
    requires ValidManifest(m) && Inside(m) && (c.CreateFolder? || c.SetFolderSecurity?) && Confirmed(m, blind, s, s', c)
    requires StillWanted(m, options, s, c)
    requires ChangeTarget(c) == ChangeTarget(d) && Wanted(m, FullSnapshot(m, s'), options, d)
    ensures d != c && Wanted(m, FullSnapshot(m, s), options, d)
  {
    hide ValidManifest, OnlyTouches, SnapshotTask, FindTask, FindFolder;
    if c.CreateFolder? {
      RequiredInside(m, c.folder);
    } else if FolderAcl(m, c.folder).Some? {
      FolderIsNotRoot(m, c.folder);
    }
  }

  /** The heart of convergence: once a change is confirmed, the planner asks for nothing it had not asked for
      before, and not for the confirmed change again; except for a descriptor replaced unseen. */
  lemma ConfirmedSettles(m: Manifest, options: PlanOptions, blind: bool, s: State, s': State, c: Change, d: Change)
    requires ValidManifest(m) && Inside(m) && Confirmed(m, blind, s, s', c) && StillWanted(m, options, s, c)
    requires Wanted(m, FullSnapshot(m, s'), options, d)
    ensures d != c
    ensures Wanted(m, FullSnapshot(m, s), options, d) || (Replaced(blind, c, s, s') && d == SetTaskSecurity(c.path))
  {
    hide Replaced;
    if ChangeTarget(c) != ChangeTarget(d) {
      WantedIsLocal(m, options, s, s', d);
    } else if Registers(c) {
      RegistrationSettles(m, options, blind, s, s', c, d);
    } else if c.SetEnabled? || c.SetTaskSecurity? {
      FlagSettles(m, options, blind, s, s', c, d);
    } else if !c.DeleteTask? {
      FolderSettles(m, options, blind, s, s', c, d);
    }
  }

  lemma AdjustableIsLocal(m: Manifest, s: State, s': State, p: TaskPath)
    requires View(s, TaskTarget(p)) == View(s', TaskTarget(p)) && Adjustable(m, s, p)
    ensures Adjustable(m, s', p)
  {
    hide SnapshotTask, OwnedDefinition, TaskAcl, FindTask;
    TaskSnapshotsAgree(m, s, s', p);
  }

  /** Later changes of the plan stay wanted. */
  lemma ConfirmedKeeps(m: Manifest, options: PlanOptions, blind: bool, s: State, s': State, c: Change, d: Change)
    requires ValidManifest(m) && Inside(m) && Confirmed(m, blind, s, s', c) && StillWanted(m, options, s, c)
    requires Compatible(c, d) && StillWanted(m, options, s, d)
    ensures StillWanted(m, options, s', d)
  {
    hide Wanted, FullSnapshot, Adjustable;
    if ChangeTarget(c) != ChangeTarget(d) {
      assert OnlyTouches(s, s', ChangeTarget(c));
      if d.SetTaskSecurity? {
        AdjustableIsLocal(m, s, s', d.path);
      } else {
        WantedIsLocal(m, options, s, s', d);
      }
    } else if c.SetEnabled? {
      FlagSettles(m, options, blind, s, s', c, d);
    }
  }

  lemma ConfirmedUnblocks(m: Manifest, options: PlanOptions, blind: bool, s: State, s': State, c: Change)
    requires ValidManifest(m) && Inside(m) && Confirmed(m, blind, s, s', c) && StillWanted(m, options, s, c)
    requires Unblocked(m, options, s)
    ensures Unblocked(m, options, s')
  {
    forall t | t in m.tasks && !options.adopt && t.path in s'.tasks
      ensures SnapshotTask(m, t.path, s'.tasks[t.path]).owned
    {
      if ChangeTarget(c) == TaskTarget(t.path) {
        if Registers(c) {
          RegistrationSettles(m, options, blind, s, s', c, c);
        } else if c.SetEnabled? || c.SetTaskSecurity? {
          StillAsked(m, options, s, c);
          FlagFacts(m, blind, s, s', c);
        }
      } else {
        assert View(s, TaskTarget(t.path)) == View(s', TaskTarget(t.path));
      }
    }
  }

  /** A wanted change of a task, other than of its descriptor, shows once it is achieved. */
  lemma WantedShows(m: Manifest, options: PlanOptions, s: State, s': State, c: Change)
    requires Inside(m) && Wanted(m, FullSnapshot(m, s), options, c)
    requires !(c.CreateFolder? || c.SetFolderSecurity? || c.SetTaskSecurity?)
    requires var (before, now) := (View(s, ChangeTarget(c)), View(s', ChangeTarget(c))); Achieved(m, c, before, now, now)
    ensures !Same(View(s', ChangeTarget(c)), View(s, ChangeTarget(c)))
  {
    hide Owned, OwnedDefinition, Required, MarkedSource, FindTask;
    if c.path in s.tasks && c.path in s'.tasks && Registers(c) {
      var d := FindTask(m.tasks, c.path).value;
      DesiredIsInside(m, c.path);
      RegisteredIsOwned(m, d, s'.tasks[c.path].definition);
      if Same(View(s', ChangeTarget(c)), View(s, ChangeTarget(c))) {
        OwnedReads(m, c.path, SnapshotTask(m, c.path, s.tasks[c.path]).definition, s'.tasks[c.path].definition);
      }
    }
  }

  // ---- the goal of a run -----------------------------------------------------------------------------

  /** What is left of the plan is still called for. */
  ghost predicate Upcoming(m: Manifest, options: PlanOptions, plan: seq<PlannedChange>, i: nat, s: State) {
    forall k :: i <= k < |plan| ==> StillWanted(m, options, s, plan[k].change)
  }

  /** What is left of the plan covers everything the planner would still ask for. */
  ghost predicate Converging(m: Manifest, options: PlanOptions, plan: seq<PlannedChange>, i: nat, s: State) {
    && i <= |plan| && Unblocked(m, options, s)
    && (forall d :: Wanted(m, FullSnapshot(m, s), options, d) ==> Planned(plan[i..], d))
    && Upcoming(m, options, plan, i, s)
  }

  lemma ConvergingStarts(m: Manifest, options: PlanOptions, plan: seq<PlannedChange>, s: State)
    requires Tree(s) && IsPlan(m, Snapshot(m, s), options, plan) && !Blocked(m, Snapshot(m, s), options)
    ensures Converging(m, options, plan, 0, s)
  {
    hide Wanted, StillWanted, FullSnapshot, Snapshot, Ordered, RollbackOf;
    SnapshotIsFull(m, s);
    UnblockedAtFirst(m, options, s);
    assert plan[0..] == plan;
    forall k | 0 <= k < |plan| ensures StillWanted(m, options, s, plan[k].change) {
      assert Planned(plan, plan[k].change);
      WantedIsStillWanted(m, options, s, plan[k].change);
    }
  }

  lemma UnblockedAtFirst(m: Manifest, options: PlanOptions, s: State)
    requires Tree(s) && !Blocked(m, Snapshot(m, s), options)
    ensures Unblocked(m, options, s)
  {
    hide SnapshotTask;
    SnapshotIsFull(m, s);
  }

  /** A planned flag of a task whose descriptor the manifest gives but the plan does not write. */
  ghost predicate ExposedFlag(m: Manifest, plan: seq<PlannedChange>, c: Change) {
    c.SetEnabled? && TaskAcl(m, c.path).Some? && !Planned(plan, SetTaskSecurity(c.path))
  }

  ghost predicate Exposed(m: Manifest, plan: seq<PlannedChange>) {
    exists k :: 0 <= k < |plan| && ExposedFlag(m, plan, plan[k].change)
  }

  lemma UpcomingAdvances(m: Manifest, options: PlanOptions, plan: seq<PlannedChange>, i: nat, blind: bool,
                         s: State, s': State)
    requires ValidManifest(m) && Inside(m) && AllCompatible(plan)
    requires i < |plan| && Upcoming(m, options, plan, i, s) && Confirmed(m, blind, s, s', plan[i].change)
    ensures Upcoming(m, options, plan, i + 1, s')
  {
    hide StillWanted, Confirmed, Compatible;
    forall k | i + 1 <= k < |plan| ensures StillWanted(m, options, s', plan[k].change) {
      ConfirmedKeeps(m, options, blind, s, s', plan[i].change, plan[k].change);
    }
  }

  /** What is planned on the target of a flag, besides it, comes after it. */
  lemma DescriptorComesLater(plan: seq<PlannedChange>, i: nat)
    requires AllCompatible(plan) && i < |plan| && plan[i].change.SetEnabled?
    requires Planned(plan, SetTaskSecurity(plan[i].change.path))
    ensures Planned(plan[i + 1..], SetTaskSecurity(plan[i].change.path))
  {
    var j :| 0 <= j < |plan| && plan[j].change == SetTaskSecurity(plan[i].change.path);
    FlagComesFirst(plan, i, j);
    assert plan[i + 1..][j - i - 1] == plan[j];
  }

  lemma FlagComesFirst(plan: seq<PlannedChange>, i: nat, j: nat)
    requires AllCompatible(plan) && i < |plan| && j < |plan| && plan[i].change.SetEnabled?
    requires plan[j].change == SetTaskSecurity(plan[i].change.path)
    ensures i < j
  {
  }

  lemma ConvergingAdvances(m: Manifest, options: PlanOptions, plan: seq<PlannedChange>, i: nat,
                           blind: bool, s: State, s': State)
    requires ValidManifest(m) && Inside(m) && AllCompatible(plan)
    requires i < |plan| && Converging(m, options, plan, i, s)
    requires Confirmed(m, blind, s, s', plan[i].change)
    requires blind && ExposedFlag(m, plan, plan[i].change) ==> DescriptorKept(plan[i].change, s, s')
    ensures Converging(m, options, plan, i + 1, s')
  {
    hide Wanted, Unblocked, Confirmed, FullSnapshot, AllCompatible, StillWanted, TaskAcl, DescriptorKept, Upcoming;
    var c := plan[i].change;
    assert StillWanted(m, options, s, c) by { NowUpcoming(m, options, plan, i, s); }
    ConfirmedUnblocks(m, options, blind, s, s', c);
    UpcomingAdvances(m, options, plan, i, blind, s, s');
    forall d | Wanted(m, FullSnapshot(m, s'), options, d) ensures Planned(plan[i + 1..], d) {
      ConfirmedSettles(m, options, blind, s, s', c, d);
      if Wanted(m, FullSnapshot(m, s), options, d) {
        assert Planned(plan[i..], d);
        assert plan[i..] == plan[i..|plan|] && plan[i + 1..] == plan[i + 1..|plan|];
        PlannedAhead(plan, i, |plan|, d);
      } else {
        WantedAcl(m, options, s', c.path);
        DescriptorComesLater(plan, i);
      }
    }
  }

  lemma NowUpcoming(m: Manifest, options: PlanOptions, plan: seq<PlannedChange>, i: nat, s: State)
    requires i < |plan| && Upcoming(m, options, plan, i, s)
    ensures StillWanted(m, options, s, plan[i].change)
  {
    hide StillWanted;
  }

  lemma WantedAcl(m: Manifest, options: PlanOptions, s: State, p: TaskPath)
    requires Wanted(m, FullSnapshot(m, s), options, SetTaskSecurity(p))
    ensures TaskAcl(m, p).Some?
  {
    hide SnapshotTask, OwnedDefinition, SemanticallyEqual, TaskAcl;
    WantedFlag(m, options, s, SetTaskSecurity(p));
  }

  /** The planner finds nothing to do. */
  ghost predicate Settled(m: Manifest, options: PlanOptions, s: State) {
    && !Blocked(m, Snapshot(m, s), options)
    && (forall d :: !Wanted(m, Snapshot(m, s), options, d))
  }

  /** When the whole plan has been confirmed, inspecting and planning again finds nothing to do. */
  lemma ConvergedIsSettled(m: Manifest, options: PlanOptions, plan: seq<PlannedChange>, s: State)
    requires Converging(m, options, plan, |plan|, s)
    ensures Settled(m, options, s)
  {
    assert plan[|plan|..] == [];
    assert !Wanted(m, FullSnapshot(m, s), options, CreateFolder(m.namespace));
    assert m.namespace in FullSnapshot(m, s).folders;
    SnapshotIsFull(m, s);
  }

  /** Settled is what an empty plan means. */
  lemma SettledPlansNothing(m: Manifest, options: PlanOptions, s: State, plan: seq<PlannedChange>)
    requires IsPlan(m, Snapshot(m, s), options, plan) && !Blocked(m, Snapshot(m, s), options)
    ensures plan == [] <==> Settled(m, options, s)
  {
    if plan == [] {
      forall d ensures !Wanted(m, Snapshot(m, s), options, d) {
        assert !Planned(plan, d);
      }
    } else {
      assert Planned(plan, plan[0].change);
    }
  }

  // ---- what settled means -------------------------------------------------------------------------------------

  /** The task is registered as its manifest entry says. */
  ghost predicate Registered(m: Manifest, s: State, t: ManagedTask) {
    && t.path in s.tasks
    && var (seen, own) := (s.tasks[t.path], t.definition);
      && seen.definition.logon == own.logon && seen.definition.body == own.body && seen.definition.enabled == own.enabled
      && seen.definition.uri == Some(TaskText(t.path)) && seen.definition.source == OwnedDefinition(m, t).source
      && (own.security.Some? ==> AccessEquivalent(seen.acl, own.security.value))
  }

  /** Everything the manifest asks for is there, and where tasks are to be pruned, of its own nothing else. */
  ghost predicate Fulfilled(m: Manifest, options: PlanOptions, s: State) {
    && m.namespace in s.folders
    && (forall f <- m.folders ::
          f.path in s.folders && (f.security.Some? ==> AccessEquivalent(s.folders[f.path], f.security.value)))
    && (forall t <- m.tasks :: Registered(m, s, t))
    && (options.prune ==> forall p :: p in s.tasks && m.namespace <= p.folder && Owned(m, p, s.tasks[p].definition)
                                      ==> exists t <- m.tasks :: t.path == p)
  }

  /** A state in which the planner finds nothing to do has what the manifest asks for. */
  lemma SettledIsFulfilled(m: Manifest, options: PlanOptions, s: State)
    requires ValidManifest(m) && Settled(m, options, s)
    ensures Fulfilled(m, options, s)
  {
    hide Registered, Owned, OwnedDefinition, SnapshotTask, WantedOnTask, ValidManifest;
    SettledHasNamespace(m, options, s);
    forall f | f in m.folders
      ensures f.path in s.folders && (f.security.Some? ==> AccessEquivalent(s.folders[f.path], f.security.value))
    {
      SettledFolder(m, options, s, f);
    }
    forall t | t in m.tasks ensures Registered(m, s, t) {
      SettledTask(m, options, s, t);
    }
    forall p | options.prune && p in s.tasks && m.namespace <= p.folder && Owned(m, p, s.tasks[p].definition)
      ensures exists t <- m.tasks :: t.path == p
    {
      FullTask(m, s, p);
      OwnedReads(m, p, s.tasks[p].definition, SnapshotTask(m, p, s.tasks[p]).definition) by {
        SnapshotDefinition(m, p, s.tasks[p]);
      }
      SnapshotDefinition(m, p, s.tasks[p]);
      assert !Wanted(m, FullSnapshot(m, s), options, DeleteTask(p));
    }
  }

  lemma SnapshotDefinition(m: Manifest, p: TaskPath, task: Task)
    ensures var a := SnapshotTask(m, p, task);
      && a.definition.(security := task.definition.security) == task.definition
      && a.enabled == task.definition.enabled && (a.owned <==> Owned(m, p, a.definition))
      && (TaskAcl(m, p).Some? ==> a.definition.security == Some(task.acl))
  {
    hide Owned, TaskAcl;
  }

  lemma SettledHasNamespace(m: Manifest, options: PlanOptions, s: State)
    requires Settled(m, options, s)
    ensures m.namespace in s.folders && Snapshot(m, s) == FullSnapshot(m, s)
  {
    assert !Wanted(m, Snapshot(m, s), options, CreateFolder(m.namespace));
    SnapshotIsFull(m, s);
  }

  lemma SettledFolder(m: Manifest, options: PlanOptions, s: State, f: ManagedFolder)
    requires ValidManifest(m) && Settled(m, options, s) && f in m.folders
    ensures f.path in s.folders && (f.security.Some? ==> AccessEquivalent(s.folders[f.path], f.security.value))
  {
    hide SnapshotTask, OwnedDefinition, Owned;
    SettledHasNamespace(m, options, s);
    FolderAgrees(m, f);
    assert InClosure(f.path, f.path, m.namespace);
    assert !Wanted(m, FullSnapshot(m, s), options, CreateFolder(f.path));
    assert !Wanted(m, FullSnapshot(m, s), options, SetFolderSecurity(f.path));
  }

  lemma SettledTaskIsInside(m: Manifest, options: PlanOptions, s: State, t: ManagedTask)
    requires ValidManifest(m) && Settled(m, options, s) && t in m.tasks
    ensures m.namespace <= t.path.folder
  {
    hide Wanted, Snapshot, Blocked;
    if !(m.namespace <= t.path.folder) {
      OutsideAsksForRoot(m, options, s, t);
      assert false;
    }
  }

  lemma OutsideAsksForRoot(m: Manifest, options: PlanOptions, s: State, t: ManagedTask)
    requires ValidManifest(m) && t in m.tasks && !(m.namespace <= t.path.folder)
    ensures Wanted(m, Snapshot(m, s), options, CreateFolder([]))
  {
    hide SnapshotTask, OwnedDefinition, Owned;
    assert InClosure([], t.path.folder, m.namespace);
  }

  lemma SettledTask(m: Manifest, options: PlanOptions, s: State, t: ManagedTask)
    requires ValidManifest(m) && Settled(m, options, s) && t in m.tasks
    ensures Registered(m, s, t)
  {
    hide SnapshotTask, Owned, Settled, Wanted, SemanticallyEqual, AclMissing, FullSnapshot, OwnedDefinition, FindTask;
    SettledHasNamespace(m, options, s);
    SettledTaskIsInside(m, options, s, t);
    DesiredAgrees(m, t);
    FullTask(m, s, t.path);
    NothingWanted(m, options, s);
    NothingWantedAt(m, options, FullSnapshot(m, s), t);
    SnapshotDefinition(m, t.path, s.tasks[t.path]);
    RegistrationKeepsDefinition(m, t);
    SameAsRegistered(m, t, s.tasks[t.path], FullSnapshot(m, s).tasks[t.path].definition);
  }

  lemma NothingWantedAt(m: Manifest, options: PlanOptions, current: CurrentState, t: ManagedTask)
    requires (forall d :: !Wanted(m, current, options, d)) && FindTask(m.tasks, t.path) == Some(t)
    ensures t.path in current.tasks && current.tasks[t.path].owned
    ensures var (seen, own) := (current.tasks[t.path], OwnedDefinition(m, t));
      SemanticallyEqual(seen.definition, own) && seen.enabled == own.enabled
      && (own.security.Some? ==> !AclMissing(seen.definition.security, own.security.value))
  {
    hide SemanticallyEqual, AclMissing, OwnedDefinition, Required;
    assert !Wanted(m, current, options, CreateTask(t.path)) && !Wanted(m, current, options, AdoptTask(t.path));
    assert !Wanted(m, current, options, UpdateTask(t.path));
    assert !Wanted(m, current, options, SetEnabled(t.path, OwnedDefinition(m, t).enabled));
    assert !Wanted(m, current, options, SetTaskSecurity(t.path));
  }

  lemma SameAsRegistered(m: Manifest, t: ManagedTask, task: Task, seen: Definition)
    requires var own := OwnedDefinition(m, t);
      SemanticallyEqual(seen, own) && task.definition.enabled == own.enabled
      && (own.security.Some? ==> seen.security == Some(task.acl) && !AclMissing(seen.security, own.security.value))
    requires seen.(security := task.definition.security) == task.definition
    ensures var (d, own) := (task.definition, t.definition);
      && d.logon == own.logon && d.body == own.body && d.enabled == own.enabled
      && d.uri == Some(TaskText(t.path)) && d.source == OwnedDefinition(m, t).source
      && (own.security.Some? ==> AccessEquivalent(task.acl, own.security.value))
  {
    hide MarkedSource, Marker;
    RegistrationKeepsDefinition(m, t);
  }

  lemma NothingWanted(m: Manifest, options: PlanOptions, s: State)
    requires Settled(m, options, s)
    ensures forall d :: !Wanted(m, FullSnapshot(m, s), options, d)
  {
    hide Wanted;
    SettledHasNamespace(m, options, s);
  }

  /** And in a tree the planner has nothing else to find: the state is settled exactly if it has what the manifest
      asks for. */
  lemma SettledExactly(m: Manifest, options: PlanOptions, s: State)
    requires ValidManifest(m) && Inside(m) && Tree(s)
    ensures Settled(m, options, s) <==> Fulfilled(m, options, s)
  {
    hide Settled, Fulfilled;
    if Settled(m, options, s) {
      SettledIsFulfilled(m, options, s);
    }
    if Fulfilled(m, options, s) {
      FulfilledIsSettled(m, options, s);
    }
  }

  lemma FulfilledIsSettled(m: Manifest, options: PlanOptions, s: State)
    requires ValidManifest(m) && Inside(m) && Tree(s) && Fulfilled(m, options, s)
    ensures Settled(m, options, s)
  {
    hide Wanted, Owned, OwnedDefinition, SnapshotTask, Registered, ValidManifest, Required;
    SnapshotIsFull(m, s);
    forall d ensures !Wanted(m, FullSnapshot(m, s), options, d) {
      if ChangeTarget(d).FolderTarget? {
        FulfilledFolder(m, options, s, d);
      } else {
        FulfilledTask(m, options, s, d);
      }
    }
    forall t | t in m.tasks && t.path in FullSnapshot(m, s).tasks ensures FullSnapshot(m, s).tasks[t.path].owned {
      FullTask(m, s, t.path);
      RegisteredTaskIsOwned(m, s, t);
    }
  }

  lemma {:induction false} FoldersAbove(s: State, f: FolderPath, g: FolderPath)
    requires Tree(s) && f in s.folders && g <= f
    ensures g in s.folders
    decreases |f|
  {
    if g != f {
      FoldersAbove(s, Parent(f), g);
    }
  }

  lemma FulfilledFolder(m: Manifest, options: PlanOptions, s: State, d: Change)
    requires ValidManifest(m) && Inside(m) && Tree(s) && Fulfilled(m, options, s) && ChangeTarget(d).FolderTarget?
    ensures !Wanted(m, FullSnapshot(m, s), options, d)
  {
    hide SnapshotTask, OwnedDefinition, Owned;
    if d.CreateFolder? && Required(m, d.folder) {
      RequiredInside(m, d.folder);
      if folder :| folder in m.folders && InClosure(d.folder, folder.path, m.namespace) {
        FoldersAbove(s, folder.path, d.folder);
      } else if t :| t in m.tasks && InClosure(d.folder, t.path.folder, m.namespace) {
        assert Registered(m, s, t);
        FoldersAbove(s, t.path.folder, d.folder);
      }
    }
    if d.SetFolderSecurity? && FolderAcl(m, d.folder).Some? {
      FolderIsNotRoot(m, d.folder);
    }
  }

  lemma RegisteredTaskIsOwned(m: Manifest, s: State, t: ManagedTask)
    requires Registered(m, s, t)
    ensures SnapshotTask(m, t.path, s.tasks[t.path]).owned
    ensures SemanticallyEqual(SnapshotTask(m, t.path, s.tasks[t.path]).definition, OwnedDefinition(m, t))
  {
    hide Owned, SnapshotTask, OwnedDefinition;
    SnapshotDefinition(m, t.path, s.tasks[t.path]);
    RegistrationKeepsDefinition(m, t);
    RegisteredIsOwned(m, t, s.tasks[t.path].definition);
    OwnedReads(m, t.path, s.tasks[t.path].definition, SnapshotTask(m, t.path, s.tasks[t.path]).definition);
  }

  lemma FulfilledTask(m: Manifest, options: PlanOptions, s: State, d: Change)
    requires ValidManifest(m) && Inside(m) && Fulfilled(m, options, s) && ChangeTarget(d).TaskTarget?
    ensures !Wanted(m, FullSnapshot(m, s), options, d)
  {
    hide Owned, SnapshotTask, Required, OwnedDefinition, FindFolder, FullSnapshot;
    FullTask(m, s, d.path);
    if d.DeleteTask? {
      if d.path in s.tasks {
        SnapshotDefinition(m, d.path, s.tasks[d.path]);
        OwnedReads(m, d.path, s.tasks[d.path].definition, SnapshotTask(m, d.path, s.tasks[d.path]).definition);
      }
    } else if FindTask(m.tasks, d.path).Some? {
      var t := FindTask(m.tasks, d.path).value;
      assert Registered(m, s, t);
      DesiredIsInside(m, d.path);
      RegisteredTaskIsOwned(m, s, t);
      SnapshotDefinition(m, d.path, s.tasks[d.path]);
      OwnedKeepsAcl(m, d.path);
      RegistrationKeepsDefinition(m, t);
      MatchIsNotWanted(SnapshotTask(m, d.path, s.tasks[d.path]), OwnedDefinition(m, t), d);
    }
  }

  // ---- exactly when confirmation is enough ---------------------------------------------------------------

  /** A flag call that replaced the descriptor as well. */
  function WildFlag(s: State, path: TaskPath, enabled: bool, acl: Acl): State
    requires path in s.tasks
  {
    s.(tasks := s.tasks[path := Task(s.tasks[path].definition.(enabled := enabled), acl)])
  }

  /** Where unreadable descriptors are tolerated it can be confirmed, its descriptor unread on both sides. */
  lemma WildFlagIsConfirmed(m: Manifest, s: State, path: TaskPath, enabled: bool, acl: Acl)
    requires path in s.tasks
    ensures Confirmed(m, true, s, WildFlag(s, path, enabled, acl), SetEnabled(path, enabled))
  {
    hide Owned, OwnedDefinition, FindTask;
    var s', t, c := WildFlag(s, path, enabled, acl), TaskTarget(path), SetEnabled(path, enabled);
    var before, after := Blind(View(s, t)), Blind(View(s', t));
    assert Alike(true, View(s, t), before) && Sees(true, View(s', t), after) && Achieved(m, c, before, after, View(s', t));
  }

  lemma WildFlagStaysOwned(m: Manifest, path: TaskPath, task: Task, enabled: bool, acl: Acl)
    requires Desired(m, path) && TaskAcl(m, path).Some?
    ensures var (before, after) :=
              (SnapshotTask(m, path, task), SnapshotTask(m, path, Task(task.definition.(enabled := enabled), acl)));
      && after.owned == before.owned && after.definition.security == Some(acl)
      && OwnedDefinition(m, FindTask(m.tasks, path).value).security == TaskAcl(m, path)
      && forall d :: SemanticallyEqual(before.definition, d) ==> SemanticallyEqual(after.definition, d)
  {
  }

  /** If the descriptor it left is not the wanted one, the descriptor is wanted afterwards. */
  lemma WildFlagLeavesWork(m: Manifest, options: PlanOptions, s: State, path: TaskPath, enabled: bool, acl: Acl)
    requires Inside(m) && Wanted(m, FullSnapshot(m, s), options, SetEnabled(path, enabled)) && path in s.tasks
    requires TaskAcl(m, path).Some? && !AccessEquivalent(acl, TaskAcl(m, path).value)
    ensures Wanted(m, FullSnapshot(m, WildFlag(s, path, enabled, acl)), options, SetTaskSecurity(path))
  {
    hide Owned, OwnedDefinition, SemanticallyEqual, SnapshotTask, FindTask, FindFolder, FullSnapshot, Wanted;
    WantedFlag(m, options, s, SetEnabled(path, enabled));
    WildFlagStaysOwned(m, path, s.tasks[path], enabled, acl);
    DesiredIsInside(m, path);
    WantedForOwned(m, options, WildFlag(s, path, enabled, acl), SetTaskSecurity(path));
  }

  lemma DesiredIsInside(m: Manifest, path: TaskPath)
    requires Inside(m) && Desired(m, path)
    ensures m.namespace <= path.folder
  {
    var t := FindTask(m.tasks, path).value;
    assert t in m.tasks;
  }

  /** A descriptor that grants something else. */
  function Other(acl: Acl): (other: Acl)
    ensures !AccessEquivalent(other, acl)
  {
    Acl(acl.key + "x", acl.autoInherited)
  }

  /** Exactly when confirmation is enough for one wanted change, whatever state is left and whatever is seen: the
      planner then asks for nothing it had not asked for before, unless descriptors may go unread and the change
      is a flag of a task whose descriptor the manifest gives and finds right. */
  lemma ConfirmationSuffices(m: Manifest, options: PlanOptions, blind: bool, s: State, c: Change)
    requires ValidManifest(m) && Inside(m) && Wanted(m, FullSnapshot(m, s), options, c)
    ensures (forall s', d :: Confirmed(m, blind, s, s', c) && Wanted(m, FullSnapshot(m, s'), options, d)
                             ==> Wanted(m, FullSnapshot(m, s), options, d))
            <==> !(blind && c.SetEnabled? && TaskAcl(m, c.path).Some?
                   && !Wanted(m, FullSnapshot(m, s), options, SetTaskSecurity(c.path)))
  {
    hide Wanted, Confirmed, FullSnapshot, StillWanted, TaskAcl, Inside, ValidManifest, WildFlag, Other;
    WantedIsStillWanted(m, options, s, c);
    if blind && c.SetEnabled? && TaskAcl(m, c.path).Some?
       && !Wanted(m, FullSnapshot(m, s), options, SetTaskSecurity(c.path)) {
      assert c.path in s.tasks by { WantedFlag(m, options, s, c); }
      var acl := Other(TaskAcl(m, c.path).value);
      WildFlagIsConfirmed(m, s, c.path, c.enabled, acl);
      WildFlagLeavesWork(m, options, s, c.path, c.enabled, acl);
    } else {
      forall s', d | Confirmed(m, blind, s, s', c) && Wanted(m, FullSnapshot(m, s'), options, d)
        ensures Wanted(m, FullSnapshot(m, s), options, d)
      {
        ConfirmedSettles(m, options, blind, s, s', c, d);
        if !Wanted(m, FullSnapshot(m, s), options, d) {
          WantedAcl(m, options, s', c.path);
        }
      }
    }
  }

  /** A run of the whole plan, every change of which was confirmed. */
  ghost predicate ConfirmedRun(m: Manifest, blind: bool, plan: seq<PlannedChange>, states: seq<State>) {
    && |states| == |plan| + 1
    && forall k :: 0 <= k < |plan| ==> Confirmed(m, blind, states[k], states[k + 1], plan[k].change)
  }

  lemma {:induction false} RunConverges(m: Manifest, options: PlanOptions, blind: bool, plan: seq<PlannedChange>,
                                        states: seq<State>, i: nat)
    requires ValidManifest(m) && Inside(m) && AllCompatible(plan) && !(blind && Exposed(m, plan))
    requires ConfirmedRun(m, blind, plan, states) && Converging(m, options, plan, 0, states[0])
    requires i <= |plan|
    ensures Converging(m, options, plan, i, states[i])
  {
    hide Converging, Confirmed, ExposedFlag, AllCompatible, Inside, ValidManifest;
    if i > 0 {
      RunConverges(m, options, blind, plan, states, i - 1);
      ConvergingAdvances(m, options, plan, i - 1, blind, states[i - 1], states[i]);
    }
  }

  /** The state in which a change has done what the manifest asks for, where a flag also left the descriptor `acl`. */
  function CarriedOut(m: Manifest, acl: Acl, s: State, c: Change): State {
    match c
    case CreateFolder(f) => s.(folders := s.folders[f := acl])
    case SetFolderSecurity(f) =>
      if FolderAcl(m, f).Some? then s.(folders := s.folders[f := FolderAcl(m, f).value]) else s
    case DeleteTask(p) => s.(tasks := s.tasks - {p})
    case SetEnabled(p, enabled) => if p in s.tasks then WildFlag(s, p, enabled, acl) else s
    case SetTaskSecurity(p) =>
      if p in s.tasks && TaskAcl(m, p).Some?
      then s.(tasks := s.tasks[p := s.tasks[p].(acl := TaskAcl(m, p).value)]) else s
    case _ =>
      var found := FindTask(m.tasks, c.path);
      if found.None? then s
      else s.(tasks := s.tasks[c.path := Task(OwnedDefinition(m, found.value),
                                              if TaskAcl(m, c.path).Some? then TaskAcl(m, c.path).value else acl)])
  }

  lemma CarriedOutIsConfirmed(m: Manifest, options: PlanOptions, acl: Acl, s: State, c: Change)
    requires StillWanted(m, options, s, c)
    ensures Confirmed(m, true, s, CarriedOut(m, acl, s, c), c)
  {
    hide Owned, MarkedSource, Marker, FullSnapshot, Required, WantedOnTask;
    var s', t := CarriedOut(m, acl, s, c), ChangeTarget(c);
    if c.SetEnabled? {
      WantedFlag(m, options, s, c);
      WildFlagIsConfirmed(m, s, c.path, c.enabled, acl);
    } else {
      var before, after := Blind(View(s, t)), Blind(View(s', t));
      assert Alike(true, View(s, t), before) && Sees(true, View(s', t), after);
      assert Achieved(m, c, before, after, View(s', t));
    }
  }

  /** From the exposed flag number `e` on, its descriptor stays wanted to the end of the run. */
  lemma {:induction false} ExposedRun(m: Manifest, options: PlanOptions, plan: seq<PlannedChange>, e: nat, i: nat,
                                      acl: Acl, s: State) returns (states: seq<State>)
    requires ValidManifest(m) && Inside(m) && AllCompatible(plan) && e < |plan| && i <= |plan|
    requires ExposedFlag(m, plan, plan[e].change) && Upcoming(m, options, plan, i, s)
    requires !AccessEquivalent(acl, TaskAcl(m, plan[e].change.path).value)
    requires i > e ==> Wanted(m, FullSnapshot(m, s), options, SetTaskSecurity(plan[e].change.path))
    ensures |states| == |plan| - i + 1 && states[0] == s
    ensures forall k :: i <= k < |plan| ==> Confirmed(m, true, states[k - i], states[k - i + 1], plan[k].change)
    ensures Wanted(m, FullSnapshot(m, states[|plan| - i]), options, SetTaskSecurity(plan[e].change.path))
    decreases |plan| - i
  {
    hide Wanted, FullSnapshot, Confirmed, Upcoming, AllCompatible, Inside, ValidManifest, CarriedOut, TaskAcl, AccessEquivalent;
    if i == |plan| {
      states := [s];
    } else {
      var c := plan[i].change;
      NowUpcoming(m, options, plan, i, s);
      CarriedOutIsConfirmed(m, options, acl, s, c);
      var s' := CarriedOut(m, acl, s, c);
      UpcomingAdvances(m, options, plan, i, true, s, s');
      if i >= e {
        WorkStaysLeft(m, options, plan, e, i, acl, s);
      }
      var rest := ExposedRun(m, options, plan, e, i + 1, acl, s');
      states := [s] + rest;
    }
  }

  lemma WorkStaysLeft(m: Manifest, options: PlanOptions, plan: seq<PlannedChange>, e: nat, i: nat, acl: Acl, s: State)
    requires Inside(m) && AllCompatible(plan) && e <= i < |plan| && StillWanted(m, options, s, plan[i].change)
    requires ExposedFlag(m, plan, plan[e].change)
    requires !AccessEquivalent(acl, TaskAcl(m, plan[e].change.path).value)
    requires i > e ==> Wanted(m, FullSnapshot(m, s), options, SetTaskSecurity(plan[e].change.path))
    ensures Wanted(m, FullSnapshot(m, CarriedOut(m, acl, s, plan[i].change)), options,
                   SetTaskSecurity(plan[e].change.path))
  {
    hide Wanted, FullSnapshot, TaskAcl, AccessEquivalent, Inside, OwnedDefinition, FindTask, FindFolder;
    var c, p := plan[i].change, plan[e].change.path;
    if i == e {
      WantedFlag(m, options, s, c);
      WildFlagLeavesWork(m, options, s, p, c.enabled, acl);
    } else {
      assert Compatible(plan[e].change, c) && Planned(plan, c);
      CarriedOutIsConfirmed(m, options, acl, s, c);
      WantedIsLocal(m, options, s, CarriedOut(m, acl, s, c), SetTaskSecurity(p));
    }
  }

  lemma LeftWorkUnsettles(m: Manifest, options: PlanOptions, s: State, c: Change)
    requires Wanted(m, FullSnapshot(m, s), options, c)
    ensures !Settled(m, options, s)
  {
    if m.namespace in s.folders {
      SnapshotIsFull(m, s);
    } else {
      assert Wanted(m, Snapshot(m, s), options, CreateFolder(m.namespace));
    }
  }

  /** Exactly when verified success is a fixpoint: every fully confirmed run of a plan, whatever its calls did at
      their targets, leaves nothing to plan, unless descriptors may go unread and the plan has an exposed flag;
      then some such run does not. */
  lemma FixpointExactly(m: Manifest, options: PlanOptions, blind: bool, plan: seq<PlannedChange>, s: State)
    requires ValidManifest(m) && Inside(m) && Tree(s)
    requires IsPlan(m, Snapshot(m, s), options, plan) && !Blocked(m, Snapshot(m, s), options)
    ensures (forall states :: ConfirmedRun(m, blind, plan, states) && states[0] == s
                              ==> Settled(m, options, states[|plan|]))
            <==> !(blind && Exposed(m, plan))
  {
    hide Converging, Confirmed, Settled, Snapshot, IsPlan, Blocked, Tree, ExposedFlag, TaskAcl, Wanted, FullSnapshot, Inside,
         ValidManifest, AllCompatible, Other, AccessEquivalent;
    PlansAreCompatible(m, Snapshot(m, s), options, plan);
    ConvergingStarts(m, options, plan, s);
    if blind && Exposed(m, plan) {
      var e :| 0 <= e < |plan| && ExposedFlag(m, plan, plan[e].change);
      var states := ExposedPlanRun(m, options, plan, e, s);
      LeftWorkUnsettles(m, options, states[|plan|], SetTaskSecurity(plan[e].change.path));
      assert ConfirmedRun(m, blind, plan, states) && states[0] == s;
    } else {
      forall states | ConfirmedRun(m, blind, plan, states) && states[0] == s
        ensures Settled(m, options, states[|plan|])
      {
        RunConverges(m, options, blind, plan, states, |plan|);
        ConvergedIsSettled(m, options, plan, states[|plan|]);
      }
    }
  }

  lemma ExposedPlanRun(m: Manifest, options: PlanOptions, plan: seq<PlannedChange>, e: nat, s: State)
    returns (states: seq<State>)
    requires ValidManifest(m) && Inside(m) && AllCompatible(plan) && Converging(m, options, plan, 0, s)
    requires e < |plan| && ExposedFlag(m, plan, plan[e].change)
    ensures plan[e].change.SetEnabled? && ConfirmedRun(m, true, plan, states) && states[0] == s
    ensures Wanted(m, FullSnapshot(m, states[|plan|]), options, SetTaskSecurity(plan[e].change.path))
  {
    hide Wanted, FullSnapshot, Confirmed, AllCompatible, Inside, ValidManifest, Upcoming, TaskAcl, AccessEquivalent, Other;
    states := ExposedRun(m, options, plan, e, 0, Other(TaskAcl(m, plan[e].change.path).value), s);
  }
}
