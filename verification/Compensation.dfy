/** The compensator inverts the executor: while calls are carried out faithfully, every planned change
    succeeds and achieves its goal, and its compensation calls succeed and lead back. */
module Compensation {
  import opened Wrappers
  import opened Paths
  import opened Scheduler
  import opened Manifests
  import opened Planning
  import opened Recovery
  import opened ApplySpec

  /** What prepare keeps so that a change of state `s` can be taken back. */
  ghost predicate Insured(P: Prepared, c: Change, s: State) {
    match c
    case CreateFolder(_) => true
    case CreateTask(_) => true
    case SetEnabled(p, _) =>
      p in P.enabledBackups && p in s.tasks && P.enabledBackups[p] == s.tasks[p].definition.enabled
    case SetTaskSecurity(p) => p in P.taskSecurity && p in s.tasks && P.taskSecurity[p] == s.tasks[p].acl
    case SetFolderSecurity(f) => f in P.folderSecurity && f in s.folders && P.folderSecurity[f] == s.folders[f]
    case _ =>
      var p := c.path;
      p in P.taskBackups && p in s.tasks
      && var (backup, task) := (P.taskBackups[p], s.tasks[p]);
         Stripped(backup.raw) == Stripped(task.definition) && backup.logon == task.definition.logon
         && backup.enabled == task.definition.enabled && backup.security == Some(task.acl)
         && (PasswordBacked(backup.logon) ==> backup.password)
  }

  /** A carried-out change whose compensation has all it needs: `pre` and `post` surround it. */
  ghost predicate Revocable(P: Prepared, c: Change, pre: State, post: State) {
    && Tree(pre) && OnlyTouches(pre, post, ChangeTarget(c)) && Insured(P, c, pre)
    && match c
       case CreateFolder(f) => f != [] && f !in pre.folders && f in post.folders
       case CreateTask(p) => p !in pre.tasks && p in post.tasks
       case SetEnabled(p, _) =>
         p in post.tasks && SemanticallyEqual(pre.tasks[p].definition, post.tasks[p].definition)
         && post.tasks[p].acl == pre.tasks[p].acl
       case SetTaskSecurity(p) =>
         p in post.tasks && SemanticallyEqual(pre.tasks[p].definition, post.tasks[p].definition)
         && post.tasks[p].definition.enabled == pre.tasks[p].definition.enabled
       case SetFolderSecurity(f) => f in post.folders
       case _ => true
  }

  lemma SightsCorrespond(a: State, b: State)
    requires SameWorld(false, a, b)
    ensures forall f :: f in a.folders <==> f in b.folders
    ensures forall p :: p in a.tasks <==> p in b.tasks
    ensures forall p :: p in a.tasks ==> SemanticallyEqual(a.tasks[p].definition, b.tasks[p].definition)
                                         && a.tasks[p].definition.enabled == b.tasks[p].definition.enabled
                                         && AccessEquivalent(a.tasks[p].acl, b.tasks[p].acl)
  {
    forall f ensures f in a.folders <==> f in b.folders {
      assert Alike(false, View(a, FolderTarget(f)), View(b, FolderTarget(f)));
    }
    forall p
      ensures p in a.tasks <==> p in b.tasks
      ensures p in a.tasks ==> SemanticallyEqual(a.tasks[p].definition, b.tasks[p].definition)
                               && a.tasks[p].definition.enabled == b.tasks[p].definition.enabled
                               && AccessEquivalent(a.tasks[p].acl, b.tasks[p].acl)
    {
      assert Alike(false, View(a, TaskTarget(p)), View(b, TaskTarget(p)));
      assert p in a.tasks && p in b.tasks ==>
        Stripped(a.tasks[p].definition) == Stripped(b.tasks[p].definition);
    }
  }

  lemma Untouched(a: State, b: State, t: Target)
    requires OnlyTouches(a, b, t)
    ensures forall f :: FolderTarget(f) != t ==> (f in a.folders <==> f in b.folders)
    ensures forall p :: TaskTarget(p) != t ==> (p in a.tasks <==> p in b.tasks)
  {
    forall f | FolderTarget(f) != t ensures f in a.folders <==> f in b.folders {
      assert View(a, FolderTarget(f)) == View(b, FolderTarget(f));
    }
    forall p | TaskTarget(p) != t ensures p in a.tasks <==> p in b.tasks {
      assert View(a, TaskTarget(p)) == View(b, TaskTarget(p));
    }
  }

  lemma TwoCalls(a: Call, b: Call, s: State, standard: Acl)
    ensures RunCalls([a, b], s, standard) == Effect(b, Effect(a, s, standard).0, standard).0
    ensures AllFine([a, b], s, standard)
            <==> Effect(a, s, standard).1.None? && Effect(b, Effect(a, s, standard).0, standard).1.None?
  {
    var s1 := Effect(a, s, standard).0;
    assert [a, b][1..] == [b] && [b][1..] == [];
    assert RunCalls([b], s1, standard) == Effect(b, s1, standard).0;
    assert AllFine([b], s1, standard) <==> Effect(b, s1, standard).1.None?;
  }

  lemma OneCallRuns(a: Call, s: State, standard: Acl)
    ensures RunCalls([a], s, standard) == Effect(a, s, standard).0
    ensures AllFine([a], s, standard) <==> Effect(a, s, standard).1.None?
  {
    assert [a][1..] == [];
  }

  lemma ThreeCalls(a: Call, b: Call, c: Call, s: State, standard: Acl)
    ensures RunCalls([a, b, c], s, standard)
            == Effect(c, Effect(b, Effect(a, s, standard).0, standard).0, standard).0
    ensures AllFine([a, b, c], s, standard)
            <==> Effect(a, s, standard).1.None? && Effect(b, Effect(a, s, standard).0, standard).1.None?
                 && Effect(c, Effect(b, Effect(a, s, standard).0, standard).0, standard).1.None?
  {
    assert [a, b, c][1..] == [b, c];
    TwoCalls(b, c, Effect(a, s, standard).0, standard);
  }

  /** Calls that concern one target keep everything else. */
  lemma {:induction false} RunIsLocal(calls: seq<Call>, s: State, standard: Acl, t: Target)
    requires forall c <- calls :: CallTarget(c) == t
    ensures OnlyTouches(s, RunCalls(calls, s, standard), t)
  {
    if calls != [] {
      EffectIsLocal(calls[0], s, standard);
      var s1 := Effect(calls[0], s, standard).0;
      RunIsLocal(calls[1..], s1, standard, t);
      var s2 := RunCalls(calls, s, standard);
      forall other | other != t ensures View(s, other) == View(s2, other) {
        assert View(s, other) == View(s1, other);
      }
    }
  }

  lemma FolderUndo(P: Prepared, f: FolderPath, pre: State, post: State, s: State, standard: Acl)
    requires Revocable(P, CreateFolder(f), pre, post) && SameWorld(false, post, s)
    ensures Effect(DropFolder(f), s, standard).1.None?
    ensures f !in Effect(DropFolder(f), s, standard).0.folders
  {
    SightsCorrespond(post, s);
    Untouched(pre, post, FolderTarget(f));
    forall p | p in s.tasks.Keys ensures p.folder != f {
      assert p in post.tasks && p in pre.tasks;
    }
    forall g | g in s.folders.Keys && g != [] ensures Parent(g) != f {
      assert g in post.folders;
      assert g != f ==> g in pre.folders;
    }
  }

  /** Registering a backup, restoring the enabled flag and the descriptor brings the backed-up task back. */
  lemma BackupRuns(p: TaskPath, k: TaskBackup, s: State, standard: Acl)
    requires p.folder in s.folders && k.security.Some? && (PasswordBacked(k.logon) ==> k.password)
    ensures var calls := [RegisterRaw(p, k.raw, k.logon, k.password), WriteEnabled(p, k.enabled),
                          WriteTaskSecurity(p, k.security.value)];
      AllFine(calls, s, standard)
      && View(RunCalls(calls, s, standard), TaskTarget(p))
         == TaskSeen(Stripped(k.raw.(enabled := k.enabled)), k.enabled, Some(k.security.value))
  {
    ThreeCalls(RegisterRaw(p, k.raw, k.logon, k.password), WriteEnabled(p, k.enabled),
               WriteTaskSecurity(p, k.security.value), s, standard);
    hide RunCalls, AllFine;
  }

  lemma ReplacementUndo(P: Prepared, c: Change, pre: State, post: State, s: State, standard: Acl)
    requires Replaces(c) && Revocable(P, c, pre, post) && SameWorld(false, post, s)
    ensures var undo := UndoCalls(c, P, false);
      undo.Ok? && AllFine(undo.value, s, standard)
      && Same(View(RunCalls(undo.value, s, standard), TaskTarget(c.path)), View(pre, TaskTarget(c.path)))
  {
    hide RunCalls, AllFine, SameWorld;
    var p := c.path;
    SightsCorrespond(post, s);
    Untouched(pre, post, TaskTarget(p));
    assert p.folder in s.folders;
    hide OnlyTouches, Tree;
    var k := P.taskBackups[p];
    BackupRuns(p, k, s, standard);
    assert [RegisterRaw(p, k.raw, k.logon, k.password), WriteEnabled(p, k.enabled)]
           + [WriteTaskSecurity(p, k.security.value)]
           == [RegisterRaw(p, k.raw, k.logon, k.password), WriteEnabled(p, k.enabled),
               WriteTaskSecurity(p, k.security.value)];
  }

  lemma CreationUndo(P: Prepared, p: TaskPath, pre: State, post: State, s: State, standard: Acl, stop: bool)
    requires Revocable(P, CreateTask(p), pre, post) && SameWorld(false, post, s)
    ensures var undo := UndoCalls(CreateTask(p), P, stop);
      AllFine(undo.value, s, standard) && p !in RunCalls(undo.value, s, standard).tasks
  {
    SightsCorrespond(post, s);
    OneCallRuns(DropTask(p), s, standard);
    TwoCalls(StopAll(p), DropTask(p), s, standard);
    assert [StopAll(p)] + [DropTask(p)] == [StopAll(p), DropTask(p)];
    assert [] + [DropTask(p)] == [DropTask(p)];
  }

  lemma FlagUndo(P: Prepared, c: Change, pre: State, post: State, s: State, standard: Acl)
    requires c.SetEnabled? && Revocable(P, c, pre, post) && SameWorld(false, post, s)
    ensures var (s', refused) := Effect(WriteEnabled(c.path, P.enabledBackups[c.path]), s, standard);
      refused.None? && Same(View(s', ChangeTarget(c)), View(pre, ChangeTarget(c)))
  {
    SightsCorrespond(post, s);
    hide SameWorld, OnlyTouches, Tree;
  }

  lemma AclUndo(P: Prepared, c: Change, pre: State, post: State, s: State, standard: Acl)
    requires c.SetTaskSecurity? && Revocable(P, c, pre, post) && SameWorld(false, post, s)
    ensures var (s', refused) := Effect(WriteTaskSecurity(c.path, P.taskSecurity[c.path]), s, standard);
      refused.None? && Same(View(s', ChangeTarget(c)), View(pre, ChangeTarget(c)))
  {
    SightsCorrespond(post, s);
    hide SameWorld, OnlyTouches, Tree;
  }

  lemma FolderAclUndo(P: Prepared, c: Change, pre: State, post: State, s: State, standard: Acl)
    requires c.SetFolderSecurity? && Revocable(P, c, pre, post) && SameWorld(false, post, s)
    ensures var (s', refused) := Effect(WriteFolderSecurity(c.folder, P.folderSecurity[c.folder]), s, standard);
      refused.None? && Same(View(s', ChangeTarget(c)), View(pre, ChangeTarget(c)))
  {
    SightsCorrespond(post, s);
    hide SameWorld, OnlyTouches, Tree;
  }

  lemma WriteUndo(P: Prepared, c: Change, pre: State, post: State, s: State, standard: Acl, stop: bool)
    requires c.SetEnabled? || c.SetTaskSecurity? || c.SetFolderSecurity?
    requires Revocable(P, c, pre, post) && SameWorld(false, post, s)
    ensures var undo := UndoCalls(c, P, stop);
      undo.Ok? && |undo.value| == 1 && AllFine(undo.value, s, standard)
      && Same(View(RunCalls(undo.value, s, standard), ChangeTarget(c)), View(pre, ChangeTarget(c)))
  {
    hide RunCalls, AllFine, Effect, View, Same, Tree, OnlyTouches, SameWorld;
    if c.SetEnabled? {
      FlagUndo(P, c, pre, post, s, standard);
    } else if c.SetTaskSecurity? {
      AclUndo(P, c, pre, post, s, standard);
    } else {
      FolderAclUndo(P, c, pre, post, s, standard);
    }
    OneCallRuns(UndoCalls(c, P, stop).value[0], s, standard);
  }

  lemma RevocableIsLocal(P: Prepared, c: Change, pre: State, post: State)
    requires Revocable(P, c, pre, post)
    ensures OnlyTouches(pre, post, ChangeTarget(c)) && (c.CreateFolder? ==> c.folder !in pre.folders)
            && (c.CreateTask? ==> c.path !in pre.tasks)
  {
  }

  /** Compensating a carried-out change, from any state that looks as that change left it, succeeds at
      every call and leads to a state that looks as it did before the change. */
  lemma UndoRestores(P: Prepared, c: Change, pre: State, post: State, s: State, standard: Acl, stop: bool)
    requires Revocable(P, c, pre, post) && SameWorld(false, post, s)
    ensures var undo := UndoCalls(c, P, stop);
      undo.Ok? && AllFine(undo.value, s, standard)
      && Same(View(RunCalls(undo.value, s, standard), ChangeTarget(c)), View(pre, ChangeTarget(c)))
      && SameWorld(false, pre, RunCalls(undo.value, s, standard))
  {
    hide SameWorld, Effect, Revocable;
    var t := ChangeTarget(c);
    RevocableIsLocal(P, c, pre, post);
    if c.CreateFolder? {
      FolderUndo(P, c.folder, pre, post, s, standard);
      OneCallRuns(DropFolder(c.folder), s, standard);
    } else if c.CreateTask? {
      CreationUndo(P, c.path, pre, post, s, standard, stop);
    } else if Replaces(c) {
      ReplacementUndo(P, c, pre, post, s, standard);
    } else {
      WriteUndo(P, c, pre, post, s, standard, stop);
    }
    var calls := UndoCalls(c, P, stop).value;
    RestoredBy(c, calls, pre, post, s, standard);
  }

  lemma RestoredBy(c: Change, calls: seq<Call>, pre: State, post: State, s: State, standard: Acl)
    requires OnlyTouches(pre, post, ChangeTarget(c)) && SameWorld(false, post, s)
    requires forall call <- calls :: CallTarget(call) == ChangeTarget(c)
    requires Same(View(RunCalls(calls, s, standard), ChangeTarget(c)), View(pre, ChangeTarget(c)))
    ensures SameWorld(false, pre, RunCalls(calls, s, standard))
  {
    var t := ChangeTarget(c);
    var s' := RunCalls(calls, s, standard);
    RunIsLocal(calls, s, standard, t);
    var u := Undo(c, View(pre, t), View(post, t));
    AlikeIsAnEquivalence(false, View(pre, t), View(pre, t), View(pre, t));
    AlikeIsAnEquivalence(false, View(post, t), View(post, t), View(post, t));
    ChainUnwinds(false, u, pre, post, s, s');
  }
}
