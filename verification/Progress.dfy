/** Why a plan can be carried out: each change finds what it needs when its turn comes. */
module Progress {
  import opened Wrappers
  import opened Paths
  import opened Scheduler
  import opened Ownership
  import opened Manifests
  import opened Planning
  import opened Recovery
  import opened ApplySpec
  import opened Compensation

  // ---- readiness ----------------------------------------------------------------------------

  /** A folder exists or one of the changes ahead creates it. */
  ghost predicate Coming(s: State, f: FolderPath, ahead: seq<PlannedChange>) {
    f in s.folders || Planned(ahead, CreateFolder(f))
  }

  /** Once the changes `ahead` have been carried out, `c` can be carried out and taken back. */
  ghost predicate Ready(m: Manifest, P: Prepared, s: State, c: Change, ahead: seq<PlannedChange>) {
    match c
    case CreateFolder(f) => f != [] && f !in s.folders && Coming(s, Parent(f), ahead)
    case DeleteTask(p) => p in s.tasks && Insured(P, c, s)
    case SetEnabled(p, _) => p in s.tasks && Insured(P, c, s)
    case SetTaskSecurity(p) => p in s.tasks && TaskAcl(m, p).Some? && Insured(P, c, s)
    case SetFolderSecurity(f) =>
      FolderAcl(m, f).Some? && Coming(s, f, ahead) && (f in P.folderSecurity ==> Insured(P, c, s))
    case CreateTask(p) => Registrable(m, P, p) && p !in s.tasks && Coming(s, p.folder, ahead)
    case UpdateTask(p) => Registrable(m, P, p) && p in s.tasks && Insured(P, c, s)
    case AdoptTask(p) => Registrable(m, P, p) && p in s.tasks && Insured(P, c, s)
  }

  /** The manifest describes the task, and its password is at hand if it needs one. */
  predicate Registrable(m: Manifest, P: Prepared, p: TaskPath) {
    var found := FindTask(m.tasks, p);
    found.Some? && (PasswordBacked(found.value.definition.logon) ==> p in P.desiredPasswords)
  }

  /** apply's last-minute note of a folder's descriptor. */
  function Noted(P: Prepared, c: Change, before: Observed): Prepared {
    if c.SetFolderSecurity? && before.FolderSeen? && before.security.Some? && c.folder !in P.folderSecurity
    then P.(folderSecurity := P.folderSecurity[c.folder := before.security.value])
    else P
  }

  predicate Registers(c: Change) { c.CreateTask? || c.UpdateTask? || c.AdoptTask? }

  /** The registration password is handed over and gone. */
  function Spent(P: Prepared, c: Change): Prepared {
    if Registers(c) then P.(desiredPasswords := P.desiredPasswords - {c.path}) else P
  }

  lemma NotingInsures(m: Manifest, P: Prepared, s: State, c: Change)
    requires Ready(m, P, s, c, [])
    ensures c.SetFolderSecurity? ==> c.folder in s.folders
    ensures var P' := Noted(P, c, View(s, ChangeTarget(c)));
      Insured(P', c, s) && Ready(m, P', s, c, [])
  {
  }

  lemma RegistrationSucceeds(m: Manifest, P: Prepared, s: State, c: Change, standard: Acl)
    requires Tree(s) && Registers(c) && Ready(m, P, s, c, [])
    ensures var call := Enactment(m, c, P);
      call.Ok? && var (s', refused) := Effect(call.value, s, standard);
      refused.None? && c.path in s'.tasks
      && Achieved(m, c, View(s, ChangeTarget(c)), View(s', ChangeTarget(c)), View(s', ChangeTarget(c)))
  {
  }

  /** A ready change, carried out faithfully, achieves its goal and can be taken back. */
  lemma ReadySucceeds(m: Manifest, P: Prepared, s: State, c: Change, standard: Acl)
    requires Tree(s) && Ready(m, P, s, c, []) && Insured(P, c, s)
    ensures var call := Enactment(m, c, P);
      call.Ok? && CallTarget(call.value) == ChangeTarget(c)
      && var (s', refused) := Effect(call.value, s, standard);
      && refused.None? && Tree(s') && OnlyTouches(s, s', ChangeTarget(c))
      && Achieved(m, c, View(s, ChangeTarget(c)), View(s', ChangeTarget(c)), View(s', ChangeTarget(c)))
      && Revocable(P, c, s, s')
  {
    if Registers(c) {
      RegistrationSucceeds(m, P, s, c, standard);
    }
    EffectIsLocal(Enactment(m, c, P).value, s, standard);
  }

  // ---- readiness of a whole plan ------------------------------------------------------------

  ghost predicate PlanAhead(m: Manifest, P: Prepared, plan: seq<PlannedChange>, i: nat, s: State) {
    forall k :: i <= k < |plan| ==> Ready(m, P, s, plan[k].change, plan[i..k])
  }

  /** Two planned changes share a target only as folder then descriptor, or enabled flag then descriptor. */
  predicate Compatible(c: Change, d: Change) {
    ChangeTarget(c) == ChangeTarget(d) ==>
      (c.CreateFolder? && d.SetFolderSecurity?) || (c.SetEnabled? && d.SetTaskSecurity?)
  }

  ghost predicate AllCompatible(plan: seq<PlannedChange>) {
    forall i, k :: 0 <= i < k < |plan| ==> Compatible(plan[i].change, plan[k].change)
  }

  lemma PlansAreCompatible(m: Manifest, current: CurrentState, options: PlanOptions, plan: seq<PlannedChange>)
    requires IsPlan(m, current, options, plan)
    ensures AllCompatible(plan)
  {
    hide TextLess, FolderText, TaskText, FindTask, FindFolder, Required, AclMissing, OwnedDefinition;
    forall i, k | 0 <= i < k < |plan| ensures Compatible(plan[i].change, plan[k].change) {
      var c, d := plan[i].change, plan[k].change;
      assert Planned(plan, c) && Planned(plan, d);
      KeyOrder(OrderKey(c), OrderKey(d), OrderKey(c));
    }
  }

  lemma PlannedAhead(plan: seq<PlannedChange>, i: nat, k: nat, c: Change)
    requires i < k <= |plan| && Planned(plan[i..k], c)
    ensures plan[i].change == c || Planned(plan[i + 1..k], c)
  {
    var j :| 0 <= j < |plan[i..k]| && plan[i..k][j].change == c;
    if j > 0 {
      assert plan[i + 1..k][j - 1].change == c;
    }
  }

  lemma ComingAdvances(s: State, s': State, plan: seq<PlannedChange>, i: nat, k: nat, f: FolderPath)
    requires i < k <= |plan| && Coming(s, f, plan[i..k])
    requires OnlyTouches(s, s', ChangeTarget(plan[i].change))
    requires plan[i].change.CreateFolder? || plan[i].change.SetFolderSecurity? ==> plan[i].change.folder in s'.folders
    ensures Coming(s', f, plan[i + 1..k])
  {
    Untouched(s, s', ChangeTarget(plan[i].change));
    if f !in s.folders {
      PlannedAhead(plan, i, k, CreateFolder(f));
    }
  }

  /** What changed between two prepared records while the change `c` was carried out. */
  ghost predicate Follows(P: Prepared, P': Prepared, c: Change) {
    && P'.taskBackups == P.taskBackups && P'.enabledBackups == P.enabledBackups && P'.taskSecurity == P.taskSecurity
    && (forall p :: p in P.desiredPasswords && TaskTarget(p) != ChangeTarget(c) ==> p in P'.desiredPasswords)
    && (forall f :: FolderTarget(f) != ChangeTarget(c) ==>
          (f in P'.folderSecurity <==> f in P.folderSecurity)
          && (f in P.folderSecurity ==> P'.folderSecurity[f] == P.folderSecurity[f]))
    && (!c.SetFolderSecurity? ==> P'.folderSecurity == P.folderSecurity)
  }

  lemma NotedAndSpentFollow(P: Prepared, c: Change, before: Observed)
    ensures Follows(P, Spent(Noted(P, c, before), c), c)
  {
  }

  lemma InsuredAdvances(P: Prepared, P': Prepared, c: Change, d: Change, s: State, s': State)
    requires Follows(P, P', c) && OnlyTouches(s, s', ChangeTarget(c)) && Compatible(c, d)
    requires Insured(P, d, s)
    requires c.SetEnabled? ==>
      c.path in s.tasks && c.path in s'.tasks && s'.tasks[c.path].acl == s.tasks[c.path].acl
    requires c.CreateFolder? ==> c.folder !in s.folders
    ensures Insured(P', d, s')
  {
    assert ChangeTarget(c) != ChangeTarget(d) ==> View(s, ChangeTarget(d)) == View(s', ChangeTarget(d));
  }

  lemma ReadyFollows(m: Manifest, P: Prepared, P': Prepared, plan: seq<PlannedChange>, i: nat, k: nat, s: State, s': State)
    requires i < k < |plan| && Compatible(plan[i].change, plan[k].change)
    requires Ready(m, P, s, plan[k].change, plan[i..k])
    requires OnlyTouches(s, s', ChangeTarget(plan[i].change)) && Follows(P, P', plan[i].change)
    requires Insured(P, plan[k].change, s) ==> Insured(P', plan[k].change, s')
    requires plan[i].change.CreateFolder? || plan[i].change.SetFolderSecurity? ==> plan[i].change.folder in s'.folders
    requires plan[i].change.SetEnabled? ==> plan[i].change.path in s'.tasks
    ensures Ready(m, P', s', plan[k].change, plan[i + 1..k])
  {
    var c, d := plan[i].change, plan[k].change;
    Untouched(s, s', ChangeTarget(c));
    match d {
      case CreateFolder(f) => ComingAdvances(s, s', plan, i, k, Parent(f));
      case SetFolderSecurity(f) => ComingAdvances(s, s', plan, i, k, f);
      case CreateTask(p) => ComingAdvances(s, s', plan, i, k, p.folder);
      case _ =>
    }
  }

  /** One carried-out change keeps every later change ready. */
  lemma ReadyAdvances(m: Manifest, P: Prepared, plan: seq<PlannedChange>, i: nat, k: nat, s: State, s': State)
    requires i < k < |plan| && Compatible(plan[i].change, plan[k].change)
    requires Ready(m, P, s, plan[k].change, plan[i..k])
    requires Revocable(Spent(Noted(P, plan[i].change, View(s, ChangeTarget(plan[i].change))), plan[i].change),
                       plan[i].change, s, s')
    ensures var P' := Spent(Noted(P, plan[i].change, View(s, ChangeTarget(plan[i].change))), plan[i].change);
      Ready(m, P', s', plan[k].change, plan[i + 1..k])
  {
    var c, d := plan[i].change, plan[k].change;
    var before := View(s, ChangeTarget(c));
    var P' := Spent(Noted(P, c, before), c);
    NotedAndSpentFollow(P, c, before);
    if Insured(P, d, s) {
      InsuredAdvances(P, P', c, d, s, s');
    }
    ReadyFollows(m, P, P', plan, i, k, s, s');
  }

  lemma PlanAdvances(m: Manifest, P: Prepared, plan: seq<PlannedChange>, i: nat, s: State, s': State)
    requires i < |plan| && AllCompatible(plan) && PlanAhead(m, P, plan, i, s)
    requires Revocable(Spent(Noted(P, plan[i].change, View(s, ChangeTarget(plan[i].change))), plan[i].change),
                       plan[i].change, s, s')
    ensures var P' := Spent(Noted(P, plan[i].change, View(s, ChangeTarget(plan[i].change))), plan[i].change);
      PlanAhead(m, P', plan, i + 1, s')
  {
    forall k | i + 1 <= k < |plan|
      ensures Ready(m, Spent(Noted(P, plan[i].change, View(s, ChangeTarget(plan[i].change))), plan[i].change),
                    s', plan[k].change, plan[i + 1..k])
    {
      ReadyAdvances(m, P, plan, i, k, s, s');
    }
  }

  // ---- the first step ---------------------------------------------------------------------------

  /** Every task lies in a folder of the namespace; see Planning.RequiredStaysInside. */
  ghost predicate Inside(m: Manifest) { forall t <- m.tasks :: m.namespace <= t.path.folder }

  /** A tree in which the namespace exists or can be created. */
  ghost predicate Habitable(m: Manifest, s: State) {
    Tree(s) && m.namespace != [] && (m.namespace in s.folders || Parent(m.namespace) in s.folders)
  }

  /** What a successful preparation has collected. */
  ghost predicate PreparedFor(m: Manifest, P: Prepared, plan: seq<PlannedChange>, s: State) {
    forall k :: 0 <= k < |plan| ==> PreparedForOne(m, P, plan[k].change, s)
  }

  ghost predicate PreparedForOne(m: Manifest, P: Prepared, c: Change, s: State) {
    (Registers(c) ==> Registrable(m, P, c.path))
    && (if c.SetFolderSecurity? then (c.folder in P.folderSecurity ==> Insured(P, c, s)) else Insured(P, c, s))
  }

  /** Nothing exists below a folder that does not exist. */
  lemma {:induction false} NothingBelow(s: State, top: FolderPath, f: FolderPath)
    requires Tree(s) && top !in s.folders && top <= f
    ensures f !in s.folders
    decreases |f|
  {
    if f != [] && f != top {
      assert top <= Parent(f);
      NothingBelow(s, top, Parent(f));
    }
  }

  /** Taking a planned change back needs a credential exactly if it replaces or deletes a task whose account is
      backed by a password. */
  lemma CredentialExactly(m: Manifest, options: PlanOptions, s: State, plan: seq<PlannedChange>, k: nat)
    requires Tree(s) && IsPlan(m, Snapshot(m, s), options, plan) && k < |plan|
    ensures var c := plan[k].change;
      plan[k].rollback.RequiresCredential?
      <==> (c.UpdateTask? || c.AdoptTask? || c.DeleteTask?) && c.path in s.tasks
           && (s.tasks[c.path].definition.logon.Password?
               || s.tasks[c.path].definition.logon.InteractiveTokenOrPassword?)
  {
    hide Snapshot, Owned, FindTask, OwnedDefinition, Tree, Ordered;
    SnapshotSees(m, s);
    var c := plan[k].change;
    assert plan[k].rollback == RollbackOf(Snapshot(m, s), c);
    assert Planned(plan, c);
    assert Wanted(m, Snapshot(m, s), options, c);
  }

  /** Inspection of a tree sees exactly what lies below the namespace. */
  lemma SnapshotSees(m: Manifest, s: State)
    requires Tree(s)
    ensures forall f :: m.namespace <= f ==> (f in Snapshot(m, s).folders <==> f in s.folders)
    ensures forall p :: p in Snapshot(m, s).tasks <==> p in s.tasks && m.namespace <= p.folder
    ensures forall p :: p in Snapshot(m, s).tasks ==> Snapshot(m, s).tasks[p] == SnapshotTask(m, p, s.tasks[p])
    ensures forall f :: f in Snapshot(m, s).folders ==>
      m.namespace <= f && Snapshot(m, s).folders[f] == (if FolderAcl(m, f).Some? then Some(s.folders[f]) else None)
  {
    if m.namespace !in s.folders {
      forall f | m.namespace <= f ensures f !in s.folders {
        NothingBelow(s, m.namespace, f);
      }
      forall p | p in s.tasks ensures !(m.namespace <= p.folder) {
        if m.namespace <= p.folder {
          NothingBelow(s, m.namespace, p.folder);
        }
      }
    }
  }

  lemma RequiredInside(m: Manifest, f: FolderPath)
    requires ValidManifest(m) && Inside(m) && Required(m, f)
    ensures m.namespace <= f
  {
    if f != m.namespace {
      if folder :| folder in m.folders && InClosure(f, folder.path, m.namespace) {
      } else {
        var t :| t in m.tasks && InClosure(f, t.path.folder, m.namespace);
      }
    }
  }

  lemma ReadyAtFirst(m: Manifest, P: Prepared, options: PlanOptions, plan: seq<PlannedChange>, s: State, k: nat)
    requires ValidManifest(m) && Inside(m) && Habitable(m, s)
    requires IsPlan(m, Snapshot(m, s), options, plan) && k < |plan|
    requires PreparedForOne(m, P, plan[k].change, s)
    ensures Ready(m, P, s, plan[k].change, plan[..k])
  {
    hide Ordered, RollbackOf, Required;
    var c := plan[k].change;
    assert Planned(plan, c);
    SnapshotSees(m, s);
    ParentsComeFirst(m, Snapshot(m, s), options, plan, k);
    match c {
      case CreateFolder(f) =>
        RequiredInside(m, f);
      case CreateTask(p) =>
      case SetFolderSecurity(f) =>
        FolderIsNotRoot(m, f);
      case _ =>
    }
  }

  lemma PlanStartsReady(m: Manifest, P: Prepared, options: PlanOptions, plan: seq<PlannedChange>, s: State)
    requires ValidManifest(m) && Inside(m) && Habitable(m, s)
    requires IsPlan(m, Snapshot(m, s), options, plan) && PreparedFor(m, P, plan, s)
    ensures PlanAhead(m, P, plan, 0, s) && AllCompatible(plan)
  {
    PlansAreCompatible(m, Snapshot(m, s), options, plan);
    forall k | 0 <= k < |plan| ensures Ready(m, P, s, plan[k].change, plan[0..k]) {
      ReadyAtFirst(m, P, options, plan, s, k);
      assert plan[0..k] == plan[..k];
    }
  }
}
