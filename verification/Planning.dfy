/** plan_state, required_folders and change_order (reconcile.rs): which changes a snapshot needs, and in which order. */
module Planning {
  import opened Wrappers
  import opened Paths
  import opened Scheduler
  import opened Ownership
  import opened Manifests

  datatype Change =
    | CreateFolder(folder: FolderPath)
    | CreateTask(path: TaskPath)
    | UpdateTask(path: TaskPath)
    | AdoptTask(path: TaskPath)
    | DeleteTask(path: TaskPath)
    | SetEnabled(path: TaskPath, enabled: bool)
    | SetTaskSecurity(path: TaskPath)
    | SetFolderSecurity(folder: FolderPath)

  /** same_target holds exactly when these agree. */
  function ChangeTarget(c: Change): Target {
    match c
    case CreateFolder(f) => FolderTarget(f)
    case SetFolderSecurity(f) => FolderTarget(f)
    case _ => TaskTarget(c.path)
  }

  datatype RollbackSafety = Reversible | RequiresCredential
  datatype PlannedChange = PlannedChange(change: Change, rollback: RollbackSafety)

  datatype CurrentTask = CurrentTask(definition: Definition, enabled: bool, owned: bool, passwordBacked: bool)
  datatype CurrentState = CurrentState(tasks: map<TaskPath, CurrentTask>, folders: map<FolderPath, Option<Acl>>)
  datatype PlanOptions = PlanOptions(prune: bool, adopt: bool)

  // ---- what is wanted ---------------------------------------------------------------

  /** A folder between a path and the namespace; a path outside the namespace reaches up to the root. */
  predicate InClosure(f: FolderPath, path: FolderPath, namespace: FolderPath) {
    f <= path && (namespace <= path ==> namespace <= f)
  }

  ghost predicate Required(m: Manifest, f: FolderPath) {
    f == m.namespace
    || (exists folder <- m.folders :: InClosure(f, folder.path, m.namespace))
    || (exists t <- m.tasks :: InClosure(f, t.path.folder, m.namespace))
  }

  predicate AclMissing(current: Option<Acl>, desired: Acl) {
    current.None? || !AccessEquivalent(current.value, desired)
  }

  /** The planner's per-task decision about a task that exists and is owned. */
  predicate WantedOnTask(existing: CurrentTask, d: Definition, c: Change) {
    match c
    case UpdateTask(_) => !SemanticallyEqual(existing.definition, d)
    case SetEnabled(_, enabled) =>
      SemanticallyEqual(existing.definition, d) && existing.enabled != d.enabled && enabled == d.enabled
    case SetTaskSecurity(_) =>
      SemanticallyEqual(existing.definition, d)
      && d.security.Some? && AclMissing(existing.definition.security, d.security.value)
    case _ => false
  }

  /** Which changes a snapshot calls for. */
  ghost predicate Wanted(m: Manifest, current: CurrentState, options: PlanOptions, c: Change) {
    match c
    case CreateFolder(f) => Required(m, f) && f !in current.folders
    case SetFolderSecurity(f) =>
      FolderAcl(m, f).Some?
      && AclMissing(if f in current.folders then current.folders[f] else None, FolderAcl(m, f).value)
    case DeleteTask(p) => options.prune && p in current.tasks && current.tasks[p].owned && !Desired(m, p)
    case _ =>
      var found := FindTask(m.tasks, c.path);
      found.Some?
      && (if c.path !in current.tasks then c.CreateTask?
          else if !current.tasks[c.path].owned then c.AdoptTask?
          else WantedOnTask(current.tasks[c.path], OwnedDefinition(m, found.value), c))
  }

  /** A desired path is taken by a task of somebody else and adoption was not authorized. */
  ghost predicate Blocked(m: Manifest, current: CurrentState, options: PlanOptions) {
    !options.adopt && exists t <- m.tasks :: t.path in current.tasks && !current.tasks[t.path].owned
  }

  function RollbackOf(current: CurrentState, c: Change): RollbackSafety {
    match c
    case UpdateTask(p) => TaskRollback(current, p)
    case AdoptTask(p) => TaskRollback(current, p)
    case DeleteTask(p) => TaskRollback(current, p)
    case _ => Reversible
  }

  function TaskRollback(current: CurrentState, p: TaskPath): RollbackSafety {
    if p in current.tasks && current.tasks[p].passwordBacked then RequiresCredential else Reversible
  }

  // ---- order ---------------------------------------------------------------------------

  /** Lexicographic order on texts. */
  predicate TextLess(a: string, b: string) {
    b != "" && (a == "" || a[0] < b[0] || (a[0] == b[0] && TextLess(a[1..], b[1..])))
  }

  lemma {:induction false} TextLessTotal(a: string, b: string)
    ensures TextLess(a, b) || a == b || TextLess(b, a)
    ensures !(TextLess(a, b) && TextLess(b, a)) && !TextLess(a, a)
  {
    if a != "" && b != "" {
      TextLessTotal(a[1..], b[1..]);
      assert a == [a[0]] + a[1..] && b == [b[0]] + b[1..];
    }
    if a != "" {
      TextLessTotal(a[1..], a[1..]);
    }
  }

  /** The texts agree up to some point, and there the first one ends or has the smaller character. */
  lemma {:induction false} TextLessExactly(a: string, b: string)
    ensures TextLess(a, b) <==> exists k: nat :: DiffersAt(a, b, k)
  {
    if a != "" && b != "" && a[0] == b[0] {
      TextLessExactly(a[1..], b[1..]);
      forall k: nat ensures DiffersAt(a[1..], b[1..], k) <==> DiffersAt(a, b, k + 1) {
        DiffersLater(a, b, k);
      }
      assert !DiffersAt(a, b, 0);
      if k: nat :| DiffersAt(a, b, k) {
        assert DiffersAt(a[1..], b[1..], k - 1);
      }
    } else {
      assert TextLess(a, b) ==> DiffersAt(a, b, 0);
      if k: nat :| DiffersAt(a, b, k) {
        StartsAlike(a, b, k);
      }
    }
  }

  lemma StartsAlike(a: string, b: string, k: nat)
    requires DiffersAt(a, b, k)
    ensures k > 0 ==> a != "" && b != "" && a[0] == b[0]
  {
    if k > 0 {
      assert a[..k][0] == b[..k][0];
    }
  }

  lemma DiffersLater(a: string, b: string, k: nat)
    requires a != "" && b != "" && a[0] == b[0]
    ensures DiffersAt(a[1..], b[1..], k) <==> DiffersAt(a, b, k + 1)
  {
    if k < |a| && k < |b| {
      assert a[..k + 1] == [a[0]] + a[1..][..k] && b[..k + 1] == [b[0]] + b[1..][..k];
      assert a[..k + 1][1..] == a[1..][..k] && b[..k + 1][1..] == b[1..][..k];
    }
  }

  ghost predicate DiffersAt(a: string, b: string, k: nat) {
    k <= |a| && k < |b| && a[..k] == b[..k] && (k == |a| || a[k] < b[k])
  }

  lemma {:induction false} TextLessTransitive(a: string, b: string, c: string)
    requires TextLess(a, b) && TextLess(b, c)
    ensures TextLess(a, c)
  {
    if a != "" && a[0] == b[0] == c[0] {
      TextLessTransitive(a[1..], b[1..], c[1..]);
    }
  }

  datatype Key = Key(rank: nat, depth: nat, text: string)

  /** change_order.  The source wraps the text of a deletion in Reverse and unwraps it again, so
      deletions are ordered upwards like everything else. */
  function OrderKey(c: Change): Key {
    match c
    case CreateFolder(f) => Key(0, |f|, FolderText(f))
    case CreateTask(p) => Key(1, 0, TaskText(p))
    case AdoptTask(p) => Key(2, 0, TaskText(p))
    case UpdateTask(p) => Key(3, 0, TaskText(p))
    case SetEnabled(p, _) => Key(4, 0, TaskText(p))
    case SetTaskSecurity(p) => Key(5, 0, TaskText(p))
    case SetFolderSecurity(f) => Key(5, |f|, FolderText(f))
    case DeleteTask(p) => Key(6, 0, TaskText(p))
  }

  predicate KeyLess(a: Key, b: Key) {
    a.rank < b.rank
    || (a.rank == b.rank && (a.depth < b.depth || (a.depth == b.depth && TextLess(a.text, b.text))))
  }

  lemma KeyOrder(a: Key, b: Key, c: Key)
    ensures KeyLess(a, b) || a == b || KeyLess(b, a)
    ensures !(KeyLess(a, b) && KeyLess(b, a)) && !KeyLess(a, a)
    ensures KeyLess(a, b) && KeyLess(b, c) ==> KeyLess(a, c)
  {
    TextLessTotal(a.text, b.text);
    TextLessTotal(a.text, a.text);
    if TextLess(a.text, b.text) && TextLess(b.text, c.text) {
      TextLessTransitive(a.text, b.text, c.text);
    }
  }

  /** The order distinguishes any two changes one snapshot can call for. */
  lemma OrderKeyInjective(m: Manifest, current: CurrentState, options: PlanOptions, c: Change, d: Change)
    requires ValidManifest(m)
    requires Wanted(m, current, options, c) && Wanted(m, current, options, d)
    requires OrderKey(c) == OrderKey(d)
    ensures c == d
  {
    match (ChangeTarget(c), ChangeTarget(d)) {
      case (TaskTarget(p), TaskTarget(q)) => TaskTextInjective(p, q);
      case (FolderTarget(f), FolderTarget(g)) => FolderTextInjective(f, g);
      case (TaskTarget(p), FolderTarget(g)) => FolderIsNotRoot(m, g);
      case (FolderTarget(f), TaskTarget(q)) => FolderIsNotRoot(m, f);
    }
  }

  lemma FolderIsNotRoot(m: Manifest, f: FolderPath)
    requires ValidManifest(m) && FolderAcl(m, f).Some?
    ensures f != [] && m.namespace <= f
  {
  }

  ghost predicate Ordered(changes: seq<PlannedChange>) {
    forall i, j :: 0 <= i < j < |changes| ==>
      KeyLess(OrderKey(changes[i].change), OrderKey(changes[j].change))
  }

  /** The kinds of change come in turn: folders are created, tasks created, adopted and updated, flags set, then
      descriptors, and deletions come last.  Tasks of one kind are in the order of their paths. */
  lemma KindsComeInTurn(changes: seq<PlannedChange>, i: nat, j: nat)
    requires Ordered(changes) && i < j < |changes|
    ensures var (c, d) := (changes[i].change, changes[j].change);
      && (d.CreateFolder? ==> c.CreateFolder?)
      && (d.CreateTask? ==> c.CreateFolder? || c.CreateTask?)
      && (d.AdoptTask? ==> c.CreateFolder? || c.CreateTask? || c.AdoptTask?)
      && (d.UpdateTask? ==> c.CreateFolder? || c.CreateTask? || c.AdoptTask? || c.UpdateTask?)
      && (d.SetEnabled? ==> !c.SetTaskSecurity? && !c.SetFolderSecurity? && !c.DeleteTask?)
      && (c.DeleteTask? ==> d.DeleteTask?)
      && ((c.CreateTask? && d.CreateTask?) || (c.AdoptTask? && d.AdoptTask?) || (c.UpdateTask? && d.UpdateTask?)
          || (c.DeleteTask? && d.DeleteTask?)
          ==> TextLess(FolderText(c.path.folder + [c.path.name]), FolderText(d.path.folder + [d.path.name])))
  {
    hide TextLess;
    assert KeyLess(OrderKey(changes[i].change), OrderKey(changes[j].change));
  }

  /** Stable insertion; stands for one step of the library's sort. */
  function Insert(c: PlannedChange, sorted: seq<PlannedChange>): seq<PlannedChange> {
    if sorted == [] || KeyLess(OrderKey(c.change), OrderKey(sorted[0].change)) then [c] + sorted
    else [sorted[0]] + Insert(c, sorted[1..])
  }

  function SortChanges(changes: seq<PlannedChange>): seq<PlannedChange> {
    if changes == [] then [] else Insert(changes[|changes| - 1], SortChanges(changes[..|changes| - 1]))
  }

  ghost predicate FreshKey(c: PlannedChange, changes: seq<PlannedChange>) {
    forall d <- changes :: OrderKey(d.change) != OrderKey(c.change)
  }

  lemma OrderedCons(c: PlannedChange, rest: seq<PlannedChange>)
    requires Ordered(rest) && forall d <- rest :: KeyLess(OrderKey(c.change), OrderKey(d.change))
    ensures Ordered([c] + rest)
  {
    hide KeyLess, OrderKey;
  }

  lemma {:induction false} InsertKeepsOrder(c: PlannedChange, sorted: seq<PlannedChange>)
    requires Ordered(sorted) && FreshKey(c, sorted)
    ensures Ordered(Insert(c, sorted))
    ensures forall d :: d in Insert(c, sorted) <==> d == c || d in sorted
    ensures |Insert(c, sorted)| == |sorted| + 1
  {
    hide KeyLess, OrderKey;
    if sorted != [] {
      var head, rest := sorted[0], sorted[1..];
      KeyOrder(OrderKey(c.change), OrderKey(head.change), OrderKey(c.change));
      assert sorted == [head] + rest;
      if KeyLess(OrderKey(c.change), OrderKey(head.change)) {
        forall d | d in sorted ensures KeyLess(OrderKey(c.change), OrderKey(d.change)) {
          KeyOrder(OrderKey(c.change), OrderKey(head.change), OrderKey(d.change));
        }
        OrderedCons(c, sorted);
      } else {
        InsertKeepsOrder(c, rest);
        OrderedCons(head, Insert(c, rest));
      }
    }
  }

  lemma {:induction false} SortingSorts(changes: seq<PlannedChange>)
    requires forall i, j :: 0 <= i < j < |changes| ==> OrderKey(changes[i].change) != OrderKey(changes[j].change)
    ensures Ordered(SortChanges(changes))
    ensures forall d :: d in SortChanges(changes) <==> d in changes
    ensures |SortChanges(changes)| == |changes|
  {
    if changes != [] {
      var last := changes[|changes| - 1];
      var init := changes[..|changes| - 1];
      assert changes == init + [last];
      SortingSorts(init);
      InsertKeepsOrder(last, SortChanges(init));
    }
  }

  // ---- the plan ----------------------------------------------------------------------------

  ghost predicate Planned(changes: seq<PlannedChange>, c: Change) {
    exists i :: 0 <= i < |changes| && changes[i].change == c
  }

  /** A complete plan: exactly the wanted changes, each with its rollback class, strictly ordered. */
  ghost predicate IsPlan(m: Manifest, current: CurrentState, options: PlanOptions, changes: seq<PlannedChange>) {
    && (forall c :: Planned(changes, c) <==> Wanted(m, current, options, c))
    && (forall p <- changes :: p.rollback == RollbackOf(current, p.change))
    && Ordered(changes)
  }

  lemma {:induction false} OrderedDetermines(a: seq<PlannedChange>, b: seq<PlannedChange>)
    requires Ordered(a) && Ordered(b)
    requires forall d :: d in a <==> d in b
    ensures a == b
  {
    assert forall i :: 0 <= i < |a| ==> a[i] in b;
    assert forall i :: 0 <= i < |b| ==> b[i] in a;
    if a != [] && b != [] {
      KeyOrder(OrderKey(a[0].change), OrderKey(b[0].change), OrderKey(a[0].change));
      assert a[0] == b[0];
      var a', b' := a[1..], b[1..];
      forall d ensures d in a' <==> d in b' {
        KeyOrder(OrderKey(a[0].change), OrderKey(a[0].change), OrderKey(a[0].change));
        assert d in a <==> d == a[0] || d in a';
        assert d in b <==> d == b[0] || d in b';
      }
      OrderedDetermines(a', b');
      assert a == [a[0]] + a' && b == [b[0]] + b';
    }
  }

  /** The plan is a function of what the manifest says, not of the order in which it says it: two
      manifests that list the same tasks and the same folders have the same plan. */
  lemma PlanIsCanonical(m: Manifest, m': Manifest, current: CurrentState, options: PlanOptions,
                        changes: seq<PlannedChange>, changes': seq<PlannedChange>)
    requires ValidManifest(m) && ValidManifest(m')
    requires m'.owner == m.owner && m'.namespace == m.namespace
    requires multiset(m'.tasks) == multiset(m.tasks) && multiset(m'.folders) == multiset(m.folders)
    requires IsPlan(m, current, options, changes) && IsPlan(m', current, options, changes')
    ensures changes == changes'
    ensures Blocked(m, current, options) <==> Blocked(m', current, options)
  {
    assert forall t :: t in m.tasks <==> t in multiset(m.tasks);
    assert forall t :: t in m'.tasks <==> t in multiset(m'.tasks);
    assert forall f :: f in m.folders <==> f in multiset(m.folders);
    assert forall f :: f in m'.folders <==> f in multiset(m'.folders);
    forall c: Change ensures Wanted(m, current, options, c) <==> Wanted(m', current, options, c) {
      SameWanted(m, m', current, options, c);
    }
    SamePlan(m, m', current, options, changes, changes');
  }

  lemma SameWanted(m: Manifest, m': Manifest, current: CurrentState, options: PlanOptions, c: Change)
    requires ValidManifest(m) && ValidManifest(m')
    requires m'.owner == m.owner && m'.namespace == m.namespace
    requires forall t :: t in m.tasks <==> t in m'.tasks
    requires forall f :: f in m.folders <==> f in m'.folders
    ensures Wanted(m, current, options, c) <==> Wanted(m', current, options, c)
  {
    hide Required, WantedOnTask, FindTask, FindFolder;
    SameLookups(m, m', c);
  }

  lemma SamePlan(m: Manifest, m': Manifest, current: CurrentState, options: PlanOptions,
                 changes: seq<PlannedChange>, changes': seq<PlannedChange>)
    requires IsPlan(m, current, options, changes) && IsPlan(m', current, options, changes')
    requires forall c: Change :: Wanted(m, current, options, c) <==> Wanted(m', current, options, c)
    ensures changes == changes'
  {
    forall d ensures d in changes <==> d in changes' {
      if d in changes {
        SameEntry(m, m', current, options, changes, changes', d);
      }
      if d in changes' {
        SameEntry(m', m, current, options, changes', changes, d);
      }
    }
    OrderedDetermines(changes, changes');
  }

  lemma SameEntry(m: Manifest, m': Manifest, current: CurrentState, options: PlanOptions,
                  changes: seq<PlannedChange>, changes': seq<PlannedChange>, d: PlannedChange)
    requires IsPlan(m, current, options, changes) && IsPlan(m', current, options, changes')
    requires forall c: Change :: Wanted(m, current, options, c) <==> Wanted(m', current, options, c)
    requires d in changes
    ensures d in changes'
  {
    var i :| 0 <= i < |changes| && changes[i] == d;
    assert changes[i].change == d.change;
    assert Planned(changes, d.change);
    assert Planned(changes', d.change);
    var j :| 0 <= j < |changes'| && changes'[j].change == d.change;
    assert changes'[j] in changes';
  }

  lemma SameLookups(m: Manifest, m': Manifest, c: Change)
    requires ValidManifest(m) && ValidManifest(m')
    requires m'.owner == m.owner && m'.namespace == m.namespace
    requires forall t :: t in m.tasks <==> t in m'.tasks
    requires forall f :: f in m.folders <==> f in m'.folders
    ensures match ChangeTarget(c)
            case TaskTarget(p) => FindTask(m.tasks, p) == FindTask(m'.tasks, p)
            case FolderTarget(f) => FindFolder(m.folders, f) == FindFolder(m'.folders, f)
    ensures forall f :: Required(m, f) <==> Required(m', f)
  {
    match ChangeTarget(c) {
      case TaskTarget(p) =>
        if FindTask(m.tasks, p).Some? {
          DesiredAgrees(m', FindTask(m.tasks, p).value);
        }
      case FolderTarget(f) =>
        if FindFolder(m.folders, f).Some? {
          FolderAgrees(m', FindFolder(m.folders, f).value);
        }
    }
  }

  /** Folders come before what they hold: the parent of a folder to be created, and the folder of a
      task to be created, exists already or is created earlier in the plan. */
  lemma ParentsComeFirst(m: Manifest, current: CurrentState, options: PlanOptions,
                         changes: seq<PlannedChange>, k: nat)
    requires ValidManifest(m) && IsPlan(m, current, options, changes) && k < |changes|
    ensures match changes[k].change
      case CreateFolder(f) =>
        f != [] && f != m.namespace ==>
          Parent(f) in current.folders || Planned(changes[..k], CreateFolder(Parent(f)))
      case CreateTask(p) => p.folder in current.folders || Planned(changes[..k], CreateFolder(p.folder))
      case SetFolderSecurity(f) => f in current.folders || Planned(changes[..k], CreateFolder(f))
      case _ => true
  {
    assert changes[k].change == changes[k].change;
    assert Planned(changes, changes[k].change);
    match changes[k].change {
      case CreateFolder(f) =>
        if f != [] && f != m.namespace {
          ClosureHasParents(m, f);
          EarlierFolder(m, current, options, changes, k, Parent(f));
        }
      case CreateTask(p) =>
        assert InClosure(p.folder, FindTask(m.tasks, p).value.path.folder, m.namespace);
        EarlierFolder(m, current, options, changes, k, p.folder);
      case SetFolderSecurity(f) =>
        assert InClosure(f, FindFolder(m.folders, f).value.path, m.namespace);
        EarlierFolder(m, current, options, changes, k, f);
      case _ =>
    }
  }

  lemma EarlierFolder(m: Manifest, current: CurrentState, options: PlanOptions,
                      changes: seq<PlannedChange>, k: nat, f: FolderPath)
    requires IsPlan(m, current, options, changes) && k < |changes|
    requires Required(m, f)
    requires KeyLess(OrderKey(CreateFolder(f)), OrderKey(changes[k].change))
    ensures f in current.folders || Planned(changes[..k], CreateFolder(f))
  {
    if f !in current.folders {
      assert Wanted(m, current, options, CreateFolder(f));
      var i :| 0 <= i < |changes| && changes[i].change == CreateFolder(f);
      KeyOrder(OrderKey(changes[i].change), OrderKey(changes[k].change), OrderKey(changes[k].change));
      assert changes[..k][i].change == CreateFolder(f);
    }
  }

  /** Every required folder but the namespace has a required parent. */
  lemma ClosureHasParents(m: Manifest, f: FolderPath)
    requires Required(m, f) && f != [] && f != m.namespace
    ensures Required(m, Parent(f))
    ensures KeyLess(OrderKey(CreateFolder(Parent(f))), OrderKey(CreateFolder(f)))
  {
    if folder :| folder in m.folders && InClosure(f, folder.path, m.namespace) {
      assert InClosure(Parent(f), folder.path, m.namespace);
    } else {
      var t :| t in m.tasks && InClosure(f, t.path.folder, m.namespace);
      assert InClosure(Parent(f), t.path.folder, m.namespace);
    }
  }

  /** required_folders stays inside the namespace exactly when no task has the namespace's own path;
      such a task passes validation although it lies in the folder above. */
  lemma RequiredStaysInside(m: Manifest)
    requires ValidManifest(m)
    ensures (forall f :: Required(m, f) ==> m.namespace <= f)
            <==> (forall t <- m.tasks :: Full(t.path) != m.namespace)
  {
    forall t | t in m.tasks
      ensures Full(t.path) == m.namespace <==> !(m.namespace <= t.path.folder)
    {
      assert t.path.folder == Full(t.path)[..|t.path.folder|];
    }
    if t :| t in m.tasks && Full(t.path) == m.namespace {
      assert InClosure([], t.path.folder, m.namespace);
      assert Required(m, []);
    }
  }

  // ---- the planner ---------------------------------------------------------------------------

  /** required_folders: climb from every folder to the namespace, or to the root when it is never met. */
  method RequiredFolders(m: Manifest) returns (folders: set<FolderPath>)
    ensures forall f :: f in folders <==> Required(m, f)
  {
    folders := {m.namespace};
    for i := 0 to |m.folders|
      invariant forall f :: f in folders <==>
        f == m.namespace || exists j :: 0 <= j < i && InClosure(f, m.folders[j].path, m.namespace)
    {
      var above := Climb(m.folders[i].path, m.namespace);
      folders := folders + above;
    }
    ghost var base := folders;
    for i := 0 to |m.tasks|
      invariant forall f :: f in folders <==>
        f in base || exists j :: 0 <= j < i && InClosure(f, m.tasks[j].path.folder, m.namespace)
    {
      var above := Climb(m.tasks[i].path.folder, m.namespace);
      folders := folders + above;
    }
  }

  method Climb(path: FolderPath, namespace: FolderPath) returns (folders: set<FolderPath>)
    ensures forall f :: f in folders <==> InClosure(f, path, namespace)
  {
    folders := {};
    var cursor := path;
    while true
      invariant cursor <= path && (namespace <= path ==> namespace <= cursor)
      invariant forall f :: f in folders <==> f <= path && |cursor| < |f|
      decreases |cursor|
    {
      folders := folders + {cursor};
      assert forall f :: f <= path && |f| == |cursor| ==> f == cursor;
      if cursor == namespace || cursor == [] {
        break;
      }
      cursor := Parent(cursor);
    }
  }

  /** No change twice, and every one of them wanted. */
  ghost predicate Proper(m: Manifest, current: CurrentState, options: PlanOptions, changes: seq<PlannedChange>) {
    && (forall i, j :: 0 <= i < j < |changes| ==> changes[i].change != changes[j].change)
    && (forall p <- changes :: Wanted(m, current, options, p.change)
                               && p.rollback == RollbackOf(current, p.change))
  }

  /** Pushing one wanted change that is not there yet. */
  method Push(m: Manifest, current: CurrentState, options: PlanOptions,
              changes: seq<PlannedChange>, c: Change, rollback: RollbackSafety) returns (more: seq<PlannedChange>)
    requires Proper(m, current, options, changes)
    requires Wanted(m, current, options, c) && !Planned(changes, c) && rollback == RollbackOf(current, c)
    ensures Proper(m, current, options, more)
    ensures forall d :: Planned(more, d) <==> Planned(changes, d) || d == c
  {
    more := changes + [PlannedChange(c, rollback)];
    forall d ensures Planned(more, d) <==> Planned(changes, d) || d == c {
      if Planned(changes, d) {
        var i :| 0 <= i < |changes| && changes[i].change == d;
        assert more[i].change == d;
      }
      if d == c {
        assert more[|changes|].change == d;
      }
    }
    assert forall i :: 0 <= i < |changes| ==> Planned(changes, changes[i].change);
  }

  method PlanFolders(m: Manifest, current: CurrentState, options: PlanOptions) returns (changes: seq<PlannedChange>)
    ensures Proper(m, current, options, changes)
    ensures forall c :: Planned(changes, c) <==> c.CreateFolder? && Wanted(m, current, options, c)
  {
    changes := [];
    var folders := RequiredFolders(m);
    var remaining := folders;
    while remaining != {}
      invariant remaining <= folders
      invariant Proper(m, current, options, changes)
      invariant forall c: Change ::
        Planned(changes, c) <==>
        c.CreateFolder? && Wanted(m, current, options, c) && c.folder !in remaining
      decreases remaining
    {
      var folder :| folder in remaining;
      assert folder in folders;
      if folder !in current.folders {
        changes := Push(m, current, options, changes, CreateFolder(folder), Reversible);
      }
      remaining := remaining - {folder};
    }
  }

  predicate OnTask(c: Change, path: TaskPath) {
    !c.CreateFolder? && !c.SetFolderSecurity? && !c.DeleteTask? && c.path == path
  }

  /** The body of the task loop: nothing, one replacement, or up to two finer changes. */
  method PlanTask(m: Manifest, current: CurrentState, options: PlanOptions,
                  before: seq<PlannedChange>, desired: ManagedTask) returns (changes: Result<seq<PlannedChange>>)
    requires FindTask(m.tasks, desired.path) == Some(desired)
    requires Proper(m, current, options, before)
    requires forall c :: OnTask(c, desired.path) ==> !Planned(before, c)
    ensures changes.Err? <==> !options.adopt && desired.path in current.tasks && !current.tasks[desired.path].owned
    ensures changes.Err? ==> changes.error == Conflict
    ensures changes.Ok? ==> Proper(m, current, options, changes.value)
    ensures changes.Ok? ==> forall c: Change ::
      Planned(changes.value, c) <==>
      Planned(before, c) || (OnTask(c, desired.path) && Wanted(m, current, options, c))
  {
    hide Proper, Planned, OwnedDefinition, SemanticallyEqual, Required, FindFolder, AclMissing;
    var path := desired.path;
    var d := OwnedDefinition(m, desired);
    if path !in current.tasks {
      var next := Push(m, current, options, before, CreateTask(path), Reversible);
      return Ok(next);
    }
    var existing := current.tasks[path];
    if !existing.owned && !options.adopt {
      return Err(Conflict);
    }
    if !existing.owned {
      var next := Push(m, current, options, before, AdoptTask(path), TaskRollback(current, path));
      return Ok(next);
    }
    if !SemanticallyEqual(existing.definition, d) {
      var next := Push(m, current, options, before, UpdateTask(path), TaskRollback(current, path));
      return Ok(next);
    }
    var next := before;
    if existing.enabled != d.enabled {
      next := Push(m, current, options, next, SetEnabled(path, d.enabled), Reversible);
    }
    if d.security.Some? && AclMissing(existing.definition.security, d.security.value) {
      next := Push(m, current, options, next, SetTaskSecurity(path), Reversible);
    }
    return Ok(next);
  }

  method PlanFolderSecurity(m: Manifest, current: CurrentState, options: PlanOptions, before: seq<PlannedChange>)
    returns (changes: seq<PlannedChange>)
    requires ValidManifest(m)
    requires Proper(m, current, options, before)
    requires forall c: Change :: c.SetFolderSecurity? ==> !Planned(before, c)
    ensures Proper(m, current, options, changes)
    ensures forall c: Change ::
      Planned(changes, c) <==>
      Planned(before, c) || (c.SetFolderSecurity? && Wanted(m, current, options, c))
  {
    changes := before;
    for i := 0 to |m.folders|
      invariant Proper(m, current, options, changes)
      invariant forall c: Change ::
        Planned(changes, c) <==>
        Planned(before, c)
             || (c.SetFolderSecurity? && Wanted(m, current, options, c)
                 && exists j :: 0 <= j < i && m.folders[j].path == c.folder)
    {
      var desired := m.folders[i];
      FolderAgrees(m, desired);
      if desired.security.Some? {
        var there := if desired.path in current.folders then current.folders[desired.path] else None;
        if AclMissing(there, desired.security.value) {
          changes := Push(m, current, options, changes, SetFolderSecurity(desired.path), Reversible);
        }
      }
    }
  }

  method PlanPrune(m: Manifest, current: CurrentState, options: PlanOptions, before: seq<PlannedChange>)
    returns (changes: seq<PlannedChange>)
    requires Proper(m, current, options, before)
    requires forall c: Change :: c.DeleteTask? ==> !Planned(before, c)
    ensures Proper(m, current, options, changes)
    ensures forall c: Change ::
      Planned(changes, c) <==>
      Planned(before, c) || (c.DeleteTask? && Wanted(m, current, options, c))
  {
    changes := before;
    if options.prune {
      var remaining := current.tasks.Keys;
      while remaining != {}
        invariant remaining <= current.tasks.Keys
        invariant Proper(m, current, options, changes)
        invariant forall c: Change ::
          Planned(changes, c) <==>
          Planned(before, c)
               || (c.DeleteTask? && Wanted(m, current, options, c) && c.path !in remaining)
        decreases remaining
      {
        var path :| path in remaining;
        if current.tasks[path].owned && !Desired(m, path) {
          changes := Push(m, current, options, changes, DeleteTask(path), TaskRollback(current, path));
        }
        remaining := remaining - {path};
      }
    }
  }

  /** plan_state: fails on an invalid manifest or on somebody else's task, and otherwise returns the plan. */
  method PlanState(m: Manifest, current: CurrentState, options: PlanOptions)
    returns (r: Result<seq<PlannedChange>>)
    ensures r.Ok? <==> ValidManifest(m) && !Blocked(m, current, options)
    ensures r.Ok? ==> IsPlan(m, current, options, r.value)
    ensures r.Err? ==> r.error == (if ValidManifest(m) then Conflict else InvalidDefinition)
  {
    hide Required, WantedOnTask, OwnedDefinition, Proper, IsPlan;
    var valid := Validate(m);
    if !valid {
      return Err(InvalidDefinition);
    }
    var folders := PlanFolders(m, current, options);
    var changes := folders;
    for i := 0 to |m.tasks|
      invariant Proper(m, current, options, changes)
      invariant forall c: Change ::
        Planned(changes, c) <==>
        Planned(folders, c)
             || exists j :: 0 <= j < i && OnTask(c, m.tasks[j].path) && Wanted(m, current, options, c)
      invariant forall j :: 0 <= j < i ==>
        options.adopt || m.tasks[j].path !in current.tasks || current.tasks[m.tasks[j].path].owned
    {
      DesiredAgrees(m, m.tasks[i]);
      var more := PlanTask(m, current, options, changes, m.tasks[i]);
      if more.Err? {
        return Err(more.error);
      }
      changes := more.value;
    }
    ghost var tasks := changes;
    changes := PlanFolderSecurity(m, current, options, changes);
    changes := PlanPrune(m, current, options, changes);
    forall c: Change | Wanted(m, current, options, c) && !c.CreateFolder? && !c.SetFolderSecurity? && !c.DeleteTask?
      ensures Planned(tasks, c)
    {
      var j := WantedIsOnATask(m, current, options, c);
      assert OnTask(c, m.tasks[j].path);
    }
    FinishPlan(m, current, options, changes);
    r := Ok(SortChanges(changes));
  }

  lemma WantedIsOnATask(m: Manifest, current: CurrentState, options: PlanOptions, c: Change) returns (j: nat)
    requires Wanted(m, current, options, c) && !c.CreateFolder? && !c.SetFolderSecurity? && !c.DeleteTask?
    ensures j < |m.tasks| && OnTask(c, m.tasks[j].path)
  {
    hide WantedOnTask, OwnedDefinition;
    var t := FindTask(m.tasks, c.path).value;
    j :| 0 <= j < |m.tasks| && m.tasks[j] == t;
  }

  lemma FinishPlan(m: Manifest, current: CurrentState, options: PlanOptions, changes: seq<PlannedChange>)
    requires ValidManifest(m) && Proper(m, current, options, changes)
    requires forall c :: Planned(changes, c) <==> Wanted(m, current, options, c)
    ensures IsPlan(m, current, options, SortChanges(changes))
  {
    forall i, j | 0 <= i < j < |changes|
      ensures OrderKey(changes[i].change) != OrderKey(changes[j].change)
    {
      if OrderKey(changes[i].change) == OrderKey(changes[j].change) {
        assert changes[i] in changes && changes[j] in changes;
        OrderKeyInjective(m, current, options, changes[i].change, changes[j].change);
      }
    }
    SortingSorts(changes);
    var sorted := SortChanges(changes);
    forall c ensures Planned(sorted, c) <==> Planned(changes, c) {
      if Planned(sorted, c) {
        var i :| 0 <= i < |sorted| && sorted[i].change == c;
        assert sorted[i] in changes;
        var j :| 0 <= j < |changes| && changes[j] == sorted[i];
        assert changes[j].change == c;
      }
      if Planned(changes, c) {
        var i :| 0 <= i < |changes| && changes[i].change == c;
        assert changes[i] in sorted;
        var j :| 0 <= j < |sorted| && sorted[j] == changes[i];
        assert sorted[j].change == c;
      }
    }
  }
}
