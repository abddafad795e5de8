/** The scheduler as a value: registered tasks, folders, what one call does to them and what
    an observer sees of one target.  It is modelled on the in-memory scheduler of the repository's fault
    tests, but refuses missing parents, existing folders and the deletion of folders that are not empty. */
module Scheduler {
  import opened Wrappers
  import opened Paths

  datatype ErrorKind =
    | NotFound | AlreadyExists | AccessDenied | SchedulerUnavailable
    | Authentication | Conflict | Irreversible | InvalidDefinition | InvalidPath

  datatype Result<+T> = Ok(value: T) | Err(error: ErrorKind)

  /** An access descriptor.  Two descriptors grant the same access when their normalized keys agree;
      the status bit of automatic inheritance is not part of the key. */
  datatype Acl = Acl(key: string, autoInherited: bool)

  predicate AccessEquivalent(left: Acl, right: Acl) { left.key == right.key }

  /** Nothing but that bit may differ. */
  lemma AccessEquivalence(left: Acl, right: Acl)
    ensures AccessEquivalent(left, right) <==> left.(autoInherited := right.autoInherited) == right
  {
  }

  datatype LogonType = NoLogon | Password | S4U | InteractiveToken | Group | ServiceAccount | InteractiveTokenOrPassword

  predicate PasswordBacked(logon: LogonType) { logon.Password? || logon.InteractiveTokenOrPassword? }

  /** A task definition: the registration fields that reconciliation reads, and the rest as one body. */
  datatype Definition = Definition(
    date: Option<string>, uri: Option<string>, source: Option<string>, security: Option<Acl>,
    enabled: bool, logon: LogonType, body: string)

  /** definitions_semantically_equal: registration date, access descriptor and enabled flag do not matter. */
  predicate SemanticallyEqual(left: Definition, right: Definition) {
    left.(date := None, security := None, enabled := true) == right.(date := None, security := None, enabled := true)
  }

  /** It is agreement in everything else. */
  lemma SemanticEquality(left: Definition, right: Definition)
    ensures SemanticallyEqual(left, right)
            <==> left.uri == right.uri && left.source == right.source && left.logon == right.logon
                 && left.body == right.body
  {
  }

  datatype Task = Task(definition: Definition, acl: Acl)
  datatype State = State(tasks: map<TaskPath, Task>, folders: map<FolderPath, Acl>)

  /** Every folder below the root has its parent, every task has its folder. */
  ghost predicate Tree(s: State) {
    && [] in s.folders
    && (forall f :: f in s.folders && f != [] ==> Parent(f) in s.folders)
    && (forall p :: p in s.tasks ==> p.folder in s.folders)
  }

  // ---- targets and what is seen of them ---------------------------------------------

  datatype Target = TaskTarget(path: TaskPath) | FolderTarget(folder: FolderPath)

  /** recovery.rs Observed. */
  datatype Observed =
    | Missing
    | TaskSeen(definition: Definition, enabled: bool, security: Option<Acl>)
    | FolderSeen(security: Option<Acl>)

  predicate SameSecurity(left: Option<Acl>, right: Option<Acl>) {
    match (left, right)
    case (Some(l), Some(r)) => AccessEquivalent(l, r)
    case (None, None) => true
    case _ => false
  }

  /** PartialEq of Observed. */
  predicate Same(left: Observed, right: Observed) {
    match (left, right)
    case (Missing, Missing) => true
    case (FolderSeen(l), FolderSeen(r)) => SameSecurity(l, r)
    case (TaskSeen(d, e, l), TaskSeen(d', e', r)) => d == d' && e == e' && SameSecurity(l, r)
    case _ => false
  }

  function Stripped(d: Definition): Definition { d.(date := None, security := None) }

  /** What a complete, undisturbed read of one target reports. */
  function View(s: State, t: Target): Observed {
    match t
    case TaskTarget(p) =>
      if p in s.tasks
      then TaskSeen(Stripped(s.tasks[p].definition), s.tasks[p].definition.enabled, Some(s.tasks[p].acl))
      else Missing
    case FolderTarget(f) => if f in s.folders then FolderSeen(Some(s.folders[f])) else Missing
  }

  /** The same sight without its access descriptor. */
  function Blind(o: Observed): Observed {
    match o
    case Missing => Missing
    case TaskSeen(d, e, _) => TaskSeen(d, e, None)
    case FolderSeen(_) => FolderSeen(None)
  }

  /** What an observation may report of a target: the truth, or the truth without a descriptor that
      could not be read, where the caller tolerates that. */
  predicate Sees(blind: bool, truth: Observed, seen: Observed) {
    seen == truth || (blind && seen == Blind(truth))
  }

  /** Agreement up to what Sees can tell apart. */
  predicate Alike(blind: bool, left: Observed, right: Observed) {
    if blind then Blind(left) == Blind(right) else Same(left, right)
  }

  ghost predicate SameWorld(blind: bool, left: State, right: State) {
    forall t :: Alike(blind, View(left, t), View(right, t))
  }

  ghost predicate OnlyTouches(before: State, after: State, t: Target) {
    forall other :: other != t ==> View(before, other) == View(after, other)
  }

  // ---- calls ------------------------------------------------------------------------

  /** The calls of the Backend trait that change something. */
  datatype Call =
    | Register(path: TaskPath, definition: Definition, create: bool, password: bool)
    | RegisterRaw(path: TaskPath, definition: Definition, logon: LogonType, password: bool)
    | MakeFolder(folder: FolderPath)
    | DropFolder(folder: FolderPath)
    | DropTask(path: TaskPath)
    | WriteEnabled(path: TaskPath, enabled: bool)
    | WriteTaskSecurity(path: TaskPath, acl: Acl)
    | WriteFolderSecurity(folder: FolderPath, acl: Acl)
    | StopAll(path: TaskPath)

  function CallTarget(c: Call): Target {
    match c
    case MakeFolder(f) => FolderTarget(f)
    case DropFolder(f) => FolderTarget(f)
    case WriteFolderSecurity(f, _) => FolderTarget(f)
    case _ => TaskTarget(c.path)
  }

  /** Storing a definition separates the descriptor from it; without one the scheduler supplies its default. */
  function Stored(d: Definition, standard: Acl): Task {
    Task(d.(security := None), if d.security.Some? then d.security.value else standard)
  }

  predicate Empty(s: State, f: FolderPath) {
    (forall p <- s.tasks.Keys :: p.folder != f) && (forall g <- s.folders.Keys :: g != [] ==> Parent(g) != f)
  }

  /** One call, carried out faithfully: the new state, and the error if the scheduler refuses it. */
  function Effect(c: Call, s: State, standard: Acl): (State, Option<ErrorKind>) {
    match c
    case Register(p, d, create, password) =>
      if PasswordBacked(d.logon) && !password then (s, Some(Authentication))
      else if p.folder !in s.folders then (s, Some(NotFound))
      else if create && p in s.tasks then (s, Some(AlreadyExists))
      else (s.(tasks := s.tasks[p := Stored(d, standard)]), None)
    case RegisterRaw(p, d, logon, password) =>
      if PasswordBacked(logon) && !password then (s, Some(Authentication))
      else if p.folder !in s.folders then (s, Some(NotFound))
      else (s.(tasks := s.tasks[p := Stored(d, standard)]), None)
    case MakeFolder(f) =>
      if f == [] then (s, Some(InvalidPath))
      else if Parent(f) !in s.folders then (s, Some(NotFound))
      else if f in s.folders then (s, Some(AlreadyExists))
      else (s.(folders := s.folders[f := standard]), None)
    case DropFolder(f) =>
      if f == [] then (s, Some(InvalidPath))
      else if f !in s.folders then (s, Some(NotFound))
      else if !Empty(s, f) then (s, Some(Conflict))
      else (s.(folders := s.folders - {f}), None)
    case DropTask(p) =>
      if p in s.tasks then (s.(tasks := s.tasks - {p}), None) else (s, Some(NotFound))
    case WriteEnabled(p, enabled) =>
      if p in s.tasks
      then (s.(tasks := s.tasks[p := s.tasks[p].(definition := s.tasks[p].definition.(enabled := enabled))]), None)
      else (s, Some(NotFound))
    case WriteTaskSecurity(p, acl) =>
      if p in s.tasks then (s.(tasks := s.tasks[p := s.tasks[p].(acl := acl)]), None) else (s, Some(NotFound))
    case WriteFolderSecurity(f, acl) =>
      if f in s.folders then (s.(folders := s.folders[f := acl]), None) else (s, Some(NotFound))
    case StopAll(_) => (s, None)
  }

  /** A call changes nothing but its own target, changes nothing when it is refused, and keeps the tree. */
  lemma EffectIsLocal(c: Call, s: State, standard: Acl)
    ensures var (s', refused) := Effect(c, s, standard);
      && OnlyTouches(s, s', CallTarget(c))
      && (refused.Some? ==> s' == s)
      && (Tree(s) ==> Tree(s'))
  {
    var (s', _) := Effect(c, s, standard);
    if Tree(s) && c.DropFolder? && s' != s {
      forall g | g in s'.folders && g != [] ensures Parent(g) in s'.folders {
        assert g in s.folders.Keys;
      }
      forall p | p in s'.tasks ensures p.folder in s'.folders {
        assert p in s.tasks.Keys;
      }
    }
  }

  // ---- Same and Alike are equivalences, and Sees refines them -------------------------

  lemma AlikeIsAnEquivalence(blind: bool, a: Observed, b: Observed, c: Observed)
    ensures Alike(blind, a, a)
    ensures Alike(blind, a, b) ==> Alike(blind, b, a)
    ensures Alike(blind, a, b) && Alike(blind, b, c) ==> Alike(blind, a, c)
    ensures Same(a, b) ==> Alike(blind, a, b)
  {
  }

  lemma SightsAgree(blind: bool, truth: Observed, seen: Observed)
    requires Sees(blind, truth, seen)
    ensures Alike(blind, truth, seen)
  {
  }

  /** What two equal observations prove about the two states observed: without tolerance everything, up to
      equivalent descriptors; with tolerance for unreadable descriptors everything but the descriptors. */
  lemma ObservationPower(blind: bool, a: Observed, b: Observed)
    ensures (exists seen, seen' :: Sees(blind, a, seen) && Sees(blind, b, seen') && Same(seen, seen'))
            <==> Alike(blind, a, b)
  {
    if Alike(blind, a, b) {
      var seen, seen' := if blind then Blind(a) else a, if blind then Blind(b) else b;
      assert Sees(blind, a, seen) && Sees(blind, b, seen') && Same(seen, seen');
    }
  }

  /** With tolerance, a changed descriptor can pass for an unchanged one. */
  lemma UnreadableDescriptorsHideChanges()
    ensures exists a, b, seen :: Sees(true, a, seen) && Sees(true, b, seen) && !Same(a, b)
  {
    var a, b := FolderSeen(Some(Acl("D:(A;;GA;;;SY)", false))), FolderSeen(Some(Acl("D:(A;;GR;;;SY)", false)));
    assert a.security.value.key[6] != b.security.value.key[6] || a.security.value.key[7] != b.security.value.key[7];
    assert Sees(true, a, FolderSeen(None)) && Sees(true, b, FolderSeen(None)) && !Same(a, b);
  }
}
