/** Desired state (manifest.rs) and the definition that is registered for it. */
module Manifests {
  import opened Wrappers
  import opened Paths
  import opened Scheduler
  import opened Ownership

  const FORMAT_VERSION := 1

  /** `accepted` is the verdict of the portable definition validator. */
  datatype ManagedTask = ManagedTask(path: TaskPath, definition: Definition, accepted: bool)
  datatype ManagedFolder = ManagedFolder(path: FolderPath, security: Option<Acl>)
  datatype Manifest = Manifest(
    formatVersion: nat, owner: Uuid, namespace: FolderPath,
    folders: seq<ManagedFolder>, tasks: seq<ManagedTask>)

  ghost predicate DistinctFolders(folders: seq<ManagedFolder>) {
    forall i, j :: 0 <= i < j < |folders| ==> folders[i].path != folders[j].path
  }

  ghost predicate DistinctTasks(tasks: seq<ManagedTask>) {
    forall i, j :: 0 <= i < j < |tasks| ==> tasks[i].path != tasks[j].path
  }

  /** What a manifest without error diagnostics guarantees. */
  ghost predicate ValidManifest(m: Manifest) {
    && m.formatVersion == 1
    && m.namespace != []
    && (forall f <- m.folders :: m.namespace <= f.path)
    && DistinctFolders(m.folders)
    && (forall t <- m.tasks :: m.namespace <= Full(t.path) && t.accepted)
    && DistinctTasks(m.tasks)
  }

  ghost predicate FoldersFine(namespace: FolderPath, folders: seq<ManagedFolder>) {
    (forall f <- folders :: namespace <= f.path) && DistinctFolders(folders)
  }

  ghost predicate TasksFine(namespace: FolderPath, tasks: seq<ManagedTask>) {
    (forall t <- tasks :: namespace <= Full(t.path) && t.accepted) && DistinctTasks(tasks)
  }

  lemma OneMoreFolder(namespace: FolderPath, folders: seq<ManagedFolder>, f: ManagedFolder)
    ensures FoldersFine(namespace, folders + [f])
            <==> FoldersFine(namespace, folders) && namespace <= f.path && forall g <- folders :: g.path != f.path
  {
    var more := folders + [f];
    assert more[|folders|] == f && forall i :: 0 <= i < |folders| ==> more[i] == folders[i];
    assert forall g :: g in more <==> g in folders || g == f;
    if FoldersFine(namespace, more) {
      assert forall i :: 0 <= i < |folders| ==> more[i].path != more[|folders|].path;
    }
  }

  lemma OneMoreTask(namespace: FolderPath, tasks: seq<ManagedTask>, t: ManagedTask)
    ensures TasksFine(namespace, tasks + [t])
            <==> TasksFine(namespace, tasks) && namespace <= Full(t.path) && t.accepted
                 && forall u <- tasks :: u.path != t.path
  {
    var more := tasks + [t];
    assert more[|tasks|] == t && forall i :: 0 <= i < |tasks| ==> more[i] == tasks[i];
    assert forall u :: u in more <==> u in tasks || u == t;
    if TasksFine(namespace, more) {
      assert forall i :: 0 <= i < |tasks| ==> more[i].path != more[|tasks|].path;
    }
  }

  /** The folder loop of validate: containment, on texts, and uniqueness. */
  method ValidateFolders(namespace: FolderPath, folders: seq<ManagedFolder>) returns (valid: bool)
    requires namespace != []
    ensures valid <==> FoldersFine(namespace, folders)
  {
    hide FoldersFine, WithinNamespace, FolderText;
    NothingIsFine(namespace);
    valid := true;
    var paths: set<FolderPath> := {};
    for i := 0 to |folders|
      invariant forall path :: path in paths <==> exists f <- folders[..i] :: f.path == path
      invariant valid <==> FoldersFine(namespace, folders[..i])
    {
      var path := folders[i].path;
      WithinNamespaceIsContainment(namespace, path);
      OneMoreFolder(namespace, folders[..i], folders[i]);
      assert folders[..i + 1] == folders[..i] + [folders[i]];
      if !WithinNamespace(FolderText(path), FolderText(namespace)) || path in paths {
        valid := false;
      }
      paths := paths + {path};
    }
    assert folders[..|folders|] == folders;
  }

  /** The task loop of validate; a diagnostic of the definition itself also rejects the manifest. */
  method ValidateTasks(namespace: FolderPath, tasks: seq<ManagedTask>) returns (valid: bool)
    requires namespace != []
    ensures valid <==> TasksFine(namespace, tasks)
  {
    hide TasksFine, WithinNamespace, TaskText, FolderText;
    NothingIsFine(namespace);
    valid := true;
    var paths: set<TaskPath> := {};
    for i := 0 to |tasks|
      invariant forall path :: path in paths <==> exists t <- tasks[..i] :: t.path == path
      invariant valid <==> TasksFine(namespace, tasks[..i])
    {
      var path := tasks[i].path;
      TaskTextIsFull(path);
      WithinNamespaceIsContainment(namespace, Full(path));
      OneMoreTask(namespace, tasks[..i], tasks[i]);
      assert tasks[..i + 1] == tasks[..i] + [tasks[i]];
      if !WithinNamespace(TaskText(path), FolderText(namespace)) || path in paths || !tasks[i].accepted {
        valid := false;
      }
      paths := paths + {path};
    }
    assert tasks[..|tasks|] == tasks;
  }

  lemma TaskTextIsFull(path: TaskPath)
    ensures TaskText(path) == FolderText(Full(path))
  {
  }

  lemma NothingIsFine(namespace: FolderPath)
    ensures FoldersFine(namespace, []) && TasksFine(namespace, [])
  {
  }

  /** TaskManifest::validate, reduced to whether it reports an error. */
  method Validate(m: Manifest) returns (valid: bool)
    ensures valid <==> ValidManifest(m)
  {
    if m.formatVersion != FORMAT_VERSION || m.namespace == [] {
      return false;
    }
    var foldersFine := ValidateFolders(m.namespace, m.folders);
    var tasksFine := ValidateTasks(m.namespace, m.tasks);
    valid := foldersFine && tasksFine;
  }

  // ---- lookups ------------------------------------------------------------------------

  /** managed_task: the first task with this path. */
  function FindTask(tasks: seq<ManagedTask>, path: TaskPath): (found: Option<ManagedTask>)
    ensures found.Some? ==> found.value in tasks && found.value.path == path
    ensures found.None? ==> forall t <- tasks :: t.path != path
  {
    if tasks == [] then None
    else if tasks[0].path == path then Some(tasks[0])
    else FindTask(tasks[1..], path)
  }

  function FindFolder(folders: seq<ManagedFolder>, path: FolderPath): (found: Option<ManagedFolder>)
    ensures found.Some? ==> found.value in folders && found.value.path == path
    ensures found.None? ==> forall f <- folders :: f.path != path
  {
    if folders == [] then None
    else if folders[0].path == path then Some(folders[0])
    else FindFolder(folders[1..], path)
  }

  predicate Desired(m: Manifest, path: TaskPath) { FindTask(m.tasks, path).Some? }

  /** The descriptor the manifest asks for on a folder. */
  function FolderAcl(m: Manifest, folder: FolderPath): Option<Acl> {
    var found := FindFolder(m.folders, folder);
    if found.Some? then found.value.security else None
  }

  // ---- ownership ------------------------------------------------------------------------

  /** owned_definition. */
  function OwnedDefinition(m: Manifest, task: ManagedTask): Definition {
    var marker := Marker(m.owner, task.path);
    var d := task.definition;
    d.(source := Some(if d.source.None? then marker else MarkedSource(d.source.value, marker)),
       uri := Some(TaskText(task.path)))
  }

  /** What is registered is the application's own definition in every respect but two: its URI is the path, and its
      Source starts with the marker, with what the application wrote behind it. */
  lemma RegistrationKeepsDefinition(m: Manifest, task: ManagedTask)
    ensures var d, own, marker := OwnedDefinition(m, task), task.definition, Marker(m.owner, task.path);
      && d.date == own.date && d.security == own.security && d.enabled == own.enabled
      && d.logon == own.logon && d.body == own.body
      && d.uri == Some(FolderText(task.path.folder + [task.path.name]))
      && d.source.Some? && (d.source.value == marker || marker + "\n" <= d.source.value)
      && (if own.source.None? then d.source.value == marker
          else OriginalSource(d.source.value, marker) == OriginalSource(own.source.value, marker))
  {
    if task.definition.source.Some? {
      MarkingIsIdempotent(task.definition.source.value, Marker(m.owner, task.path));
    }
  }

  /** The ownership test of inspect_backend: a Source marker, or a legacy marker in the URI. */
  predicate Owned(m: Manifest, path: TaskPath, d: Definition) {
    var marker := Marker(m.owner, path);
    d.uri == Some(marker) || (d.source.Some? && CarriesMarker(d.source.value, marker))
  }

  /** Whatever is semantically equal to the definition that gets registered is recognised as owned;
      and registering an exported owned definition again registers the same thing. */
  lemma RegisteredIsOwned(m: Manifest, task: ManagedTask, seen: Definition)
    requires SemanticallyEqual(seen, OwnedDefinition(m, task))
    ensures forall acl :: Owned(m, task.path, seen.(security := acl))
    ensures OwnedDefinition(m, task.(definition := OwnedDefinition(m, task))) == OwnedDefinition(m, task)
  {
    var marker := Marker(m.owner, task.path);
    var source := task.definition.source;
    MarkingIsIdempotent(if source.Some? then source.value else marker, marker);
    assert seen.source == OwnedDefinition(m, task).source;
  }

  lemma DesiredAgrees(m: Manifest, task: ManagedTask)
    requires task in m.tasks && DistinctTasks(m.tasks)
    ensures FindTask(m.tasks, task.path) == Some(task)
  {
    var found := FindTask(m.tasks, task.path);
    var i :| 0 <= i < |m.tasks| && m.tasks[i] == task;
    var j :| 0 <= j < |m.tasks| && m.tasks[j] == found.value;
  }

  lemma FolderAgrees(m: Manifest, folder: ManagedFolder)
    requires folder in m.folders && DistinctFolders(m.folders)
    ensures FindFolder(m.folders, folder.path) == Some(folder)
  {
    var found := FindFolder(m.folders, folder.path);
    var i :| 0 <= i < |m.folders| && m.folders[i] == folder;
    var j :| 0 <= j < |m.folders| && m.folders[j] == found.value;
  }
}
