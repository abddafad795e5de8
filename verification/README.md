# windows-task: verified models of the reconciler, its protocols and its text forms

This project models the parts of the `windows-task` crate where a mistake would be hardest to notice, and proves
what its documentation and tests promise about them. Everything is Dafny 4.11; `dafny verify dfyconfig.toml`
checks the whole project.

## What is modelled

**Transactional reconcile.** `Apply.ApplyBackend` follows `apply_backend` step by step: inspect, plan, observe every
target, prepare backups, then check, stop, change and verify each change, and on the first failure take the confirmed
changes back in reverse. It runs against `SchedulerBackend.Backend`, a class over an in-memory scheduler like that of
the repository's own fault tests, which misbehaves freely: before every call another writer may replace the whole
state; a read may fail; a change may be refused, may happen and its reply be lost, or may leave anything at all at its
target. Ghost counters record afterwards which of this happened, and a ghost log records every read with its answer and every
changing call, in order, so that the theorems can say what holds under which circumstances:

- always, and in terms of that log: the journal attests exactly the changing calls the scheduler received, in order;
  before each of them the scheduler's own answers showed its target just as earlier answers had, with nothing but calls
  for the same target in between (`Accounting.RunIsWatched`); a forward change found its target as it had been before
  the first call of the run or after the last change of that target, and a compensation found what its own change had
  been seen to leave; the ledger of applied, rolled back and failed changes adds up; every list of the report can be
  read off the journal, in which every attempt has its outcome and the first error is the reported cause; the tasks
  reported as stopped are exactly those the scheduler was asked to stop, none unless that was asked for, and then every
  task that is deleted or registered again right before that;
- undisturbed by other writers, whatever faults: a failure with nothing unresolved left the world as it was, up to
  equivalent descriptors (up to descriptors altogether where unreadable ones are tolerated), and success is a fixpoint,
  that is, planning again plans nothing, and what the manifest describes is there, each task with the manifest's own
  actions and account; the one exception is a plan with an exposed flag under such tolerance (see below). The first also holds for any one target (the backend's `chosen`) that no other writer touched, whatever they
  did elsewhere;
- undisturbed and with at most one change refused or its reply lost, in a tree that has or can get the namespace: a
  failed run is rolled back completely, or the lost reply belonged to a folder or descriptor change, which is reported
  as unresolved. If the lost reply is that of a create, update, adopt, delete or set-enabled change, that change is
  counted as applied and taken back, and nothing is unresolved. Nothing is asked of the credential resolver for this unless irreversible work is allowed;
- undisturbed and without a fault, from a manifest, a state and the passwords that these two need, all of which a
  caller can check beforehand: the run succeeds.

The modules are layered: `Paths`, `Ownership`, `Manifests` and `Scheduler` are the data, `Planning` and `Recovery` are
the planner and the observer, `ApplySpec`, `Accounting`, `Journaling`, `Execution`, `Compensation`, `Progress` and
`Convergence` hold the laws, and `Steps`, `Forward`, `Rollback`, `Preflight` and `Apply` are the imperative code.

**Concurrent protocols** as transition systems with all interleavings: `Handler` (reporter clones, mutex, flag, command
channel, status worker, user thread) and `WorkerQueue` (submitters, dropped futures, worker, shutdown).

**History**: `Watch` (bookmark-based delivery from a log that is appended to, trimmed and cleared while it is read) and
`Wait` (correlating events with one run, bounded scans, the polling loop), both over the events of `History`.

**Cron**: `Cron` reads expressions and compiles them to native triggers; both sides have a denotation over the civil
calendar in `Calendar`, and compilation is proved exact.

**Text and trees**: `Arguments` (quoting against a parser), `Durations` (printing and parsing), `Dom` (the XML stack
machine against a grammar of documents) and `Ordering` (putting unknown children back). `Text` and `Wrappers` are
shared helpers.

## What the code does that its documentation or a first reading does not say

- A task whose path equals the manifest's namespace passes validation, although it lies in the folder above; the folder
  closure then climbs to the root (`Planning.RequiredStaysInside` states exactly when it does not). In an ordinary tree
  such a plan is refused before its first change.
- The sort key of a deletion is wrapped in `Reverse` and unwrapped again, so deletions are ordered upwards.
- Confirmation of a `SetEnabled` change compares access descriptors as text, not by equivalence.
- With `allow_irreversible` a descriptor that cannot be read counts as unchanged
  (`Scheduler.UnreadableDescriptorsHideChanges`). So a run can succeed although more is to be planned afterwards: the
  call that writes the enabled flag of a task may have replaced its descriptor unread. `Convergence.FixpointExactly`
  states for which plans success is a fixpoint nevertheless: exactly those without a flag of a task that has a requested
  descriptor which the plan does not write as well.
- A reporter clone that has taken the completion flag when the handler returns can leave the scheduler without any
  notification (`Handler.SilentRun`). If the user thread fails after it has announced the end, two completions can
  succeed, because a caller whose attempt failed gives back a flag that the worker has taken meanwhile
  (`Handler.DoubleRun`). `Handler.EveryRunNotifies` and `Handler.CompletionIsLastExactly` state exactly when the two
  happen.
- Extensions with equal ordinals come out in reverse order if the ordinal lies within the list, and partly in reverse
  if it lies beyond its end but within the list they make longer (`Ordering.EqualOrdinals`).
- After a panic in a queued operation, the first `shutdown` reports it and every later one reports success although
  accepted work was lost (`WorkerQueue.LostWorkRun`, and exactly in `WorkerQueue.VerdictsExactly`).
- A scan whose stream ends exactly at the scan limit reports the limit, not the end (`Wait.EndAtTheLimit`).
- What a watch delivers begins at the oldest entry kept when its first page is read, not when the watch was begun
  (`Watch.Deliver`).

## Model

| member | source | states |
|---|---|---|
| Paths.CanonicalRoundTrip | crates/windows-task/src/path.rs:180-204 | Parsing the canonical text of any folder or task path yields its components, and any text that parses has its separator-normalized form as canonical text: printing and parsing are inverse both ways. |
| Paths.ReadExactly | crates/windows-task/src/path.rs:180-204 | Which texts are read as which path, character by character: exactly those that differ from its canonical text at most in slashes for backslashes; the root is read as a folder only. |
| Paths.ComponentExactly | crates/windows-task/src/path.rs:206-230 | A component is accepted exactly if it is not empty and not one or two dots, trimming white space leaves it alone, and it holds no separator and no NUL. |
| Paths.AcceptedPathsStay | crates/windows-task/src/path.rs:206-230 | An accepted path denotes the components it spells: resolving dots and empty components changes nothing, so no path climbs out of its namespace. |
| Paths.FolderTextInjective | crates/windows-task/src/path.rs:65-67 | Different folders have different texts. |
| Paths.TaskTextInjective | crates/windows-task/src/path.rs:130-132 | Different task paths have different texts. |
| Paths.WithinNamespaceIsContainment | crates/windows-task/src/manifest.rs:256-261 | The prefix test on texts decides component containment for every namespace but the root; under the root namespace it accepts the root alone. |
| Ownership.PercentEncode | crates/windows-task/src/manifest.rs:283-296 | The encoding loop produces, byte by byte of the UTF-8 text, the unreserved character or the percent triplet of sections 2.1 and 2.3 of RFC 3986. |
| Ownership.EncodedIsDecoded | crates/windows-task/src/manifest.rs:283-296 | A decoder of percent triplets with upper-case digits gives the bytes back, and exactly letters, digits, hyphen, underscore, dot and tilde are left as they are. |
| Ownership.BytesInjective | crates/windows-task/src/manifest.rs:283-296 | Different texts have different UTF-8 bytes, so encoding bytes loses nothing. |
| Ownership.EncodedInjective | crates/windows-task/src/manifest.rs:283-296 | Percent-encoding is injective on byte strings of any length. |
| Ownership.EncodedCharacters | crates/windows-task/src/manifest.rs:283-296 | Only unreserved characters, percent signs and hexadecimal digits are emitted; in particular no line break. |
| Ownership.MarkerInjective | crates/windows-task/src/manifest.rs:247-253 | The marker determines its owner and its path. |
| Ownership.MarkerReads | crates/windows-task/src/manifest.rs:247-253 | The marker is the fixed prefix, the owner, the fixed infix and an encoding that decodes to the UTF-8 text of the path. |
| Ownership.MarkingIsIdempotent | crates/windows-task/src/reconcile.rs:1325-1341 | A marked source is recognised, marking it again changes nothing, and the original source text is kept in full. |
| Ownership.MarkerIsExclusive | crates/windows-task/src/reconcile.rs:251-263 | Whatever follows its first line, a source carrying the marker of one owner and path is recognised for no other. |
| Scheduler.EffectIsLocal | crates/windows-task/src/reconcile/fault_tests.rs:133-297 | Every changing call changes only what is seen of its own target, changes nothing when refused, and keeps the folder tree a tree. The last point is the model scheduler's: unlike the fake backend cited it refuses missing parents, folders that exist already and folders with something below. |
| Scheduler.SemanticEquality | crates/windows-task/src/reconcile.rs:1343-1353 | Definitions are semantically equal exactly if URI, source, account type and the rest of the definition agree; date, descriptor and enabled flag do not matter. |
| Scheduler.AccessEquivalence | crates/windows-task/src/model/mod.rs:134-175 | Equivalent descriptors differ at most in the automatic-inheritance bit. |
| Scheduler.AlikeIsAnEquivalence | crates/windows-task/src/reconcile/recovery.rs:21-54 | Equality of observations is an equivalence, with or without tolerance for unread descriptors. |
| Scheduler.ObservationPower | crates/windows-task/src/reconcile/recovery.rs:11-54 | Two sights can compare equal if and only if the two states agree at that target up to descriptor equivalence, or up to descriptors where unreadable ones are tolerated. |
| Scheduler.UnreadableDescriptorsHideChanges | crates/windows-task/src/reconcile/recovery.rs:98-102 | With that tolerance a changed descriptor can pass for an unchanged one. |
| SchedulerBackend.Backend.Invoke | crates/windows-task/src/reconcile/fault_tests.rs:60-107 | One changing call of the misbehaving scheduler: carried out, refused, carried out with its reply lost, or wild at its own target, each counted; the call enters the log in every case. |
| Manifests.Validate | crates/windows-task/src/manifest.rs:183-244 | Validation accepts exactly the manifests of the known version with a non-root namespace, all paths inside it, no path twice and all definitions accepted. |
| Manifests.ValidateFolders | crates/windows-task/src/manifest.rs:208-220 | The folder loop with its set of seen paths decides containment and uniqueness, both directions. |
| Manifests.ValidateTasks | crates/windows-task/src/manifest.rs:221-242 | The task loop decides containment, uniqueness and acceptance of every definition, both directions. |
| Manifests.RegisteredIsOwned | crates/windows-task/src/reconcile.rs:1325-1341 | Whatever is semantically equal to the registered definition is recognised as owned, and registering an exported owned definition again registers the same thing. |
| Manifests.RegistrationKeepsDefinition | crates/windows-task/src/reconcile.rs:1325-1341 | What is registered is the application's own definition in every field but two: the URI is the text of the path, and the source is the marker, with the original source kept in full behind it. |
| Planning.RequiredFolders | crates/windows-task/src/reconcile.rs:1410-1431 | The climbing loops collect exactly the closure of the namespace, the folders and the tasks' folders. |
| Planning.RequiredStaysInside | crates/windows-task/src/reconcile.rs:1410-1431 | The closure stays inside the namespace if and only if no task has the namespace's own path. |
| Planning.ClosureHasParents | crates/windows-task/src/reconcile.rs:1410-1431 | Every required folder but the namespace and the root has a required parent, which is ordered before it. |
| Planning.OrderKeyInjective | crates/windows-task/src/reconcile.rs:1440-1451 | The sort key distinguishes any two changes that one snapshot of a valid manifest can call for. |
| Planning.KindsComeInTurn | crates/windows-task/src/reconcile.rs:1440-1451 | In a plan folders are created first, then tasks created, adopted and updated, flags set and descriptors written, and deletions come last; tasks of one kind are in the order of their texts. |
| Planning.TextLessExactly | crates/windows-task/src/reconcile.rs:1440-1451 | That order is the lexicographic one: the texts agree up to a point where the first one ends or has the smaller character. |
| Planning.PlanTask | crates/windows-task/src/reconcile.rs:314-366 | For one managed task: a conflict exactly if somebody else's task is there and adoption is not authorized; otherwise exactly the wanted changes of that task are added, with their rollback class. |
| Planning.PlanState | crates/windows-task/src/reconcile.rs:293-399 | Planning fails exactly on an invalid manifest or a blocked path, with the matching error; otherwise the plan holds exactly the wanted changes, each with its rollback class, strictly ordered. |
| Planning.PlanIsCanonical | crates/windows-task/src/reconcile.rs:293-399 | Manifests that list the same tasks and folders in any order have the same plan and are blocked alike. |
| Planning.ParentsComeFirst | crates/windows-task/src/reconcile.rs:1440-1451 | The parent of a folder to be created, the folder of a task to be created, and a folder to be given a descriptor exist already or are created earlier in the plan. |
| Progress.CredentialExactly | crates/windows-task/src/reconcile.rs:1355-1368 | A planned change is marked as needing a credential exactly if it replaces or deletes a task whose account is backed by a password. |
| Recovery.Recorded.Invoke | crates/windows-task/src/reconcile/backend.rs:44-58 | The recording wrapper passes the call on once and adds two entries, the attempt and then the same with its outcome: succeeded without an error, otherwise unknown, with the error; together they have exactly this call's footprint. |
| Recovery.NameTellsTheCall | crates/windows-task/src/reconcile/backend.rs:44-58 | The name in a journal entry tells which call was made. |
| Recovery.OpenAppend | crates/windows-task/src/reconcile/backend.rs:44-58 | Adding a native journal whose attempts all have their outcomes leaves the open attempts of a journal as they were. |
| Recovery.Observe | crates/windows-task/src/reconcile/recovery.rs:82-122 | The result is what the answers to its own reads show. Undisturbed, it is a truthful sight of the target; an unreadable descriptor is an error unless irreversible work was allowed; without lost reads it never fails. |
| Recovery.ExpectedAfter | crates/windows-task/src/reconcile/recovery.rs:153-231 | Undisturbed, confirmation means that the change achieved its goal according to what is really there, and without lost reads an achieved goal is confirmed. |
| Recovery.Inspect | crates/windows-task/src/reconcile.rs:211-275 | Undisturbed, a successful inspection equals the snapshot of the scheduler below the namespace, and without lost reads it succeeds exactly on valid manifests. |
| Recovery.AgreementExactly | crates/windows-task/src/reconcile/recovery.rs:359-386 | The comparison between inspection and observation finds exactly this: the target has come or gone, or the task's flag or anything but date and descriptor in its definition is different. |
| ApplySpec.ChainUnwinds | crates/windows-task/src/reconcile/recovery.rs:263-331 | If a target looks again as before the last confirmed change and nothing else was touched, the whole world is back where that change began. |
| ApplySpec.DealtCounts | crates/windows-task/src/reconcile.rs:578-598 | The changes rolled back and those that failed to roll back together are as many as were tried. |
| Accounting.WritingIsAccountedFor | crates/windows-task/src/reconcile/backend.rs:44-58 | Issuing the calls of a change right after its target was seen as expected keeps journal, trace and the scheduler's log in agreement. |
| Accounting.KnowledgeIsFresh | crates/windows-task/src/reconcile.rs:728-914 | What the run takes for granted about a target is what the scheduler's answers showed before the first call of the run, or after the last change of that target; since then the scheduler's log holds nothing that writes to it. |
| Accounting.ForwardWritesAreSafe | crates/windows-task/src/reconcile.rs:732-756 | Whoever else writes, by positions in the scheduler's log: immediately before a forward call, but for its own stop request, answers showed the target just as they had before the first call of the run or after the last change of that target, and since those the scheduler received nothing that writes to it. |
| Accounting.CompensationsAreSafe | crates/windows-task/src/reconcile/recovery.rs:271-277 | Whoever else writes, by positions in the scheduler's log: the change being taken back was carried out by at least one earlier call, answers showed its effect before anything else was written to the target, and answers immediately before the compensating calls showed the target just like that. |
| Accounting.EveryCallIsWatched | crates/windows-task/src/reconcile.rs:728-914 | In the log alone, without any trace: every changing call since apply began follows answers that showed its target just as earlier answers did, those given before any call or after one for the same target, with only calls for the same target in between. |
| Accounting.RunIsWatched | crates/windows-task/src/reconcile/backend.rs:44-58 | The log and the journal of an accounted run: every call was watched over, and the journal attests exactly the calls in the log, in order. |
| Journaling.EntryTells | crates/windows-task/src/reconcile/recovery.rs:233-247 | Whatever entry apply adds, the report and the journal stay in step: rolled back, failed, unresolved and stopped are what the journal says, and an outcome closes the attempt it belongs to. |
| Journaling.PhaseTells | crates/windows-task/src/reconcile.rs:802-842 | A whole phase, attempt, native calls and outcome, adds nothing to the lists, leaves no attempt open, and its error is the first one if there was none. |
| Journaling.NativeTells | crates/windows-task/src/reconcile/recovery.rs:278-302 | The native journal of a compensation adds the tasks it stopped to the report and nothing else. |
| Forward.StepIsHeralded | crates/windows-task/src/reconcile.rs:766-801 | In the scheduler's log, a forward step stops a task only if that was asked for, and then right before it deletes or registers it again. |
| Execution.RegistrationIsExact | crates/windows-task/src/reconcile.rs:1132-1159 | What is registered, to the last field: the owned definition, and as its descriptor the one the manifest asks for, failing that the one in the backup of a task that is replaced, failing that the scheduler's own. |
| Execution.ReplacingKeepsDescriptor | crates/windows-task/src/reconcile.rs:1136-1144 | A task whose descriptor the manifest leaves open keeps the one it has when it is updated or adopted. |
| Execution.CreatesOnlyTheMissing | crates/windows-task/src/reconcile.rs:1129-1150 | A create change never overwrites: if something is there the call is refused and nothing changes. |
| Execution.RefusedBeforehand | crates/windows-task/src/reconcile.rs:1216-1231 | A replaced task is not put back without its password exactly where the scheduler would refuse the registration anyway. |
| Execution.BackupsAreUsedOnce | crates/windows-task/src/reconcile.rs:1216-1280 | After one attempt a replaced task or a folder descriptor cannot be taken back again; every other change could be. |
| Execution.PasswordsAreResolved | crates/windows-task/src/reconcile.rs:1145-1155 | A call hands over a password only if it was resolved for that very purpose and the account is backed by one; what is put back has its password exactly if it needs one. |
| Execution.PasswordsAreUsedOnce | crates/windows-task/src/reconcile.rs:1152-1152 | The password of a registration is handed over once. |
| Compensation.UndoRestores | crates/windows-task/src/reconcile.rs:1202-1280 | Compensating any carried-out change, from any state that looks as the change left it, succeeds at every call and leads to a state that looks as before the change. |
| Compensation.FolderUndo | crates/windows-task/src/reconcile.rs:1209-1209 | A created folder can be deleted again: nothing else lies in it once later changes are taken back. |
| Compensation.ReplacementUndo | crates/windows-task/src/reconcile.rs:1216-1249 | Registering the backup, restoring the flag and restoring the descriptor bring a replaced or deleted task back. |
| Compensation.RunIsLocal | crates/windows-task/src/reconcile.rs:1202-1280 | Any sequence of calls on one target keeps everything else. |
| Progress.ReadySucceeds | crates/windows-task/src/reconcile.rs:1121-1200 | A change that is ready, carried out faithfully, is not refused, achieves its goal, touches only its target and can be taken back. |
| Progress.PlanStartsReady | crates/windows-task/src/reconcile.rs:293-399 | In a tree where the namespace exists or can be created, every change of a prepared plan will find what it needs once the changes before it are carried out. |
| Progress.ReadyAdvances | crates/windows-task/src/reconcile.rs:729-912 | One carried-out change keeps every later change of the plan ready, including those of the same target. |
| Convergence.ConfirmedSettles | crates/windows-task/src/reconcile/recovery.rs:153-231 | After a confirmed change the planner would ask for nothing it had not asked for before, and not for the confirmed change again, except for the descriptor of a task that was replaced unread while its flag was written. |
| Convergence.ConvergingAdvances | crates/windows-task/src/reconcile.rs:729-912 | Each confirmed change leaves a state for which the rest of the plan covers everything still wanted, unless it is an exposed flag whose descriptor was replaced unread. |
| Convergence.ConvergedIsSettled | crates/windows-task/src/reconcile.rs:293-399 | When the whole plan has been confirmed, inspecting and planning again finds nothing to do. |
| Convergence.SettledPlansNothing | crates/windows-task/src/reconcile.rs:293-399 | A plan is empty if and only if the planner finds nothing to do. |
| Convergence.SettledExactly | crates/windows-task/src/reconcile.rs:293-399 | In a tree the planner finds nothing to do if and only if every folder and every task of the manifest is there as the manifest describes it, field by field, and where pruning was asked for no other owned task is. |
| Convergence.WantedShows | crates/windows-task/src/reconcile/recovery.rs:153-231 | A planned change that is achieved can be told from the state before it, so a lost reply to it is not taken for a change that never happened. |
| Convergence.ConfirmationSuffices | crates/windows-task/src/reconcile/recovery.rs:153-231 | For one wanted change, whatever state it leaves and whatever is seen: confirmation implies that nothing new is wanted if and only if it is not the flag of a task whose requested descriptor is right, under tolerance for unread descriptors. |
| Convergence.FixpointExactly | crates/windows-task/src/reconcile.rs:293-399 | Every fully confirmed run of a plan, whatever its calls did at their targets, leaves nothing to plan if and only if descriptors may not go unread or the plan has no exposed flag: no flag of a task with a requested descriptor that the plan does not write. |
| Progress.SnapshotSees | crates/windows-task/src/reconcile.rs:211-275 | Inspection of a tree sees exactly the folders and tasks below the namespace. |
| Steps.ExecuteChange | crates/windows-task/src/reconcile.rs:1121-1200 | The executor issues at most the one call that carries the change out, through the recorder, consumes the registration password, and reports the call's error; what the call registers is in Execution.RegistrationIsExact. |
| Steps.RestoreTask | crates/windows-task/src/reconcile.rs:1232-1248 | Flag and descriptor are both attempted once the definition is back, even if one of them fails; without faults all calls are made and succeed. |
| Steps.CompensateChange | crates/windows-task/src/reconcile.rs:1202-1280 | The compensator issues exactly the calls prescribed for the change, through the recorder, touching only the change's target; without faults it succeeds. |
| Steps.Confirm | crates/windows-task/src/reconcile.rs:843-902 | Read-back decides between confirmed, nothing happened, and in doubt. A result is credited to a failed call for every change but those that create a folder or write a descriptor; undisturbed, the verdict is the one that a look at the scheduler gives, in both directions; a reported error stays the cause. |
| Steps.TakeBack | crates/windows-task/src/reconcile/recovery.rs:271-302 | A change is taken back only from the state it left, and refused as a conflict without any call from every other one; it is believed to be taken back only when the state before it is seen again; without faults this succeeds. |
| Forward.ForwardStep | crates/windows-task/src/reconcile.rs:729-902 | One iteration up to its verdict: precondition, noted descriptor, optional stop, change, verification; what each verdict means for the scheduler, the journal, the trace and the first error noted. |
| Forward.AlmostFaultless | crates/windows-task/src/reconcile.rs:843-902 | With at most one change refused or its reply lost, a step of a ready plan is confirmed and revocable, or left the world alone, or lost the reply of a change that creates a folder or writes a descriptor. If the lost reply was that of any other change and its effect can be seen, the step is confirmed. |
| Rollback.CompensateObserved | crates/windows-task/src/reconcile/recovery.rs:255-332 | Every confirmed change is tried once, in exact reverse, none keeping the earlier ones from being tried; undisturbed and with no failure the world is back where the chain began; a target that nobody else touched and at which nothing failed is back, whatever happened elsewhere; without faults nothing fails. |
| Rollback.UnwoundStep | crates/windows-task/src/reconcile/recovery.rs:263-331 | Taking back the next entry moves the world back by exactly that change. |
| Rollback.UnwoundAtStep | crates/windows-task/src/reconcile/recovery.rs:263-331 | The same for one target that nobody else touches, whoever writes elsewhere. |
| Preflight.Prepare | crates/windows-task/src/reconcile.rs:942-1069 | Preparation only reads, and asks for passwords only where an account needs one and for the right purpose; undisturbed and without lost reads, whatever it accepts is prepared truthfully and completely (where irreversible work is allowed, provided the passwords of existing tasks can be had), and it accepts whenever the password-backed tasks of the manifest have their passwords and, unless irreversible work is allowed, so do those of the state. |
| Preflight.PrepareTaskBackup | crates/windows-task/src/reconcile.rs:1071-1119 | A backup that is accepted holds the definition, flag, descriptor and, if the task needs one, the password; without lost reads it is accepted whenever irreversible work is allowed or the passwords of the state's password-backed tasks can be had. Where irreversible work is allowed the truth of the backup is promised only under the condition on passwords. |
| Preflight.ReadBackup | crates/windows-task/src/reconcile.rs:1080-1118 | The first read or password that fails refuses the backup with that very error, but where irreversible work is allowed neither a missing password nor an unreadable descriptor does; what is kept is what was read. |
| Preflight.PrepareTaskSecurity | crates/windows-task/src/reconcile.rs:1005-1033 | The descriptor of a task is kept as it was read; if it cannot be read, preparation fails with that error unless irreversible work is allowed. |
| Preflight.PrepareFolderSecurity | crates/windows-task/src/reconcile.rs:1034-1063 | The same for a folder, unless the plan creates it; then nothing is read. |
| Preflight.PlanAgrees | crates/windows-task/src/reconcile/recovery.rs:359-386 | In an undisturbed tree every planned change passes the comparison between inspection and observation. |
| Preflight.PlanIsPreparable | crates/windows-task/src/reconcile.rs:942-1069 | Whatever is planned for an undisturbed state finds what preparation looks for. |
| Apply.ForwardLoop | crates/windows-task/src/reconcile.rs:728-914 | The loop keeps plan order, updates the expectations of later changes of the same target, and stops and compensates at the first failure; journal and trace agree with the scheduler's log throughout, and ledger, atomicity, convergence and single-fault recovery hold for it. |
| Apply.AtomicUnwinding | crates/windows-task/src/reconcile.rs:728-914 | If every confirmed change was taken back, the world is the initial one, also where one target was changed twice. |
| Apply.RollbackCompleteExactly | crates/windows-task/src/reconcile.rs:588-598 | After a failure the report says that rollback was complete if and only if something was applied, nothing is unresolved and nothing was stopped; undisturbed, the world is then as it was. |
| Apply.SucceededExactly | crates/windows-task/src/reconcile.rs:581-587 | Of a run, the report says that it succeeded if and only if it did; of any report whose applied list follows the plan, if and only if the whole plan was applied and nothing was taken back, failed or left open. |
| Apply.CreditGiven | crates/windows-task/src/reconcile.rs:855-865 | A lost reply to a change of a task's existence, definition or flag, the only fault of a run: the change is the last one applied, everything applied is rolled back, nothing is unresolved and the world is as before. |
| Apply.LoopAdvances | crates/windows-task/src/reconcile.rs:866-901 | A verified step keeps everything the loop relies on. |
| Apply.ApplyBackend | crates/windows-task/src/reconcile.rs:654-917 | For every manifest, every backend behaviour and every writer: the journal attests exactly the calls in the scheduler's log, every call follows answers that showed its target as earlier ones did, and the trace accounts for the whole log; the lists of the report are what the journal says, every attempt in it has its outcome and its first error is the cause; the tasks reported as stopped are those in the log, stopped only on request and then right before each deletion or registration; applied is a prefix of the plan and after a failure is partitioned, in exact reverse, into rolled back and failed; a target that nobody else touched and that has nothing unresolved after a failure is as it was, whatever others did elsewhere. Undisturbed, a failure with nothing unresolved restored the world, and success is a fixpoint with everything the manifest describes in place, whatever the faults, unless unread descriptors are tolerated and the plan has an exposed flag (then if nothing went wild or no read was lost). Where nothing is to be done it plans and calls nothing. With at most one fault in a habitable tree a failed run is recovered, whatever the resolver answers unless irreversible work is allowed; if the fault is the lost reply of a create, update, adopt, delete or set-enabled change, that change is counted as applied, everything applied is rolled back and nothing is unresolved. Without faults a well-posed run succeeds. |
| Handler.CompletionIsLast | crates/windows-task/src/handler.rs:495-628 | In every interleaving in which announcing the end is the user thread's last step, a successful TaskCompleted is the last call of all: at most one succeeds and no UpdateStatus follows it. |
| Handler.CompletionIsLastExactly | crates/windows-task/src/handler.rs:590-597 | For every run that ends, clean or not: a call follows a successful completion if and only if the worker, after joining, found the flag down although a completion had succeeded. |
| Handler.ProgressIncreases | crates/windows-task/src/handler.rs:155-185 | In every interleaving the accepted percentages strictly increase and stay within 100. |
| Handler.ReportsAreAnswered | crates/windows-task/src/handler.rs:155-185 | What every report is answered, in every interleaving: invalid exactly above 100, a conflict exactly if the flag was up when it was looked at, otherwise accepted, with the update in the log if it exceeds the recorded progress, or the error of that very update, or that the worker has stopped. |
| Handler.CompletionsAreAnswered | crates/windows-task/src/handler.rs:198-218 | What every complete() is answered: a conflict exactly if the flag was up when it was looked at, success or the native error according to the completion call in the log, or that the worker has stopped; after any failure of its own it has taken the flag down again. |
| Handler.CallersAreToldTheTruth | crates/windows-task/src/handler.rs:198-218 | complete() returns Ok to at most one caller and only if the scheduler accepted the completion; an accepted report is covered by an accepted percentage. |
| Handler.TerminalAttemptExactly | crates/windows-task/src/handler.rs:572-588 | When the worker turns to the end of the handler it makes its own attempt if and only if no completion has succeeded and none has taken the flag undecided; the code matches the outcome. |
| Handler.NotificationIsRetried | crates/windows-task/src/handler.rs:615-621 | The terminal notification is attempted with the code it was decided on, and once more with the same code if that fails. |
| Handler.FlagIsAccountedFor | crates/windows-task/src/handler.rs:198-218 | Whenever the flag is up, a completion has succeeded, a complete() is under way, or the terminal notification is. |
| Handler.LateRequestsAreIgnored | crates/windows-task/src/handler.rs:545-597 | Once the user thread has announced the end while no caller was waiting for an answer, no update reaches the scheduler any more. |
| Handler.SuccessIsEarned | crates/windows-task/src/handler.rs:572-581 | Success is never reported, nor about to be, unless somebody has called complete() or the handler has finished. |
| Handler.EveryRunNotifies | crates/windows-task/src/handler.rs:572-597 | A run that ends, with announcing the end as the user thread's last step, has tried to notify if and only if the worker never turned to the end of the handler while a complete() was undecided and nothing had been tried yet. |
| Handler.NobodyIsStuck | crates/windows-task/src/handler.rs:545-597 | Every waiting caller is answered or released, the worker blocks only on a living sender with nothing queued, and it never joins a running thread. |
| Handler.TerminalCodeIsFaithful | crates/windows-task/src/handler.rs:575-581 | The success code is reported for a finished handler; a failed one reports its own native code if that is negative, and the general failure code otherwise. |
| Handler.StepKeepsInv | crates/windows-task/src/handler.rs:155-218 | The invariant that ties flag, progress, channel, replies and log together survives every step of every participant. |
| Handler.RegularRun | crates/windows-task/src/handler.rs:155-218 | A reachable run in which a clone reports 50, the user thread is refused 101 and reports 100, and the handler finishes: two updates and one successful completion are all that is called. |
| Handler.DeadRun | crates/windows-task/src/handler.rs:590-597 | A reachable run in which the user thread dies without announcing the end: the general failure code is reported, at the second attempt. |
| Handler.SilentRun | crates/windows-task/src/handler.rs:572-588 | A reachable run in which the handler finished, the worker is gone and not one call was made. |
| Handler.DoubleRun | crates/windows-task/src/handler.rs:590-597 | A reachable run with two successful completions if the user thread fails after it has announced the end. |
| Watch.PageSource.Seek | crates/windows-task/src/client/sys.rs:1096-1107 | Seeking finds the anchor if it is still there, and otherwise reports a gap or ends up elsewhere. |
| Watch.PageSource.Next | crates/windows-task/src/client/sys.rs:1155-1171 | Reading returns the next entries the time filter lets through, perhaps fewer than asked for, without skipping any; a trimmed position is a gap. |
| Watch.Resume | crates/windows-task/src/client/watch.rs:64-71 | After the anchor check the query stands right behind the cursor's entry; a lost anchor never passes it, a kept one always does. |
| Watch.ReadPage | crates/windows-task/src/client/watch.rs:59-102 | A page is the query's selection from one stretch of the log that begins right after the cursor's entry and ends at the new cursor; a lost anchor never yields a page; without failures it succeeds while the anchor is there and reports a gap when it is gone. |
| Watch.PageContinues | crates/windows-task/src/client/watch.rs:113-155 | The next page begins exactly where the last one ended. |
| Watch.Round | crates/windows-task/src/client/watch.rs:120-154 | One round of delivery extends the stretch without a hole; the first page begins at the oldest entry kept then; without failures a round that goes on has read more or found nothing left to read; a failed fetch other than a timeout ends the watch with that error, unless it is stopped or kept waiting; once the cursor's entry is gone no round delivers an event any more, and without failures the next one ends the watch with a gap. |
| Watch.Deliver | crates/windows-task/src/client/watch.rs:113-155 | Over any number of rounds the caller receives the selection of one contiguous stretch, in order and complete up to where a stop or a full queue cut it, followed by at most one final error, never a timeout; that error is the last failure recorded, and as long as the watch goes on every failure was a timeout; without failures the error is a gap. The stretch begins at the oldest entry kept when the first page was read; it is cut only if the caller did ask to stop or left no room; and without failures every round has read on or all that was written before the watch began has been read. |
| Watch.Send | crates/windows-task/src/client/watch.rs:157-175 | An item is handed over at most once, whatever the queue does; it is given up exactly when a stop was asked for or the caller is gone. |
| Watch.SelectionIsUnique | crates/windows-task/src/client/watch.rs:73-101 | No entry of the stretch is delivered twice. |
| History.SelectionHolds | crates/windows-task/src/client/watch.rs:83-95 | A selection holds exactly the entries the query asks for, each filter spelled out field by field, newer or older than the bound as it says. |
| Wait.Correlation.Ingest | crates/windows-task/src/client/wait.rs:27-64 | The fields always summarize everything seen so far, and the result is the verdict on it. |
| Wait.VerdictIsProved | crates/windows-task/src/client/wait.rs:27-64 | Every verdict rests on an event of the same instance and path (or on its stop without a code); one taken from an action also needs a completion and is the code of the latest action. |
| Wait.VerdictSurvivesRereading | crates/windows-task/src/client/wait.rs:207-219 | Reading the same history again changes no verdict. |
| Wait.VerdictIgnoresOthers | crates/windows-task/src/client/wait.rs:29-33 | Events of other runs change no verdict. |
| Wait.ScanHistory | crates/windows-task/src/client/wait.rs:98-150 | A successful scan holds every matching row read, and stopped at the first row that filled the limit or proved the outcome, or at an end of the stream before the maximum; otherwise exactly the maximum was read and the limit is reported. Without read failures it succeeds if and only if there is such a row within the maximum or the stream is shorter than it. |
| Wait.EndAtTheLimit | crates/windows-task/src/client/wait.rs:98-150 | A stream that ends exactly at the maximum, with fewer rows than are wanted, comes to no answer although every row has been read; a maximum greater by one would do. |
| Wait.ObserveRun | crates/windows-task/src/client/wait.rs:152-286 | The loop ends within timeout / min(poll, 1 s) rounds, rounded up; an exact code is the verdict on the events read; the fallback only follows a full grace period of absent probes and is labelled with its reason, and where it is allowed no completed round ever ended with the run absent for a whole grace period; a timeout means no verdict; cancellation is reported only if it was requested, and always then. |
| Calendar.WeekdaysFollow | crates/windows-task/src/schedule.rs:153-197 | Days are numbered without gaps across months and leap years, so weekdays follow in turn. |
| Calendar.NotBeforeExactly | crates/windows-task/src/schedule.rs:125-151 | Dates are compared as their day numbers are. |
| Calendar.MonthLengths | crates/windows-task/src/schedule.rs:153-197 | The twelve months have their lengths, February according to the leap year. |
| Calendar.KnownDates | crates/windows-task/src/schedule.rs:153-197 | Leap years follow the Gregorian rule, and three dates fall on the weekdays they are known to have fallen on. |
| Calendar.OccurrenceCounts | crates/windows-task/src/schedule.rs:172-189 | The week number counts the dates of the month with the same weekday, and the last week means that none is left. |
| Cron.ParseField | crates/windows-task/src/schedule.rs:250-297 | A field is accepted exactly if all its parts can be read; its values are exactly those its parts select, Sunday normalized; it is a wildcard exactly if written as a star. |
| Cron.ItemExactly | crates/windows-task/src/schedule.rs:258-292 | What one part of a field means: a star, a value, a range, with or without a step, and from a value with a step up to the end of the field; nothing else is accepted. |
| Cron.ParseByteExactly | crates/windows-task/src/schedule.rs:301-312 | A number is read exactly if it is the decimal numeral of a number up to 255, with any zeros and at most one plus sign in front. |
| Cron.NamesAreNumbered | crates/windows-task/src/schedule.rs:367-392 | Month and weekday names stand for the numbers of the months from one and of the weekdays from Sunday, zero. |
| Cron.NamesAreRead | crates/windows-task/src/schedule.rs:301-307 | A name is read in any mixture of cases. |
| Cron.SundayIsZero | crates/windows-task/src/schedule.rs:289-291 | Seven is Sunday as well. |
| Cron.PrintedPartIsRead | crates/windows-task/src/schedule.rs:250-297 | Reading back any printed star, value or range, with or without a step, gives the item it stands for. |
| Cron.PrintedFieldMeans | crates/windows-task/src/schedule.rs:250-297 | A printed list of parts means the union of what the parts select. |
| Cron.Parse | crates/windows-task/src/schedule.rs:97-114 | An expression is accepted exactly if it has five fields that can be read; every value then lies in its range, so no later conversion meets one it does not expect. |
| Cron.WordInFront | crates/windows-task/src/schedule.rs:97-114 | Fields are what stands between white space, however much of it there is. |
| Cron.EitherDayMatches | crates/windows-task/src/schedule.rs:125-151 | If both day fields are restricted a date matches by either. |
| Cron.WeeksCoverMonths | crates/windows-task/src/schedule.rs:172-189 | The first four weeks and the last cover every date of every month. |
| Cron.TriggerIsExact | crates/windows-task/src/schedule.rs:153-197 | The chosen trigger fires on exactly the dates the expression matches. |
| Cron.Compile | crates/windows-task/src/schedule.rs:125-151 | The triggers fire at exactly the minutes the expression matches from the anchor's date on, each minute by exactly one trigger, one trigger per hour and minute, and every boundary has the anchor's date and offset; refused exactly if both day fields are restricted, the anchor has no time separator, or more than 48 would be needed. |
| Arguments.QuoteWindowsArgument | crates/windows-task/src/model/action.rs:243-271 | The loop with its backslash counter produces the quoted form. |
| Arguments.QuotedExactly | crates/windows-task/src/model/action.rs:243-250 | An argument is left as it is exactly if it is not empty and holds no white space and no quote. |
| Arguments.QuotedArgumentParses | crates/windows-task/src/model/action.rs:243-271 | The command-line state machine reads a quoted argument back as itself and stops right behind it. |
| Arguments.ArgumentsRoundTrip | crates/windows-task/src/model/action.rs:52-65 | For every argument list and every reading of doubled quotes in use, splitting the joined tail gives the list back. |
| Ordering.Merge | crates/windows-task/src/xml/ordering.rs:27-41 | The flattening, sorting and inserting loops compute the merged list. |
| Ordering.MergeExtensions | crates/windows-task/src/xml.rs:1661-1672 | The texts of the known children that are there keep their order, and among them exactly the unknown children of this parent are put in, each once; empty texts count as absent. |
| Ordering.MatchingUntags | crates/windows-task/src/xml.rs:1661-1672 | Among the extensions of all parents those of one parent are found, with their ordinals and in their order. |
| Ordering.SortIsStable | crates/windows-task/src/xml/ordering.rs:37-37 | The sort orders by ordinal, loses nothing and keeps equal ordinals in order. |
| Ordering.MergeRebuilds | crates/windows-task/src/xml.rs:1024-1035 | For every child list and every split into known and unknown children, merging what was extracted rebuilds the list. |
| Ordering.MergeIsStable | crates/windows-task/src/xml.rs:1661-1672 | For arbitrary ordinals, known children keep their order and extracting and merging again changes nothing. |
| Ordering.MergedIsWoven | crates/windows-task/src/xml/ordering.rs:27-41 | Merging loses nothing, adds nothing and keeps the known children in order, whatever the ordinals are and whether or not children can be told apart. |
| Ordering.DistinctOrdinalsLand | crates/windows-task/src/xml/ordering.rs:38-40 | Distinct ordinals within the final list are exactly the final positions. |
| Ordering.EqualOrdinals | crates/windows-task/src/xml/ordering.rs:38-40 | Any number of extensions that share an ordinal: within the list merged into they come out in reverse; beyond its end those that fill it up to the ordinal keep their order and the rest come out in reverse. Distinct children keep their order if and only if there is at most one or the ordinal leaves room for all the others. |
| Dom.ParseDom | crates/windows-task/src/xml.rs:244-374 | The loop over stack, root and node count computes the run of the stack machine, with an error wherever the machine has none to continue with. |
| Dom.ParsedExactly | crates/windows-task/src/xml.rs:244-374 | An event stream yields a tree if and only if it is a document with that one root, within the element and depth limits. |
| Dom.ParsedWithinLimits | crates/windows-task/src/xml.rs:260-267 | No tree that comes back is larger or deeper than the limits. |
| Dom.WrittenIsParsed | crates/windows-task/src/xml.rs:1037-1061 | A tree that is written and read again, its text in any number of text, CDATA and reference events, comes back if and only if it is within the limits. |
| WorkerQueue.WorkIsInOrder | crates/windows-task/src/client/mod.rs:298-354 | Accepted jobs are taken once, in order of acceptance, and each body runs at most once. |
| WorkerQueue.StartedMeansBegun | crates/windows-task/src/client/mod.rs:427-457 | At every point of every run has_started is true if and only if the body has begun, and a job dropped before its turn has not begun; either decision is final to the end of the run. |
| WorkerQueue.AcceptedWorkIsDrained | crates/windows-task/src/client/mod.rs:195-197 | When the worker has ended regularly every accepted job was answered, and exactly those not cancelled first have run. |
| WorkerQueue.ClosedQueueDrains | crates/windows-task/src/client/mod.rs:253-280 | From its closing on a session stays closed and accepts nothing; the worker can always go on, comes closer to its end with each step, and nobody else's step takes it further away. |
| WorkerQueue.FirstShutdownIsTruthful | crates/windows-task/src/client/mod.rs:260-271 | The first shutdown that sees the end succeeds if and only if the worker ended regularly. |
| WorkerQueue.RegularRun | crates/windows-task/src/client/mod.rs:298-354 | A reachable run in which one job of each kind is accepted and run, a third is dropped in the queue, a late one is refused, and shutdown succeeds. |
| WorkerQueue.VerdictsExactly | crates/windows-task/src/client/mod.rs:260-271 | A final verdict agrees with how the worker ended if and only if it is the first one or the worker ended regularly. |
| WorkerQueue.LostWorkRun | crates/windows-task/src/client/mod.rs:260-271 | A reachable run in which a second shutdown reports success although accepted work was lost to a panic. |
| Durations.ParseIsoDuration | crates/windows-task/src/model/time.rs:305-372 | The parser with its checked sum computes the specified reading. |
| Durations.ScanComponents | crates/windows-task/src/model/time.rs:331-361 | The designator loop with its start index and last order computes the specified scan. |
| Durations.ParsedExactly | crates/windows-task/src/model/time.rs:305-398 | A text is accepted if and only if it is of the lexical form (days, hours, minutes, seconds, fraction of at most nine digits) and its exact value fits; the result is that value. |
| Durations.NumeralExactly | crates/windows-task/src/model/time.rs:374-380 | Numerals are the decimal numerals with any zeros in front. |
| Durations.FractionExactly | crates/windows-task/src/model/time.rs:382-398 | A fraction is one to nine digits, and its nanoseconds are its exact value. |
| Durations.OverflowIsNoticed | crates/windows-task/src/model/time.rs:365-370 | Step-by-step checked arithmetic fails if and only if the total does not fit 64 bits. |
| Durations.Display | crates/windows-task/src/model/time.rs:213-246 | The printer writes the canonical form. |
| Durations.DurationRoundTrip | crates/windows-task/src/model/time.rs:213-246 | Reading what is printed for any duration gives the duration back. |

## Left out

- SchedulerBackend.Backend.Invoke: a wild change is one that reports an error or success and leaves anything at its own target; stop requests are never wild, and reads never claim falsely that an object is absent.
- Apply.ApplyBackend: single-fault recovery assumes that no read was lost.
- Apply.ApplyBackend: passwords have no content, and the resolver is a function that has one or gives an error; error messages, error context and the planned list of irreversible effects are not modelled.
- Recovery.Observe: security information flags are not modelled, a descriptor is read and written as a whole.
- Recovery.ExpectedAfter: for the same reason descriptors are compared as a whole.
- Manifests.Validate: diagnostics are reduced to whether there is an error, and the portable definition validator to a verdict per task.
- Planning.PlanState: inspected tasks and folders are maps instead of sorted lists, and the library sort is an insertion sort.
- Scheduler.AlikeIsAnEquivalence: SDDL text is opaque; descriptors carry a key that decides equivalence and one bit that does not.
- Handler.CompletionIsLast: assumes that announcing the end is the last thing the user thread does; `Handler.CompletionIsLastExactly` says what remains without it, and `Handler.DoubleRun` that something is lost.
- Handler.StepKeepsInv: the mutex is exclusive by construction and never poisoned; COM apartments, marshalling, Start, Pause, Resume and Stop are not modelled.
- Watch.Deliver: rounds and retries are bounded by parameters, so each statement is about an arbitrary finite prefix of the watch.
- Watch.PageSource.Next: a read behind the retention floor is assumed to report a stale position.
- Wait.ObserveRun: the history query's own limit is not applied to what the observer returns.
- Cron.Compile: weekday and month enumerations are numbers, and boundaries are a date, a time and an offset text, so of the errors of reading a boundary back only the missing separator remains; daylight saving is the target's business.
- Cron.Parse: serialization of the original text is not modelled.
- Dom.ParseDom: tokenizing, unescaping, end-name checks, attribute collection and the byte limit belong to the reader; an event carries decoded values or is malformed.
- Ordering.Merge: writing and escaping of the children's text is not modelled.
- WorkerQueue.WorkIsInOrder: shutdown's timeout and sleeping, and the futures' polling, are not modelled.
- `normalize_manifest`, `ignore_registration_triggers` and the dry-run wrappers add nothing to the transaction.
- Typed XML readers and writers, serde, TOML, JSON and YAML documents, credentials, COM calls and the command line are not modelled.
- Weak memory orderings and real time: atomics and channels are sequentially consistent steps.
