/** The Backend trait (reconcile/backend.rs) over an in-memory scheduler that may misbehave.
    Before every call another writer may replace the whole state; a read may fail although its object is
    readable; a change may be refused, may be carried out and its reply lost, or may leave anything at
    all at its own target (a stop request only concerns running instances and never changes state).
    Ghost counters tell afterwards which of this happened, and a ghost log holds every read with its answer and
    every changing call. */
module SchedulerBackend {
  import opened Wrappers
  import opened Paths
  import opened Scheduler

  /** A read reports the truth, or an error of its own; it never claims falsely that something is absent. */
  predicate Honest<T(==)>(r: Result<T>, truth: Result<T>, faulty: bool) {
    (r.Ok? ==> r == truth) && (r == Err(NotFound) ==> truth == Err(NotFound)) && (!faulty ==> r == truth)
  }

  /** What the scheduler was asked and what it answered, and the changing calls it received. */
  datatype Entry =
    | TaskRead(path: TaskPath, task: Result<Task>)
    | TaskAclRead(path: TaskPath, acl: Result<Acl>)
    | FolderAclRead(folder: FolderPath, acl: Result<Acl>)
    | TasksListed(folder: FolderPath, tasks: Result<map<TaskPath, Task>>)
    | FoldersListed(folder: FolderPath, folders: Result<set<FolderPath>>)
    | Called(call: Call)

  /** Entries of reads alone. */
  predicate AllReads(entries: seq<Entry>) { forall e <- entries :: !e.Called? }

  /** The changing calls among them, in order. */
  function CallsOf(entries: seq<Entry>): seq<Call> {
    if entries == [] then []
    else (if entries[0].Called? then [entries[0].call] else []) + CallsOf(entries[1..])
  }

  /** The entries of a sequence of calls. */
  function Calling(calls: seq<Call>): (entries: seq<Entry>)
    ensures |entries| == |calls|
    ensures forall i :: 0 <= i < |calls| ==> entries[i] == Called(calls[i])
  {
    seq(|calls|, i requires 0 <= i < |calls| => Called(calls[i]))
  }

  lemma {:induction false} CallsOfAppend(a: seq<Entry>, b: seq<Entry>)
    ensures CallsOf(a + b) == CallsOf(a) + CallsOf(b)
  {
    if a == [] {
      assert a + b == b;
    } else {
      CallsOfAppend(a[1..], b);
      assert (a + b)[1..] == a[1..] + b && (a + b)[0] == a[0];
    }
  }

  lemma {:induction false} ReadsCallNothing(entries: seq<Entry>)
    requires AllReads(entries)
    ensures CallsOf(entries) == []
  {
    if entries != [] {
      ReadsCallNothing(entries[1..]);
    }
  }

  lemma {:induction false} CallsOfCalling(calls: seq<Call>)
    ensures CallsOf(Calling(calls)) == calls
  {
    if calls != [] {
      assert Calling(calls)[1..] == Calling(calls[1..]);
      CallsOfCalling(calls[1..]);
    }
  }

  lemma StopChangesNothing(call: Call, s: State, standard: Acl)
    ensures call.StopAll? ==> Effect(call, s, standard) == (s, None)
  {
  }

  /** The state in which one target is as it is in another state. */
  function Mangled(s: State, t: Target, anything: State): State {
    match t
    case TaskTarget(p) =>
      s.(tasks := if p in anything.tasks then s.tasks[p := anything.tasks[p]] else s.tasks - {p})
    case FolderTarget(f) =>
      s.(folders := if f in anything.folders then s.folders[f := anything.folders[f]] else s.folders - {f})
  }

  lemma MangledIsLocal(s: State, t: Target, anything: State)
    ensures OnlyTouches(s, Mangled(s, t, anything), t)
  {
  }

  /** The state and the counters at one moment. */
  datatype Tally = Tally(
    state: State, foreign: nat, lostReads: nat, refused: nat, lost: nat, wild: nat, lostCall: Option<Call>)

  class Backend {
    var state: State
    const standard: Acl
    ghost const chosen: Target  // any one target, to be followed through whatever others do

    ghost var foreign: nat    // writes by somebody else
    ghost var strangers: nat  // those among them that changed what is seen of the chosen target
    ghost var lostReads: nat  // reads that failed without a cause in the state
    ghost var refused: nat    // changes that failed before any effect
    ghost var lost: nat       // changes that took effect but reported failure
    ghost var lostCall: Option<Call>  // the last of them
    ghost var wild: nat       // changes that left something unspecified at their target
    ghost var log: seq<Entry> // every read with its answer and every changing call, in order

    constructor (state: State, standard: Acl, ghost chosen: Target)
      ensures this.state == state && this.standard == standard && this.chosen == chosen && log == []
      ensures foreign == strangers == lostReads == refused == lost == wild == 0 && lostCall == None
    {
      this.state, this.standard, this.chosen := state, standard, chosen;
      foreign, strangers, lostReads, refused, lost, wild, lostCall, log := 0, 0, 0, 0, 0, 0, None, [];
    }

    ghost function Now(): Tally
      reads this
    {
      Tally(state, foreign, lostReads, refused, lost, wild, lostCall)
    }

    /** Nobody else wrote in between. */
    twostate predicate Calm() reads this { foreign == old(foreign) }

    /** Nobody else changed the chosen target in between. */
    twostate predicate Alone() reads this { strangers == old(strangers) }

    /** What is seen of the chosen target. */
    ghost function Sight(): Observed reads this`state { View(state, chosen) }

    twostate predicate Counting()
      reads this
    {
      foreign >= old(foreign) && strangers >= old(strangers) && (Calm() ==> Alone()) && lostReads >= old(lostReads)
      && refused >= old(refused) && lost >= old(lost) && wild >= old(wild)
      && old(log) <= log && (lost == old(lost) ==> lostCall == old(lostCall))
    }

    /** Only reads happened in between. */
    twostate predicate ReadOnly()
      reads this
    {
      Counting() && (forall k :: |old(log)| <= k < |log| ==> !log[k].Called?)
      && refused == old(refused) && lost == old(lost) && wild == old(wild)
      && (Calm() ==> state == old(state)) && (Alone() ==> Sight() == old(Sight()))
    }

    /** Every change did what it should. */
    twostate predicate Faultless()
      reads this
    {
      refused == old(refused) && lost == old(lost) && wild == old(wild)
    }

    /** Nobody interfered and nothing failed. */
    twostate predicate Clean()
      reads this
    {
      Calm() && Faultless() && lostReads == old(lostReads)
    }

    method Interfere()
      modifies this`state, this`foreign, this`strangers
      ensures foreign >= old(foreign) && strangers >= old(strangers)
      ensures Calm() ==> state == old(state) && Alone()
      ensures Alone() ==> Sight() == old(Sight())
    {
      if * {
        state := *;
        foreign := foreign + 1;
        if Sight() != old(Sight()) {
          strangers := strangers + 1;
        }
      }
    }

    /** The reason of its own for which a read may fail. */
    method MayFail() returns (error: Option<ErrorKind>)
      modifies this`lostReads
      ensures error.Some? ==> error.value != NotFound
      ensures lostReads == old(lostReads) + (if error.Some? then 1 else 0)
    {
      error := None;
      if * {
        var kind: ErrorKind := *;
        if kind != NotFound {
          error := Some(kind);
          lostReads := lostReads + 1;
        }
      }
    }

    function TaskTruth(path: TaskPath): Result<Task>
      reads this`state
    {
      if path in state.tasks then Ok(state.tasks[path]) else Err(NotFound)
    }

    function TaskAclTruth(path: TaskPath): Result<Acl>
      reads this`state
    {
      if path in state.tasks then Ok(state.tasks[path].acl) else Err(NotFound)
    }

    function FolderAclTruth(folder: FolderPath): Result<Acl>
      reads this`state
    {
      if folder in state.folders then Ok(state.folders[folder]) else Err(NotFound)
    }

    /** Every task below a folder. */
    function TasksTruth(folder: FolderPath): Result<map<TaskPath, Task>>
      reads this`state
    {
      if folder in state.folders
      then Ok(map p | p in state.tasks && folder <= p.folder :: state.tasks[p])
      else Err(NotFound)
    }

    /** Every folder strictly below a folder. */
    function FoldersTruth(folder: FolderPath): Result<set<FolderPath>>
      reads this`state
    {
      if folder in state.folders
      then Ok(set f | f in state.folders && folder <= f && f != folder)
      else Err(NotFound)
    }

    method GetTask(path: TaskPath) returns (r: Result<Task>)
      modifies this
      ensures ReadOnly() && Honest(r, TaskTruth(path), lostReads > old(lostReads))
      ensures log == old(log) + [TaskRead(path, r)]
    {
      Interfere();
      var failure := MayFail();
      r := if failure.Some? then Err(failure.value) else TaskTruth(path);
      log := log + [TaskRead(path, r)];
    }

    method TaskSecurity(path: TaskPath) returns (r: Result<Acl>)
      modifies this
      ensures ReadOnly() && Honest(r, TaskAclTruth(path), lostReads > old(lostReads))
      ensures log == old(log) + [TaskAclRead(path, r)]
    {
      Interfere();
      var failure := MayFail();
      r := if failure.Some? then Err(failure.value) else TaskAclTruth(path);
      log := log + [TaskAclRead(path, r)];
    }

    method FolderSecurity(folder: FolderPath) returns (r: Result<Acl>)
      modifies this
      ensures ReadOnly() && Honest(r, FolderAclTruth(folder), lostReads > old(lostReads))
      ensures log == old(log) + [FolderAclRead(folder, r)]
    {
      Interfere();
      var failure := MayFail();
      r := if failure.Some? then Err(failure.value) else FolderAclTruth(folder);
      log := log + [FolderAclRead(folder, r)];
    }

    method ListTasks(folder: FolderPath) returns (r: Result<map<TaskPath, Task>>)
      modifies this
      ensures ReadOnly() && Honest(r, TasksTruth(folder), lostReads > old(lostReads))
      ensures log == old(log) + [TasksListed(folder, r)]
    {
      Interfere();
      var failure := MayFail();
      r := if failure.Some? then Err(failure.value) else TasksTruth(folder);
      log := log + [TasksListed(folder, r)];
    }

    /** The one caller that passes recursive = false ignores the list. */
    method ListFolders(folder: FolderPath) returns (r: Result<set<FolderPath>>)
      modifies this
      ensures ReadOnly() && Honest(r, FoldersTruth(folder), lostReads > old(lostReads))
      ensures log == old(log) + [FoldersListed(folder, r)]
    {
      Interfere();
      var failure := MayFail();
      r := if failure.Some? then Err(failure.value) else FoldersTruth(folder);
      log := log + [FoldersListed(folder, r)];
    }

    /** What one changing call may do.  Undisturbed and without a fault it does exactly what Effect says. */
    twostate predicate Invoked(call: Call, new error: Option<ErrorKind>)
      reads this
    {
      && Counting() && log == old(log) + [Called(call)] && lostReads == old(lostReads)
      && refused + lost + wild <= old(refused) + old(lost) + old(wild) + 1
      && (Calm() ==> OnlyTouches(old(state), state, CallTarget(call)))
      && (Calm() && refused == old(refused) && lost == old(lost) && wild == old(wild)
          ==> (state, error) == Effect(call, old(state), standard))
      && (Alone() && (call.StopAll? || CallTarget(call) != chosen) ==> Sight() == old(Sight()))
      && (Calm() && call.StopAll? ==> state == old(state) && wild == old(wild))
      && (Calm() && refused > old(refused) ==> state == old(state) && error.Some?)
      && (lost > old(lost) ==> lostCall == Some(call))
      && (Calm() && lost > old(lost) ==> state == Effect(call, old(state), standard).0 && error.Some?)
    }

    method Invoke(call: Call) returns (error: Option<ErrorKind>)
      modifies this
      ensures Invoked(call, error)
    {
      hide Effect, Mangled, View, CallTarget;
      Interfere();
      log := log + [Called(call)];
      StopChangesNothing(call, state, standard);
      EffectIsLocal(call, state, standard);
      var (next, verdict) := Effect(call, state, standard);
      var kind: ErrorKind := *;
      if * {
        refused := refused + 1;
        error := Some(kind);
      } else if * {
        lost, lostCall := lost + 1, Some(call);
        state := next;
        error := Some(kind);
      } else if call.StopAll? {
        error := verdict;
      } else if * {
        wild := wild + 1;
        var anything: State := *;
        MangledIsLocal(state, CallTarget(call), anything);
        state := Mangled(state, CallTarget(call), anything);
        error := None;
        if * {
          error := Some(kind);
        }
      } else {
        state := next;
        error := verdict;
      }
    }
  }
}
