/** The work queue of a scheduler session (client/mod.rs): submitters on any thread, futures that are
    dropped, the one worker thread and shutdown, interleaved one atomic step at a time. */
module WorkerQueue {
  import opened Wrappers

  /** A blocking call waits for its answer and cannot be cancelled; an asynchronous one has a state cell. */
  datatype Kind = Blocking | Async
  datatype Cell = Queued | Started | Cancelled

  datatype Worker =
    | Waiting
    | Holding(job: nat)   // taken from the channel, not begun
    | Running(job: nat)
    | Exited              // the channel was closed and empty
    | Crashed             // a body panicked; what was queued is gone

  datatype Answer = Done | Refused

  /** Jobs are numbered in the order in which they were accepted. */
  datatype State = State(
    open: bool, kinds: seq<Kind>, cells: seq<Cell>, dropped: set<nat>,
    queue: seq<nat>, taken: seq<nat>, begun: seq<nat>, answers: map<nat, Answer>,
    worker: Worker, closedAt: Option<nat>, joined: bool, verdicts: seq<bool>)

  datatype Move =
    | Submit(kind: Kind)
    | DropFuture(job: nat)
    | Close
    | Work(ok: bool)
    | FinishShutdown

  function Init(): State {
    State(true, [], [], {}, [], [], [], map[], Waiting, None, false, [])
  }

  predicate Over(w: Worker) { w.Exited? || w.Crashed? }

  predicate Enabled(s: State, m: Move) {
    match m
    case Submit(_) => true
    case DropFuture(job) => job < |s.kinds| && |s.cells| == |s.kinds| && s.kinds[job].Async? && job !in s.dropped
    case Close => true
    case Work(_) => WorkerEnabled(s)
    case FinishShutdown => !s.open && (s.joined || Over(s.worker))
  }

  predicate WorkerEnabled(s: State) {
    match s.worker
    case Waiting => s.queue != [] || !s.open
    case Holding(job) => job < |s.kinds| == |s.cells|
    case Running(_) => true
    case _ => false
  }

  function After(s: State, m: Move): State
    requires Enabled(s, m)
  {
    match m
    case Submit(kind) =>
      if s.open && !Over(s.worker) then
        s.(kinds := s.kinds + [kind], cells := s.cells + [Queued], queue := s.queue + [|s.kinds|])
      else s
    case DropFuture(job) =>
      s.(dropped := s.dropped + {job},
         cells := if s.cells[job].Queued? then s.cells[job := Cancelled] else s.cells)
    case Close =>
      s.(open := false, closedAt := if s.closedAt.None? then Some(|s.kinds|) else s.closedAt)
    case Work(ok) => WorkerStep(s, ok)
    case FinishShutdown =>
      if s.joined then s.(verdicts := s.verdicts + [true])
      else s.(joined := true, verdicts := s.verdicts + [s.worker.Exited?])
  }

  /** The worker's loop around a job; begin_operation decides whether the body runs. */
  function WorkerStep(s: State, ok: bool): State
    requires WorkerEnabled(s)
  {
    match s.worker
    case Waiting =>
      if s.queue == [] then s.(worker := Exited)
      else s.(worker := Holding(s.queue[0]), queue := s.queue[1..], taken := s.taken + [s.queue[0]])
    case Holding(job) =>
      if s.kinds[job].Blocking? then s.(worker := Running(job), begun := s.begun + [job])
      else if s.cells[job].Queued? then
        s.(cells := s.cells[job := Started], worker := Running(job), begun := s.begun + [job])
      else s.(answers := s.answers[job := Refused], worker := Waiting)
    case Running(job) =>
      if ok then s.(answers := s.answers[job := Done], worker := Waiting)
      else s.(worker := Crashed, queue := [])
  }

  ghost predicate IsRun(run: seq<State>, moves: seq<Move>) {
    && |run| == |moves| + 1 && run[0] == Init()
    && forall i :: 0 <= i < |moves| ==> Steps(run[i], moves[i], run[i + 1])
  }

  ghost predicate Steps(s: State, m: Move, s': State) { Enabled(s, m) && s' == After(s, m) }

  function Last(run: seq<State>): State
    requires run != []
  {
    run[|run| - 1]
  }

  // ---- the invariant ---------------------------------------------------------------------------

  /** Jobs leave the channel in the order in which they entered it. */
  ghost predicate InOrder(s: State) {
    && |s.cells| == |s.kinds|
    && (forall i :: 0 <= i < |s.taken| ==> s.taken[i] == i)
    && (forall i :: 0 <= i < |s.queue| ==> s.queue[i] == |s.taken| + i)
    && (if s.worker.Crashed? then s.queue == [] && |s.taken| <= |s.kinds| else |s.taken| + |s.queue| == |s.kinds|)
    && (s.worker.Holding? || s.worker.Running? ==> |s.taken| > 0 && s.worker.job == |s.taken| - 1)
    && (s.worker.Exited? ==> s.queue == [] && !s.open)
  }

  /** The jobs whose turn is over or whose body runs. */
  function Decided(s: State): nat {
    if s.worker.Holding? && |s.taken| > 0 then |s.taken| - 1 else |s.taken|
  }

  ghost predicate Rising(jobs: seq<nat>) { forall i, j :: 0 <= i < j < |jobs| ==> jobs[i] < jobs[j] }

  /** A body has begun exactly for the jobs whose turn came and that were not cancelled first. */
  ghost predicate BodiesMatch(s: State) {
    && |s.cells| == |s.kinds| && Decided(s) <= |s.kinds|
    && Rising(s.begun)
    && (forall job :: job in s.begun <==>
          0 <= job < Decided(s) && (s.kinds[job].Blocking? || s.cells[job].Started?))
    && (forall job :: 0 <= job < |s.kinds| && s.cells[job].Started? ==> job < Decided(s))
    && (forall job :: 0 <= job < Decided(s) && s.kinds[job].Async? ==> !s.cells[job].Queued?)
    && (forall job :: 0 <= job < |s.kinds| && s.cells[job].Cancelled? ==> job in s.dropped && s.kinds[job].Async?)
    && (forall job :: job in s.dropped ==> 0 <= job < |s.kinds| && !s.cells[job].Queued?)
    && (s.worker.Running? ==> s.worker.job in s.begun)
  }

  /** Who has been answered. */
  ghost predicate AnswersMatch(s: State) {
    && |s.kinds| == |s.cells| && Finished(s) <= |s.kinds|
    && (forall job :: job in s.answers <==> 0 <= job < Finished(s))
    && (forall job :: 0 <= job < Finished(s) ==>
          (s.answers[job].Refused? <==> s.kinds[job].Async? && s.cells[job].Cancelled?))
  }

  function Finished(s: State): nat {
    if (s.worker.Holding? || s.worker.Running? || s.worker.Crashed?) && |s.taken| > 0 then |s.taken| - 1 else |s.taken|
  }

  /** Closing is final. */
  ghost predicate ClosingMatches(s: State) {
    && (s.open <==> s.closedAt.None?)
    && (s.closedAt.Some? ==> s.closedAt.value == |s.kinds|)
    && (s.joined ==> Over(s.worker) && !s.open)
    && (s.verdicts != [] ==> s.joined)
    && (s.joined ==> s.verdicts != [] && (s.verdicts[0] <==> s.worker.Exited?))
    && (forall k :: 0 < k < |s.verdicts| ==> s.verdicts[k])
  }

  ghost predicate Inv(s: State) { InOrder(s) && BodiesMatch(s) && AnswersMatch(s) && ClosingMatches(s) }

  lemma StepKeepsOrder(s: State, m: Move)
    requires InOrder(s) && Enabled(s, m)
    ensures InOrder(After(s, m))
  {
    hide WorkerStep;
    if m.Work? {
      if s.worker.Waiting? {
        TakingKeepsOrder(s, m.ok);
      } else {
        WorkingKeepsOrder(s, m.ok);
      }
    }
  }

  lemma TakingKeepsOrder(s: State, ok: bool)
    requires InOrder(s) && WorkerEnabled(s) && s.worker.Waiting?
    ensures InOrder(WorkerStep(s, ok))
  {
  }

  lemma WorkingKeepsOrder(s: State, ok: bool)
    requires InOrder(s) && WorkerEnabled(s) && !s.worker.Waiting?
    ensures InOrder(WorkerStep(s, ok))
  {
  }

  lemma SubmitKeeps(s: State, kind: Kind)
    requires InOrder(s) && BodiesMatch(s) && AnswersMatch(s)
    ensures BodiesMatch(After(s, Submit(kind))) && AnswersMatch(After(s, Submit(kind)))
  {
  }

  lemma DropKeeps(s: State, job: nat)
    requires InOrder(s) && BodiesMatch(s) && AnswersMatch(s) && Enabled(s, DropFuture(job))
    ensures BodiesMatch(After(s, DropFuture(job))) && AnswersMatch(After(s, DropFuture(job)))
  {
  }

  lemma BegunGrows(begun: seq<nat>, job: nat)
    requires Rising(begun) && forall k <- begun :: k < job
    ensures Rising(begun + [job]) && forall k :: k in begun + [job] <==> k in begun || k == job
  {
    forall i | 0 <= i < |begun| ensures begun[i] < job {
      assert begun[i] in begun;
    }
  }

  /** begin_operation and the start of the body. */
  lemma BeginningKeepsBodies(s: State, ok: bool)
    requires InOrder(s) && BodiesMatch(s) && WorkerEnabled(s) && s.worker.Holding?
    ensures BodiesMatch(WorkerStep(s, ok))
  {
    hide Rising;
    BegunGrows(s.begun, s.worker.job);
  }

  lemma BeginningKeepsAnswers(s: State, ok: bool)
    requires InOrder(s) && BodiesMatch(s) && AnswersMatch(s) && WorkerEnabled(s) && s.worker.Holding?
    ensures AnswersMatch(WorkerStep(s, ok))
  {
    var job := s.worker.job;
    assert s.cells[job].Started? ==> job < Decided(s);
  }

  lemma OtherWorkKeepsBodies(s: State, ok: bool)
    requires InOrder(s) && BodiesMatch(s) && WorkerEnabled(s) && !s.worker.Holding?
    ensures BodiesMatch(WorkerStep(s, ok))
  {
    hide Rising;
  }

  lemma RunningKeepsAnswers(s: State, ok: bool)
    requires InOrder(s) && BodiesMatch(s) && AnswersMatch(s) && s.worker.Running?
    ensures AnswersMatch(WorkerStep(s, ok))
  {
    hide Rising;
    var job := s.worker.job;
    assert s.kinds[job].Async? ==> s.cells[job].Started?;
    hide BodiesMatch;
  }

  lemma WaitingKeepsAnswers(s: State, ok: bool)
    requires InOrder(s) && AnswersMatch(s) && WorkerEnabled(s) && s.worker.Waiting?
    ensures AnswersMatch(WorkerStep(s, ok))
  {
  }

  lemma StepKeepsClosing(s: State, m: Move)
    requires InOrder(s) && ClosingMatches(s) && Enabled(s, m)
    ensures ClosingMatches(After(s, m))
  {
  }

  lemma StepKeepsInv(s: State, m: Move)
    requires Inv(s) && Enabled(s, m)
    ensures Inv(After(s, m))
  {
    StepKeepsOrder(s, m);
    StepKeepsClosing(s, m);
    hide InOrder, BodiesMatch, AnswersMatch, ClosingMatches, WorkerStep;
    match m {
      case Submit(kind) => SubmitKeeps(s, kind);
      case DropFuture(job) => DropKeeps(s, job);
      case Work(ok) =>
        if s.worker.Holding? {
          BeginningKeepsBodies(s, ok);
          BeginningKeepsAnswers(s, ok);
        } else {
          OtherWorkKeepsBodies(s, ok);
          if s.worker.Running? {
            RunningKeepsAnswers(s, ok);
          } else {
            WaitingKeepsAnswers(s, ok);
          }
        }
      case _ => OutsidersKeep(s, m);
    }
  }

  lemma OutsidersKeep(s: State, m: Move)
    requires (m.Close? || m.FinishShutdown?) && Enabled(s, m) && BodiesMatch(s) && AnswersMatch(s)
    ensures BodiesMatch(After(s, m)) && AnswersMatch(After(s, m))
  {
  }

  lemma InvAtFirst()
    ensures Inv(Init())
  {
  }

  lemma {:induction false} RunKeepsInv(run: seq<State>, moves: seq<Move>, i: nat)
    requires IsRun(run, moves) && i < |run|
    ensures Inv(run[i])
  {
    hide Inv, After;
    if i == 0 {
      InvAtFirst();
    } else {
      RunKeepsInv(run, moves, i - 1);
      assert Steps(run[i - 1], moves[i - 1], run[i]);
      StepKeepsInv(run[i - 1], moves[i - 1]);
    }
  }

  // ---- what every run guarantees --------------------------------------------------------------------

  /** Every accepted job is taken at most once and in the order of acceptance, and bodies run in that
      order, each at most once. */
  lemma WorkIsInOrder(run: seq<State>, moves: seq<Move>)
    requires IsRun(run, moves)
    ensures var s := Last(run);
      && (forall i :: 0 <= i < |s.taken| ==> s.taken[i] == i < |s.kinds|)
      && (forall i, j :: 0 <= i < j < |s.begun| ==> s.begun[i] < s.begun[j])
  {
    RunKeepsInv(run, moves, |run| - 1);
  }

  lemma CellsAreFinal(s: State, m: Move, job: nat)
    requires Inv(s) && Enabled(s, m) && job < |s.kinds| && !s.cells[job].Queued?
    ensures job < |After(s, m).kinds| == |After(s, m).cells| && After(s, m).cells[job] == s.cells[job]
  {
    hide AnswersMatch, ClosingMatches;
  }

  lemma {:induction false} DecidedForever(run: seq<State>, moves: seq<Move>, i: nat, j: nat, job: nat)
    requires IsRun(run, moves) && i <= j < |run|
    requires job < |run[i].kinds| == |run[i].cells| && !run[i].cells[job].Queued?
    ensures job < |run[j].kinds| == |run[j].cells| && run[j].cells[job] == run[i].cells[job]
  {
    hide Inv, After;
    if i < j {
      DecidedForever(run, moves, i, j - 1, job);
      assert Steps(run[j - 1], moves[j - 1], run[j]);
      RunKeepsInv(run, moves, j - 1);
      CellsAreFinal(run[j - 1], moves[j - 1], job);
    }
  }

  /** At every point of every run has_started says exactly whether the body of an asynchronous job has begun, and
      a job that was cancelled first has not begun.  Either decision is final: what has started stays started
      and what has been cancelled stays cancelled to the end of the run. */
  lemma StartedMeansBegun(run: seq<State>, moves: seq<Move>, i: nat, job: nat)
    requires IsRun(run, moves) && i < |run| && job < |run[i].kinds|
    ensures var s := run[i];
      |s.cells| == |s.kinds|
      && (s.kinds[job].Async? ==> (s.cells[job].Started? <==> job in s.begun))
      && (s.cells[job].Cancelled? ==> job in s.dropped && job !in s.begun)
      && (job in s.dropped && job !in s.begun ==> s.cells[job].Cancelled?)
      && (!s.cells[job].Queued? ==> job < |Last(run).cells| && Last(run).cells[job] == s.cells[job])
  {
    RunKeepsInv(run, moves, i);
    if !run[i].cells[job].Queued? {
      DecidedForever(run, moves, i, |run| - 1, job);
    }
    hide InOrder, AnswersMatch, ClosingMatches;
  }

  lemma NothingAfterClose(s: State, m: Move)
    requires Inv(s) && Enabled(s, m) && !s.open
    ensures !After(s, m).open && After(s, m).kinds == s.kinds
  {
  }

  lemma {:induction false} ClosedForever(run: seq<State>, moves: seq<Move>, i: nat, j: nat)
    requires IsRun(run, moves) && i <= j < |run| && !run[i].open
    ensures !run[j].open && run[j].kinds == run[i].kinds
  {
    hide Inv, After;
    if i < j {
      ClosedForever(run, moves, i, j - 1);
      assert Steps(run[j - 1], moves[j - 1], run[j]);
      RunKeepsInv(run, moves, j - 1);
      NothingAfterClose(run[j - 1], moves[j - 1]);
    }
  }

  /** When the worker has come to its regular end, all accepted work has been dealt with: each job has been
      answered, and exactly those not cancelled before their turn have run. */
  lemma AcceptedWorkIsDrained(run: seq<State>, moves: seq<Move>, job: nat)
    requires IsRun(run, moves) && Last(run).worker.Exited? && job < |Last(run).kinds|
    ensures var s := Last(run);
      job in s.answers && |s.cells| == |s.kinds|
      && (s.answers[job].Refused? <==> s.cells[job].Cancelled?)
      && (job in s.begun <==> !s.cells[job].Cancelled?)
  {
    RunKeepsInv(run, moves, |run| - 1);
    hide ClosingMatches;
  }

  /** How many steps the worker still needs once the session is closed. */
  function Remaining(s: State): nat {
    match s.worker
    case Waiting => 3 * |s.queue| + 1
    case Holding(_) => 3 * |s.queue| + 3
    case Running(_) => 3 * |s.queue| + 2
    case _ => 0
  }

  /** From the point at which the session has been closed it stays closed and accepts nothing; the worker can always
      go on until it is over, each of its steps brings it closer to that, and nobody else's step takes it
      further away; so queued work is not left behind. */
  lemma ClosedQueueDrains(run: seq<State>, moves: seq<Move>, i: nat, m: Move)
    requires IsRun(run, moves) && i < |run| && !run[i].open && Enabled(Last(run), m)
    ensures var s := Last(run);
      && !s.open && s.kinds == run[i].kinds
      && (WorkerEnabled(s) || Over(s.worker))
      && (if m.Work? then Remaining(After(s, m)) < Remaining(s) else Remaining(After(s, m)) == Remaining(s))
      && (Remaining(s) == 0 <==> Over(s.worker))
  {
    RunKeepsInv(run, moves, |run| - 1);
    ClosedForever(run, moves, i, |run| - 1);
    hide BodiesMatch, AnswersMatch;
  }

  /** The first shutdown to see the end of the worker succeeds exactly if the worker ended regularly, that
      is, with all accepted work dealt with. */
  lemma FirstShutdownIsTruthful(run: seq<State>, moves: seq<Move>)
    requires IsRun(run, moves) && Last(run).verdicts != []
    ensures Over(Last(run).worker) && (Last(run).verdicts[0] <==> Last(run).worker.Exited?)
  {
    RunKeepsInv(run, moves, |run| - 1);
    hide InOrder, BodiesMatch, AnswersMatch;
  }

  /** Every shutdown that sees the end: its verdict agrees with how the worker ended if it is the first one or
      the worker ended regularly, and only then. */
  lemma VerdictsExactly(run: seq<State>, moves: seq<Move>, k: nat)
    requires IsRun(run, moves) && k < |Last(run).verdicts|
    ensures var s := Last(run);
      (s.verdicts[k] <==> s.worker.Exited?) <==> (k == 0 || s.worker.Exited?)
  {
    RunKeepsInv(run, moves, |run| - 1);
    hide InOrder, BodiesMatch, AnswersMatch;
  }

  // ---- runs that show what happens, and the limit --------------------------------------------------------------------------

  lemma Extend(run: seq<State>, moves: seq<Move>, m: Move) returns (run': seq<State>, moves': seq<Move>)
    requires IsRun(run, moves) && Enabled(Last(run), m)
    ensures IsRun(run', moves') && Last(run') == After(Last(run), m)
  {
    run', moves' := run + [After(Last(run), m)], moves + [m];
    assert Steps(Last(run), m, Last(run'));
  }

  /** A session as it should be: one job of each kind runs, a cancelled one does not, a job after closing is not
      accepted, and shutdown reports success. */
  lemma RegularRun() returns (run: seq<State>, moves: seq<Move>)
    ensures IsRun(run, moves)
    ensures var s := Last(run);
      s.kinds == [Async, Blocking, Async] && s.begun == [0, 1] && s.cells == [Started, Queued, Cancelled]
      && s.answers == map[0 := Done, 1 := Done, 2 := Refused] && s.worker.Exited? && s.verdicts == [true]
  {
    run, moves := [Init()], [];
    run, moves := Extend(run, moves, Submit(Async));
    run, moves := Extend(run, moves, Submit(Blocking));
    run, moves := Extend(run, moves, Submit(Async));
    run, moves := Extend(run, moves, DropFuture(2));
    run, moves := Extend(run, moves, Close);
    run, moves := Extend(run, moves, Submit(Blocking));
    assert Last(run).kinds == [Async, Blocking, Async] && Last(run).cells == [Queued, Queued, Cancelled];
    assert Last(run).queue == [0, 1, 2];
    run, moves := RunJob(run, moves);
    assert Last(run).cells == [Started, Queued, Cancelled];
    run, moves := Extend(run, moves, DropFuture(0));
    run, moves := RunJob(run, moves);
    run, moves := Extend(run, moves, Work(true));
    run, moves := Extend(run, moves, Work(true));
    run, moves := Extend(run, moves, Work(true));
    run, moves := Extend(run, moves, FinishShutdown);
  }

  /** The worker takes the next job, runs it and answers it. */
  lemma RunJob(run0: seq<State>, moves0: seq<Move>) returns (run: seq<State>, moves: seq<Move>)
    requires IsRun(run0, moves0)
    requires var s := Last(run0);
      s.worker.Waiting? && s.queue != [] && s.queue[0] < |s.kinds| == |s.cells|
      && (s.kinds[s.queue[0]].Blocking? || s.cells[s.queue[0]].Queued?)
    ensures IsRun(run, moves)
    ensures var s, job := Last(run0), Last(run0).queue[0];
      Last(run) == s.(queue := s.queue[1..], taken := s.taken + [job], begun := s.begun + [job],
                      cells := if s.kinds[job].Async? then s.cells[job := Started] else s.cells,
                      answers := s.answers[job := Done], worker := Waiting)
  {
    run, moves := Extend(run0, moves0, Work(true));
    run, moves := Extend(run, moves, Work(true));
    run, moves := Extend(run, moves, Work(true));
  }

  /** A panicking body takes the queued work with it; the first shutdown reports that, a second one on the
      same session reports success although a job was accepted, never taken and never answered. */
  lemma LostWorkRun() returns (run: seq<State>, moves: seq<Move>)
    ensures IsRun(run, moves)
    ensures var s := Last(run);
      s.verdicts == [false, true] && |s.kinds| == 2 && s.taken == [0] && 1 !in s.answers && s.worker.Crashed?
  {
    run, moves := [Init()], [];
    run, moves := Extend(run, moves, Submit(Blocking));
    run, moves := Extend(run, moves, Submit(Blocking));
    run, moves := Extend(run, moves, Work(true));
    run, moves := Extend(run, moves, Work(true));
    run, moves := Extend(run, moves, Work(false));
    run, moves := Extend(run, moves, Close);
    run, moves := Extend(run, moves, FinishShutdown);
    run, moves := Extend(run, moves, FinishShutdown);
  }
}
