/** The completion protocol of one handler invocation (handler.rs): reporter clones on any number of
    threads, the mutex they share, the atomic flag and progress, the command channel, the status worker
    and the user thread, interleaved one atomic access, channel operation or COM call at a time. */
module Handler {
  import opened Wrappers

  type Tid = nat

  /** The thread the user's `run` executes on. */
  const USER: Tid := 0

  datatype Fault = InvalidDefinition | Conflict | WorkerStopped | Native
  datatype Outcome = Finished | Failed(native: Option<int>)
  datatype Command = Update(who: Tid, percent: nat) | Complete(who: Tid) | HandlerDone(outcome: Outcome)

  /** A call of the scheduler's status interface and whether it succeeded. */
  datatype Call = UpdateStatus(percent: nat, ok: bool) | TaskCompleted(code: int, ok: bool)

  /** What a caller of the reporter was told. */
  datatype Return = ReportOk(percent: nat) | ReportErr(fault: Fault) | CompleteOk | CompleteErr(fault: Fault)

  /** Where the reporter inside the mutex is; Idle when nobody is inside. */
  datatype Pc =
    | Idle
    | ReportLocked(percent: nat)   // before looking at the flag
    | ReportOpen(percent: nat)     // the flag was false
    | ReportAhead(percent: nat)    // more than the recorded progress
    | ReportSent(percent: nat, reply: Option<bool>) // waiting on its own reply channel
    | Recording(percent: nat)      // before fetch_max
    | CompleteLocked               // before compare_exchange
    | CompleteClaimed              // the flag was taken, nothing sent yet
    | CompleteSent(reply: Option<bool>) // waiting on its own reply channel
    | CompleteFailed(fault: Fault) // before giving the flag back

  datatype Worker =
    | Receiving
    | Serving(command: Command)
    | Resetting(command: Command)                         // the completion failed; flag still up
    | Replying(command: Command, ok: bool)
    | Notifying(code: int, first: bool, last: bool)       // notify_terminal_completed, first or second attempt
    | Unclaiming(last: bool)                              // both attempts failed; flag still up
    | Joining(handlerDone: bool)
    | Closing                                             // before the swap after the join
    | Stopped

  datatype User = Running | Returned | Died

  datatype State = State(
    reporters: set<Tid>, holder: Option<Tid>, pc: Pc, completed: bool, progress: nat,
    queue: seq<Command>, worker: Worker, user: User,
    log: seq<Call>, returned: seq<Return>)

  /** One step of somebody; the outcomes of COM calls and of the join are part of the step. */
  datatype Move =
    | Clone(source: Tid, copy: Tid)
    | Drop(who: Tid)
    | Report(who: Tid, percent: nat)
    | Finish(who: Tid)
    | Reporter(who: Tid)
    | UserReturns(outcome: Outcome)
    | UserDies
    | Work(ok: bool)

  const S_OK := 0
  const E_FAIL := -2147467259

  /** The code a finished or failed handler is reported with. */
  function TerminalCode(outcome: Outcome): int {
    match outcome
    case Finished => S_OK
    case Failed(native) => if native.Some? && native.value < 0 then native.value else E_FAIL
  }

  function Init(): State {
    State({USER}, None, Idle, false, 0, [], Receiving, Running, [], [])
  }

  /** The user thread could not be started. */
  function Unspawned(): State {
    Init().(reporters := {}, worker := Notifying(E_FAIL, true, true), user := Died)
  }

  // ---- the steps ----------------------------------------------------------------------------

  predicate Enabled(s: State, m: Move) {
    match m
    case Clone(t, copy) => t in s.reporters && copy !in s.reporters
    case Drop(t) => t in s.reporters && s.holder != Some(t)
    case Report(t, percent) => t in s.reporters && s.holder.None? && percent < 256
    case Finish(t) => t in s.reporters && s.holder.None?
    case Reporter(t) => s.holder == Some(t) && !s.pc.Idle? && (Waiting(s.pc) ==> s.worker.Stopped?)
    case UserReturns(_) => s.user.Running? && s.holder != Some(USER)
    case UserDies => s.user.Running? && s.holder != Some(USER)
    case Work(_) => WorkerEnabled(s)
  }

  predicate Waiting(pc: Pc) { (pc.ReportSent? || pc.CompleteSent?) && pc.reply.None? }

  /** The worker blocks on an empty channel that still has a sender, and on joining a running thread. */
  predicate WorkerEnabled(s: State) {
    match s.worker
    case Receiving => s.queue != [] || (s.user != Running && s.reporters == {})
    case Joining(_) => s.user != Running
    case Stopped => false
    case _ => true
  }

  /** In a clean run, sending HandlerDone is the last thing the user thread does. */
  predicate Clean(s: State, m: Move) {
    m.Work? && s.worker == Joining(true) ==> m.ok
  }

  function After(s: State, m: Move): State
    requires Enabled(s, m)
  {
    match m
    case Clone(_, copy) => s.(reporters := s.reporters + {copy})
    case Drop(t) => s.(reporters := s.reporters - {t})
    case Report(t, percent) => s.(holder := Some(t), pc := ReportLocked(percent))
    case Finish(t) => s.(holder := Some(t), pc := CompleteLocked)
    case Reporter(t) => ReporterStep(s, t)
    case UserReturns(outcome) =>
      s.(reporters := s.reporters - {USER}, user := Returned, queue := s.queue + [HandlerDone(outcome)])
    case UserDies => s.(reporters := s.reporters - {USER}, user := Died)
    case Work(ok) => WorkerStep(s, ok)
  }

  /** Unlock and return. */
  function Leave(s: State, r: Return): State {
    s.(holder := None, pc := Idle, returned := s.returned + [r])
  }

  function Send(s: State, command: Command, pc: Pc): State {
    s.(pc := pc, queue := s.queue + [command])
  }

  /** report_inner and complete_inner, one step at a time. */
  function ReporterStep(s: State, t: Tid): State
    requires Enabled(s, Reporter(t))
  {
    match s.pc
    case ReportLocked(percent) =>
      if percent > 100 then Leave(s, ReportErr(InvalidDefinition))
      else if s.completed then Leave(s, ReportErr(Conflict))
      else s.(pc := ReportOpen(percent))
    case ReportOpen(percent) =>
      s.(pc := if percent > s.progress then ReportAhead(percent) else Recording(percent))
    case ReportAhead(percent) =>
      if s.worker.Stopped? then Leave(s, ReportErr(WorkerStopped))
      else Send(s, Update(t, percent), ReportSent(percent, None))
    case ReportSent(percent, reply) =>
      if reply.None? then Leave(s, ReportErr(WorkerStopped))
      else if !reply.value then Leave(s, ReportErr(Native))
      else s.(pc := Recording(percent))
    case Recording(percent) =>
      Leave(s.(progress := if percent > s.progress then percent else s.progress), ReportOk(percent))
    case CompleteLocked =>
      if s.completed then Leave(s, CompleteErr(Conflict)) else s.(completed := true, pc := CompleteClaimed)
    case CompleteClaimed =>
      if s.worker.Stopped? then s.(pc := CompleteFailed(WorkerStopped))
      else Send(s, Complete(t), CompleteSent(None))
    case CompleteSent(reply) =>
      if reply.None? then s.(pc := CompleteFailed(WorkerStopped))
      else if !reply.value then s.(pc := CompleteFailed(Native))
      else Leave(s, CompleteOk)
    case CompleteFailed(fault) => Leave(s.(completed := false), CompleteErr(fault))
  }

  function Logged(s: State, call: Call, next: Worker): State {
    s.(log := s.log + [call], worker := next)
  }

  /** The answer goes to the caller that still waits for it. */
  function Reply(s: State, command: Command, answer: bool): State {
    if command.HandlerDone? || s.holder != Some(command.who) then s
    else match s.pc
      case ReportSent(percent, None) => s.(pc := ReportSent(percent, Some(answer)))
      case CompleteSent(None) => s.(pc := CompleteSent(Some(answer)))
      case _ => s
  }

  /** Returning drops the receiver and whatever is still in the channel. */
  function Stop(s: State): State { s.(worker := Stopped, queue := []) }

  function Notified(s: State, last: bool): State {
    if last then Stop(s) else s.(worker := Joining(true))
  }

  /** handler_worker, one step at a time. */
  function WorkerStep(s: State, ok: bool): State
    requires WorkerEnabled(s)
  {
    match s.worker
    case Receiving =>
      if s.queue == [] then s.(worker := Joining(false)) else s.(worker := Serving(s.queue[0]), queue := s.queue[1..])
    case Serving(command) => (
      match command
      case Update(_, percent) => Logged(s, UpdateStatus(percent, ok), Replying(command, ok))
      case Complete(_) =>
        Logged(s, TaskCompleted(S_OK, ok), if ok then Replying(command, true) else Resetting(command))
      case HandlerDone(outcome) =>
        if s.completed then s.(worker := Joining(true))
        else s.(completed := true, worker := Notifying(TerminalCode(outcome), true, false)))
    case Resetting(command) => s.(completed := false, worker := Replying(command, false))
    case Replying(command, answer) => Reply(s, command, answer).(worker := Receiving)
    case Notifying(code, first, last) =>
      var t := s.(log := s.log + [TaskCompleted(code, ok)]);
      if ok then Notified(t, last)
      else t.(worker := if first then Notifying(code, false, last) else Unclaiming(last))
    case Unclaiming(last) => Notified(s.(completed := false), last)
    case Joining(handlerDone) => if handlerDone && ok then Stop(s) else s.(worker := Closing)
    case Closing =>
      if s.completed then Stop(s) else s.(completed := true, worker := Notifying(E_FAIL, true, true))
  }

  // ---- runs -----------------------------------------------------------------------------------

  /** A run lists the states it passes through. */
  ghost predicate IsRun(run: seq<State>, moves: seq<Move>, clean: bool) {
    && |run| == |moves| + 1
    && (run[0] == Init() || run[0] == Unspawned())
    && (forall i :: 0 <= i < |moves| ==> Steps(run[i], moves[i], run[i + 1], clean))
  }

  ghost predicate Steps(s: State, m: Move, s': State, clean: bool) {
    Enabled(s, m) && s' == After(s, m) && (clean ==> Clean(s, m))
  }

  // ---- what the log shows -------------------------------------------------------------------------

  predicate IsSuccess(c: Call) { c.TaskCompleted? && c.ok }
  predicate Succeeded(log: seq<Call>) { exists c <- log :: IsSuccess(c) }
  predicate Attempted(log: seq<Call>) { exists c <- log :: c.TaskCompleted? }

  /** Nothing is ever called after a successful completion. */
  ghost predicate EndsWithSuccess(log: seq<Call>) {
    forall i :: 0 <= i < |log| - 1 ==> !IsSuccess(log[i])
  }

  predicate Shown(c: Call) { c.UpdateStatus? && c.ok }

  ghost predicate Increasing(log: seq<Call>) {
    forall i, j :: 0 <= i < j < |log| && Shown(log[i]) && Shown(log[j]) ==> log[i].percent < log[j].percent
  }

  /** The highest percentage the scheduler has accepted. */
  ghost predicate Peak(log: seq<Call>, peak: nat) {
    && (forall c <- log :: Shown(c) ==> c.percent <= peak)
    && (peak > 0 ==> exists c <- log :: Shown(c) && c.percent == peak)
  }

  // ---- the invariant ---------------------------------------------------------------------------------

  predicate InLoop(w: Worker) { w.Receiving? || w.Serving? || w.Resetting? || w.Replying? }

  /** The mutex. */
  ghost predicate Exclusive(s: State) {
    && (s.holder.None? <==> s.pc.Idle?)
    && (s.holder.Some? ==> s.holder.value in s.reporters)
  }

  function Requests(queue: seq<Command>): seq<Command> {
    if queue == [] then []
    else (if queue[0].HandlerDone? then [] else [queue[0]]) + Requests(queue[1..])
  }

  function Served(w: Worker): seq<Command> {
    if (w.Serving? || w.Resetting? || w.Replying?) && !w.command.HandlerDone? then [w.command] else []
  }

  /** The one request the holder of the mutex is waiting for. */
  function Awaited(s: State): seq<Command> {
    if s.holder.None? || s.worker.Stopped? then []
    else match s.pc
      case ReportSent(percent, None) => [Update(s.holder.value, percent)]
      case CompleteSent(None) => [Complete(s.holder.value)]
      case _ => []
  }

  /** Every request that is waited for is in the channel or with the worker, once, and no other is. */
  ghost predicate Accounted(s: State) {
    && (if Served(s.worker) == [] then Requests(s.queue) == Awaited(s)
        else Served(s.worker) == Awaited(s) && Requests(s.queue) == [])
    && (s.worker.Resetting? ==> s.worker.command.Complete?)
    && (s.worker.Replying? ==> !s.worker.command.HandlerDone?)
  }

  /** The user thread is over whenever the worker has heard from it or waits for it. */
  ghost predicate UserGone(s: State) {
    s.user.Running? ==>
      && InLoop(s.worker) && !(s.worker.Serving? && s.worker.command.HandlerDone?)
      && NoDone(s.queue)
  }

  predicate NoDone(queue: seq<Command>) { forall c <- queue :: !c.HandlerDone? }

  /** A completion has taken the flag and the worker has not decided it yet. */
  predicate Claiming(s: State) {
    s.pc.CompleteClaimed?
    || (s.pc.CompleteSent? && s.pc.reply.None? && !s.worker.Replying?)
  }

  /** The holder has been told of, or is about to be told of, its success, or has not looked at the flag yet. */
  predicate Harmless(s: State) {
    match s.pc
    case Idle => true
    case ReportLocked(_) => true
    case CompleteLocked => true
    case CompleteSent(reply) => if reply.Some? then reply.value else s.worker.Replying? && s.worker.ok
    case _ => false
  }

  /** What the flag means while the worker listens. */
  ghost predicate FlagMeans(s: State) {
    InLoop(s.worker) ==>
      && (s.completed <==> Succeeded(s.log) || Claiming(s))
      && (Succeeded(s.log) ==> Harmless(s))
      && (s.worker.Replying? && s.worker.command.Complete? ==> (s.worker.ok <==> Succeeded(s.log)))
      && (s.pc.CompleteSent? && s.pc.reply.Some? ==> (s.pc.reply.value <==> Succeeded(s.log)))
  }

  /** What the flag means once the worker has stopped listening, in a clean run. */
  ghost predicate ClosingMeans(s: State) {
    && (s.worker.Notifying? || s.worker.Unclaiming? ==> !Succeeded(s.log))
    && (s.worker == Joining(false) || s.worker.Closing? ==>
          s.reporters == {} && (s.completed <==> Succeeded(s.log)))
  }

  /** The update whose success is not yet recorded in the progress, if there is one. */
  function Unrecorded(s: State): nat {
    match s.pc
    case Recording(percent) => percent
    case ReportSent(percent, reply) =>
      if (if reply.Some? then reply.value else s.worker.Replying? && s.worker.ok) then percent else 0
    case _ => 0
  }

  function Reached(s: State): nat { if Unrecorded(s) > s.progress then Unrecorded(s) else s.progress }

  ghost predicate ProgressMeans(s: State) {
    && s.progress <= 100 && Increasing(s.log)
    && Peak(s.log, Reached(s))
    && (match s.pc
        case ReportOpen(percent) => percent <= 100
        case ReportAhead(percent) => s.progress < percent <= 100
        case ReportSent(percent, _) => s.progress < percent <= 100
        case Recording(percent) => percent <= 100
        case _ => true)
  }

  /** A successful completion is on its way to its caller. */
  predicate Granted(s: State) {
    (s.worker.Replying? && s.worker.command.Complete? && s.worker.ok)
    || s.pc == CompleteSent(Some(true))
  }

  predicate ReportsTrue(returned: seq<Return>, progress: nat) {
    forall r <- returned :: r.ReportOk? ==> r.percent <= progress
  }

  predicate Told(returned: seq<Return>) { CompleteOk in returned }

  predicate OneCompletion(returned: seq<Return>) {
    forall i, j :: 0 <= i < j < |returned| ==> !(returned[i].CompleteOk? && returned[j].CompleteOk?)
  }

  /** What callers were told is so. */
  ghost predicate Truthful(s: State) {
    && ReportsTrue(s.returned, s.progress) && OneCompletion(s.returned)
    && (Told(s.returned) ==> !Granted(s))
    && (Told(s.returned) || Granted(s) ==> TaskCompleted(S_OK, true) in s.log)
  }

  ghost predicate Inv(s: State) {
    Exclusive(s) && Accounted(s) && UserGone(s) && FlagMeans(s) && ProgressMeans(s) && Truthful(s)
  }

  // ---- the invariant holds in every reachable state ---------------------------------------------

  lemma {:induction false} RequestsOfSend(queue: seq<Command>, c: Command)
    ensures Requests(queue + [c]) == Requests(queue) + (if c.HandlerDone? then [] else [c])
  {
    if queue == [] {
      assert queue + [c] == [c];
    } else {
      assert (queue + [c])[1..] == queue[1..] + [c] && (queue + [c])[0] == queue[0];
      RequestsOfSend(queue[1..], c);
      var head := if queue[0].HandlerDone? then [] else [queue[0]];
      assert Requests(queue) == head + Requests(queue[1..]);
      assert Requests(queue + [c]) == head + Requests(queue[1..] + [c]);
    }
  }

  lemma DoneOfSend(queue: seq<Command>, c: Command)
    ensures NoDone(queue + [c]) <==> NoDone(queue) && !c.HandlerDone?
  {
    assert c in queue + [c] && forall d <- queue :: d in queue + [c];
  }

  lemma InvAtFirst()
    ensures Inv(Init()) && ClosingMeans(Init()) && Inv(Unspawned()) && ClosingMeans(Unspawned())
  {
  }

  lemma LogGrows(log: seq<Call>, c: Call, peak: nat)
    requires Increasing(log) && Peak(log, peak)
    ensures Succeeded(log + [c]) <==> Succeeded(log) || IsSuccess(c)
    ensures TaskCompleted(S_OK, true) in log ==> Succeeded(log)
    ensures !Shown(c) ==> Increasing(log + [c]) && Peak(log + [c], peak)
    ensures Shown(c) && peak < c.percent ==> Increasing(log + [c]) && Peak(log + [c], c.percent)
  {
    if peak > 0 {
      var d :| d in log && Shown(d) && d.percent == peak;
      assert d in log + [c];
    }
    assert c in log + [c];
    assert forall d <- log :: d in log + [c];
  }

  lemma ReturnsGrow(returned: seq<Return>, r: Return, progress: nat, progress': nat)
    requires ReportsTrue(returned, progress) && OneCompletion(returned) && progress <= progress'
    requires r.ReportOk? ==> r.percent <= progress'
    requires r.CompleteOk? ==> !Told(returned)
    ensures Told(returned + [r]) <==> Told(returned) || r.CompleteOk?
    ensures ReportsTrue(returned + [r], progress') && OneCompletion(returned + [r])
  {
    forall q | q in returned + [r] ensures q.ReportOk? ==> q.percent <= progress' {
      assert q in returned || q == r;
    }
  }

  lemma RefusalsGrow(returned: seq<Return>, progress: nat)
    requires ReportsTrue(returned, progress) && OneCompletion(returned)
    ensures forall fault ::
      var r := returned + [ReportErr(fault)];
      ReportsTrue(r, progress) && OneCompletion(r) && (Told(r) <==> Told(returned))
    ensures var r := returned + [CompleteErr(Conflict)];
      ReportsTrue(r, progress) && OneCompletion(r) && (Told(r) <==> Told(returned))
  {
    ReturnsGrow(returned, CompleteErr(Conflict), progress, progress);
    forall fault
      ensures var r := returned + [ReportErr(fault)];
        ReportsTrue(r, progress) && OneCompletion(r) && (Told(r) <==> Told(returned))
    {
      ReturnsGrow(returned, ReportErr(fault), progress, progress);
    }
  }

  lemma ReporterKeepsLock(s: State, t: Tid)
    requires Exclusive(s) && Enabled(s, Reporter(t))
    ensures Exclusive(ReporterStep(s, t)) && s.holder == Some(t)
  {
  }

  lemma SendingKeepsAccounts(s: State, t: Tid)
    requires s.holder == Some(t) && Accounted(s) && (s.pc.ReportAhead? || s.pc.CompleteClaimed?)
    ensures Accounted(ReporterStep(s, t))
  {
    RequestsOfSend(s.queue, if s.pc.ReportAhead? then Update(t, s.pc.percent) else Complete(t));
    hide Requests;
  }

  lemma ReporterKeepsAccounts(s: State, t: Tid)
    requires s.holder == Some(t) && Accounted(s) && Enabled(s, Reporter(t))
    ensures Accounted(ReporterStep(s, t))
  {
    hide Requests;
    if s.pc.ReportAhead? || s.pc.CompleteClaimed? {
      SendingKeepsAccounts(s, t);
    }
  }

  lemma ReporterKeepsUser(s: State, t: Tid)
    requires s.holder == Some(t) && UserGone(s) && Enabled(s, Reporter(t))
    ensures UserGone(ReporterStep(s, t))
  {
    if s.pc.ReportAhead? {
      DoneOfSend(s.queue, Update(t, s.pc.percent));
    } else if s.pc.CompleteClaimed? {
      DoneOfSend(s.queue, Complete(t));
    }
    hide NoDone;
  }

  lemma ReporterKeepsFlag(s: State, t: Tid)
    requires s.holder == Some(t) && Accounted(s) && FlagMeans(s) && Enabled(s, Reporter(t))
    ensures FlagMeans(ReporterStep(s, t))
  {
    hide Requests, Succeeded;
  }

  lemma ReporterKeepsProgress(s: State, t: Tid)
    requires s.holder == Some(t) && Accounted(s) && ProgressMeans(s) && Enabled(s, Reporter(t))
    ensures ProgressMeans(ReporterStep(s, t))
  {
    hide Requests, Increasing, Peak;
  }

  lemma ReporterKeepsTruth(s: State, t: Tid)
    requires s.holder == Some(t) && Accounted(s) && Truthful(s) && Enabled(s, Reporter(t))
    ensures Truthful(ReporterStep(s, t))
  {
    hide Requests, ReportsTrue, OneCompletion, Told;
    match s.pc {
      case Recording(percent) =>
        ReturnsGrow(s.returned, ReportOk(percent), s.progress, if percent > s.progress then percent else s.progress);
      case CompleteSent(reply) =>
        if reply == Some(true) {
          ReturnsGrow(s.returned, CompleteOk, s.progress, s.progress);
        }
      case CompleteFailed(fault) =>
        ReturnsGrow(s.returned, CompleteErr(fault), s.progress, s.progress);
      case _ =>
        RefusalsGrow(s.returned, s.progress);
    }
  }

  lemma ReporterKeepsInv(s: State, t: Tid)
    requires Inv(s) && Enabled(s, Reporter(t))
    ensures Inv(ReporterStep(s, t))
  {
    ReporterKeepsLock(s, t);
    hide Accounted, UserGone, FlagMeans, ProgressMeans, Truthful, Exclusive, ReporterStep;
    ReporterKeepsAccounts(s, t);
    ReporterKeepsUser(s, t);
    ReporterKeepsFlag(s, t);
    ReporterKeepsProgress(s, t);
    ReporterKeepsTruth(s, t);
  }

  /** The caller whose request the worker has in hand is the one inside the mutex. */
  predicate ServesHolder(s: State) {
    s.worker.Serving? || s.worker.Resetting? || s.worker.Replying? ==>
      match s.worker.command
      case Update(t, percent) => s.holder == Some(t) && s.pc == ReportSent(percent, None) && !s.worker.Resetting?
      case Complete(t) => s.holder == Some(t) && s.pc == CompleteSent(None)
      case HandlerDone(_) => s.worker.Serving?
  }

  lemma HolderIsServed(s: State)
    requires Accounted(s)
    ensures ServesHolder(s)
  {
    hide Requests;
    if Served(s.worker) != [] {
      assert Served(s.worker)[0] == Awaited(s)[0];
    }
  }

  lemma TakingKeepsAccounts(s: State, ok: bool)
    requires Accounted(s) && WorkerEnabled(s) && s.worker.Receiving?
    ensures Accounted(WorkerStep(s, ok))
  {
    if s.queue != [] && s.queue[0].HandlerDone? {
      assert Requests(s.queue) == Requests(s.queue[1..]);
    } else if s.queue != [] {
      assert Requests(s.queue)[0] == s.queue[0] && |Awaited(s)| <= 1;
      assert Requests(s.queue) == [s.queue[0]] + Requests(s.queue[1..]);
    }
    hide Requests;
  }

  lemma ServingKeepsAccounts(s: State, ok: bool)
    requires Accounted(s) && (s.worker.Serving? || s.worker.Resetting? || s.worker.Replying?)
    ensures Accounted(WorkerStep(s, ok))
  {
    HolderIsServed(s);
    hide Requests;
  }

  lemma ClosingKeepsAccounts(s: State, ok: bool)
    requires Accounted(s) && WorkerEnabled(s) && !InLoop(s.worker)
    ensures Accounted(WorkerStep(s, ok))
  {
    assert Requests([]) == [];
    hide Requests;
  }

  lemma WorkerKeepsAccounts(s: State, ok: bool)
    requires Accounted(s) && WorkerEnabled(s)
    ensures Accounted(WorkerStep(s, ok))
  {
    hide Accounted, WorkerStep;
    if s.worker.Receiving? {
      TakingKeepsAccounts(s, ok);
    } else if InLoop(s.worker) {
      ServingKeepsAccounts(s, ok);
    } else {
      ClosingKeepsAccounts(s, ok);
    }
  }

  lemma WorkerKeepsUser(s: State, ok: bool)
    requires Exclusive(s) && UserGone(s) && WorkerEnabled(s)
    ensures Exclusive(WorkerStep(s, ok)) && UserGone(WorkerStep(s, ok))
  {
  }

  lemma WorkerKeepsFlag(s: State, ok: bool)
    requires Accounted(s) && FlagMeans(s) && ProgressMeans(s) && WorkerEnabled(s) && InLoop(s.worker)
    ensures FlagMeans(WorkerStep(s, ok))
  {
    hide Accounted, Succeeded, Increasing, Peak, Requests, Unrecorded;
    HolderIsServed(s);
    LogGrows(s.log, UpdateStatus(if s.worker.Serving? && s.worker.command.Update? then s.worker.command.percent else 0, ok),
             Reached(s));
    LogGrows(s.log, TaskCompleted(S_OK, ok), Reached(s));
  }

  lemma UpdateKeepsProgress(s: State, ok: bool)
    requires ServesHolder(s) && ProgressMeans(s) && s.worker.Serving? && s.worker.command.Update?
    ensures ProgressMeans(WorkerStep(s, ok))
  {
    LogGrows(s.log, UpdateStatus(s.worker.command.percent, ok), s.progress);
    hide Increasing, Peak;
  }

  lemma OtherServiceKeepsProgress(s: State, ok: bool)
    requires ServesHolder(s) && ProgressMeans(s) && s.worker.Serving? && !s.worker.command.Update?
    ensures ProgressMeans(WorkerStep(s, ok))
  {
    LogGrows(s.log, TaskCompleted(S_OK, ok), Reached(s));
    hide Increasing, Peak;
  }

  lemma AnsweringKeepsProgress(s: State, ok: bool)
    requires ServesHolder(s) && ProgressMeans(s) && (s.worker.Resetting? || s.worker.Replying?)
    ensures ProgressMeans(WorkerStep(s, ok))
  {
    hide Increasing, Peak;
  }

  lemma NotifyingKeepsProgress(s: State, ok: bool)
    requires ProgressMeans(s) && s.worker.Notifying?
    ensures ProgressMeans(WorkerStep(s, ok))
  {
    LogGrows(s.log, TaskCompleted(s.worker.code, ok), Reached(s));
    hide Increasing, Peak;
  }

  lemma RestKeepsProgress(s: State, ok: bool)
    requires WorkerEnabled(s) && ProgressMeans(s)
    requires !s.worker.Serving? && !s.worker.Resetting? && !s.worker.Replying? && !s.worker.Notifying?
    ensures ProgressMeans(WorkerStep(s, ok))
  {
    hide Increasing, Peak;
  }

  lemma WorkerKeepsProgress(s: State, ok: bool)
    requires Accounted(s) && ProgressMeans(s) && WorkerEnabled(s)
    ensures ProgressMeans(WorkerStep(s, ok))
  {
    HolderIsServed(s);
    hide Accounted, ProgressMeans, WorkerStep;
    match s.worker {
      case Serving(command) =>
        if command.Update? {
          UpdateKeepsProgress(s, ok);
        } else {
          OtherServiceKeepsProgress(s, ok);
        }
      case Resetting(_) => AnsweringKeepsProgress(s, ok);
      case Replying(_, _) => AnsweringKeepsProgress(s, ok);
      case Notifying(_, _, _) => NotifyingKeepsProgress(s, ok);
      case _ => RestKeepsProgress(s, ok);
    }
  }

  lemma ServingKeepsTruth(s: State, ok: bool)
    requires ServesHolder(s) && FlagMeans(s) && Truthful(s) && s.worker.Serving?
    requires TaskCompleted(S_OK, true) in s.log ==> Succeeded(s.log)
    ensures Truthful(WorkerStep(s, ok))
  {
    hide ReportsTrue, OneCompletion, Succeeded, Told;
  }

  lemma RestKeepsTruth(s: State, ok: bool)
    requires ServesHolder(s) && Truthful(s) && WorkerEnabled(s) && !s.worker.Serving?
    ensures Truthful(WorkerStep(s, ok))
  {
    hide ReportsTrue, OneCompletion, Told;
  }

  lemma WorkerKeepsTruth(s: State, ok: bool)
    requires Accounted(s) && FlagMeans(s) && Truthful(s) && WorkerEnabled(s)
    requires TaskCompleted(S_OK, true) in s.log ==> Succeeded(s.log)
    ensures Truthful(WorkerStep(s, ok))
  {
    HolderIsServed(s);
    hide Accounted, FlagMeans, Truthful, WorkerStep;
    if s.worker.Serving? {
      ServingKeepsTruth(s, ok);
    } else {
      RestKeepsTruth(s, ok);
    }
  }

  lemma WorkerKeepsInv(s: State, ok: bool)
    requires Inv(s) && WorkerEnabled(s)
    ensures Inv(WorkerStep(s, ok))
  {
    hide WorkerStep, Exclusive, Accounted, UserGone, FlagMeans, Truthful, Unrecorded;
    LogGrows(s.log, UpdateStatus(0, false), Reached(s));
    WorkerKeepsAccounts(s, ok);
    WorkerKeepsUser(s, ok);
    if InLoop(s.worker) {
      WorkerKeepsFlag(s, ok);
    } else {
      LeftForGood(s, ok);
    }
    WorkerKeepsProgress(s, ok);
    WorkerKeepsTruth(s, ok);
  }

  lemma LeftForGood(s: State, ok: bool)
    requires WorkerEnabled(s) && !InLoop(s.worker)
    ensures !InLoop(WorkerStep(s, ok).worker) && FlagMeans(WorkerStep(s, ok))
  {
  }

  lemma ReturnKeepsAccounts(s: State, outcome: Outcome)
    requires Accounted(s)
    ensures Accounted(s.(reporters := s.reporters - {USER}, user := Returned, queue := s.queue + [HandlerDone(outcome)]))
    ensures Accounted(s.(reporters := s.reporters - {USER}, user := Died))
  {
    RequestsOfSend(s.queue, HandlerDone(outcome));
    assert Requests(s.queue) + [] == Requests(s.queue);
    hide Requests;
  }

  lemma EnteringKeepsAccounts(s: State, t: Tid, pc: Pc)
    requires Accounted(s) && s.pc.Idle? && (pc.ReportLocked? || pc.CompleteLocked?)
    ensures Accounted(s.(holder := Some(t), pc := pc))
  {
    hide Requests;
  }

  lemma OthersKeepAccounts(s: State, m: Move)
    requires Exclusive(s) && Accounted(s) && Enabled(s, m) && !m.Reporter? && !m.Work?
    ensures Accounted(After(s, m))
  {
    hide ReporterStep, WorkerStep, WorkerEnabled, Requests;
    match m {
      case UserReturns(outcome) => ReturnKeepsAccounts(s, outcome);
      case UserDies => ReturnKeepsAccounts(s, Finished);
      case Report(t, percent) => EnteringKeepsAccounts(s, t, ReportLocked(percent));
      case Finish(t) => EnteringKeepsAccounts(s, t, CompleteLocked);
      case _ =>
    }
  }

  lemma OthersKeepUser(s: State, m: Move)
    requires Exclusive(s) && UserGone(s) && Enabled(s, m) && !m.Reporter? && !m.Work?
    ensures Exclusive(After(s, m)) && UserGone(After(s, m))
  {
    hide ReporterStep, WorkerStep, WorkerEnabled;
    if m.UserReturns? {
      DoneOfSend(s.queue, HandlerDone(m.outcome));
    }
    hide NoDone;
  }

  lemma OthersKeepMeaning(s: State, m: Move)
    requires Exclusive(s) && FlagMeans(s) && ProgressMeans(s) && Truthful(s) && Enabled(s, m) && !m.Reporter? && !m.Work?
    ensures FlagMeans(After(s, m)) && ProgressMeans(After(s, m)) && Truthful(After(s, m))
  {
    hide Succeeded, Increasing, Peak, ReportsTrue, OneCompletion, Told, ReporterStep, WorkerStep, WorkerEnabled;
  }

  lemma StepKeepsInv(s: State, m: Move)
    requires Inv(s) && Enabled(s, m)
    ensures Inv(After(s, m))
  {
    hide Exclusive, Accounted, UserGone, FlagMeans, ProgressMeans, Truthful, ReporterStep, WorkerStep;
    match m {
      case Reporter(t) => ReporterKeepsInv(s, t);
      case Work(ok) => WorkerKeepsInv(s, ok);
      case _ =>
        OthersKeepAccounts(s, m);
        OthersKeepUser(s, m);
        OthersKeepMeaning(s, m);
    }
  }

  // ---- clean runs ---------------------------------------------------------------------------------

  lemma EmptyLogEnds()
    ensures EndsWithSuccess([])
  {
  }

  lemma AppendingToOpenLog(log: seq<Call>, c: Call)
    requires !Succeeded(log)
    ensures EndsWithSuccess(log + [c])
  {
  }

  /** The worker's own attempts begin before anything has succeeded. */
  ghost predicate Open(s: State) { s.worker.Notifying? || s.worker.Unclaiming? ==> !Succeeded(s.log) }

  lemma ClosingIsOpen(s: State)
    requires ClosingMeans(s)
    ensures Open(s)
  {
    hide Succeeded;
  }

  lemma FailureIsNoSuccess(log: seq<Call>, c: Call)
    requires !Succeeded(log) && !IsSuccess(c)
    ensures !Succeeded(log + [c])
  {
  }

  /** The worker never calls the scheduler after a success. */
  lemma CallsOnlyBeforeSuccess(s: State, ok: bool)
    requires Inv(s) && Open(s) && (s.worker.Notifying? || (s.worker.Serving? && !s.worker.command.HandlerDone?))
    ensures !Succeeded(s.log)
  {
    HolderIsServed(s);
    hide Succeeded, Accounted, ProgressMeans, Truthful, UserGone;
  }

  lemma WorkKeepsClosing(s: State, ok: bool)
    requires Exclusive(s) && FlagMeans(s) && ClosingMeans(s) && WorkerEnabled(s)
    requires s.worker == Joining(true) ==> ok
    requires s.worker.Notifying? && !ok ==>
      !Succeeded(s.log + [TaskCompleted(s.worker.code, ok)])
    ensures ClosingMeans(WorkerStep(s, ok))
  {
    hide Succeeded;
  }

  lemma OthersKeepClosing(s: State, m: Move)
    requires Exclusive(s) && UserGone(s) && ClosingMeans(s) && Enabled(s, m) && !m.Work?
    ensures ClosingMeans(After(s, m))
  {
    hide Succeeded, WorkerStep, NoDone;
  }

  lemma CleanKeepsClosing(s: State, m: Move)
    requires Inv(s) && ClosingMeans(s) && Enabled(s, m) && Clean(s, m)
    ensures ClosingMeans(After(s, m))
  {
    if m.Work? && s.worker.Notifying? {
      LogGrows(s.log, TaskCompleted(s.worker.code, m.ok), Reached(s));
      ClosingIsOpen(s);
      CallsOnlyBeforeSuccess(s, m.ok);
    }
    hide Succeeded, Accounted, ProgressMeans, Truthful, UserGone, Exclusive, FlagMeans, ClosingMeans, WorkerStep, ReporterStep;
    if m.Work? {
      WorkKeepsClosing(s, m.ok);
    } else {
      OthersKeepClosing(s, m);
    }
  }

  /** The call a step makes, if it makes one. */
  lemma OnlyTheWorkerCalls(s: State, m: Move)
    requires Enabled(s, m) && After(s, m).log != s.log
    ensures m.Work? && (s.worker.Notifying? || (s.worker.Serving? && !s.worker.command.HandlerDone?))
    ensures exists c: Call :: After(s, m).log == s.log + [c]
  {
    var s' := After(s, m);
    if s.worker.Notifying? {
      assert s'.log == s.log + [TaskCompleted(s.worker.code, m.ok)];
    } else if s.worker.command.Update? {
      assert s'.log == s.log + [UpdateStatus(s.worker.command.percent, m.ok)];
    } else {
      assert s'.log == s.log + [TaskCompleted(S_OK, m.ok)];
    }
  }

  lemma CleanKeepsLog(s: State, m: Move)
    requires Inv(s) && ClosingMeans(s) && EndsWithSuccess(s.log) && Enabled(s, m) && Clean(s, m)
    ensures EndsWithSuccess(After(s, m).log)
  {
    hide Inv, ClosingMeans, EndsWithSuccess, Succeeded, After;
    if After(s, m).log != s.log {
      OnlyTheWorkerCalls(s, m);
      ClosingIsOpen(s);
      CallsOnlyBeforeSuccess(s, m.ok);
      var c: Call :| After(s, m).log == s.log + [c];
      AppendingToOpenLog(s.log, c);
    }
  }

  lemma {:induction false} RunKeepsInv(run: seq<State>, moves: seq<Move>, clean: bool, i: nat)
    requires IsRun(run, moves, clean) && i < |run|
    ensures Inv(run[i])
    ensures clean ==> ClosingMeans(run[i]) && EndsWithSuccess(run[i].log)
  {
    InvAtFirst();
    hide Inv, ClosingMeans, EndsWithSuccess, After;
    if i > 0 {
      RunKeepsInv(run, moves, clean, i - 1);
      assert Steps(run[i - 1], moves[i - 1], run[i], clean);
      StepKeepsInv(run[i - 1], moves[i - 1]);
      if clean {
        CleanKeepsClosing(run[i - 1], moves[i - 1]);
        CleanKeepsLog(run[i - 1], moves[i - 1]);
      }
    } else {
      EmptyLogEnds();
    }
  }

  // ---- what every run guarantees -----------------------------------------------------------------------

  function Last(run: seq<State>): State
    requires run != []
  {
    run[|run| - 1]
  }

  /** In every clean interleaving a successful TaskCompleted is the last call of all: at most one
      completion succeeds, and no UpdateStatus follows it. */
  lemma CompletionIsLast(run: seq<State>, moves: seq<Move>, i: nat, j: nat)
    requires IsRun(run, moves, true) && i < j < |Last(run).log|
    ensures !IsSuccess(Last(run).log[i])
  {
    RunKeepsInv(run, moves, true, |run| - 1);
  }

  lemma OnlyTheWorkerMoves(s: State, m: Move)
    requires Enabled(s, m) && !m.Work?
    ensures After(s, m).worker == s.worker && After(s, m).log == s.log
  {
  }

  /** The worker finds the flag down after a join although a completion has succeeded. */
  predicate Reopens(s: State, m: Move) { m.Work? && s.worker.Closing? && !s.completed && Succeeded(s.log) }

  lemma StepKeepsOpen(s: State, m: Move)
    requires Inv(s) && Open(s) && EndsWithSuccess(s.log) && Enabled(s, m) && !Reopens(s, m)
    ensures Open(After(s, m)) && EndsWithSuccess(After(s, m).log)
  {
    hide Accounted, ProgressMeans, Truthful, UserGone, EndsWithSuccess, ReporterStep, Harmless;
    if !m.Work? {
      OnlyTheWorkerMoves(s, m);
    } else if After(s, m).log != s.log {
      OnlyTheWorkerCalls(s, m);
      CallsOnlyBeforeSuccess(s, m.ok);
      var c: Call :| After(s, m).log == s.log + [c];
      AppendingToOpenLog(s.log, c);
      if s.worker.Notifying? && !m.ok {
        FailureIsNoSuccess(s.log, TaskCompleted(s.worker.code, m.ok));
      }
    }
  }

  lemma {:induction false} OpenSoFar(run: seq<State>, moves: seq<Move>, i: nat)
    requires IsRun(run, moves, false) && i < |run|
    requires forall k :: 0 <= k < i ==> !Reopens(run[k], moves[k])
    ensures Open(run[i]) && EndsWithSuccess(run[i].log)
  {
    hide Inv, Open, EndsWithSuccess, After, Reopens;
    if i > 0 {
      OpenSoFar(run, moves, i - 1);
      assert Steps(run[i - 1], moves[i - 1], run[i], false);
      RunKeepsInv(run, moves, false, i - 1);
      StepKeepsOpen(run[i - 1], moves[i - 1]);
    } else {
      OpenAtFirst();
    }
  }

  lemma OpenAtFirst()
    ensures forall s :: s == Init() || s == Unspawned() ==> Open(s) && EndsWithSuccess(s.log)
  {
  }

  /** A success is followed, or about to be followed, by another call. */
  ghost predicate Spoilt(s: State) {
    Succeeded(s.log) && (s.worker.Notifying? || !EndsWithSuccess(s.log))
  }

  lemma StepKeepsSpoilt(s: State, m: Move)
    requires Spoilt(s) && Enabled(s, m)
    ensures Spoilt(After(s, m))
  {
    if !m.Work? {
      OnlyTheWorkerMoves(s, m);
    } else if After(s, m).log != s.log {
      OnlyTheWorkerCalls(s, m);
      var c: Call :| After(s, m).log == s.log + [c];
      CallingAfterSuccess(s.log, c);
    }
  }

  lemma CallingAfterSuccess(log: seq<Call>, c: Call)
    requires Succeeded(log)
    ensures Succeeded(log + [c]) && !EndsWithSuccess(log + [c])
  {
    var i :| 0 <= i < |log| && IsSuccess(log[i]);
    assert (log + [c])[i] == log[i];
  }

  lemma {:induction false} SpoiltForever(run: seq<State>, moves: seq<Move>, i: nat, j: nat)
    requires IsRun(run, moves, false) && i <= j < |run| && Spoilt(run[i])
    ensures Spoilt(run[j])
  {
    hide Spoilt, After;
    if i < j {
      SpoiltForever(run, moves, i, j - 1);
      assert Steps(run[j - 1], moves[j - 1], run[j], false);
      StepKeepsSpoilt(run[j - 1], moves[j - 1]);
    }
  }

  /** Exactly when that holds of any run that has ended, clean or not: unless the worker finds the flag down
      after a join although a completion has succeeded.  A clean run never does, and no run does whose user
      thread announces its outcome as its very last act; DoubleRun shows one that does. */
  lemma CompletionIsLastExactly(run: seq<State>, moves: seq<Move>)
    requires IsRun(run, moves, false) && Last(run).worker.Stopped?
    ensures EndsWithSuccess(Last(run).log) <==> !(exists i :: 0 <= i < |moves| && Reopens(run[i], moves[i]))
  {
    hide EndsWithSuccess, Succeeded, Inv, ReporterStep;
    if i :| 0 <= i < |moves| && Reopens(run[i], moves[i]) {
      assert Steps(run[i], moves[i], run[i + 1], false);
      SpoiltForever(run, moves, i + 1, |run| - 1);
    } else {
      OpenSoFar(run, moves, |run| - 1);
    }
  }

  /** In every interleaving the percentages the scheduler accepts strictly increase and lie in 1..100. */
  lemma ProgressIncreases(run: seq<State>, moves: seq<Move>, i: nat, j: nat)
    requires IsRun(run, moves, false) && i < j < |Last(run).log| && Shown(Last(run).log[i]) && Shown(Last(run).log[j])
    ensures Last(run).log[i].percent < Last(run).log[j].percent <= 100
  {
    RunKeepsInv(run, moves, false, |run| - 1);
    assert Last(run).log[j] in Last(run).log;
  }

  /** In every interleaving callers are told the truth: complete() returns Ok to at most one caller and
      only if the scheduler was told, and an accepted report is covered by what the scheduler was shown. */
  lemma CallersAreToldTheTruth(run: seq<State>, moves: seq<Move>)
    requires IsRun(run, moves, false)
    ensures CompleteOk in Last(run).returned ==> TaskCompleted(S_OK, true) in Last(run).log
    ensures forall i, j :: 0 <= i < j < |Last(run).returned| ==>
      !(Last(run).returned[i].CompleteOk? && Last(run).returned[j].CompleteOk?)
    ensures forall p :: p > 0 && ReportOk(p) in Last(run).returned ==>
      exists c <- Last(run).log :: Shown(c) && p <= c.percent
  {
    RunKeepsInv(run, moves, false, |run| - 1);
    var s := Last(run);
    assert Peak(s.log, Reached(s));
    forall p | p > 0 && ReportOk(p) in s.returned ensures exists c <- s.log :: Shown(c) && p <= c.percent {
      assert ReportOk(p).percent <= s.progress;
      var c :| c in s.log && Shown(c) && c.percent == Reached(s);
    }
  }

  /** When the worker turns to HandlerDone it makes a terminal attempt exactly when the scheduler has
      not been told already and no complete() has taken the flag without being decided. */
  lemma TerminalAttemptExactly(run: seq<State>, moves: seq<Move>, ok: bool)
    requires IsRun(run, moves, false) && Last(run).worker.Serving? && Last(run).worker.command.HandlerDone?
    ensures var s := Last(run);
      (WorkerStep(s, ok).worker.Notifying? <==> !Succeeded(s.log) && !Claiming(s))
      && (WorkerStep(s, ok).worker.Notifying? ==>
            WorkerStep(s, ok).completed && WorkerStep(s, ok).worker.code == TerminalCode(s.worker.command.outcome))
  {
    RunKeepsInv(run, moves, false, |run| - 1);
    hide Succeeded, Accounted, ProgressMeans, Truthful;
  }

  /** Success is reported for a handler that finished, and a failure code for every other. */
  lemma TerminalCodeIsFaithful(outcome: Outcome)
    ensures TerminalCode(outcome) == S_OK <==> outcome.Finished?
    ensures outcome.Failed? ==> TerminalCode(outcome) < 0
    ensures outcome.Failed? && outcome.native.Some? && outcome.native.value < 0 ==> TerminalCode(outcome) == outcome.native.value
    ensures outcome.Failed? && (outcome.native.None? || outcome.native.value >= 0) ==> TerminalCode(outcome) == 0x8000_4005 - 0x1_0000_0000
  {
  }

  /** The worker turns to HandlerDone while a complete() is under way and nobody has told the scheduler yet. */
  predicate Overtaken(s: State) {
    s.worker.Serving? && s.worker.command.HandlerDone? && Claiming(s) && !Attempted(s.log)
  }

  /** The worker is past its own attempts. */
  predicate PastAttempts(w: Worker) {
    w == Joining(true) || w.Unclaiming? || w.Stopped? || (w.Notifying? && !w.first)
  }

  lemma AttemptAdvances(s: State, m: Move)
    requires Exclusive(s) && FlagMeans(s) && ClosingMeans(s) && Enabled(s, m) && PastAttempts(After(s, m).worker)
    ensures PastAttempts(s.worker) || Overtaken(s) || Attempted(After(s, m).log)
    ensures Attempted(s.log) ==> Attempted(After(s, m).log)
  {
    if m.Work? {
      var s' := WorkerStep(s, m.ok);
      if s.worker.Notifying? {
        assert TaskCompleted(s.worker.code, m.ok) in s'.log;
      }
      if Succeeded(s.log) {
        var c :| c in s.log && IsSuccess(c);
        assert c in s'.log;
      }
      assert forall c <- s.log :: c in s'.log;
    } else {
      OnlyTheWorkerMoves(s, m);
    }
  }

  lemma {:induction false} AttemptedOrOvertaken(run: seq<State>, moves: seq<Move>)
    requires IsRun(run, moves, true) && PastAttempts(Last(run).worker)
    ensures Attempted(Last(run).log) || exists i :: 0 <= i < |run| && Overtaken(run[i])
  {
    if moves != [] {
      var n := |moves| - 1;
      var run', moves' := run[..n + 1], moves[..n];
      var s, m := run[n], moves[n];
      assert Steps(s, m, run[n + 1], true);
      RunKeepsInv(run, moves, true, n);
      AttemptAdvances(s, m);
      assert IsRun(run', moves', true) by {
        assert forall i :: 0 <= i < n ==> Steps(run[i], moves[i], run[i + 1], true);
      }
      if PastAttempts(s.worker) {
        AttemptedOrOvertaken(run', moves');
        if i :| 0 <= i < |run'| && Overtaken(run'[i]) {
          assert Overtaken(run[i]);
        }
      }
    }
  }

  /** Once overtaken the worker leaves the completion to a caller it no longer listens to. */
  predicate Silenced(s: State) {
    && !Attempted(s.log)
    && ((s.worker.Serving? && s.worker.command.HandlerDone? && s.completed && Claiming(s))
        || s.worker == Joining(true) || s.worker.Stopped?)
  }

  lemma SilenceLasts(s: State, m: Move)
    requires Silenced(s) && Exclusive(s) && Enabled(s, m) && Clean(s, m)
    ensures Silenced(After(s, m))
  {
    if !m.Work? {
      OnlyTheWorkerMoves(s, m);
    }
  }

  lemma {:induction false} SilencedForever(run: seq<State>, moves: seq<Move>, i: nat, j: nat)
    requires IsRun(run, moves, true) && i <= j < |run| && Silenced(run[i])
    ensures Silenced(run[j])
  {
    hide Silenced, After, FlagMeans, Accounted, UserGone, ProgressMeans, Truthful, ClosingMeans, EndsWithSuccess;
    if i < j {
      SilencedForever(run, moves, i, j - 1);
      assert Steps(run[j - 1], moves[j - 1], run[j], true);
      RunKeepsInv(run, moves, true, j - 1);
      SilenceLasts(run[j - 1], moves[j - 1]);
    }
  }

  /** A clean run that has ended has tried at least once to tell the scheduler if and only if the worker never
      turned to HandlerDone while a complete() was under way and nothing had been tried yet. */
  lemma EveryRunNotifies(run: seq<State>, moves: seq<Move>)
    requires IsRun(run, moves, true) && Last(run).worker.Stopped?
    ensures Attempted(Last(run).log) <==> !(exists i :: 0 <= i < |run| && Overtaken(run[i]))
  {
    hide After, Accounted, UserGone, ProgressMeans, Truthful, ClosingMeans, EndsWithSuccess;
    AttemptedOrOvertaken(run, moves);
    if i :| 0 <= i < |run| && Overtaken(run[i]) {
      RunKeepsInv(run, moves, true, i);
      assert run[i].completed;
      SilencedForever(run, moves, i, |run| - 1);
    }
  }

  /** Nobody waits forever: the worker can go on unless it is done or waits for a first request from a
      living sender, a caller inside the mutex can go on or its request is still to be answered, and the
      worker never joins a user thread that has not ended. */
  lemma NobodyIsStuck(run: seq<State>, moves: seq<Move>)
    requires IsRun(run, moves, false)
    ensures var s := Last(run);
      && (WorkerEnabled(s) || s.worker.Stopped?
          || (s.worker.Receiving? && !Waiting(s.pc) && (s.user.Running? || s.reporters != {})))
      && (s.holder.Some? ==> Enabled(s, Reporter(s.holder.value)) || WorkerEnabled(s))
  {
    RunKeepsInv(run, moves, false, |run| - 1);
    hide FlagMeans, ProgressMeans, Truthful;
  }

  // ---- what a caller is told, and why ------------------------------------------------------------------

  /** The progress calls among these. */
  function Updates(calls: seq<Call>): seq<Call> {
    if calls == [] then []
    else Updates(calls[..|calls| - 1]) + (if calls[|calls| - 1].UpdateStatus? then [calls[|calls| - 1]] else [])
  }

  /** The calls made since an earlier point. */
  function Since(before: seq<Call>, log: seq<Call>): seq<Call> { if before <= log then log[|before|..] else [] }

  lemma SinceGrows(before: seq<Call>, log: seq<Call>, c: Call)
    requires before <= log
    ensures Since(before, log + [c]) == Since(before, log) + [c]
    ensures Updates(Since(before, log + [c])) == Updates(Since(before, log)) + (if c.UpdateStatus? then [c] else [])
  {
    assert (log + [c])[|before|..] == log[|before|..] + [c];
    assert (log[|before|..] + [c])[..|log| - |before|] == log[|before|..];
  }

  /** Where a report of `percent` stands that was begun in `s0`, and what has been called for it. */
  ghost predicate Reporting(s0: State, s: State, t: Tid, percent: nat) {
    && s.holder == Some(t) && s.progress == s0.progress && s0.log <= s.log
    && var calls := Updates(Since(s0.log, s.log));
      match s.pc
      case ReportLocked(p) => p == percent && calls == []
      case ReportOpen(p) => p == percent <= 100 && calls == []
      case ReportAhead(p) => p == percent <= 100 && s0.progress < percent && calls == []
      case ReportSent(p, None) =>
        p == percent <= 100 && s0.progress < percent
        && calls == (if s.worker.Replying? then [UpdateStatus(percent, s.worker.ok)] else [])
      case ReportSent(p, Some(ok)) => p == percent <= 100 && s0.progress < percent && calls == [UpdateStatus(percent, ok)]
      case Recording(p) =>
        p == percent <= 100 && calls == (if s0.progress < percent then [UpdateStatus(percent, true)] else [])
      case _ => false
  }

  lemma ReportBegins(s: State, t: Tid, percent: nat)
    requires Enabled(s, Report(t, percent))
    ensures Reporting(s, After(s, Report(t, percent)), t, percent)
  {
  }

  lemma OthersKeepReporting(s0: State, s: State, m: Move, t: Tid, percent: nat)
    requires Reporting(s0, s, t, percent) && Enabled(s, m) && !m.Work? && m != Reporter(t)
    ensures Reporting(s0, After(s, m), t, percent)
  {
    hide Updates, Since;
  }

  lemma WorkKeepsReporting(s0: State, s: State, ok: bool, t: Tid, percent: nat)
    requires Accounted(s) && Reporting(s0, s, t, percent) && Enabled(s, Work(ok))
    ensures Reporting(s0, After(s, Work(ok)), t, percent)
  {
    hide Updates, Since, Accounted, Requests;
    HolderIsServed(s);
    var s' := WorkerStep(s, ok);
    if s'.log != s.log {
      OnlyTheWorkerCalls(s, Work(ok));
      var c: Call :| s'.log == s.log + [c];
      assert c == s'.log[|s.log|];
      SinceGrows(s0.log, s.log, c);
    }
  }

  lemma ReporterKeepsReporting(s0: State, s: State, t: Tid, percent: nat)
    requires Accounted(s) && Reporting(s0, s, t, percent)
    requires Enabled(s, Reporter(t)) && After(s, Reporter(t)).holder.Some?
    ensures Reporting(s0, After(s, Reporter(t)), t, percent) && !After(s, Reporter(t)).pc.ReportLocked?
    ensures s.pc.ReportLocked? ==> !s.completed
  {
    hide Updates, Since, Accounted;
    HolderIsServed(s);
  }

  /** What a caller of report is told, given what the flag was when it was looked at. */
  ghost predicate ReportTold(s0: State, s: State, percent: nat, completed: bool, told: Return) {
    var calls := Updates(Since(s0.log, s.log));
    && (told == ReportErr(InvalidDefinition) <==> percent > 100)
    && (told == ReportErr(Conflict) <==> percent <= 100 && completed)
    && (told == ReportErr(Native) <==> UpdateStatus(percent, false) in calls)
    && (told == ReportOk(percent) <==>
          percent <= 100 && !completed && (percent <= s0.progress || UpdateStatus(percent, true) in calls))
    && (told == ReportErr(InvalidDefinition) || told == ReportErr(Conflict) || told == ReportErr(Native)
        || told == ReportOk(percent) || (told == ReportErr(WorkerStopped) && s.worker.Stopped? && calls == []))
  }

  lemma ReportEnds(s0: State, s: State, t: Tid, percent: nat, completed: bool)
    requires Reporting(s0, s, t, percent) && Enabled(s, Reporter(t)) && After(s, Reporter(t)).holder.None?
    requires s.pc.ReportLocked? ==> completed == s.completed
    requires !s.pc.ReportLocked? ==> !completed
    ensures var s' := After(s, Reporter(t));
      |s'.returned| == |s.returned| + 1 && s'.returned[..|s.returned|] == s.returned
      && ReportTold(s0, s, percent, completed, s'.returned[|s.returned|])
      && (s'.returned[|s.returned|] == ReportOk(percent) ==> s'.progress >= percent)
  {
    hide Updates, Since;
  }

  /** The holder took its first step at `look`. */
  ghost predicate FirstStep(moves: seq<Move>, j: nat, look: nat, t: Tid) {
    j < look < |moves| && moves[look] == Reporter(t) && forall k :: j < k < look ==> moves[k] != Reporter(t)
  }

  /** While a report is under way: it has not looked at the flag yet, or it looked at `look` and found it down. */
  lemma {:induction false} ReportLasts(run: seq<State>, moves: seq<Move>, j: nat, i: nat, t: Tid, percent: nat)
    returns (look: nat)
    requires IsRun(run, moves, false) && j < i <= |moves| && moves[j] == Report(t, percent)
    requires forall k :: j < k <= i ==> run[k].holder == Some(t)
    ensures Reporting(run[j], run[i], t, percent)
    ensures if run[i].pc.ReportLocked? then forall k :: j < k < i ==> moves[k] != Reporter(t)
            else FirstStep(moves, j, look, t) && look < i && run[look].pc.ReportLocked? && !run[look].completed
    decreases i
  {
    hide Reporting, After, Accounted, UserGone, FlagMeans, ProgressMeans, Truthful, Exclusive, ClosingMeans, EndsWithSuccess;
    look := j;
    assert Steps(run[i - 1], moves[i - 1], run[i], false);
    if i == j + 1 {
      ReportBegins(run[j], t, percent);
      BeginsLocked(run[j], t, percent);
    } else {
      look := ReportLasts(run, moves, j, i - 1, t, percent);
      RunKeepsInv(run, moves, false, i - 1);
      var s, m := run[i - 1], moves[i - 1];
      if m == Reporter(t) {
        ReporterKeepsReporting(run[j], s, t, percent);
        if s.pc.ReportLocked? {
          look := i - 1;
        }
      } else if m.Work? {
        WorkKeepsReporting(run[j], s, m.ok, t, percent);
        WorkKeepsStage(s, m.ok);
      } else {
        OthersKeepReporting(run[j], s, m, t, percent);
        OthersKeepStage(s, m, t);
      }
    }
  }

  lemma BeginsLocked(s: State, t: Tid, percent: nat)
    requires Enabled(s, Report(t, percent))
    ensures After(s, Report(t, percent)).pc.ReportLocked?
  {
  }

  lemma WorkKeepsStage(s: State, ok: bool)
    requires Enabled(s, Work(ok))
    ensures After(s, Work(ok)).pc.ReportLocked? <==> s.pc.ReportLocked?
    ensures After(s, Work(ok)).pc.CompleteLocked? <==> s.pc.CompleteLocked?
  {
  }

  lemma OthersKeepStage(s: State, m: Move, t: Tid)
    requires s.holder == Some(t) && Enabled(s, m) && !m.Work? && m != Reporter(t)
    ensures After(s, m).pc == s.pc
  {
  }

  /** Every report in every interleaving is answered for the right reason.  It is refused as invalid exactly above
      100 and as a conflict exactly if the flag was up when it was looked at; it fails natively exactly if its own
      call failed; it succeeds exactly if the flag was down and the percentage was covered already or its own
      call succeeded; and otherwise the worker has stopped without having called anything for it. */
  lemma ReportsAreAnswered(run: seq<State>, moves: seq<Move>, j: nat, i: nat, t: Tid, percent: nat)
    returns (look: nat)
    requires IsRun(run, moves, false) && j < i < |moves| && moves[j] == Report(t, percent)
    requires (forall k :: j < k <= i ==> run[k].holder == Some(t)) && moves[i] == Reporter(t) && run[i + 1].holder.None?
    ensures FirstStep(moves, j, look, t) && look <= i
    ensures |run[i + 1].returned| == |run[i].returned| + 1
    ensures ReportTold(run[j], run[i], percent, run[look].completed, run[i + 1].returned[|run[i].returned|])
    ensures run[i + 1].returned[|run[i].returned|] == ReportOk(percent) ==> run[i + 1].progress >= percent
  {
    hide Reporting, ReportTold, After;
    look := ReportLasts(run, moves, j, i, t, percent);
    assert Steps(run[i], moves[i], run[i + 1], false);
    if run[i].pc.ReportLocked? {
      look := i;
    }
    ReportEnds(run[j], run[i], t, percent, run[look].completed);
  }

  /** Where a complete() stands that was begun in `s0`, and what has been called for it. */
  ghost predicate Completing(s0: State, s: State, t: Tid) {
    && s.holder == Some(t) && s0.log <= s.log
    && var calls := Since(s0.log, s.log);
      match s.pc
      case CompleteLocked => true
      case CompleteClaimed => true
      case CompleteSent(None) =>
        && (s.worker.Resetting? ==> TaskCompleted(S_OK, false) in calls)
        && (s.worker.Replying? ==> TaskCompleted(S_OK, s.worker.ok) in calls)
      case CompleteSent(Some(ok)) => TaskCompleted(S_OK, ok) in calls
      case CompleteFailed(fault) =>
        (fault == Native && TaskCompleted(S_OK, false) in calls) || (fault == WorkerStopped && s.worker.Stopped?)
      case _ => false
  }

  lemma WorkKeepsCompleting(s0: State, s: State, ok: bool, t: Tid)
    requires Accounted(s) && Completing(s0, s, t) && Enabled(s, Work(ok))
    ensures Completing(s0, After(s, Work(ok)), t)
  {
    hide Since, Accounted, Requests;
    HolderIsServed(s);
    var s' := WorkerStep(s, ok);
    if s'.log != s.log {
      OnlyTheWorkerCalls(s, Work(ok));
      var c: Call :| s'.log == s.log + [c];
      assert c == s'.log[|s.log|];
      SinceGrows(s0.log, s.log, c);
    }
  }

  lemma OthersKeepCompleting(s0: State, s: State, m: Move, t: Tid)
    requires Accounted(s) && Completing(s0, s, t) && Enabled(s, m) && !m.Work?
    requires m == Reporter(t) ==> After(s, m).holder.Some?
    ensures Completing(s0, After(s, m), t)
    ensures m == Reporter(t) ==> !After(s, m).pc.CompleteLocked? && (s.pc.CompleteLocked? ==> !s.completed)
  {
    hide Since, Accounted;
    HolderIsServed(s);
  }

  /** What a caller of complete is told, given what the flag was when it was looked at. */
  ghost predicate CompletionTold(s0: State, s: State, completed: bool, told: Return) {
    var calls := Since(s0.log, s.log);
    && (told == CompleteErr(Conflict) <==> completed)
    && (told == CompleteErr(Native) ==> TaskCompleted(S_OK, false) in calls)
    && (told == CompleteErr(WorkerStopped) ==> s.worker.Stopped?)
    && (told == CompleteOk ==> TaskCompleted(S_OK, true) in calls)
    && (told == CompleteErr(Conflict) || told == CompleteErr(Native) || told == CompleteErr(WorkerStopped)
        || told == CompleteOk)
  }

  lemma CompletionEnds(s0: State, s: State, t: Tid, completed: bool)
    requires Completing(s0, s, t) && Enabled(s, Reporter(t)) && After(s, Reporter(t)).holder.None?
    requires s.pc.CompleteLocked? ==> completed == s.completed
    requires !s.pc.CompleteLocked? ==> !completed
    ensures var s' := After(s, Reporter(t));
      |s'.returned| == |s.returned| + 1 && s'.returned[..|s.returned|] == s.returned
      && CompletionTold(s0, s, completed, s'.returned[|s.returned|])
      && (s'.returned[|s.returned|].CompleteErr? && s'.returned[|s.returned|].fault != Conflict ==> !s'.completed)
  {
    hide Since;
  }

  lemma {:induction false} CompletionLasts(run: seq<State>, moves: seq<Move>, j: nat, i: nat, t: Tid)
    returns (look: nat)
    requires IsRun(run, moves, false) && j < i <= |moves| && moves[j] == Finish(t)
    requires forall k :: j < k <= i ==> run[k].holder == Some(t)
    ensures Completing(run[j], run[i], t)
    ensures if run[i].pc.CompleteLocked? then forall k :: j < k < i ==> moves[k] != Reporter(t)
            else FirstStep(moves, j, look, t) && look < i && run[look].pc.CompleteLocked? && !run[look].completed
    decreases i
  {
    hide Completing, After, Accounted, UserGone, FlagMeans, ProgressMeans, Truthful, Exclusive, ClosingMeans, EndsWithSuccess;
    look := j;
    assert Steps(run[i - 1], moves[i - 1], run[i], false);
    if i == j + 1 {
      CompletionBegins(run[j], t);
    } else {
      look := CompletionLasts(run, moves, j, i - 1, t);
      RunKeepsInv(run, moves, false, i - 1);
      var s, m := run[i - 1], moves[i - 1];
      if m.Work? {
        WorkKeepsCompleting(run[j], s, m.ok, t);
        WorkKeepsStage(s, m.ok);
      } else {
        OthersKeepCompleting(run[j], s, m, t);
        if m != Reporter(t) {
          OthersKeepStage(s, m, t);
        } else if s.pc.CompleteLocked? {
          look := i - 1;
        }
      }
    }
  }

  lemma CompletionBegins(s: State, t: Tid)
    requires Enabled(s, Finish(t))
    ensures Completing(s, After(s, Finish(t)), t) && After(s, Finish(t)).pc.CompleteLocked?
  {
  }

  /** Every complete() in every interleaving is answered for the right reason: with a conflict exactly if the flag was
      up when it was looked at; otherwise with success, or with a failure that a failed completion call or a
      stopped worker accounts for, and then the flag is given back. */
  lemma CompletionsAreAnswered(run: seq<State>, moves: seq<Move>, j: nat, i: nat, t: Tid) returns (look: nat)
    requires IsRun(run, moves, false) && j < i < |moves| && moves[j] == Finish(t)
    requires (forall k :: j < k <= i ==> run[k].holder == Some(t)) && moves[i] == Reporter(t) && run[i + 1].holder.None?
    ensures FirstStep(moves, j, look, t) && look <= i
    ensures |run[i + 1].returned| == |run[i].returned| + 1
    ensures var told := run[i + 1].returned[|run[i].returned|];
      CompletionTold(run[j], run[i], run[look].completed, told)
      && (told.CompleteErr? && told.fault != Conflict ==> !run[i + 1].completed)
  {
    hide Completing, CompletionTold, After;
    look := CompletionLasts(run, moves, j, i, t);
    assert Steps(run[i], moves[i], run[i + 1], false);
    if run[i].pc.CompleteLocked? {
      look := i;
    }
    CompletionEnds(run[j], run[i], t, run[look].completed);
  }

  // ---- the terminal notification -----------------------------------------------------------------------

  /** The first attempt of the worker's own notification was logged, and if it failed a second one with the same
      code was or is about to be. */
  ghost predicate Retried(log0: seq<Call>, code: int, s: State) {
    || (s.log == log0 && s.worker.Notifying? && s.worker.code == code && s.worker.first)
    || (log0 + [TaskCompleted(code, true)] <= s.log)
    || (s.log == log0 + [TaskCompleted(code, false)] && s.worker.Notifying? && s.worker.code == code && !s.worker.first)
    || (log0 + [TaskCompleted(code, false), TaskCompleted(code, true)] <= s.log)
    || (log0 + [TaskCompleted(code, false), TaskCompleted(code, false)] <= s.log)
  }

  lemma RetryStep(log0: seq<Call>, code: int, s: State, m: Move)
    requires Retried(log0, code, s) && Enabled(s, m)
    ensures Retried(log0, code, After(s, m))
  {
    if !m.Work? {
      OnlyTheWorkerMoves(s, m);
    } else if s.worker.Notifying? && s.log == log0 + [TaskCompleted(code, false)] {
      assert log0 + [TaskCompleted(code, false)] + [TaskCompleted(code, m.ok)]
             == log0 + [TaskCompleted(code, false), TaskCompleted(code, m.ok)];
    }
  }

  lemma {:induction false} RetriesLast(run: seq<State>, moves: seq<Move>, i: nat, j: nat, log0: seq<Call>, code: int)
    requires IsRun(run, moves, false) && i <= j < |run| && Retried(log0, code, run[i])
    ensures Retried(log0, code, run[j])
  {
    hide Retried, After;
    if i < j {
      RetriesLast(run, moves, i, j - 1, log0, code);
      assert Steps(run[j - 1], moves[j - 1], run[j], false);
      RetryStep(log0, code, run[j - 1], moves[j - 1]);
    }
  }

  /** Whenever the worker has begun a notification of its own and the run ends, the first attempt has been made, and if
      it failed exactly that code was sent once more. */
  lemma NotificationIsRetried(run: seq<State>, moves: seq<Move>, i: nat)
    requires IsRun(run, moves, false) && i < |run| && Last(run).worker.Stopped?
    requires run[i].worker.Notifying? && run[i].worker.first
    ensures var code, n, log := run[i].worker.code, |run[i].log|, Last(run).log;
      |log| > n && log[n].TaskCompleted? && log[n].code == code
      && (!log[n].ok ==> |log| > n + 1 && log[n + 1].TaskCompleted? && log[n + 1].code == code)
  {
    var code, n, log := run[i].worker.code, |run[i].log|, Last(run).log;
    RetriesLast(run, moves, i, |run| - 1, run[i].log, code);
    hide IsRun;
    if run[i].log + [TaskCompleted(code, true)] <= log {
      assert log[n] == (run[i].log + [TaskCompleted(code, true)])[n];
    } else {
      var ok :| run[i].log + [TaskCompleted(code, false), TaskCompleted(code, ok)] <= log;
      assert log[n] == (run[i].log + [TaskCompleted(code, false), TaskCompleted(code, ok)])[n];
      assert log[n + 1] == (run[i].log + [TaskCompleted(code, false), TaskCompleted(code, ok)])[n + 1];
    }
  }

  /** Somebody who has taken the flag accounts for it: a success, the caller inside the mutex, or the worker. */
  ghost predicate FlagAccounted(s: State) {
    && (s.completed ==>
          || Succeeded(s.log) || s.pc.CompleteClaimed? || s.pc.CompleteSent? || s.pc.CompleteFailed?
          || s.worker.Notifying? || s.worker.Unclaiming?)
    && (s.pc == CompleteSent(Some(true)) ==> Succeeded(s.log))
    && (s.worker.Replying? && s.worker.command.Complete? && s.worker.ok ==> Succeeded(s.log))
  }

  lemma FlagStaysAccounted(s: State, m: Move)
    requires Exclusive(s) && Accounted(s) && FlagAccounted(s) && Enabled(s, m)
    ensures FlagAccounted(After(s, m))
  {
    hide Accounted;
    HolderIsServed(s);
    var s' := After(s, m);
    if !m.Work? {
      OnlyTheWorkerMoves(s, m);
    } else if s'.log != s.log {
      OnlyTheWorkerCalls(s, m);
      var c: Call :| s'.log == s.log + [c];
      assert c in s'.log && forall d <- s.log :: d in s'.log;
      assert s.worker.Notifying? || s.worker.Serving?;
      assert c == s'.log[|s.log|];
    }
  }

  /** When a run has ended the flag is up only after a success or for a caller that is about to give it back. */
  lemma {:induction false} FlagIsAccountedFor(run: seq<State>, moves: seq<Move>, i: nat)
    requires IsRun(run, moves, false) && i < |run|
    ensures FlagAccounted(run[i])
  {
    hide FlagAccounted, After, Accounted, UserGone, FlagMeans, ProgressMeans, Truthful, Exclusive, ClosingMeans, EndsWithSuccess;
    if i > 0 {
      FlagIsAccountedFor(run, moves, i - 1);
      assert Steps(run[i - 1], moves[i - 1], run[i], false);
      RunKeepsInv(run, moves, false, i - 1);
      FlagStaysAccounted(run[i - 1], moves[i - 1]);
    } else {
      FlagDownAtFirst();
    }
  }

  lemma FlagDownAtFirst()
    ensures FlagAccounted(Init()) && FlagAccounted(Unspawned())
  {
  }

  /** The worker listens to nobody but the handler's end any more. */
  predicate Deaf(s: State) {
    || !InLoop(s.worker)
    || (s.worker.Serving? && s.worker.command.HandlerDone?)
    || (s.worker.Receiving? && s.queue != [] && s.queue[0].HandlerDone?)
  }

  lemma DeafnessLasts(s: State, m: Move)
    requires Deaf(s) && Enabled(s, m)
    ensures Deaf(After(s, m))
    ensures forall before :: before <= s.log ==>
              before <= After(s, m).log && Updates(Since(before, After(s, m).log)) == Updates(Since(before, s.log))
  {
    hide Updates, Since;
    if !m.Work? {
      OnlyTheWorkerMoves(s, m);
    } else if After(s, m).log != s.log {
      OnlyTheWorkerCalls(s, m);
      var c: Call :| After(s, m).log == s.log + [c];
      assert c == After(s, m).log[|s.log|];
      forall before | before <= s.log
        ensures before <= After(s, m).log && Updates(Since(before, After(s, m).log)) == Updates(Since(before, s.log))
      {
        SinceGrows(before, s.log, c);
      }
    }
  }

  lemma ReturningDeafens(s: State, outcome: Outcome)
    requires Accounted(s) && UserGone(s) && Enabled(s, UserReturns(outcome)) && Awaited(s) == []
    ensures Deaf(After(s, UserReturns(outcome))) && After(s, UserReturns(outcome)).log == s.log
  {
    AllAreRequests(s.queue);
  }

  lemma {:induction false} AllAreRequests(queue: seq<Command>)
    ensures NoDone(queue) ==> |Requests(queue)| == |queue|
  {
    if queue != [] {
      AllAreRequests(queue[1..]);
    }
  }

  /** Requests are served in the order in which they were sent: what is sent after the handler has returned, nobody
      having been waiting then, never reaches the scheduler. */
  lemma {:induction false} LateRequestsAreIgnored(run: seq<State>, moves: seq<Move>, i: nat, j: nat)
    requires IsRun(run, moves, false) && i < j < |run| && moves[i].UserReturns? && Awaited(run[i]) == []
    ensures run[i].log <= run[j].log && Updates(Since(run[i].log, run[j].log)) == [] && Deaf(run[j])
    decreases j
  {
    hide Deaf, After, Awaited, FlagMeans, ProgressMeans, Truthful, Exclusive, ClosingMeans, EndsWithSuccess;
    assert Steps(run[j - 1], moves[j - 1], run[j], false);
    if j == i + 1 {
      RunKeepsInv(run, moves, false, i);
      ReturningDeafens(run[i], moves[i].outcome);
    } else {
      LateRequestsAreIgnored(run, moves, i, j - 1);
      DeafnessLasts(run[j - 1], moves[j - 1]);
    }
  }

  /** Success is being reported, or is going to be. */
  ghost predicate SuccessDue(s: State) {
    || (exists c <- s.log :: c.TaskCompleted? && c.code == S_OK)
    || (s.worker.Notifying? && s.worker.code == S_OK)
    || ((s.worker.Serving? || s.worker.Resetting? || s.worker.Replying?) && MeansSuccess(s.worker.command))
    || (exists c <- s.queue :: MeansSuccess(c))
    || s.pc.CompleteLocked? || s.pc.CompleteClaimed? || s.pc.CompleteSent? || s.pc.CompleteFailed?
  }

  predicate MeansSuccess(c: Command) { c.Complete? || c == HandlerDone(Finished) }

  lemma SuccessBegins(s: State, m: Move)
    requires Enabled(s, m) && SuccessDue(After(s, m)) && !m.Finish? && m != UserReturns(Finished)
    ensures SuccessDue(s)
  {
    if !m.Work? {
      OthersBeginNothing(s, m);
    } else if After(s, m).log == s.log {
      QuietWorkBeginsNothing(s, m.ok);
    } else {
      CallsBeginNothing(s, m.ok);
    }
  }

  lemma OthersBeginNothing(s: State, m: Move)
    requires Enabled(s, m) && !m.Work? && SuccessDue(After(s, m)) && !m.Finish? && m != UserReturns(Finished)
    ensures SuccessDue(s)
  {
    OnlyTheWorkerMoves(s, m);
  }

  lemma QuietWorkBeginsNothing(s: State, ok: bool)
    requires WorkerEnabled(s) && SuccessDue(WorkerStep(s, ok)) && WorkerStep(s, ok).log == s.log
    ensures SuccessDue(s)
  {
    if s.worker.Receiving? && s.queue != [] {
      assert s.queue[0] in s.queue && forall c <- WorkerStep(s, ok).queue :: c in s.queue;
    }
  }

  lemma CallsBeginNothing(s: State, ok: bool)
    requires WorkerEnabled(s) && SuccessDue(WorkerStep(s, ok)) && WorkerStep(s, ok).log != s.log
    ensures SuccessDue(s)
  {
    OnlyTheWorkerCalls(s, Work(ok));
    var s' := WorkerStep(s, ok);
    var c: Call :| s'.log == s.log + [c];
    assert c == s'.log[|s.log|] && forall d <- s'.log :: d in s.log || d == c;
  }

  /** The scheduler is told of a success only if the handler finished or somebody called complete(). */
  lemma {:induction false} SuccessIsEarned(run: seq<State>, moves: seq<Move>, i: nat)
    requires IsRun(run, moves, false) && i < |run| && SuccessDue(run[i])
    ensures exists k :: 0 <= k < i && (moves[k].Finish? || moves[k] == UserReturns(Finished))
  {
    hide SuccessDue, After;
    if i == 0 {
      NoSuccessAtFirst();
      assert false;
    } else {
      assert Steps(run[i - 1], moves[i - 1], run[i], false);
      if !moves[i - 1].Finish? && moves[i - 1] != UserReturns(Finished) {
        SuccessBegins(run[i - 1], moves[i - 1]);
        SuccessIsEarned(run, moves, i - 1);
      }
    }
  }

  lemma NoSuccessAtFirst()
    ensures !SuccessDue(Init()) && !SuccessDue(Unspawned())
  {
  }

  // ---- runs that show what happens, and the limits ------------------------------------------------------------------

  lemma Extend(run: seq<State>, moves: seq<Move>, m: Move, clean: bool) returns (run': seq<State>, moves': seq<Move>)
    requires IsRun(run, moves, clean) && Enabled(Last(run), m) && (clean ==> Clean(Last(run), m))
    ensures IsRun(run', moves', clean) && Last(run') == After(Last(run), m) && run' == run + [Last(run')]
    ensures moves' == moves + [m]
  {
    run', moves' := run + [After(Last(run), m)], moves + [m];
    assert Steps(Last(run), m, Last(run'), clean);
  }

  /** A run as it should be: a clone reports, the handler reports again and finishes, and the scheduler hears of
      both percentages and of the end, in that order. */
  lemma RegularRun() returns (run: seq<State>, moves: seq<Move>)
    ensures IsRun(run, moves, true) && Last(run).worker.Stopped?
    ensures Last(run).log == [UpdateStatus(50, true), UpdateStatus(100, true), TaskCompleted(S_OK, true)]
    ensures Last(run).returned == [ReportOk(50), ReportErr(InvalidDefinition), ReportOk(100)]
  {
    run, moves := HalfReported();
    run, moves := Extend(run, moves, Report(USER, 101), true);
    run, moves := Extend(run, moves, Reporter(USER), true);
    run, moves := Extend(run, moves, Report(USER, 100), true);
    run, moves := Extend(run, moves, Reporter(USER), true);
    run, moves := Extend(run, moves, Reporter(USER), true);
    run, moves := Extend(run, moves, Reporter(USER), true);
    run, moves := Extend(run, moves, Work(true), true);
    run, moves := Extend(run, moves, Work(true), true);
    run, moves := Extend(run, moves, Work(true), true);
    run, moves := Extend(run, moves, Reporter(USER), true);
    run, moves := Extend(run, moves, Reporter(USER), true);
    run, moves := FinishRegularly(run, moves);
  }

  lemma HalfReported() returns (run: seq<State>, moves: seq<Move>)
    ensures IsRun(run, moves, true)
    ensures Last(run) == State({USER, 1}, None, Idle, false, 50, [], Receiving, Running,
                               [UpdateStatus(50, true)], [ReportOk(50)])
  {
    run, moves := [Init()], [];
    run, moves := Extend(run, moves, Clone(USER, 1), true);
    run, moves := Extend(run, moves, Report(1, 50), true);
    run, moves := Extend(run, moves, Reporter(1), true);
    run, moves := Extend(run, moves, Reporter(1), true);
    run, moves := Extend(run, moves, Reporter(1), true);
    run, moves := Extend(run, moves, Work(true), true);
    run, moves := Extend(run, moves, Work(true), true);
    run, moves := Extend(run, moves, Work(true), true);
    run, moves := Extend(run, moves, Reporter(1), true);
    run, moves := Extend(run, moves, Reporter(1), true);
  }

  lemma FinishRegularly(run0: seq<State>, moves0: seq<Move>) returns (run: seq<State>, moves: seq<Move>)
    requires IsRun(run0, moves0, true) && |run0| > 0
    requires var s := Last(run0);
      s.holder.None? && s.user.Running? && !s.completed && s.queue == [] && s.worker.Receiving?
    ensures IsRun(run, moves, true) && Last(run).worker.Stopped?
    ensures Last(run).log == Last(run0).log + [TaskCompleted(S_OK, true)] && Last(run).returned == Last(run0).returned
  {
    run, moves := Extend(run0, moves0, UserReturns(Finished), true);
    run, moves := Extend(run, moves, Work(true), true);
    run, moves := Extend(run, moves, Work(true), true);
    run, moves := Extend(run, moves, Work(true), true);
    run, moves := Extend(run, moves, Work(true), true);
  }

  /** A handler that dies without a word: once its clones are gone too, the worker reports a failure. */
  lemma DeadRun() returns (run: seq<State>, moves: seq<Move>)
    ensures IsRun(run, moves, true) && Last(run).worker.Stopped?
    ensures Last(run).log == [TaskCompleted(E_FAIL, false), TaskCompleted(E_FAIL, true)] && Last(run).completed
  {
    run, moves := [Init()], [];
    run, moves := Extend(run, moves, Clone(USER, 1), true);
    run, moves := Extend(run, moves, UserDies, true);
    run, moves := Extend(run, moves, Drop(1), true);
    assert Last(run).reporters == {};
    run, moves := Extend(run, moves, Work(true), true);
    run, moves := Extend(run, moves, Work(true), true);
    run, moves := Extend(run, moves, Work(true), true);
    run, moves := Extend(run, moves, Work(false), true);
    run, moves := Extend(run, moves, Work(true), true);
  }

  /** A clone that has taken the flag when `run` returns can leave the scheduler without any completion:
      the handler finished, the worker is gone, and not one call was made. */
  lemma SilentRun() returns (run: seq<State>, moves: seq<Move>)
    ensures IsRun(run, moves, true)
    ensures Last(run).worker.Stopped? && Last(run).log == [] && UserReturns(Finished) in moves
  {
    run, moves := [Init()], [];
    run, moves := Extend(run, moves, Clone(USER, 1), true);
    run, moves := Extend(run, moves, Finish(1), true);
    run, moves := Extend(run, moves, Reporter(1), true);
    run, moves := Extend(run, moves, UserReturns(Finished), true);
    run, moves := Extend(run, moves, Work(true), true);
    run, moves := Extend(run, moves, Work(true), true);
    run, moves := Extend(run, moves, Work(true), true);
  }

  /** A clone has asked for completion while the handler returned. */
  lemma PendingClaim() returns (run: seq<State>, moves: seq<Move>)
    ensures IsRun(run, moves, false)
    ensures Last(run) == State({1}, Some(1), CompleteSent(None), true, 0, [Complete(1), HandlerDone(Finished)],
                               Receiving, Returned, [], [])
  {
    run, moves := [Init()], [];
    run, moves := Extend(run, moves, Clone(USER, 1), false);
    run, moves := Extend(run, moves, Finish(1), false);
    run, moves := Extend(run, moves, Reporter(1), false);
    run, moves := Extend(run, moves, Reporter(1), false);
    run, moves := Extend(run, moves, UserReturns(Finished), false);
    assert Last(run).reporters == {1};
  }

  /** A completion has failed and its caller has not yet given the flag back. */
  lemma FailedClaim() returns (run: seq<State>, moves: seq<Move>)
    ensures IsRun(run, moves, false)
    ensures Last(run) == State({1}, Some(1), CompleteSent(Some(false)), false, 0, [HandlerDone(Finished)],
                               Receiving, Returned, [TaskCompleted(S_OK, false)], [])
  {
    run, moves := PendingClaim();
    run, moves := Extend(run, moves, Work(true), false);
    run, moves := Extend(run, moves, Work(false), false);
    run, moves := Extend(run, moves, Work(true), false);
    run, moves := Extend(run, moves, Work(true), false);
  }

  /** If the user thread fails after it has sent HandlerDone, two completions can succeed: a caller whose
      failed attempt was answered gives back a flag that the worker has taken again meanwhile. */
  lemma DoubleRun() returns (run: seq<State>, moves: seq<Move>)
    ensures IsRun(run, moves, false)
    ensures Last(run).log == [TaskCompleted(S_OK, false), TaskCompleted(S_OK, true), TaskCompleted(E_FAIL, true)]
  {
    run, moves := FailedClaim();
    run, moves := Extend(run, moves, Work(true), false);
    run, moves := Extend(run, moves, Reporter(1), false);
    run, moves := Extend(run, moves, Work(true), false);
    run, moves := Extend(run, moves, Work(true), false);
    run, moves := Extend(run, moves, Reporter(1), false);
    run, moves := Extend(run, moves, Work(false), false);
    run, moves := Extend(run, moves, Work(true), false);
    run, moves := Extend(run, moves, Work(true), false);
  }
}
