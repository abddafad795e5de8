/** What the journal of a run says, and what the report says with it (reconcile.rs record, ApplyReport): the lists
    of the report can be read off the journal. */
module Journaling {
  import opened Wrappers
  import opened Paths
  import opened Scheduler
  import opened Planning
  import opened SchedulerBackend
  import opened Recovery
  import opened ApplySpec

  // ---- reading the journal ---------------------------------------------------------------------

  /** Entries of apply itself about one phase, with one outcome. */
  predicate Says(e: JournalEntry, phase: Phase, outcome: StepOutcome) {
    e.operation.PhaseName? && e.phase == phase && e.outcome == outcome
  }

  /** The changes whose compensation succeeded. */
  function RolledBackIn(journal: seq<JournalEntry>): seq<Change> {
    if journal == [] then []
    else
      var e := journal[|journal| - 1];
      RolledBackIn(journal[..|journal| - 1]) + (if Says(e, Phase.Rollback, Succeeded) then [e.change] else [])
  }

  /** The changes whose compensation did not, with the reason. */
  function FailuresIn(journal: seq<JournalEntry>): seq<RollbackFailure> {
    if journal == [] then []
    else
      var e := journal[|journal| - 1];
      FailuresIn(journal[..|journal| - 1])
      + (if Says(e, Phase.Rollback, Unknown) && e.error.Some? then [RollbackFailure(e.change, e.error.value)] else [])
  }

  /** The changes of which it is not known how they, or their compensation, ended. */
  function DoubtsIn(journal: seq<JournalEntry>): seq<Change> {
    if journal == [] then []
    else
      var e := journal[|journal| - 1];
      DoubtsIn(journal[..|journal| - 1])
      + (if Says(e, Verify, Unknown) || Says(e, Phase.Rollback, Unknown) then [e.change] else [])
  }

  /** The first error that apply noted itself. */
  function FirstError(journal: seq<JournalEntry>): Option<ErrorKind> {
    if journal == [] then None
    else
      var e := journal[|journal| - 1];
      Earlier(FirstError(journal[..|journal| - 1]), if e.operation.PhaseName? then e.error else None)
  }

  function Earlier(first: Option<ErrorKind>, second: Option<ErrorKind>): Option<ErrorKind> {
    if first.Some? then first else second
  }

  /** The tasks of attempted stop requests. */
  function StopsIn(prints: seq<Footprint>): seq<TaskPath> {
    if prints == [] then []
    else
      var p := prints[|prints| - 1];
      StopsIn(prints[..|prints| - 1]) + (if p.name.StopAllName? && p.target.TaskTarget? then [p.target.path] else [])
  }

  /** Every list of the report is what the journal says. */
  ghost predicate Told(r: ApplyReport) {
    && (forall e <- r.journal :: Consistent(e)) && Open(r.journal).Some?
    && r.rolledBack == RolledBackIn(r.journal)
    && r.rollbackFailures == FailuresIn(r.journal)
    && r.unresolved == DoubtsIn(r.journal)
    && r.irreversibleEffects == StopsIn(JournalFootprints(r.journal))
  }

  /** The journal has gone on: no attempt was left without its outcome, and this is the first error since. */
  predicate Continued(r: ApplyReport, r': ApplyReport, error: Option<ErrorKind>) {
    Open(r'.journal) == Open(r.journal) && FirstError(r'.journal) == Earlier(FirstError(r.journal), error)
  }

  lemma ContinuedTwice(a: ApplyReport, b: ApplyReport, c: ApplyReport, first: Option<ErrorKind>,
                       second: Option<ErrorKind>)
    requires Continued(a, b, first) && Continued(b, c, second)
    ensures Continued(a, c, Earlier(first, second))
  {
  }

  // ---- entries of apply itself ------------------------------------------------------------------

  /** The report with an entry, and with what the entry means for its lists. */
  function Entered(r: ApplyReport, e: JournalEntry): ApplyReport {
    r.(journal := r.journal + [e],
       rolledBack := r.rolledBack + (if Says(e, Phase.Rollback, Succeeded) then [e.change] else []),
       rollbackFailures := r.rollbackFailures
         + (if Says(e, Phase.Rollback, Unknown) && e.error.Some? then [RollbackFailure(e.change, e.error.value)] else []),
       unresolved := r.unresolved
         + (if Says(e, Verify, Unknown) || Says(e, Phase.Rollback, Unknown) then [e.change] else []),
       irreversibleEffects := r.irreversibleEffects
         + (if Says(e, Stop, Attempted) && ChangeTarget(e.change).TaskTarget? then [ChangeTarget(e.change).path] else []))
  }

  /** An entry keeps the report and the journal in step if its attempt, if it needs one, was the latest. */
  lemma EntryTells(r: ApplyReport, e: JournalEntry)
    requires Told(r) && Consistent(e) && e.operation.PhaseName?
    requires !e.phase.Precondition? && !e.phase.Verify? && !e.outcome.Attempted? ==>
               exists open :: Open(r.journal) == Some(open + [e.(outcome := Attempted, error := None)])
    ensures Told(Entered(r, e))
    ensures FirstError(Entered(r, e).journal) == Earlier(FirstError(r.journal), e.error)
    ensures e.phase.Precondition? || e.phase.Verify? ==> Open(Entered(r, e).journal) == Open(r.journal)
    ensures !e.phase.Precondition? && !e.phase.Verify? ==>
              (e.outcome.Attempted? ==> Open(Entered(r, e).journal) == Some(Open(r.journal).value + [e]))
              && (!e.outcome.Attempted? ==>
                    forall open :: Open(r.journal) == Some(open + [e.(outcome := Attempted, error := None)])
                                   ==> Open(Entered(r, e).journal) == Some(open))
  {
    hide JournalFootprints, StopsIn;
    assert (r.journal + [e])[..|r.journal|] == r.journal;
    if !e.phase.Precondition? && !e.phase.Verify? {
      OpenGrows(r.journal, e);
    }
    JournalAppend(r.journal, [e]);
    OneEntry(e);
    StopsGrow(JournalFootprints(r.journal), e);
  }

  /** Entries that say nothing about the lists. */
  lemma PlainlyEntered(r: ApplyReport, e: JournalEntry)
    requires !Says(e, Phase.Rollback, Succeeded) && !Says(e, Phase.Rollback, Unknown) && !Says(e, Verify, Unknown)
    requires !Says(e, Stop, Attempted)
    ensures Entered(r, e) == r.(journal := r.journal + [e])
  {
    assert r.rolledBack + [] == r.rolledBack && r.rollbackFailures + [] == r.rollbackFailures;
    assert r.unresolved + [] == r.unresolved && r.irreversibleEffects + [] == r.irreversibleEffects;
  }

  lemma PreconditionTells(r: ApplyReport, e: JournalEntry)
    requires Told(r) && Consistent(e) && e.operation.PhaseName? && e.phase.Precondition?
    ensures var r' := r.(journal := r.journal + [e]); Told(r') && Continued(r, r', e.error)
  {
    hide Told, FirstError, Open;
    EntryTells(r, e);
    PlainlyEntered(r, e);
  }

  lemma StopsGrow(prints: seq<Footprint>, e: JournalEntry)
    requires e.operation.PhaseName?
    ensures StopsIn(prints + EntryFootprint(e))
            == StopsIn(prints)
               + (if Says(e, Stop, Attempted) && ChangeTarget(e.change).TaskTarget? then [ChangeTarget(e.change).path] else [])
  {
    if Says(e, Stop, Attempted) {
      assert (prints + EntryFootprint(e))[..|prints|] == prints;
    } else {
      assert prints + [] == prints;
    }
  }

  lemma AttemptTells(r: ApplyReport, attempt: JournalEntry)
    requires Told(r) && Consistent(attempt) && attempt.operation.PhaseName? && attempt.outcome.Attempted?
    ensures Told(Entered(r, attempt))
    ensures Open(Entered(r, attempt).journal) == Some(Open(r.journal).value + [attempt])
    ensures FirstError(Entered(r, attempt).journal) == FirstError(r.journal)
  {
    hide Told, FirstError;
    EntryTells(r, attempt);
  }

  /** The outcome of what `r0` was about to attempt. */
  lemma OutcomeTells(r0: ApplyReport, r: ApplyReport, done: JournalEntry)
    requires Told(r) && Consistent(done) && done.operation.PhaseName? && !done.outcome.Attempted?
    requires !done.phase.Precondition? && !done.phase.Verify? && Open(r0.journal).Some?
    requires Open(r.journal) == Some(Open(r0.journal).value + [done.(outcome := Attempted, error := None)])
    ensures Told(Entered(r, done)) && Open(Entered(r, done).journal) == Open(r0.journal)
    ensures FirstError(Entered(r, done).journal) == Earlier(FirstError(r.journal), done.error)
  {
    hide Told, FirstError;
    EntryTells(r, done);
  }

  // ---- native journals ------------------------------------------------------------------------------

  lemma {:induction false} CallsTellNothing(journal: seq<JournalEntry>, native: seq<JournalEntry>)
    requires forall e <- native :: !e.operation.PhaseName?
    ensures RolledBackIn(journal + native) == RolledBackIn(journal)
    ensures FailuresIn(journal + native) == FailuresIn(journal)
    ensures DoubtsIn(journal + native) == DoubtsIn(journal)
    ensures FirstError(journal + native) == FirstError(journal)
  {
    if native == [] {
      assert journal + native == journal;
    } else {
      var init := native[..|native| - 1];
      CallsTellNothing(journal, init);
      assert (journal + native)[..|journal + native| - 1] == journal + init;
    }
  }

  lemma {:induction false} StopsAppend(a: seq<Footprint>, b: seq<Footprint>)
    ensures StopsIn(a + b) == StopsIn(a) + StopsIn(b)
  {
    if b == [] {
      assert a + b == a;
    } else {
      StopsAppend(a, b[..|b| - 1]);
      assert (a + b)[..|a + b| - 1] == a + b[..|b| - 1];
    }
  }

  /** A native journal adds what it stopped, and nothing else. */
  lemma NativeTells(r: ApplyReport, native: seq<JournalEntry>, stops: seq<TaskPath>)
    requires Told(r) && Bracketed(native) && StopsIn(JournalFootprints(native)) == stops
    ensures var r' := r.(journal := r.journal + native, irreversibleEffects := r.irreversibleEffects + stops);
      Told(r') && Continued(r, r', None)
  {
    hide StopsIn, JournalFootprints, Consistent;
    CallsTellNothing(r.journal, native);
    JournalAppend(r.journal, native);
    StopsAppend(JournalFootprints(r.journal), JournalFootprints(native));
    OpenAppend(r.journal, native);
    assert Open(r.journal).value + [] == Open(r.journal).value;
  }

  /** A whole phase: the attempt, the calls that were made, and the outcome. */
  lemma PhaseTells(r: ApplyReport, attempt: JournalEntry, native: seq<JournalEntry>, done: JournalEntry)
    requires Told(r) && Bracketed(native) && StopsIn(JournalFootprints(native)) == []
    requires attempt.operation.PhaseName? && attempt.phase.Mutation? && attempt.outcome.Attempted? && attempt.error.None?
    requires !done.outcome.Attempted? && Consistent(done) && attempt == done.(outcome := Attempted, error := None)
    ensures var r' := r.(journal := r.journal + [attempt] + native + [done]);
      Told(r') && Continued(r, r', done.error)
  {
    hide Told, FirstError, Open;
    var r1 := Entered(r, attempt);
    var r2 := r1.(journal := r1.journal + native);
    AttemptTells(r, attempt);
    PlainlyEntered(r, attempt);
    NativeTells(r1, native, []);
    assert r1.irreversibleEffects + [] == r1.irreversibleEffects;
    ToldIsOpen(r);
    OutcomeTells(r, r2, done);
    PlainlyEntered(r2, done);
  }

  lemma ToldIsOpen(r: ApplyReport)
    requires Told(r)
    ensures Open(r.journal).Some?
  {
  }

  // ---- the tasks that were stopped --------------------------------------------------------------------

  /** The tasks the scheduler was asked to stop. */
  function Stopped(calls: seq<Call>): seq<TaskPath> {
    if calls == [] then [] else (if calls[0].StopAll? then [calls[0].path] else []) + Stopped(calls[1..])
  }

  lemma {:induction false} StopsAreCalls(calls: seq<Call>)
    ensures StopsIn(Footprints(calls)) == Stopped(calls)
  {
    if calls != [] {
      StopsAreCalls(calls[1..]);
      StopsAppend([Footprint(NameOf(calls[0]), CallTarget(calls[0]))], Footprints(calls[1..]));
      OneStop(Footprint(NameOf(calls[0]), CallTarget(calls[0])));
    }
  }

  lemma OneStop(p: Footprint)
    ensures StopsIn([p]) == if p.name.StopAllName? && p.target.TaskTarget? then [p.target.path] else []
  {
    assert [p][..0] == [];
  }

  /** In the log between two moments: nothing is stopped unless that was asked for, and then every task that is
      deleted or registered again is stopped right before. */
  ghost predicate Heralded(stopRunning: bool, log: seq<Entry>, log': seq<Entry>) {
    log <= log' && forall k :: |log| <= k < |log'| ==> HeraldedAt(stopRunning, log, log', k)
  }

  ghost predicate HeraldedAt(stopRunning: bool, log: seq<Entry>, log': seq<Entry>, k: nat)
    requires k < |log'|
  {
    log'[k].Called? ==>
      var call := log'[k].call;
      && (call.StopAll? ==> stopRunning)
      && (stopRunning && (call.DropTask? || (call.Register? && !call.create)) ==>
            k > |log| && log'[k - 1] == Called(StopAll(call.path)))
  }

  lemma ReadsAreHeralded(stopRunning: bool, log: seq<Entry>, log': seq<Entry>)
    requires log <= log' && forall k :: |log| <= k < |log'| ==> !log'[k].Called?
    ensures Heralded(stopRunning, log, log')
  {
  }

  lemma HeraldedTwice(stopRunning: bool, a: seq<Entry>, b: seq<Entry>, c: seq<Entry>)
    requires Heralded(stopRunning, a, b) && Heralded(stopRunning, b, c)
    ensures Heralded(stopRunning, a, c)
  {
    forall k | |a| <= k < |c| ensures HeraldedAt(stopRunning, a, c, k) {
      if k < |b| {
        assert HeraldedAt(stopRunning, a, b, k) && b[k] == c[k] && (k > 0 ==> b[k - 1] == c[k - 1]);
      } else {
        assert HeraldedAt(stopRunning, b, c, k);
      }
    }
  }
}
