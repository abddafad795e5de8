/** compensate_observed (recovery.rs): confirmed changes are taken back in reverse order, each on its own. */
module Rollback {
  import opened Wrappers
  import opened Paths
  import opened Scheduler
  import opened Manifests
  import opened Planning
  import opened SchedulerBackend
  import opened Recovery
  import opened ApplySpec
  import opened Accounting
  import opened Journaling
  import opened Compensation
  import opened Progress
  import opened Steps

  /** Every entry can be taken back exactly; the states surround the entries. */
  ghost predicate AllFaithful(undo: seq<Undo>, P: Prepared, states: seq<State>) {
    && |states| > |undo|
    && (forall j :: 0 <= j < |undo| ==> Faithful(undo[j], P, states[j], states[j + 1]))
    && (forall i, j :: 0 <= i < j < |undo| ==> Compatible(undo[i].change, undo[j].change))
  }

  lemma ConsumingKeepsFaithful(u: Undo, P: Prepared, pre: State, post: State, later: Change)
    requires Faithful(u, P, pre, post) && Compatible(u.change, later)
    ensures Faithful(u, Consumed(later, P), pre, post)
  {
    hide OnlyTouches, SemanticallyEqual, Tree, View;
  }

  lemma FaithfulPrefix(undo: seq<Undo>, P: Prepared, P': Prepared, states: seq<State>)
    requires undo != [] && AllFaithful(undo, P, states)
    requires P' == P || P' == Consumed(undo[|undo| - 1].change, P)
    ensures AllFaithful(undo[..|undo| - 1], P', states)
  {
    hide Faithful, Compatible, Consumed;
    forall j | 0 <= j < |undo| - 1 ensures Faithful(undo[j], P', states[j], states[j + 1]) {
      ConsumingKeepsFaithful(undo[j], P, states[j], states[j + 1], undo[|undo| - 1].change);
    }
  }

  lemma {:induction false} ReversedAt(changes: seq<Change>, i: nat)
    requires i < |changes|
    ensures Reversed(changes)[i] == changes[|changes| - 1 - i]
  {
    if i > 0 {
      ReversedAt(changes[..|changes| - 1], i - 1);
    }
  }

  /** One entry: the attempt and what the report says about it. */
  method CompensateOne(b: Backend, options: ApplyOptions, entry: Undo, P: Prepared, report: ApplyReport,
                       ghost base: seq<Entry>, ghost trace: seq<Event>, ghost pre: State, ghost post: State)
    returns (error: Option<ErrorKind>, P': Prepared, report': ApplyReport, ghost trace': seq<Event>)
    requires Accounted(b, base, report, trace) && Left(entry.change, entry.after) in trace
    modifies b
    ensures P' == P || P' == Consumed(entry.change, P)
    ensures Accounted(b, base, report', trace') && trace <= trace' && b.Counting()
    ensures SameLedger(
              if error.None? then report.(rolledBack := report.rolledBack + [entry.change])
              else report.(unresolved := report.unresolved + [entry.change],
                           rollbackFailures := report.rollbackFailures
                                               + [RollbackFailure(entry.change, error.value)]), report')
    ensures Continued(report, report', error) && Heralded(options.stopRunning, old(b.log), b.log)
    ensures b.Calm() ==> OnlyTouches(old(b.state), b.state, ChangeTarget(entry.change))
    ensures b.Alone() ==> BackAt(options.allowIrreversible, b.chosen, entry, error.None?, old(b.Sight()), b.Sight())
    ensures b.Calm() && error.None? ==>
              Alike(options.allowIrreversible, View(b.state, ChangeTarget(entry.change)), entry.before)
    ensures b.Clean() && Faithful(entry, P, pre, post) && SameWorld(false, post, old(b.state)) ==>
              error.None? && SameWorld(false, pre, b.state)
  {
    hide AccountedFor, Told, Open, FirstError, OnlyTouches, View, Alike, SameWorld, Faithful, Consumed, Heralded;
    var attempt := JournalEntry(PhaseName, entry.change, Phase.Rollback, Attempted, None);
    RecordingIsAccountedFor(b.log, base, report.journal, trace, attempt);
    ToldIsOpen(report);
    AttemptTells(report, attempt);
    PlainlyEntered(report, attempt);
    report' := Record(report, entry.change, Phase.Rollback, Attempted, None);
    error, P', report', trace' := TakeBack(b, options, entry, P, report', base, trace, pre, post);
    var done := JournalEntry(PhaseName, entry.change, Phase.Rollback,
                             if error.None? then Succeeded else Unknown, error);
    RecordingIsAccountedFor(b.log, base, report'.journal, trace', done);
    OutcomeTells(report, report', done);
    assert report'.rolledBack + [] == report'.rolledBack && report'.rollbackFailures + [] == report'.rollbackFailures;
    assert report'.unresolved + [] == report'.unresolved && report'.irreversibleEffects + [] == report'.irreversibleEffects;
    report' := Record(report', entry.change, Phase.Rollback, done.outcome, error);
    if error.None? {
      report' := report'.(rolledBack := report'.rolledBack + [entry.change]);
    } else {
      report' := report'.(
        unresolved := report'.unresolved + [entry.change],
        rollbackFailures := report'.rollbackFailures + [RollbackFailure(entry.change, error.value)]);
    }
  }

  // ---- what holds while entries are taken back -----------------------------------------------------

  /** Everything but the results of compensation is as before. */
  predicate SameProgress(r: ApplyReport, r': ApplyReport) {
    r' == r.(journal := r'.journal, irreversibleEffects := r'.irreversibleEffects, rolledBack := r'.rolledBack,
             rollbackFailures := r'.rollbackFailures, unresolved := r'.unresolved)
  }

  /** The changes of `order` have been tried: each is listed as rolled back or as failed and unresolved. */
  ghost predicate Tried(r: ApplyReport, r': ApplyReport, order: seq<Change>) {
    && SameProgress(r, r')
    && Dealt(order, r'.rolledBack, FailedChanges(r'.rollbackFailures))
    && r'.unresolved == r.unresolved + FailedChanges(r'.rollbackFailures)
  }

  lemma TriedGrows(r: ApplyReport, r1: ApplyReport, r2: ApplyReport, order: seq<Change>, c: Change,
                   error: Option<ErrorKind>)
    requires Tried(r, r1, order)
    requires SameLedger(
               if error.None? then r1.(rolledBack := r1.rolledBack + [c])
               else r1.(unresolved := r1.unresolved + [c],
                        rollbackFailures := r1.rollbackFailures + [RollbackFailure(c, error.value)]), r2)
    ensures Tried(r, r2, order + [c])
    ensures r2.rollbackFailures == [] ==> error.None? && r1.rollbackFailures == []
    ensures error.None? ==> r2.rollbackFailures == r1.rollbackFailures
  {
    hide Dealt;
    DealtGrows(order, r1.rolledBack, FailedChanges(r1.rollbackFailures), c);
    if error.Some? {
      assert FailedChanges(r2.rollbackFailures) == FailedChanges(r1.rollbackFailures) + [c];
    }
  }

  /** Unless something failed, the world is back at the state with number `k`. */
  ghost predicate Unwound(blind: bool, undo: seq<Undo>, states: seq<State>, k: nat, start: State, now: State,
                          failed: bool) {
    k <= |undo| && Chain(blind, undo, states) && SameWorld(blind, states[|undo|], start) && !failed
    ==> SameWorld(blind, states[k], now)
  }

  /** If everything could be taken back exactly at the start, nothing failed and the rest still can. */
  ghost predicate Restored(undo: seq<Undo>, P0: Prepared, P: Prepared, states: seq<State>, k: nat,
                           start: State, now: State, failed: bool) {
    k <= |undo| && AllFaithful(undo, P0, states) && SameWorld(false, states[|undo|], start)
    ==> !failed && SameWorld(false, states[k], now) && AllFaithful(undo[..k], P, states)
  }

  /** The same for the whole list: nothing failed, and the world is back at the first state. */
  ghost predicate FullyRestored(undo: seq<Undo>, P0: Prepared, states: seq<State>, start: State, now: State,
                                failed: bool) {
    AllFaithful(undo, P0, states) && SameWorld(false, states[|undo|], start)
    ==> !failed && SameWorld(false, states[0], now)
  }

  lemma RestoredInFull(undo: seq<Undo>, P0: Prepared, P: Prepared, states: seq<State>, start: State, now: State,
                       failed: bool)
    requires |states| > 0 && Restored(undo, P0, P, states, 0, start, now, failed)
    ensures FullyRestored(undo, P0, states, start, now, failed)
  {
    hide SameWorld, Faithful, Compatible;
  }

  lemma UnwoundStep(blind: bool, undo: seq<Undo>, states: seq<State>, k: nat, start: State, s: State, s': State,
                    failedBefore: bool, failed: bool)
    requires k < |undo| && Unwound(blind, undo, states, k + 1, start, s, failedBefore)
    requires failedBefore ==> failed
    requires OnlyTouches(s, s', ChangeTarget(undo[k].change))
    requires !failed ==> Alike(blind, View(s', ChangeTarget(undo[k].change)), undo[k].before)
    ensures Unwound(blind, undo, states, k, start, s', failed)
  {
    hide SameWorld, Link, OnlyTouches, View, Alike;
    if Chain(blind, undo, states) && SameWorld(blind, states[|undo|], start) && !failed {
      ChainUnwinds(blind, undo[k], states[k], states[k + 1], s, s');
    }
  }

  lemma RestoredStep(undo: seq<Undo>, P0: Prepared, P: Prepared, P': Prepared, states: seq<State>, k: nat,
                     start: State, s: State, s': State, failedBefore: bool, failed: bool)
    requires k < |undo| && |states| > |undo| && Restored(undo, P0, P, states, k + 1, start, s, failedBefore)
    requires Faithful(undo[k], P, states[k], states[k + 1]) && SameWorld(false, states[k + 1], s)
             ==> SameWorld(false, states[k], s') && failed == failedBefore
    requires P' == P || P' == Consumed(undo[k].change, P)
    ensures Restored(undo, P0, P', states, k, start, s', failed)
  {
    hide SameWorld, Faithful, Consumed, Compatible;
    if AllFaithful(undo, P0, states) && SameWorld(false, states[|undo|], start) {
      assert undo[..k + 1][..k] == undo[..k] && undo[..k + 1][k] == undo[k];
      FaithfulPrefix(undo[..k + 1], P, P', states);
    }
  }

  predicate FailedAt(failures: seq<RollbackFailure>, t: Target) {
    exists f <- failures :: ChangeTarget(f.change) == t
  }

  /** Unless something failed at this one target, taking back what is left of its changes leads back to `v0`. */
  ghost predicate UnwoundAt(blind: bool, undo: seq<Undo>, k: nat, t: Target, v0: Observed, start: Observed,
                            now: Observed, failures: seq<RollbackFailure>) {
    k <= |undo| && Leads(blind, undo, t, v0, start) && !FailedAt(failures, t) ==> Leads(blind, undo[..k], t, v0, now)
  }

  lemma UnwoundAtFirst(blind: bool, undo: seq<Undo>, t: Target, v0: Observed, start: Observed)
    ensures UnwoundAt(blind, undo, |undo|, t, v0, start, start, [])
  {
    hide Leads;
    assert undo[..|undo|] == undo;
  }

  lemma UnwoundAtStep(blind: bool, undo: seq<Undo>, k: nat, t: Target, v0: Observed, start: Observed, v: Observed,
                      v': Observed, failures: seq<RollbackFailure>, error: Option<ErrorKind>)
    requires k < |undo| && UnwoundAt(blind, undo, k + 1, t, v0, start, v, failures)
    requires BackAt(blind, t, undo[k], error.None?, v, v')
    ensures UnwoundAt(blind, undo, k, t, v0, start, v',
                      failures + (if error.None? then [] else [RollbackFailure(undo[k].change, error.value)]))
  {
    hide Leads, Alike;
    var failures' := failures + (if error.None? then [] else [RollbackFailure(undo[k].change, error.value)]);
    assert forall f <- failures :: f in failures';
    assert error.Some? ==> RollbackFailure(undo[k].change, error.value) in failures';
    if Leads(blind, undo, t, v0, start) && !FailedAt(failures', t) {
      assert undo[..k + 1] == undo[..k] + [undo[k]];
      LeadsBack(blind, undo[..k], undo[k], t, v0, v, v');
    }
  }

  lemma NextInOrder(undo: seq<Undo>, k: nat)
    requires k < |undo|
    ensures var order := Reversed(ChangesOf(undo));
      order[..|undo| - k] == order[..|undo| - 1 - k] + [undo[k].change]
  {
    ReversedAt(ChangesOf(undo), |undo| - 1 - k);
  }

  /** Entries are visited in exact reverse order; an entry that is refused or fails does not stop the earlier
      ones from being tried.  If nothing failed the world is back where the chain began, and if nothing
      at all went wrong, nothing fails. */
  method CompensateObserved(b: Backend, options: ApplyOptions, P0: Prepared, report: ApplyReport, undo: seq<Undo>,
                            ghost base: seq<Entry>, ghost trace: seq<Event>, ghost states: seq<State>,
                            ghost v0: Observed)
    returns (report': ApplyReport, ghost trace': seq<Event>)
    requires |states| == |undo| + 1
    requires Accounted(b, base, report, trace)
    requires forall u <- undo :: Left(u.change, u.after) in trace
    requires report.rolledBack == [] && report.rollbackFailures == []
    modifies b
    ensures Accounted(b, base, report', trace') && b.Counting()
    ensures Heralded(options.stopRunning, old(b.log), b.log)
    ensures FirstError(report.journal).Some? ==> Continued(report, report', None)
    ensures Tried(report, report', Reversed(ChangesOf(undo)))
    ensures b.Calm() ==> Unwound(options.allowIrreversible, undo, states, 0, old(b.state), b.state,
                                 report'.rollbackFailures != [])
    ensures b.Clean() ==>
              FullyRestored(undo, P0, states, old(b.state), b.state, report'.rollbackFailures != [])
    ensures b.Alone() ==> UnwoundAt(options.allowIrreversible, undo, 0, b.chosen, v0, old(b.Sight()), b.Sight(),
                                    report'.rollbackFailures)
  {
    hide AccountedFor, Told, Open, FirstError, OnlyTouches, View, Alike, SameWorld, Faithful, Consumed, Link, Tried,
         Unwound, Restored, Reversed, SameLedger, AllFaithful, Chain, UnwoundAt, BackAt, Leads, Heralded;
    ghost var blind := options.allowIrreversible;
    ghost var order := Reversed(ChangesOf(undo));
    var P := P0;
    report', trace' := report, trace;
    var k := |undo|;
    ReadsAreHeralded(options.stopRunning, b.log, b.log);
    NothingTriedYet(report, order, blind, undo, P0, states, b.state);
    UnwoundAtFirst(blind, undo, b.chosen, v0, b.Sight());
    while k > 0
      invariant 0 <= k <= |undo|
      invariant Accounted(b, base, report', trace') && trace <= trace' && b.Counting()
      invariant Heralded(options.stopRunning, old(b.log), b.log)
      invariant FirstError(report.journal).Some? ==> Continued(report, report', None)
      invariant Tried(report, report', order[..|undo| - k])
      invariant b.Calm() ==>
        Unwound(blind, undo, states, k, old(b.state), b.state, report'.rollbackFailures != [])
      invariant b.Clean() ==>
        Restored(undo, P0, P, states, k, old(b.state), b.state, report'.rollbackFailures != [])
      invariant b.Alone() ==>
        UnwoundAt(blind, undo, k, b.chosen, v0, old(b.Sight()), b.Sight(), report'.rollbackFailures)
    {
      k := k - 1;
      var entry := undo[k];
      assert Left(entry.change, entry.after) in trace';
      ghost var s, P1, before, v, log := b.state, P, report', b.Sight(), b.log;
      var error;
      error, P, report', trace' :=
        CompensateOne(b, options, entry, P, report', base, trace', states[k], states[k + 1]);
      NextInOrder(undo, k);
      HeraldedTwice(options.stopRunning, old(b.log), log, b.log);
      TriedGrows(report, before, report', order[..|undo| - 1 - k], entry.change, error);
      if b.Alone() {
        UnwoundAtStep(blind, undo, k, b.chosen, v0, old(b.Sight()), v, b.Sight(), before.rollbackFailures, error);
        FailuresGrow(before, report', entry.change, error);
      }
      if b.Calm() {
        UnwoundStep(blind, undo, states, k, old(b.state), s, b.state,
                    before.rollbackFailures != [], report'.rollbackFailures != []);
      }
      if b.Clean() {
        RestoredStep(undo, P0, P1, P, states, k, old(b.state), s, b.state,
                     before.rollbackFailures != [], report'.rollbackFailures != []);
      }
    }
    assert order[..|undo|] == order;
    if b.Clean() {
      RestoredInFull(undo, P0, P, states, old(b.state), b.state, report'.rollbackFailures != []);
    }
  }

  lemma FailuresGrow(r: ApplyReport, r': ApplyReport, c: Change, error: Option<ErrorKind>)
    requires SameLedger(
               if error.None? then r.(rolledBack := r.rolledBack + [c])
               else r.(unresolved := r.unresolved + [c],
                       rollbackFailures := r.rollbackFailures + [RollbackFailure(c, error.value)]), r')
    ensures r'.rollbackFailures
            == r.rollbackFailures + (if error.None? then [] else [RollbackFailure(c, error.value)])
  {
  }

  lemma NothingTriedYet(report: ApplyReport, order: seq<Change>, blind: bool, undo: seq<Undo>, P0: Prepared,
                        states: seq<State>, s: State)
    requires report.rolledBack == [] && report.rollbackFailures == []
    ensures Tried(report, report, order[..0])
    ensures Unwound(blind, undo, states, |undo|, s, s, report.rollbackFailures != [])
    ensures Restored(undo, P0, P0, states, |undo|, s, s, report.rollbackFailures != [])
  {
    hide SameWorld, Link, Faithful, Compatible;
    assert undo[..|undo|] == undo;
    assert report.unresolved + FailedChanges([]) == report.unresolved;
  }
}
