/** apply_backend (reconcile.rs): the transactional loop and what a whole run guarantees. */
module Apply {
  import opened Wrappers
  import opened Paths
  import opened Scheduler
  import opened Manifests
  import opened Planning
  import opened SchedulerBackend
  import opened Recovery
  import opened ApplySpec
  import opened Accounting
  import opened Journaling
  import opened Compensation
  import opened Execution
  import opened Progress
  import opened Convergence
  import opened Steps
  import opened Forward
  import opened Rollback
  import opened Preflight

  datatype Outcome =
    | Applied(report: ApplyReport)
    | NotApplied(cause: ErrorKind, report: ApplyReport)

  // ---- the loop in terms of states --------------------------------------------------------------------

  /** The confirmed steps lead from the first state to the present one. */
  ghost predicate CalmAt(blind: bool, undo: seq<Undo>, states: seq<State>, init: State, now: State) {
    Chain(blind, undo, states) && states[0] == init && states[|undo|] == now
  }

  lemma CalmStarts(blind: bool, s: State)
    ensures CalmAt(blind, [], [s], s, s)
  {
  }

  lemma CalmAdvances(blind: bool, m: Manifest, undo: seq<Undo>, states: seq<State>, init: State, s: State, s': State,
                     change: Change, before: Observed, after: Observed, error: Option<ErrorKind>)
    requires CalmAt(blind, undo, states, init, s)
    requires Calmly(blind, m, change, before, Verified(after, error), s, s')
    ensures CalmAt(blind, undo + [Undo(change, before, after)], states + [s'], init, s')
  {
    hide View, Alike, Sees, OnlyTouches, Achieved;
    SightsAgree(blind, View(s', ChangeTarget(change)), after);
    ChainExtends(blind, undo, states, Undo(change, before, after), s');
  }

  lemma CalmlyConfirmed(blind: bool, m: Manifest, change: Change, before: Observed, after: Observed,
                        error: Option<ErrorKind>, s: State, s': State)
    requires Calmly(blind, m, change, before, Verified(after, error), s, s')
    ensures Confirmed(m, blind, s, s', change)
  {
    hide View, Alike, Sees, OnlyTouches, Achieved;
  }

  /** Nothing has failed so far: what remains is ready, and what was done can be taken back exactly. */
  ghost predicate ReadyAt(m: Manifest, P: Prepared, plan: seq<PlannedChange>, i: nat, expected: seq<Observed>,
                          undo: seq<Undo>, states: seq<State>, now: State) {
    && i <= |plan| == |expected| && |states| == |undo| + 1 && states[|undo|] == now
    && PlanAhead(m, P, plan, i, now) && Tree(now) && AllFaithful(undo, P, states)
    && (forall k :: i <= k < |plan| ==> expected[k] == View(now, ChangeTarget(plan[k].change)))
    && ChangesOf(undo) == PlanChanges(plan[..i])
  }

  /** The observation after a confirmed change becomes what later changes of the same target expect. */
  function Updated(plan: seq<PlannedChange>, expected: seq<Observed>, i: nat, after: Observed): (r: seq<Observed>)
    requires |expected| == |plan| && i < |plan|
    ensures |r| == |plan|
  {
    seq(|plan|, k requires 0 <= k < |plan| =>
      if k > i && ChangeTarget(plan[k].change) == ChangeTarget(plan[i].change) then after else expected[k])
  }

  lemma PlanGrows(plan: seq<PlannedChange>, i: nat)
    requires i < |plan|
    ensures PlanChanges(plan[..i + 1]) == PlanChanges(plan[..i]) + [plan[i].change]
  {
  }

  lemma {:induction false} StillFaithful(undo: seq<Undo>, P: Prepared, P': Prepared, states: seq<State>,
                                         change: Change, before: Observed)
    requires AllFaithful(undo, P, states) && StillPrepared(P, P', change, before)
    ensures AllFaithful(undo, P', states)
  {
    hide Compatible, OnlyTouches, Tree, SemanticallyEqual, View;
    forall j | 0 <= j < |undo| ensures Faithful(undo[j], P', states[j], states[j + 1]) {
      NotingKeepsRevocable(P, undo[j].change, states[j], states[j + 1], change, before);
    }
  }

  lemma NotingKeepsRevocable(P: Prepared, c: Change, pre: State, post: State, d: Change, before: Observed)
    requires Revocable(P, c, pre, post)
    ensures Revocable(Noted(P, d, before), c, pre, post) && Revocable(Spent(Noted(P, d, before), d), c, pre, post)
  {
    hide OnlyTouches, Tree, SemanticallyEqual;
  }

  lemma ReadyAdvancesOne(m: Manifest, P: Prepared, P': Prepared, plan: seq<PlannedChange>, i: nat,
                         expected: seq<Observed>, undo: seq<Undo>, states: seq<State>, pre: Tally, post: Tally,
                         error: Option<ErrorKind>, after: Observed)
    requires i < |plan| && AllCompatible(plan) && ReadyAt(m, P, plan, i, expected, undo, states, pre.state)
    requires AlmostFaultlessly(m, plan[i].change, expected[i], Verified(after, error), P, P', pre, post)
    ensures ReadyAt(m, P', plan, i + 1, Updated(plan, expected, i, after),
                    undo + [Undo(plan[i].change, expected[i], after)], states + [post.state], post.state)
  {
    hide Tree, Noted, Spent, Insured, SemanticallyEqual, PlanAhead, Compatible, View;
    var c := plan[i].change;
    var u := Undo(c, expected[i], after);
    PlanAdvances(m, P, plan, i, pre.state, post.state);
    StillFaithful(undo, P, P', states, c, expected[i]);
    PlanGrows(plan, i);
    assert ChangesOf(undo + [u]) == ChangesOf(undo) + [c];
    assert AllFaithful(undo + [u], P', states + [post.state]) by {
      FaithfulExtends(undo, P', states, u, pre.state, post.state, plan, i);
    }
    forall k | i + 1 <= k < |plan|
      ensures Updated(plan, expected, i, after)[k] == View(post.state, ChangeTarget(plan[k].change))
    {
      if ChangeTarget(plan[k].change) != ChangeTarget(c) {
        assert OnlyTouches(pre.state, post.state, ChangeTarget(c));
      }
    }
  }

  lemma FaithfulExtends(undo: seq<Undo>, P: Prepared, states: seq<State>, u: Undo, pre: State, post: State,
                        plan: seq<PlannedChange>, i: nat)
    requires |states| == |undo| + 1 && states[|undo|] == pre && AllFaithful(undo, P, states)
    requires Faithful(u, P, pre, post)
    requires i < |plan| && AllCompatible(plan) && ChangesOf(undo) == PlanChanges(plan[..i]) && u.change == plan[i].change
    ensures AllFaithful(undo + [u], P, states + [post])
  {
    hide Faithful, Compatible;
    var undo', states' := undo + [u], states + [post];
    forall j | 0 <= j < |undo'| ensures Faithful(undo'[j], P, states'[j], states'[j + 1]) {
      assert j < |undo| ==> undo'[j] == undo[j] && states'[j] == states[j] && states'[j + 1] == states[j + 1];
    }
    forall a, b | 0 <= a < b < |undo'| ensures Compatible(undo'[a].change, undo'[b].change) {
      assert |undo| == i;
      assert undo[a].change == ChangesOf(undo)[a] == PlanChanges(plan[..i])[a] == plan[a].change;
    }
  }

  /** Everything stands ready to be taken back exactly. */
  ghost predicate Reversible(undo: seq<Undo>, P: Prepared, states: seq<State>, now: State) {
    AllFaithful(undo, P, states) && SameWorld(false, states[|undo|], now)
  }

  lemma FaultedStep(m: Manifest, P: Prepared, P': Prepared, plan: seq<PlannedChange>, i: nat,
                    expected: seq<Observed>, undo: seq<Undo>, states: seq<State>, pre: Tally, post: Tally,
                    verdict: Verdict)
    requires i < |plan| && AllCompatible(plan) && ReadyAt(m, P, plan, i, expected, undo, states, pre.state)
    requires AlmostFaultlessly(m, plan[i].change, expected[i], verdict, P, P', pre, post)
    ensures verdict.Halted? || verdict.Intact? ==> Reversible(undo, P', states, post.state)
    ensures verdict.Verified? ==>
              Reversible(undo + [Undo(plan[i].change, expected[i], verdict.after)], P', states + [post.state], post.state)
  {
    hide PlanAhead, Tree, View, SameWorld, Noted, Spent, Faithful, Compatible;
    if verdict.Verified? {
      ReadyAdvancesOne(m, P, P', plan, i, expected, undo, states, pre, post, verdict.error, verdict.after);
      SameWorldIsReflexive(false, post.state);
    } else if !verdict.Doubtful? {
      StillFaithful(undo, P, P', states, plan[i].change, expected[i]);
    }
  }

  // ---- what a whole run guarantees ------------------------------------------------------------------------

  /** Applied changes are a prefix of the plan.  After a failure each of them was tried once, in exact reverse,
      and is listed as rolled back or as failed; what is unresolved is exactly what failed to roll back,
      preceded by the change in doubt, if any, which is the one that follows the applied prefix. */
  ghost predicate Ledger(plan: seq<PlannedChange>, outcome: Outcome) {
    var r := outcome.report;
    && r.plan == plan
    && (outcome.Applied? ==> ReportSucceeded(r) && r.applied == PlanChanges(plan))
    && (outcome.NotApplied? ==>
          && !r.succeeded && r.applied <= PlanChanges(plan)
          && Dealt(Reversed(r.applied), r.rolledBack, FailedChanges(r.rollbackFailures))
          && (r.unresolved == FailedChanges(r.rollbackFailures)
              || (|r.applied| < |plan|
                  && r.unresolved == [plan[|r.applied|].change] + FailedChanges(r.rollbackFailures))))
  }

  /** Nothing unresolved after a failure means that nothing has changed. */
  ghost predicate Atomic(blind: bool, outcome: Outcome, init: State, now: State) {
    outcome.NotApplied? && outcome.report.unresolved == [] ==> SameWorld(blind, init, now)
  }

  /** The same for one target, whoever else writes elsewhere: if a failed run leaves nothing unresolved at it, it
      looks as before. */
  ghost predicate RestoredAt(blind: bool, outcome: Outcome, t: Target, v0: Observed, v: Observed) {
    outcome.NotApplied? && (forall c <- outcome.report.unresolved :: ChangeTarget(c) != t) ==> Alike(blind, v0, v)
  }

  /** A step keeps what taking back the confirmed changes of one target leads to, unless it is in doubt itself. */
  lemma LeadsOn(blind: bool, l: Locals, change: Change, before: Observed, verdict: Verdict, t: Target,
                v0: Observed, v: Observed, v': Observed)
    requires Leads(blind, l.undo, t, v0, v) && StepAt(blind, t, change, before, verdict, v, v')
    ensures !(verdict.Doubtful? && ChangeTarget(change) == t) ==>
              Leads(blind, Extended(l, change, before, verdict), t, v0, v')
  {
    hide Leads, Alike;
    if verdict.Verified? {
      LeadsFurther(blind, l.undo, Undo(change, before, verdict.after), t, v0, v, v');
    } else if verdict.Intact? && ChangeTarget(change) == t {
      AlikeIsAnEquivalence(blind, v', before, v);
      AlikeIsAnEquivalence(blind, v, before, v');
      AlikeIsAnEquivalence(blind, before, v', v');
      LeadsAlike(blind, l.undo, t, v0, v, v');
    }
  }

  /** What the compensation of a failed run means for one target. */
  lemma FailureAt(plan: seq<PlannedChange>, i: nat, r: ApplyReport, r1: ApplyReport, r2: ApplyReport, verdict: Verdict,
                  undo: seq<Undo>, cause: ErrorKind, blind: bool, t: Target, v0: Observed, start: Observed,
                  now: Observed)
    requires i < |plan| && Underway(plan, i, r) && SameLedger(Judged(r, verdict, plan[i].change), r1)
    requires Tried(r1, r2, Reversed(ChangesOf(undo)))
    requires !(verdict.Doubtful? && ChangeTarget(plan[i].change) == t) ==> Leads(blind, undo, t, v0, start)
    requires UnwoundAt(blind, undo, 0, t, v0, start, now, r2.rollbackFailures)
    ensures RestoredAt(blind, NotApplied(cause, r2), t, v0, now)
  {
    hide Tried, SameLedger, Underway, Reversed, ChangesOf, Alike;
    TriedLists(plan, i, r, r1, r2, verdict, Reversed(ChangesOf(undo)));
    if forall c <- r2.unresolved :: ChangeTarget(c) != t {
      assert verdict.Doubtful? ==> r2.unresolved[0] == plan[i].change && r2.unresolved[0] in r2.unresolved;
      forall f | f in r2.rollbackFailures ensures ChangeTarget(f.change) != t {
        var k :| 0 <= k < |r2.rollbackFailures| && r2.rollbackFailures[k] == f;
        assert FailedChanges(r2.rollbackFailures)[k] == f.change;
        assert f.change in r2.unresolved;
      }
      assert undo[..0] == [];
    }
  }

  /** With a single fault the failed run is rolled back completely, unless the reply to a change of a folder or a
      descriptor was lost; then that change is reported. */
  ghost predicate Recovered(plan: seq<PlannedChange>, outcome: Outcome, init: State, now: State, replyLost: bool) {
    var r := outcome.report;
    outcome.NotApplied? ==>
      || (r.unresolved == [] && r.rollbackFailures == [] && r.rolledBack == Reversed(r.applied)
          && SameWorld(false, init, now))
      || (replyLost && |r.applied| < |plan|
          && (var c := plan[|r.applied|].change; c.CreateFolder? || c.SetFolderSecurity? || c.SetTaskSecurity?)
          && r.unresolved != [] && r.unresolved[0] == plan[|r.applied|].change)
  }

  /** succeeded says what it should: whatever was applied in plan order, it holds only of a whole plan with nothing
      taken back, failed or left open; and of a run it holds exactly if the run succeeded. */
  lemma SucceededExactly(plan: seq<PlannedChange>, outcome: Outcome)
    requires Ledger(plan, outcome)
    ensures ReportSucceeded(outcome.report) <==> outcome.Applied?
    ensures forall r: ApplyReport :: r.applied <= PlanChanges(r.plan) ==>
              (ReportSucceeded(r) <==>
                 r.succeeded && r.applied == PlanChanges(r.plan)
                 && r.rolledBack == [] && r.rollbackFailures == [] && r.unresolved == [])
  {
  }

  /** rollback_complete says what it should: after a failure it holds exactly if something was applied,
      nothing is unresolved and nothing was stopped, and then the world is as it was. */
  lemma RollbackCompleteExactly(plan: seq<PlannedChange>, blind: bool, outcome: Outcome, init: State, now: State)
    requires outcome.NotApplied? && Ledger(plan, outcome) && Atomic(blind, outcome, init, now)
    ensures var r := outcome.report;
      RollbackComplete(r) <==> r.applied != [] && r.unresolved == [] && r.irreversibleEffects == []
    ensures RollbackComplete(outcome.report) ==> SameWorld(blind, init, now)
  {
    var r := outcome.report;
    DealtCounts(Reversed(r.applied), r.rolledBack, FailedChanges(r.rollbackFailures));
  }

  /** The lists of the report are what the journal says, every attempt in it has its outcome, and a run that failed
      after its first check did so for the first error in it. */
  ghost predicate Attested(outcome: Outcome) {
    var r := outcome.report;
    && Told(r) && Open(r.journal) == Some([])
    && (outcome.Applied? ==> FirstError(r.journal).None?)
    && (outcome.NotApplied? && r.journal != [] ==> FirstError(r.journal) == Some(outcome.cause))
  }

  /** The report while the loop is under way. */
  predicate Underway(plan: seq<PlannedChange>, i: nat, r: ApplyReport) {
    && i <= |plan| && r.plan == plan && !r.succeeded && r.applied == PlanChanges(plan[..i])
    && r.rolledBack == [] && r.rollbackFailures == [] && r.unresolved == []
  }

  lemma AppliedAfter(plan: seq<PlannedChange>, i: nat, verdict: Verdict)
    requires i < |plan|
    ensures PlanChanges(plan[..i]) + Counted(verdict, plan[i].change) <= PlanChanges(plan)
    ensures |PlanChanges(plan[..i]) + Counted(verdict, plan[i].change)| == (if verdict.Verified? then i + 1 else i)
  {
    PlanGrows(plan, i);
  }

  /** The lists of the report once compensation has tried everything that was applied. */
  lemma TriedLists(plan: seq<PlannedChange>, i: nat, r: ApplyReport, r1: ApplyReport, r2: ApplyReport,
                   verdict: Verdict, order: seq<Change>)
    requires i < |plan| && Underway(plan, i, r)
    requires SameLedger(Judged(r, verdict, plan[i].change), r1)
    requires Tried(r1, r2, order)
    ensures r2.plan == plan && !r2.succeeded && r2.applied == r1.applied
    ensures r1.applied == PlanChanges(plan[..i]) + Counted(verdict, plan[i].change)
    ensures r2.unresolved == InDoubt(verdict, plan[i].change) + FailedChanges(r2.rollbackFailures)
    ensures Dealt(order, r2.rolledBack, FailedChanges(r2.rollbackFailures))
  {
    hide Dealt, PlanChanges, FailedChanges;
    assert r.unresolved + InDoubt(verdict, plan[i].change) == InDoubt(verdict, plan[i].change);
  }

  lemma FailureLedger(plan: seq<PlannedChange>, i: nat, r: ApplyReport, r1: ApplyReport, r2: ApplyReport,
                      verdict: Verdict, undo: seq<Undo>, cause: ErrorKind)
    requires i < |plan| && Underway(plan, i, r)
    requires SameLedger(Judged(r, verdict, plan[i].change), r1)
    requires ChangesOf(undo) == r1.applied
    requires Tried(r1, r2, Reversed(ChangesOf(undo)))
    ensures Ledger(plan, NotApplied(cause, r2))
  {
    hide Dealt, PlanChanges, FailedChanges, Tried, SameLedger, Underway, Reversed, ChangesOf;
    TriedLists(plan, i, r, r1, r2, verdict, Reversed(ChangesOf(undo)));
    AppliedAfter(plan, i, verdict);
    assert [] + FailedChanges(r2.rollbackFailures) == FailedChanges(r2.rollbackFailures);
  }

  lemma FailureLists(plan: seq<PlannedChange>, i: nat, r: ApplyReport, r1: ApplyReport, r2: ApplyReport,
                     verdict: Verdict, undo: seq<Undo>)
    requires i < |plan| && Underway(plan, i, r)
    requires SameLedger(Judged(r, verdict, plan[i].change), r1)
    requires ChangesOf(undo) == r1.applied
    requires Tried(r1, r2, Reversed(ChangesOf(undo)))
    ensures r2.applied == r1.applied
    ensures verdict.Doubtful? ==> |r2.applied| == i && r2.unresolved != [] && r2.unresolved[0] == plan[i].change
    ensures !verdict.Doubtful? && r2.rollbackFailures == [] ==>
              r2.unresolved == [] && r2.rolledBack == Reversed(r2.applied)
    ensures r2.unresolved == [] ==> r2.rollbackFailures == [] && !verdict.Doubtful?
  {
    hide Dealt, PlanChanges, Tried, SameLedger, Underway, Reversed, ChangesOf;
    TriedLists(plan, i, r, r1, r2, verdict, Reversed(ChangesOf(undo)));
    AppliedAfter(plan, i, verdict);
    if r2.rollbackFailures == [] {
      assert FailedChanges(r2.rollbackFailures) == [];
      DealtCounts(Reversed(ChangesOf(undo)), r2.rolledBack, []);
    }
  }

  lemma AtomicFailure(blind: bool, m: Manifest, change: Change, before: Observed, verdict: Verdict,
                      undo: seq<Undo>, states: seq<State>, init: State, s: State, s1: State, s2: State,
                      failed: bool)
    requires CalmAt(blind, undo, states, init, s)
    requires Calmly(blind, m, change, before, verdict, s, s1)
    requires verdict.Halted? || verdict.Intact?
    requires Unwound(blind, undo, states, 0, s1, s2, failed)
    ensures !failed ==> SameWorld(blind, init, s2)
  {
    hide View, Alike, OnlyTouches, Sees, Achieved, SameWorld, Chain;
    if verdict.Intact? {
      UntouchedWorld(blind, s, s1, ChangeTarget(change), before);
    } else {
      SameWorldIsReflexive(blind, s);
    }
  }

  lemma AtomicUnwinding(blind: bool, undo: seq<Undo>, states: seq<State>, init: State, s1: State, s2: State,
                        failed: bool)
    requires CalmAt(blind, undo, states, init, s1)
    requires Unwound(blind, undo, states, 0, s1, s2, failed)
    ensures !failed ==> SameWorld(blind, init, s2)
  {
    hide SameWorld, Chain;
    SameWorldIsReflexive(blind, s1);
  }

  // ---- the loop ------------------------------------------------------------------------------------------

  /** What the forward loop starts from when convergence is to be concluded. */
  ghost predicate Sound(m: Manifest, options: ApplyOptions, plan: seq<PlannedChange>, s: State) {
    ValidManifest(m) && Inside(m) && AllCompatible(plan) && Converging(m, PlanningOptions(options), plan, 0, s)
  }

  /** Every later change is expected to find what was last seen of its target. */
  ghost predicate Expecting(plan: seq<PlannedChange>, i: nat, expected: seq<Observed>, trace: seq<Event>) {
    |expected| == |plan|
    && forall k :: i <= k < |plan| ==> Knows(trace, ChangeTarget(plan[k].change), expected[k])
  }

  lemma ExpectationsMove(plan: seq<PlannedChange>, i: nat, expected: seq<Observed>, trace: seq<Event>,
                         trace': seq<Event>, after: Observed)
    requires i < |plan| && Expecting(plan, i, expected, trace)
    requires Extends(trace, trace', ChangeTarget(plan[i].change))
    requires Knows(trace', ChangeTarget(plan[i].change), after)
    ensures Expecting(plan, i + 1, Updated(plan, expected, i, after), trace')
  {
    hide Knows;
  }

  /** What a failed step leaves for the compensation, and what follows once it is done. */
  method FailStep(b: Backend, m: Manifest, options: ApplyOptions, plan: seq<PlannedChange>, ghost i: nat,
                  ghost change: Change, ghost before: Observed, verdict: Verdict, P: Prepared,
                  ghost report0: ApplyReport, report1: ApplyReport, undo: seq<Undo>, cause: ErrorKind,
                  ghost base: seq<Entry>, ghost trace: seq<Event>, ghost states: seq<State>,
                  ghost init: State, ghost s: State, ghost v0: Observed)
    returns (outcome: Outcome, ghost trace': seq<Event>)
    requires i < |plan| && Underway(plan, i, report0) && change == plan[i].change
    requires SameLedger(Judged(report0, verdict, change), report1)
    requires ChangesOf(undo) == report1.applied && |states| == |undo| + 1
    requires Accounted(b, base, report1, trace)
    requires Open(report1.journal) == Some([]) && FirstError(report1.journal) == Some(cause)
    requires forall u <- undo :: Left(u.change, u.after) in trace
    modifies b
    ensures b.Counting() && outcome.NotApplied?
    ensures Attested(outcome) && Heralded(options.stopRunning, old(b.log), b.log)
    ensures Accounted(b, base, outcome.report, trace') && Ledger(plan, outcome)
    ensures b.Calm() && Calmly(options.allowIrreversible, m, change, before, verdict, s, old(b.state))
            && (if verdict.Verified? then CalmAt(options.allowIrreversible, undo, states, init, old(b.state))
                else CalmAt(options.allowIrreversible, undo, states, init, s))
            ==> Atomic(options.allowIrreversible, outcome, init, b.state)
    ensures b.Clean() && states[0] == init && !verdict.Doubtful? && Reversible(undo, P, states, old(b.state))
            ==> Recovered(plan, outcome, init, b.state, false)
    ensures verdict.Doubtful? && (change.CreateFolder? || change.SetFolderSecurity? || change.SetTaskSecurity?)
            ==> Recovered(plan, outcome, init, b.state, true)
    ensures outcome.report.applied == report1.applied
    ensures verdict.Doubtful? ==> outcome.report.unresolved != [] && outcome.report.unresolved[0] == change
    ensures b.Alone()
            && (!(verdict.Doubtful? && ChangeTarget(change) == b.chosen)
                ==> Leads(options.allowIrreversible, undo, b.chosen, v0, old(b.Sight())))
            ==> RestoredAt(options.allowIrreversible, outcome, b.chosen, v0, b.Sight())
  {
    hide AccountedFor, Told, Open, FirstError, Tried, Unwound, FullyRestored, SameLedger, Reversed, Calmly, CalmAt,
         Reversible, Dealt, SameWorld, Underway, Ledger, UnwoundAt, Leads, RestoredAt, Heralded;
    var report2;
    report2, trace' := CompensateObserved(b, options, P, report1, undo, base, trace, states, v0) by {
      assert report1.rolledBack == [] && report1.rollbackFailures == [] by {
        FreshReport(plan, i, report0, report1, change, verdict);
      }
    }
    outcome := NotApplied(cause, report2);
    FailureLedger(plan, i, report0, report1, report2, verdict, undo, cause);
    FailureLists(plan, i, report0, report1, report2, verdict, undo);
    if b.Alone() && (!(verdict.Doubtful? && ChangeTarget(change) == b.chosen)
                     ==> Leads(options.allowIrreversible, undo, b.chosen, v0, old(b.Sight()))) {
      FailureAt(plan, i, report0, report1, report2, verdict, undo, cause, options.allowIrreversible, b.chosen, v0,
                old(b.Sight()), b.Sight());
    }
    ghost var blind := options.allowIrreversible;
    if b.Calm() && Calmly(blind, m, change, before, verdict, s, old(b.state)) {
      if verdict.Verified? {
        if CalmAt(blind, undo, states, init, old(b.state)) {
          AtomicUnwinding(blind, undo, states, init, old(b.state), b.state, report2.rollbackFailures != []);
        }
      } else if !verdict.Doubtful? && CalmAt(blind, undo, states, init, s) {
        AtomicFailure(blind, m, change, before, verdict, undo, states, init, s, old(b.state), b.state,
                      report2.rollbackFailures != []);
      }
    }
    if b.Clean() && states[0] == init && !verdict.Doubtful? && Reversible(undo, P, states, old(b.state)) {
      ReversibleIsRestored(undo, P, states, old(b.state), b.state, report2.rollbackFailures != []);
    }
  }

  lemma FreshReport(plan: seq<PlannedChange>, i: nat, r: ApplyReport, r1: ApplyReport, change: Change, verdict: Verdict)
    requires Underway(plan, i, r)
    requires SameLedger(Judged(r, verdict, change), r1)
    ensures r1.rolledBack == [] && r1.rollbackFailures == []
  {
  }

  lemma ReversibleIsRestored(undo: seq<Undo>, P: Prepared, states: seq<State>, start: State, now: State, failed: bool)
    requires Reversible(undo, P, states, start) && FullyRestored(undo, P, states, start, now, failed)
    ensures !failed && SameWorld(false, states[0], now)
  {
    hide SameWorld, AllFaithful;
  }

  /** Everything undisturbed since `start`, except perhaps that one change was refused or its reply lost. */
  ghost predicate Almost(start: Tally, now: Tally) {
    now.foreign == start.foreign && now.lostReads == start.lostReads && now.wild == start.wild
    && now.refused + now.lost <= start.refused + start.lost + 1
  }

  ghost predicate LaterThan(start: Tally, now: Tally) {
    now.foreign >= start.foreign && now.lostReads >= start.lostReads
    && now.refused >= start.refused && now.lost >= start.lost && now.wild >= start.wild
  }

  /** Convergence is certain: the plan has no exposed flag, or nothing went wild, or every descriptor was in sight. */
  ghost predicate Sharp(m: Manifest, blind: bool, plan: seq<PlannedChange>, expected: seq<Observed>, start: Tally,
                        now: Tally) {
    blind && Exposed(m, plan) ==> now.wild == start.wild || (now.lostReads == start.lostReads && AllLegible(expected))
  }

  predicate AllLegible(seen: seq<Observed>) { forall v <- seen :: Legible(v) }

  /** The local variables of the loop. */
  datatype Locals = Locals(P: Prepared, expected: seq<Observed>, undo: seq<Undo>, report: ApplyReport)

  /** What holds of them, of the trace and of the states passed through, before change number `i`. */
  ghost predicate LoopInvariant(m: Manifest, options: ApplyOptions, plan: seq<PlannedChange>, i: nat, first: Locals,
                                start: Tally, l: Locals, trace: seq<Event>, states: seq<State>, now: Tally) {
    var blind := options.allowIrreversible;
    && LaterThan(start, now)
    && Underway(plan, i, l.report) && |l.expected| == |plan| && Expecting(plan, i, l.expected, trace)
    && ChangesOf(l.undo) == PlanChanges(plan[..i])
    && |states| == |l.undo| + 1 && states[0] == start.state
    && (forall u <- l.undo :: Left(u.change, u.after) in trace)
    && (now.foreign == start.foreign ==> CalmAt(blind, l.undo, states, start.state, now.state))
    && (now.foreign == start.foreign && now.lostReads == start.lostReads && AllLegible(first.expected)
        ==> AllLegible(l.expected))
    && (now.foreign == start.foreign && Sharp(m, blind, plan, first.expected, start, now)
        && Sound(m, options, plan, start.state)
        ==> Converging(m, PlanningOptions(options), plan, i, now.state))
    && (Almost(start, now) && AllCompatible(plan)
        && ReadyAt(m, first.P, plan, 0, first.expected, [], [start.state], start.state)
        ==> now.refused == start.refused && now.lost == start.lost
            && ReadyAt(m, l.P, plan, i, l.expected, l.undo, states, now.state))
  }

  lemma LoopStarts(m: Manifest, options: ApplyOptions, plan: seq<PlannedChange>, first: Locals, start: Tally,
                   trace: seq<Event>)
    requires Underway(plan, 0, first.report) && Expecting(plan, 0, first.expected, trace) && first.undo == []
    ensures LoopInvariant(m, options, plan, 0, first, start, first, trace, [start.state], start)
  {
    hide Converging, ReadyAt, AllCompatible, CalmAt;
    CalmStarts(options.allowIrreversible, start.state);
    if Sound(m, options, plan, start.state) {
      SoundConverges(m, options, plan, start.state);
    }
    assert PlanChanges(plan[..0]) == [];
  }

  /** What one step of the forward loop established. */
  ghost predicate Stepped(m: Manifest, options: ApplyOptions, plan: seq<PlannedChange>, i: nat, l: Locals,
                          verdict: Verdict, P': Prepared, report': ApplyReport, trace: seq<Event>, trace': seq<Event>,
                          pre: Tally, post: Tally)
    requires i < |plan| == |l.expected|
  {
    var change, before := plan[i].change, l.expected[i];
    && LaterThan(pre, post) && Extends(trace, trace', ChangeTarget(change))
    && SameLedger(Judged(l.report, verdict, change), report')
    && (verdict.Verified? ==>
          Knows(trace', ChangeTarget(change), verdict.after) && Left(change, verdict.after) in trace')
    && (post.foreign == pre.foreign ==>
          Calmly(options.allowIrreversible, m, change, before, verdict, pre.state, post.state)
          && (post.wild == pre.wild ==> DescriptorKept(change, pre.state, post.state))
          && (post.lostReads == pre.lostReads && verdict.Verified? && Legible(before)
              ==> DescriptorKept(change, pre.state, post.state) && Legible(verdict.after)))
    && (post.foreign == pre.foreign && post.lostReads == pre.lostReads && post.wild == pre.wild
        && Tree(pre.state) && Ready(m, l.P, pre.state, change, [])
        && before == View(pre.state, ChangeTarget(change))
        ==> AlmostFaultlessly(m, change, before, verdict, l.P, P', pre, post))
  }

  /** The undo list and the states after a step. */
  function Extended(l: Locals, change: Change, before: Observed, verdict: Verdict): seq<Undo> {
    if verdict.Verified? then l.undo + [Undo(change, before, verdict.after)] else l.undo
  }

  ghost function Passed(states: seq<State>, verdict: Verdict, now: State): seq<State> {
    if verdict.Verified? then states + [now] else states
  }

  lemma LoopAdvances(m: Manifest, options: ApplyOptions, plan: seq<PlannedChange>, i: nat, first: Locals,
                     start: Tally, l: Locals, trace: seq<Event>, states: seq<State>, pre: Tally,
                     verdict: Verdict, P': Prepared, report': ApplyReport, trace': seq<Event>, post: Tally)
    requires i < |plan| && LoopInvariant(m, options, plan, i, first, start, l, trace, states, pre)
    requires Stepped(m, options, plan, i, l, verdict, P', report', trace, trace', pre, post)
    requires CauseOf(verdict).None?
    ensures LoopInvariant(m, options, plan, i + 1, first, start,
                          Locals(P', Updated(plan, l.expected, i, verdict.after),
                                 Extended(l, plan[i].change, l.expected[i], verdict), report'),
                          trace', Passed(states, verdict, post.state), post)
  {
    hide Converging, ReadyAt, AllCompatible, CalmAt, Calmly, Sound, Knows, Extends, Updated, Expecting, DescriptorKept,
         AlmostFaultlessly, Tree, Ready, View, SameLedger, Legible;
    var change, before, blind := plan[i].change, l.expected[i], options.allowIrreversible;
    ExpectationsMove(plan, i, l.expected, trace, trace', verdict.after);
    ExtendsIsPrefix(trace, trace', ChangeTarget(change));
    AppliedGrows(plan, i, l.report, report', verdict);
    PlanGrows(plan, i);
    assert ChangesOf(Extended(l, change, before, verdict)) == ChangesOf(l.undo) + [change];
    if post.foreign == start.foreign {
      CalmAdvances(blind, m, l.undo, states, start.state, pre.state, post.state, change, before, verdict.after, None);
      if post.lostReads == start.lostReads && AllLegible(first.expected) {
        StaysLegible(plan, i, l.expected, verdict.after);
      }
      if Sharp(m, blind, plan, first.expected, start, post) && Sound(m, options, plan, start.state) {
        ConvergeStep(blind, m, options, plan, i, start.state, pre.state, post.state, before, verdict.after, None);
      }
    }
    if Almost(start, post) && AllCompatible(plan)
       && ReadyAt(m, first.P, plan, 0, first.expected, [], [start.state], start.state) {
      ReadyNow(m, l.P, plan, i, l.expected, l.undo, states, pre.state);
      FaultShows(m, change, before, verdict, l.P, P', pre, post);
      ReadyAdvancesOne(m, l.P, P', plan, i, l.expected, l.undo, states, pre, post, None, verdict.after);
    }
  }

  lemma StaysLegible(plan: seq<PlannedChange>, i: nat, expected: seq<Observed>, after: Observed)
    requires |expected| == |plan| && i < |plan| && AllLegible(expected) && Legible(after)
    ensures AllLegible(Updated(plan, expected, i, after))
  {
    hide Legible;
    var next := Updated(plan, expected, i, after);
    forall v | v in next ensures Legible(v) {
      var k :| 0 <= k < |next| && next[k] == v;
      assert v == after || v == expected[k];
    }
  }

  /** What a failed step hands to the compensation. */
  lemma LoopFails(m: Manifest, options: ApplyOptions, plan: seq<PlannedChange>, i: nat, first: Locals,
                  start: Tally, l: Locals, trace: seq<Event>, states: seq<State>, pre: Tally,
                  verdict: Verdict, P': Prepared, report': ApplyReport, trace': seq<Event>, post: Tally)
    requires i < |plan| && LoopInvariant(m, options, plan, i, first, start, l, trace, states, pre)
    requires Stepped(m, options, plan, i, l, verdict, P', report', trace, trace', pre, post)
    requires CauseOf(verdict).Some?
    ensures SameLedger(Judged(l.report, verdict, plan[i].change), report')
    ensures var (undo, states') :=
              (Extended(l, plan[i].change, l.expected[i], verdict), Passed(states, verdict, post.state));
      && ChangesOf(undo) == report'.applied && |states'| == |undo| + 1 && states'[0] == start.state
      && (forall u <- undo :: Left(u.change, u.after) in trace')
      && (post.foreign == start.foreign ==>
            Calmly(options.allowIrreversible, m, plan[i].change, l.expected[i], verdict, pre.state, post.state)
            && (if verdict.Verified? then CalmAt(options.allowIrreversible, undo, states', start.state, post.state)
                else CalmAt(options.allowIrreversible, undo, states', start.state, pre.state)))
      && (Almost(start, post) && AllCompatible(plan)
          && ReadyAt(m, first.P, plan, 0, first.expected, [], [start.state], start.state)
          ==> post.refused + post.lost == start.refused + start.lost + 1
              && (verdict.Doubtful? ==>
                    post.lost > start.lost
                    && (var c := plan[i].change; c.CreateFolder? || c.SetFolderSecurity? || c.SetTaskSecurity?))
              && (Sound(m, options, plan, start.state) && post.lost > start.lost ==>
                    Decided(m, post.lostCall, plan[i].change, verdict, pre.state, post.state))
              && (!verdict.Doubtful? ==> Reversible(undo, P', states', post.state)))
  {
    hide Converging, ReadyAt, AllCompatible, CalmAt, Calmly, Sound, Knows, Extends, Expecting, DescriptorKept,
         AlmostFaultlessly, Tree, Ready, View, SameLedger, Reversible;
    var change, before, blind := plan[i].change, l.expected[i], options.allowIrreversible;
    ExtendsIsPrefix(trace, trace', ChangeTarget(change));
    AppliedGrows(plan, i, l.report, report', verdict);
    var undo := Extended(l, change, before, verdict);
    assert verdict.Verified? ==> ChangesOf(undo) == ChangesOf(l.undo) + [change];
    if post.foreign == start.foreign && verdict.Verified? {
      CalmAdvances(blind, m, l.undo, states, start.state, pre.state, post.state, change, before,
                   verdict.after, verdict.error);
    }
    if Almost(start, post) && AllCompatible(plan)
       && ReadyAt(m, first.P, plan, 0, first.expected, [], [start.state], start.state) {
      ReadyNow(m, l.P, plan, i, l.expected, l.undo, states, pre.state);
      FaultShows(m, change, before, verdict, l.P, P', pre, post);
      FaultedStep(m, l.P, P', plan, i, l.expected, l.undo, states, pre, post, verdict);
      if Sound(m, options, plan, start.state) && post.lost > start.lost {
        LostShows(m, options, plan, i, verdict, start.state, pre, post);
      }
    }
  }

  /** What a lost reply comes to: it was that of a stop request, or of the change's own call; then the change is
      confirmed, unless it is about a folder or a descriptor and is not. */
  ghost predicate Decided(m: Manifest, lost: Option<Call>, change: Change, verdict: Verdict, s: State, s': State) {
    var (before, now) := (View(s, ChangeTarget(change)), View(s', ChangeTarget(change)));
    (lost.Some? && lost.value.StopAll? && verdict.Halted?)
    || (Answers(m, lost, change, verdict, before, now)
        && (change.CreateFolder? || change.SetFolderSecurity? || change.SetTaskSecurity? || verdict.Verified?))
  }

  lemma LostShows(m: Manifest, options: ApplyOptions, plan: seq<PlannedChange>, i: nat, verdict: Verdict,
                  init: State, pre: Tally, post: Tally)
    requires i < |plan| && Sound(m, options, plan, init)
    requires Converging(m, PlanningOptions(options), plan, i, pre.state)
    requires var t := ChangeTarget(plan[i].change);
      (post.lostCall.Some? && post.lostCall.value.StopAll? && verdict.Halted?)
      || Answers(m, post.lostCall, plan[i].change, verdict, View(pre.state, t), View(post.state, t))
    ensures Decided(m, post.lostCall, plan[i].change, verdict, pre.state, post.state)
  {
    hide View, Same, Achieved, Wanted, FullSnapshot, AllCompatible, Unblocked;
    var c := plan[i].change;
    assert StillWanted(m, PlanningOptions(options), pre.state, c);
    if !(post.lostCall.Some? && post.lostCall.value.StopAll?)
       && !(c.CreateFolder? || c.SetFolderSecurity? || c.SetTaskSecurity?) {
      WantedShows(m, PlanningOptions(options), pre.state, post.state, c);
    }
  }

  /** The reply to a change of a task's existence, definition or flag may be lost: the change is counted as applied
      and taken back, nothing is unresolved and the world is as it was.  After any other lost reply but that of
      a stop request the change is not counted, and the first thing unresolved if there is anything. */
  ghost predicate Credited(plan: seq<PlannedChange>, outcome: Outcome, lost: Option<Call>, init: State, now: State) {
    var r, n := outcome.report, |outcome.report.applied|;
    && lost.Some?
    && match lost.value
       case Register(path, _, _, _) =>
         TakenBack(outcome, init, now) && r.applied[n - 1] in {CreateTask(path), UpdateTask(path), AdoptTask(path)}
       case DropTask(path) => TakenBack(outcome, init, now) && r.applied[n - 1] == DeleteTask(path)
       case WriteEnabled(path, _) =>
         TakenBack(outcome, init, now) && r.applied[n - 1].SetEnabled? && r.applied[n - 1].path == path
       case MakeFolder(folder) => NotCounted(plan, outcome, CreateFolder(folder))
       case WriteFolderSecurity(folder, _) => NotCounted(plan, outcome, SetFolderSecurity(folder))
       case WriteTaskSecurity(path, _) => NotCounted(plan, outcome, SetTaskSecurity(path))
       case StopAll(_) => outcome.NotApplied? && r.unresolved == [] && SameWorld(false, init, now)
       case RegisterRaw(_, _, _, _) => false
       case DropFolder(_) => false
  }

  ghost predicate TakenBack(outcome: Outcome, init: State, now: State) {
    var r := outcome.report;
    outcome.NotApplied? && r.applied != [] && r.unresolved == [] && r.rolledBack == Reversed(r.applied)
    && SameWorld(false, init, now)
  }

  ghost predicate NotCounted(plan: seq<PlannedChange>, outcome: Outcome, c: Change) {
    var r := outcome.report;
    outcome.NotApplied? && |r.applied| < |plan| && plan[|r.applied|].change == c
    && (r.unresolved == [] || r.unresolved[0] == c)
  }

  lemma CreditGiven(m: Manifest, plan: seq<PlannedChange>, i: nat, outcome: Outcome, verdict: Verdict,
                    lost: Option<Call>, s: State, s': State, init: State, now: State)
    requires i < |plan| && outcome.NotApplied?
    requires outcome.report.applied == PlanChanges(plan[..i]) + Counted(verdict, plan[i].change)
    requires Decided(m, lost, plan[i].change, verdict, s, s') && CauseOf(verdict).Some?
    requires verdict.Doubtful? ==> outcome.report.unresolved != [] && outcome.report.unresolved[0] == plan[i].change
    requires !verdict.Doubtful? ==> Recovered(plan, outcome, init, now, false)
    ensures Credited(plan, outcome, lost, init, now)
  {
    hide View, Same, Achieved, SameWorld, Reversed;
    var c, r, n := plan[i].change, outcome.report, |outcome.report.applied|;
    assert |PlanChanges(plan[..i])| == i;
    if verdict.Verified? {
      assert r.applied[n - 1] == c;
    }
  }

  /** The forward step of one change of the plan. */
  method LoopStep(b: Backend, m: Manifest, options: ApplyOptions, plan: seq<PlannedChange>, i: nat, l: Locals,
                  ghost base: seq<Entry>, ghost trace: seq<Event>)
    returns (verdict: Verdict, P': Prepared, report': ApplyReport, ghost trace': seq<Event>)
    requires i < |plan| == |l.expected| && Accounted(b, base, l.report, trace)
    requires Knows(trace, ChangeTarget(plan[i].change), l.expected[i])
    modifies b
    ensures b.Counting() && Accounted(b, base, report', trace')
    ensures Continued(l.report, report', CauseOf(verdict)) && Heralded(options.stopRunning, old(b.log), b.log)
    ensures Stepped(m, options, plan, i, l, verdict, P', report', trace, trace', old(b.Now()), b.Now())
    ensures b.Alone() ==> StepAt(options.allowIrreversible, b.chosen, plan[i].change, l.expected[i], verdict,
                                 old(b.Sight()), b.Sight())
  {
    hide AccountedFor, Told, Knows, Extends, Calmly, AlmostFaultlessly, DescriptorKept, Tree, Ready, View, SameLedger,
         Stepped, Legible, StepAt, Heralded, Continued, Judged;
    verdict, P', report', trace' := ForwardStep(b, m, options, plan[i].change, l.expected[i], l.P, l.report, base, trace);
    ThatIsAStep(m, options, plan, i, l, verdict, P', report', trace, trace', old(b.Now()), b.Now());
  }

  /** The forward loop: check, change and verify in plan order; compensate and stop at the first failure. */
  method ForwardLoop(b: Backend, m: Manifest, options: ApplyOptions, plan: seq<PlannedChange>,
                     expected0: seq<Observed>, P0: Prepared, report0: ApplyReport,
                     ghost base: seq<Entry>, ghost trace0: seq<Event>)
    returns (outcome: Outcome, ghost trace: seq<Event>)
    requires Accounted(b, base, report0, trace0) && Underway(plan, 0, report0)
    requires Expecting(plan, 0, expected0, trace0) && report0.journal == []
    modifies b
    ensures b.Counting() && Accounted(b, base, outcome.report, trace)
    ensures Attested(outcome) && Heralded(options.stopRunning, old(b.log), b.log)
    ensures Ledger(plan, outcome)
    ensures b.Calm() ==> Atomic(options.allowIrreversible, outcome, old(b.state), b.state)
    ensures b.Alone() ==> RestoredAt(options.allowIrreversible, outcome, b.chosen, old(b.Sight()), b.Sight())
    ensures b.Calm() && Sharp(m, options.allowIrreversible, plan, expected0, old(b.Now()), b.Now()) && outcome.Applied?
            && Sound(m, options, plan, old(b.state))
            ==> Settled(m, PlanningOptions(options), b.state)
    ensures Almost(old(b.Now()), b.Now()) && AllCompatible(plan)
            && ReadyAt(m, P0, plan, 0, expected0, [], [old(b.state)], old(b.state))
            ==> (b.Faultless() ==> outcome.Applied?)
                && Recovered(plan, outcome, old(b.state), b.state, b.lost > old(b.lost))
                && (Sound(m, options, plan, old(b.state)) && b.lost > old(b.lost)
                    ==> Credited(plan, outcome, b.lostCall, old(b.state), b.state))
  {
    hide AccountedFor, Knows, Extends, Calmly, CalmAt, ReadyAt, Reversible, Ledger, Atomic, Recovered, Settled, Sound,
         Converging, AllCompatible, AlmostFaultlessly, DescriptorKept, Expecting, Tree, Ready, View, SameLedger, Updated,
         Stepped, LoopInvariant, Underway, Sharp, Legible, Leads, StepAt, RestoredAt, Alike, Credited, Decided, Told,
         Heralded, Open, FirstError, Attested, Continued, Unfailed, Extended, ChangesOf, PlanChanges, Judged;
    ghost var start := b.Now();
    var l := Locals(P0, expected0, [], report0);
    ghost var first, states := l, [b.state];
    trace := trace0;
    var i := 0;
    LoopStarts(m, options, plan, first, start, trace);
    NothingFailed(report0);
    ReadsAreHeralded(options.stopRunning, b.log, b.log);
    LeadsNowhere(options.allowIrreversible, b.chosen, b.Sight());
    while i < |plan|
      invariant i <= |plan| && b.Counting() && Accounted(b, base, l.report, trace)
      invariant LoopInvariant(m, options, plan, i, first, start, l, trace, states, b.Now())
      invariant b.Alone() ==> Leads(options.allowIrreversible, l.undo, b.chosen, old(b.Sight()), b.Sight())
      invariant Unfailed(l.report)
      invariant Heralded(options.stopRunning, old(b.log), b.log)
    {
      InvariantBasics(m, options, plan, i, first, start, l, trace, states, b.Now());
      var change, before := plan[i].change, l.expected[i];
      ghost var pre, trace1, v, log := b.Now(), trace, b.Sight(), b.log;
      var verdict, P', report';
      verdict, P', report', trace := LoopStep(b, m, options, plan, i, l, base, trace);
      ghost var post := b.Now();
      ghost var log1 := b.log;
      HeraldedTwice(options.stopRunning, old(b.log), log, log1);
      var undo := Extended(l, change, before, verdict);
      var cause := CauseOf(verdict);
      StepTells(l.report, report', cause);
      if b.Alone() {
        LeadsOn(options.allowIrreversible, l, change, before, verdict, b.chosen, old(b.Sight()), v, b.Sight());
      }
      if cause.Some? {
        LoopFails(m, options, plan, i, first, start, l, trace1, states, pre, verdict, P', report', trace, post);
        outcome, trace := FailStep(b, m, options, plan, i, change, before, verdict, P', l.report, report', undo,
                                   cause.value, base, trace, Passed(states, verdict, b.state), start.state, pre.state,
                                   old(b.Sight()));
        HeraldedTwice(options.stopRunning, old(b.log), log1, b.log);
        RecoveredEitherWay(plan, outcome, start.state, b.state);
        if Almost(start, b.Now()) && AllCompatible(plan) && Sound(m, options, plan, start.state) && b.lost > start.lost
           && ReadyAt(m, first.P, plan, 0, first.expected, [], [start.state], start.state) {
          AppliedGrows(plan, i, l.report, report', verdict);
          CreditGiven(m, plan, i, outcome, verdict, post.lostCall, pre.state, post.state, start.state, b.state);
        }
        return;
      }
      LoopAdvances(m, options, plan, i, first, start, l, trace1, states, pre, verdict, P', report', trace, post);
      states := Passed(states, verdict, b.state);
      l := Locals(P', Updated(plan, l.expected, i, verdict.after), undo, report');
      i := i + 1;
    }
    outcome := Applied(l.report.(succeeded := true));
    SuccessIsTold(l.report);
    LoopEnds(m, options, plan, first, start, l, trace, states, b.Now());
    NothingToRecover(plan, options.allowIrreversible, outcome, start.state, b.state, b.lost > old(b.lost));
  }

  /** No attempt is open and no error was noted. */
  ghost predicate Unfailed(r: ApplyReport) { Open(r.journal) == Some([]) && FirstError(r.journal) == None }

  lemma NothingFailed(r: ApplyReport)
    requires r.journal == []
    ensures Unfailed(r)
  {
  }

  lemma StepTells(r: ApplyReport, r': ApplyReport, cause: Option<ErrorKind>)
    requires Unfailed(r) && Continued(r, r', cause)
    ensures Open(r'.journal) == Some([]) && FirstError(r'.journal) == cause && (cause.None? ==> Unfailed(r'))
  {
    hide Open, FirstError;
  }

  lemma SuccessIsTold(r: ApplyReport)
    requires Unfailed(r) && Told(r)
    ensures Attested(Applied(r.(succeeded := true))) && Told(r.(succeeded := true))
  {
    hide Open, FirstError;
  }

  lemma LeadsNowhere(blind: bool, t: Target, v: Observed)
    ensures Leads(blind, [], t, v, v)
  {
    AlikeIsAnEquivalence(blind, v, v, v);
  }

  lemma InvariantBasics(m: Manifest, options: ApplyOptions, plan: seq<PlannedChange>, i: nat, first: Locals,
                        start: Tally, l: Locals, trace: seq<Event>, states: seq<State>, now: Tally)
    requires i < |plan| && LoopInvariant(m, options, plan, i, first, start, l, trace, states, now)
    ensures |l.expected| == |plan| && Knows(trace, ChangeTarget(plan[i].change), l.expected[i])
    ensures Underway(plan, i, l.report) && |states| == |l.undo| + 1
  {
    hide Converging, ReadyAt, AllCompatible, CalmAt, Sound, Knows;
    ExpectedNow(plan, i, l.expected, trace);
  }

  lemma ThatIsAStep(m: Manifest, options: ApplyOptions, plan: seq<PlannedChange>, i: nat, l: Locals,
                    verdict: Verdict, P': Prepared, report': ApplyReport, trace: seq<Event>, trace': seq<Event>,
                    pre: Tally, post: Tally)
    requires i < |plan| == |l.expected|
    requires LaterThan(pre, post) && Extends(trace, trace', ChangeTarget(plan[i].change))
    requires SameLedger(Judged(l.report, verdict, plan[i].change), report')
    requires verdict.Verified? ==>
          Knows(trace', ChangeTarget(plan[i].change), verdict.after) && Left(plan[i].change, verdict.after) in trace'
    requires post.foreign == pre.foreign ==>
          Calmly(options.allowIrreversible, m, plan[i].change, l.expected[i], verdict, pre.state, post.state)
    requires post.foreign == pre.foreign && post.wild == pre.wild ==>
          DescriptorKept(plan[i].change, pre.state, post.state)
    requires post.foreign == pre.foreign && post.lostReads == pre.lostReads && Legible(l.expected[i]) && verdict.Verified? ==>
          DescriptorKept(plan[i].change, pre.state, post.state) && Legible(verdict.after)
    requires post.foreign == pre.foreign && post.lostReads == pre.lostReads && post.wild == pre.wild
        && Tree(pre.state) && Ready(m, l.P, pre.state, plan[i].change, [])
        && l.expected[i] == View(pre.state, ChangeTarget(plan[i].change))
        ==> AlmostFaultlessly(m, plan[i].change, l.expected[i], verdict, l.P, P', pre, post)
    ensures Stepped(m, options, plan, i, l, verdict, P', report', trace, trace', pre, post)
  {
    hide Knows, Extends, Calmly, DescriptorKept, Tree, Ready, View, AlmostFaultlessly, SameLedger, Legible;
  }

  lemma LoopEnds(m: Manifest, options: ApplyOptions, plan: seq<PlannedChange>, first: Locals,
                 start: Tally, l: Locals, trace: seq<Event>, states: seq<State>, now: Tally)
    requires LoopInvariant(m, options, plan, |plan|, first, start, l, trace, states, now)
    ensures Ledger(plan, Applied(l.report.(succeeded := true)))
    ensures now.foreign == start.foreign && Sharp(m, options.allowIrreversible, plan, first.expected, start, now)
            && Sound(m, options, plan, start.state)
            ==> Settled(m, PlanningOptions(options), now.state)
    ensures Almost(start, now) && AllCompatible(plan)
            && ReadyAt(m, first.P, plan, 0, first.expected, [], [start.state], start.state)
            ==> now.lost == start.lost
  {
    hide Converging, ReadyAt, AllCompatible, CalmAt, Sound, Expecting, Settled, Sharp, Legible;
    WholePlan(plan, l.report.(succeeded := true));
    assert l.report == l.report.(succeeded := true).(succeeded := false);
    if now.foreign == start.foreign && Sharp(m, options.allowIrreversible, plan, first.expected, start, now)
       && Sound(m, options, plan, start.state) {
      ConvergedIsSettled(m, PlanningOptions(options), plan, now.state);
    }
  }

  lemma SoundConverges(m: Manifest, options: ApplyOptions, plan: seq<PlannedChange>, s: State)
    requires Sound(m, options, plan, s)
    ensures Converging(m, PlanningOptions(options), plan, 0, s)
  {
    hide Converging;
  }

  lemma ExpectedNow(plan: seq<PlannedChange>, i: nat, expected: seq<Observed>, trace: seq<Event>)
    requires i < |plan| && Expecting(plan, i, expected, trace)
    ensures |expected| == |plan| && Knows(trace, ChangeTarget(plan[i].change), expected[i])
  {
    hide Knows;
  }

  lemma ReadyNow(m: Manifest, P: Prepared, plan: seq<PlannedChange>, i: nat, expected: seq<Observed>,
                 undo: seq<Undo>, states: seq<State>, now: State)
    requires i < |plan| && ReadyAt(m, P, plan, i, expected, undo, states, now)
    ensures Tree(now) && Ready(m, P, now, plan[i].change, [])
    ensures expected[i] == View(now, ChangeTarget(plan[i].change))
  {
    hide Ready, Tree, View, AllFaithful;
    assert plan[i..i] == [];
  }

  lemma ExtendsIsPrefix(trace: seq<Event>, trace': seq<Event>, t: Target)
    requires Extends(trace, trace', t)
    ensures trace <= trace' && forall e <- trace :: e in trace'
  {
    hide Knows;
  }

  lemma AppliedGrows(plan: seq<PlannedChange>, i: nat, r: ApplyReport, r1: ApplyReport, verdict: Verdict)
    requires i < |plan| && Underway(plan, i, r)
    requires SameLedger(Judged(r, verdict, plan[i].change), r1)
    ensures verdict.Verified? ==> Underway(plan, i + 1, r1)
    ensures r1.applied == PlanChanges(plan[..i]) + Counted(verdict, plan[i].change)
    ensures !verdict.Verified? ==> r1.applied == PlanChanges(plan[..i])
  {
    PlanGrows(plan, i);
  }

  lemma ConvergeStep(blind: bool, m: Manifest, options: ApplyOptions, plan: seq<PlannedChange>, i: nat, init: State,
                     s: State, s': State, before: Observed, after: Observed, error: Option<ErrorKind>)
    requires i < |plan| && Sound(m, options, plan, init)
    requires Converging(m, PlanningOptions(options), plan, i, s)
    requires Calmly(blind, m, plan[i].change, before, Verified(after, error), s, s')
    requires blind && ExposedFlag(m, plan, plan[i].change) ==> DescriptorKept(plan[i].change, s, s')
    ensures Converging(m, PlanningOptions(options), plan, i + 1, s')
  {
    hide Converging, Calmly, DescriptorKept, Confirmed, AllCompatible, ValidManifest, Inside;
    CalmlyConfirmed(blind, m, plan[i].change, before, after, error, s, s');
    ConvergingAdvances(m, PlanningOptions(options), plan, i, blind, s, s');
  }

  /** Only a step without a fault goes on. */
  lemma FaultShows(m: Manifest, change: Change, before: Observed, verdict: Verdict, P: Prepared, P': Prepared, pre: Tally, post: Tally)
    requires AlmostFaultlessly(m, change, before, verdict, P, P', pre, post)
    ensures post.refused == pre.refused && post.lost == pre.lost ==> verdict.Verified? && CauseOf(verdict).None?
    ensures post.refused > pre.refused || post.lost > pre.lost ==> CauseOf(verdict).Some?
    ensures verdict.Doubtful? ==>
              post.lost > pre.lost && (change.CreateFolder? || change.SetFolderSecurity? || change.SetTaskSecurity?)
    ensures post.lost > pre.lost ==>
              var t := ChangeTarget(change);
              (post.lostCall.Some? && post.lostCall.value.StopAll? && verdict.Halted?)
              || Answers(m, post.lostCall, change, verdict, View(pre.state, t), View(post.state, t))
  {
    hide Tree, View, SameWorld, Revocable, StillPrepared, Noted, Spent;
  }

  lemma RecoveredEitherWay(plan: seq<PlannedChange>, outcome: Outcome, init: State, now: State)
    ensures Recovered(plan, outcome, init, now, false) ==> Recovered(plan, outcome, init, now, true)
  {
    hide SameWorld, Reversed;
  }

  lemma WholePlan(plan: seq<PlannedChange>, r: ApplyReport)
    requires Underway(plan, |plan|, r.(succeeded := false)) && r.succeeded
    ensures Ledger(plan, Applied(r))
  {
    assert plan[..|plan|] == plan;
  }

  lemma NothingToRecover(plan: seq<PlannedChange>, blind: bool, outcome: Outcome, init: State, now: State, lost: bool)
    requires outcome.Applied?
    ensures Atomic(blind, outcome, init, now) && Recovered(plan, outcome, init, now, lost)
    ensures forall t, v0, v :: RestoredAt(blind, outcome, t, v0, v)
  {
  }

  // ---- the whole run -------------------------------------------------------------------------------------

  /** What a caller can see beforehand to know that nothing but a fault or another writer can stop the run. */
  ghost predicate WellPosed(m: Manifest, options: ApplyOptions, resolver: Resolver, s: State) {
    && ValidManifest(m) && Inside(m) && Habitable(m, s)
    && RegistrationsResolve(m, resolver) && RestorationsResolve(s, resolver)
    && !Blocked(m, Snapshot(m, s), PlanOptions(options.prune, options.adopt))
  }

  /** What a caller can see beforehand to know that a single fault cannot leave anything behind unnoticed.
      Unless irreversible work is allowed nothing is asked of the resolver. */
  ghost predicate Recoverable(m: Manifest, options: ApplyOptions, resolver: Resolver, s: State) {
    Habitable(m, s) && Restorable(options.allowIrreversible, s, resolver)
  }

  lemma WellPosedIsRecoverable(m: Manifest, options: ApplyOptions, resolver: Resolver, s: State)
    requires WellPosed(m, options, resolver, s)
    ensures Recoverable(m, options, resolver, s)
  {
    hide Habitable, RestorationsResolve;
  }

  lemma NothingDone(plan: seq<PlannedChange>, cause: ErrorKind, blind: bool, s: State)
    ensures var outcome := NotApplied(cause, EmptyReport(plan));
      Ledger(plan, outcome) && Atomic(blind, outcome, s, s) && Recovered(plan, outcome, s, s, false)
      && forall t, v :: RestoredAt(blind, outcome, t, v, v)
  {
    SameWorldIsReflexive(blind, s);
    SameWorldIsReflexive(false, s);
    assert FailedChanges([]) == [];
    assert PlanChanges(plan)[..0] == [];
    forall v ensures Alike(blind, v, v) { AlikeIsAnEquivalence(blind, v, v, v); }
  }

  lemma NothingAccounted(base: seq<Entry>)
    ensures AccountedFor(base, base, [], [])
  {
    assert base + Entries([]) == base;
  }

  lemma NothingPlanned(m: Manifest, options: ApplyOptions, current: CurrentState, plan: seq<PlannedChange>, s: State)
    requires plan == []
    ensures PlanOf(m, options, current, plan, s) ==> Settled(m, PlanningOptions(options), s)
  {
    hide Snapshot, Blocked;
    if PlanOf(m, options, current, plan, s) {
      SettledPlansNothing(m, PlanningOptions(options), s, plan);
    }
  }

  lemma RunIsSound(m: Manifest, options: ApplyOptions, plan: seq<PlannedChange>, seen: seq<Observed>, s: State)
    requires ValidManifest(m) && Tree(s) && |seen| == |plan|
    requires IsPlan(m, Snapshot(m, s), PlanningOptions(options), plan)
    requires !Blocked(m, Snapshot(m, s), PlanningOptions(options))
    requires forall k :: 0 <= k < |plan| ==>
               Sees(options.allowIrreversible, View(s, ChangeTarget(plan[k].change)), seen[k])
               && AgreesWithInspection(Snapshot(m, s), plan[k].change, seen[k])
    ensures Sound(m, options, plan, s)
  {
    hide Sees, View, AgreesWithInspection, Snapshot, Blocked, Tree, ValidManifest, IsPlan, Converging;
    AgreementIsInside(m, PlanningOptions(options), s, plan, options.allowIrreversible, seen);
    PlansAreCompatible(m, Snapshot(m, s), PlanningOptions(options), plan);
    ConvergingStarts(m, PlanningOptions(options), plan, s);
  }

  lemma RunIsReady(m: Manifest, options: ApplyOptions, plan: seq<PlannedChange>, seen: seq<Observed>, P: Prepared,
                   s: State)
    requires ValidManifest(m) && Inside(m) && Habitable(m, s) && |seen| == |plan|
    requires IsPlan(m, Snapshot(m, s), PlanningOptions(options), plan) && PreparedFor(m, P, plan, s)
    requires forall k :: 0 <= k < |plan| ==> seen[k] == View(s, ChangeTarget(plan[k].change))
    ensures AllCompatible(plan) && ReadyAt(m, P, plan, 0, seen, [], [s], s)
  {
    hide View, Snapshot, ValidManifest, Inside, IsPlan, PreparedFor, AllCompatible, PlanAhead;
    PlanStartsReady(m, P, PlanningOptions(options), plan, s);
    assert ChangesOf([]) == PlanChanges(plan[..0]);
  }

  /** The plan was made from what the state shows. */
  ghost predicate PlanOf(m: Manifest, options: ApplyOptions, current: CurrentState, plan: seq<PlannedChange>, s: State) {
    current == Snapshot(m, s) && IsPlan(m, current, PlanningOptions(options), plan)
    && !Blocked(m, current, PlanningOptions(options))
  }

  /** Everything between the plan and the first change: observe, compare, prepare. */
  method PreflightPlan(b: Backend, m: Manifest, options: ApplyOptions, resolver: Resolver, current: CurrentState,
                       plan: seq<PlannedChange>, report: ApplyReport,
                       ghost base: seq<Entry>, ghost trace0: seq<Event>)
    returns (r: Result<(seq<Observed>, Prepared)>, ghost trace: seq<Event>)
    requires Accounted(b, base, report, trace0) && OnlyRead(trace0) && ValidManifest(m)
    modifies b
    ensures b.ReadOnly() && Accounted(b, base, report, trace)
    ensures r.Ok? ==> Expecting(plan, 0, r.value.0, trace)
    ensures b.Calm() && b.lostReads == old(b.lostReads) && r.Ok? ==> AllLegible(r.value.0)
    ensures b.Calm() && r.Ok? && PlanOf(m, options, current, plan, b.state) && Tree(b.state)
            ==> Sound(m, options, plan, b.state)
    ensures b.Calm() && b.lostReads == old(b.lostReads) && Recoverable(m, options, resolver, b.state)
            && PlanOf(m, options, current, plan, b.state)
            ==> (r.Ok? ==> AllCompatible(plan)
                           && ReadyAt(m, r.value.1, plan, 0, r.value.0, [], [b.state], b.state))
                && (WellPosed(m, options, resolver, b.state) ==> r.Ok?)
  {
    hide AccountedFor, Quiet, Knows, Spotted, OnlyRead, Changed, Sees, View, AgreesWithInspection, Snapshot, Blocked,
         Tree, ValidManifest, IsPlan, Sound, ReadyAt, AllCompatible, Inside, Habitable, RegistrationsResolve, Restorable, RestorationsResolve, Preparable,
         PreparedFor;
    ghost var calm := PlanOf(m, options, current, plan, b.state);
    var seen;
    seen, trace := ObserveAll(b, options, plan, report, base, trace0);
    if seen.Err? {
      return Err(seen.error), trace;
    }
    var agrees := AllAgree(current, plan, seen.value);
    ghost var s := b.state;
    if b.Calm() && b.lostReads == old(b.lostReads) {
      TruthIsLegible(s, plan, seen.value);
    }
    ghost var undisturbed := b.Calm() && calm && b.lostReads == old(b.lostReads);
    if undisturbed && Habitable(m, s) {
      HabitableIsTree(m, s);
      forall k | 0 <= k < |plan|
        ensures Inside(m) ==> AgreesWithInspection(current, plan[k].change, seen.value[k])
        ensures Preparable(m, CreatedBy(plan), s, plan[k].change)
      {
        if Inside(m) {
          PlanAgrees(m, PlanningOptions(options), s, plan, k);
        }
        PlanIsPreparable(m, PlanningOptions(options), s, plan, k);
      }
    }
    if !agrees {
      return Err(Conflict), trace;
    }
    ghost var log, trace1 := b.log, trace;
    var prepared := Prepare(b, m, plan, options.allowIrreversible, resolver);
    trace := Asking(b, log, base, report, trace1);
    KnowledgeStays(trace1, trace);
    if prepared.Err? {
      return Err(prepared.error), trace;
    }
    r := Ok((seen.value, prepared.value));
    if b.Calm() && calm && Tree(s) {
      RunIsSound(m, options, plan, seen.value, s);
    }
    if b.Calm() && calm && Recoverable(m, options, resolver, s) && b.lostReads == old(b.lostReads) {
      AgreementIsInside(m, PlanningOptions(options), s, plan, options.allowIrreversible, seen.value);
      RunIsReady(m, options, plan, seen.value, prepared.value, s);
    }
  }

  lemma TruthIsLegible(s: State, plan: seq<PlannedChange>, seen: seq<Observed>)
    requires |seen| == |plan| && forall k :: 0 <= k < |plan| ==> seen[k] == View(s, ChangeTarget(plan[k].change))
    ensures AllLegible(seen)
  {
    forall v | v in seen ensures Legible(v) {
      var k :| 0 <= k < |seen| && seen[k] == v;
    }
  }

  lemma HabitableIsTree(m: Manifest, s: State)
    requires Habitable(m, s)
    ensures Tree(s)
  {
    hide Tree;
  }

  /** The part of apply_backend that has a plan to carry out. */
  method ApplyPlan(b: Backend, m: Manifest, options: ApplyOptions, resolver: Resolver, current: CurrentState,
                   plan: seq<PlannedChange>, ghost base: seq<Entry>, ghost trace0: seq<Event>)
    returns (outcome: Outcome, ghost trace: seq<Event>)
    requires Accounted(b, base, EmptyReport(plan), trace0) && OnlyRead(trace0) && ValidManifest(m)
    modifies b
    ensures b.Counting() && Accounted(b, base, outcome.report, trace) && Ledger(plan, outcome)
    ensures Attested(outcome) && Heralded(options.stopRunning, old(b.log), b.log)
    ensures b.Alone() ==> RestoredAt(options.allowIrreversible, outcome, b.chosen, old(b.Sight()), b.Sight())
    ensures PlanOf(m, options, current, plan, old(b.state)) ==>
              Promised(m, options, resolver, outcome, old(b.Now()), b.Now())
  {
    hide AccountedFor, Quiet, Sound, ReadyAt, AllCompatible, Recoverable, Legible, Ledger, Atomic, RestoredAt, Recovered,
         Credited, Settled, Tree, PlanOf, ValidManifest, Expecting, Heralded, Told, WellPosed, Promised, Almost, Sharp,
         Exposed, AllLegible;
    ghost var log, start := b.log, b.Now();
    if WellPosed(m, options, resolver, start.state) {
      WellPosedIsRecoverable(m, options, resolver, start.state);
    }
    var report := EmptyReport(plan);
    var preflight;
    preflight, trace := PreflightPlan(b, m, options, resolver, current, plan, report, base, trace0);
    ghost var log1, mid := b.log, b.Now();
    ReadsAreHeralded(options.stopRunning, log, log1);
    if preflight.Err? {
      outcome := NotApplied(preflight.error, report);
      NothingDone(plan, preflight.error, options.allowIrreversible, mid.state);
      if PlanOf(m, options, current, plan, start.state) {
        EarlyFailure(m, options, resolver, outcome, start, mid);
      }
      return;
    }
    assert Underway(plan, 0, report);
    outcome, trace := ForwardLoop(b, m, options, plan, preflight.value.0, preflight.value.1, report, base, trace);
    HeraldedTwice(options.stopRunning, log, log1, b.log);
    LedgerKeepsPlan(plan, outcome);
    if PlanOf(m, options, current, plan, start.state) {
      LoopPromises(m, options, resolver, outcome, plan, preflight.value.0, preflight.value.1, start, mid, b.Now());
    }
  }

  /** What the forward loop guarantees from its start is what a run promises from its own. */
  lemma LoopPromises(m: Manifest, options: ApplyOptions, resolver: Resolver, outcome: Outcome, plan: seq<PlannedChange>,
                     expected: seq<Observed>, P: Prepared, start: Tally, mid: Tally, now: Tally)
    requires Untried(start, mid) && LaterThan(mid, now) && outcome.report.plan == plan
    requires mid.foreign == start.foreign ==>
               && (mid.lostReads == start.lostReads ==> AllLegible(expected))
               && (Tree(mid.state) ==> Sound(m, options, plan, mid.state))
               && (mid.lostReads == start.lostReads && Recoverable(m, options, resolver, mid.state) ==>
                     AllCompatible(plan) && ReadyAt(m, P, plan, 0, expected, [], [mid.state], mid.state))
    requires now.foreign == mid.foreign ==> Atomic(options.allowIrreversible, outcome, mid.state, now.state)
    requires now.foreign == mid.foreign && Sharp(m, options.allowIrreversible, plan, expected, mid, now)
             && outcome.Applied? && Sound(m, options, plan, mid.state)
             ==> Settled(m, PlanningOptions(options), now.state)
    requires Almost(mid, now) && AllCompatible(plan)
             && ReadyAt(m, P, plan, 0, expected, [], [mid.state], mid.state)
             ==> (Spotless(mid, now) ==> outcome.Applied?)
                 && Recovered(plan, outcome, mid.state, now.state, now.lost > mid.lost)
                 && (Sound(m, options, plan, mid.state) && now.lost > mid.lost
                     ==> Credited(plan, outcome, now.lostCall, mid.state, now.state))
    ensures Promised(m, options, resolver, outcome, start, now)
  {
    hide Atomic, Tree, Exposed, Settled, Recovered, Credited, Sound, ReadyAt, AllCompatible, AllLegible, WellPosed;
    if WellPosed(m, options, resolver, start.state) {
      WellPosedIsRecoverable(m, options, resolver, start.state);
    }
    if Recoverable(m, options, resolver, start.state) {
      HabitableIsTree(m, start.state);
    }
  }

  /** apply_backend.  For every backend behaviour and every manifest:
      the journal attests exactly the changing calls in the scheduler's log, in order; each of them follows
      answers that showed its target just as earlier ones had, with nothing but calls for the same target in
      between; the trace says in which role each entry of the log was asked for; the ledger adds up; and a target
      that nobody else touched and that has nothing unresolved after a failure is as it was.
      If nobody else writes: a failed run that leaves nothing unresolved has changed nothing.  After a successful
      run inspecting and planning again finds nothing to do, whatever faults there were, unless unreadable
      descriptors are tolerated and the plan has an exposed flag (FixpointExactly); then that is promised if
      no change went wild or no read was lost.
      If moreover reads work, a run finds nothing to do and calls nothing where nothing is to be done; with at most
      one change refused or its reply lost a failed run is rolled back completely or reports the one change in
      doubt; and a well-posed run without a fault succeeds. */
  method ApplyBackend(b: Backend, m: Manifest, options: ApplyOptions, resolver: Resolver)
    returns (outcome: Outcome, ghost trace: seq<Event>)
    modifies b
    ensures b.Counting()
    ensures AccountedFor(b.log, old(b.log), outcome.report.journal, trace)
    ensures Overseen(b.log, old(b.log), outcome.report.journal)
    ensures Ledger(outcome.report.plan, outcome) && Attested(outcome)
    ensures Heralded(options.stopRunning, old(b.log), b.log)
    ensures outcome.report.irreversibleEffects == Stopped(CallsOf(b.log[|old(b.log)|..]))
    ensures b.Calm() ==> Atomic(options.allowIrreversible, outcome, old(b.state), b.state)
    ensures b.Alone() ==> RestoredAt(options.allowIrreversible, outcome, b.chosen, old(b.Sight()), b.Sight())
    ensures b.Calm() && outcome.Applied? && Tree(old(b.state))
            && (options.allowIrreversible && Exposed(m, outcome.report.plan)
                ==> b.wild == old(b.wild) || b.lostReads == old(b.lostReads))
            ==> Settled(m, PlanOptions(options.prune, options.adopt), b.state) && Fulfilled(m, PlanOptions(options.prune, options.adopt), b.state)
    ensures Almost(old(b.Now()), b.Now()) && Recoverable(m, options, resolver, old(b.state))
            ==> Recovered(outcome.report.plan, outcome, old(b.state), b.state, b.lost > old(b.lost))
                && (b.lost > old(b.lost)
                    ==> Credited(outcome.report.plan, outcome, b.lostCall, old(b.state), b.state))
    ensures b.Clean() && WellPosed(m, options, resolver, old(b.state)) ==> outcome.Applied?
    ensures b.Calm() && b.lostReads == old(b.lostReads)
            && ValidManifest(m) && Settled(m, PlanOptions(options.prune, options.adopt), old(b.state))
            ==> outcome == Applied(EmptyReport([]).(succeeded := true)) && AllReads(b.log[|old(b.log)|..])
  {
    hide AccountedFor, Overseen, Fulfilled, Credited, Recoverable, WellPosed, Ledger, Atomic, RestoredAt, Recovered,
         Settled, Tree, ValidManifest, Attested, Heralded, Stopped, CallsOf;
    ghost var base := b.log;
    outcome, trace := RunBackend(b, m, options, resolver);
    RunIsWatched(b.log, base, outcome.report.journal, trace);
    StopsAreReported(b.log, base, outcome);
    if outcome.Applied? && Settled(m, PlanningOptions(options), b.state) {
      SettledIsFulfilled(m, PlanningOptions(options), b.state);
    }
  }

  /** What is promised if nobody else writes between two moments. */
  ghost predicate Promised(m: Manifest, options: ApplyOptions, resolver: Resolver, outcome: Outcome, start: Tally,
                           now: Tally) {
    var (blind, plan, lost) := (options.allowIrreversible, outcome.report.plan, now.lost > start.lost);
    now.foreign == start.foreign ==>
      && Atomic(blind, outcome, start.state, now.state)
      && (outcome.Applied? && Tree(start.state)
          && (blind && Exposed(m, plan) ==> now.wild == start.wild || now.lostReads == start.lostReads)
          ==> Settled(m, PlanningOptions(options), now.state))
      && (Almost(start, now) && Recoverable(m, options, resolver, start.state) ==>
            Recovered(plan, outcome, start.state, now.state, lost)
            && (lost ==> Credited(plan, outcome, now.lostCall, start.state, now.state)))
      && (Spotless(start, now) && WellPosed(m, options, resolver, start.state) ==> outcome.Applied?)
  }

  ghost predicate Spotless(start: Tally, now: Tally) {
    (now.foreign, now.lostReads, now.refused, now.lost, now.wild)
    == (start.foreign, start.lostReads, start.refused, start.lost, start.wild)
  }

  /** No change was made in between. */
  ghost predicate Untried(start: Tally, mid: Tally) {
    LaterThan(start, mid) && (mid.refused, mid.lost, mid.wild) == (start.refused, start.lost, start.wild)
    && (mid.foreign == start.foreign ==> mid.state == start.state)
  }

  lemma PromisedSince(m: Manifest, options: ApplyOptions, resolver: Resolver, outcome: Outcome, start: Tally, mid: Tally,
                      now: Tally)
    requires Untried(start, mid) && LaterThan(mid, now)
    requires mid.foreign == start.foreign ==> Promised(m, options, resolver, outcome, mid, now)
    ensures Promised(m, options, resolver, outcome, start, now)
  {
    hide Atomic, Tree, Exposed, Settled, Recoverable, Recovered, Credited, WellPosed;
  }

  /** A run that fails before its first check, or finds nothing to do. */
  lemma EarlyFailure(m: Manifest, options: ApplyOptions, resolver: Resolver, outcome: Outcome, start: Tally, now: Tally)
    requires Untried(start, now) && outcome.NotApplied? && outcome.report == EmptyReport(outcome.report.plan)
    requires !(Spotless(start, now) && WellPosed(m, options, resolver, now.state))
    ensures Promised(m, options, resolver, outcome, start, now) && Ledger(outcome.report.plan, outcome)
    ensures forall t, v :: RestoredAt(options.allowIrreversible, outcome, t, v, v)
  {
    hide WellPosed, Settled, Recoverable, Tree, Credited, SameWorld, Exposed, Alike;
    NothingDone(outcome.report.plan, outcome.cause, options.allowIrreversible, now.state);
  }

  lemma EarlySuccess(m: Manifest, options: ApplyOptions, resolver: Resolver, outcome: Outcome, start: Tally, now: Tally)
    requires Untried(start, now) && outcome == Applied(EmptyReport([]).(succeeded := true))
    requires now.foreign == start.foreign ==> Settled(m, PlanningOptions(options), now.state)
    ensures Promised(m, options, resolver, outcome, start, now) && Ledger([], outcome)
    ensures forall t, v :: RestoredAt(options.allowIrreversible, outcome, t, v, v)
  {
    hide WellPosed, Settled, Recoverable, Tree, Credited, SameWorld, Exposed, Alike;
    assert PlanChanges([]) == [];
    NothingToRecover([], options.allowIrreversible, outcome, now.state, now.state, false);
  }

  /** apply_backend without the view from outside: with the trace as its witness. */
  method RunBackend(b: Backend, m: Manifest, options: ApplyOptions, resolver: Resolver)
    returns (outcome: Outcome, ghost trace: seq<Event>)
    modifies b
    ensures b.Counting() && AccountedFor(b.log, old(b.log), outcome.report.journal, trace)
    ensures Ledger(outcome.report.plan, outcome) && Attested(outcome)
    ensures Heralded(options.stopRunning, old(b.log), b.log)
    ensures b.Alone() ==> RestoredAt(options.allowIrreversible, outcome, b.chosen, old(b.Sight()), b.Sight())
    ensures Promised(m, options, resolver, outcome, old(b.Now()), b.Now()) && (outcome.Applied? ==> ValidManifest(m))
    ensures b.Calm() && b.lostReads == old(b.lostReads)
            && ValidManifest(m) && Settled(m, PlanningOptions(options), old(b.state))
            ==> outcome == Applied(EmptyReport([]).(succeeded := true)) && AllReads(b.log[|old(b.log)|..])
  {
    hide AccountedFor, Quiet, Spotted, Changed, Knows, View, Recoverable, Ledger, Atomic, RestoredAt, Settled, Snapshot,
         ValidManifest, Blocked, Attested, Heralded, Told, WellPosed, PlanOf, Promised;
    ghost var base, start := b.log, b.Now();
    NothingAccounted(base);
    var planned := InspectAndPlan(b, m, options);
    NothingTold([]);
    trace := Asking(b, base, base, EmptyReport([]), []);
    KnowledgeStays([], trace);
    ghost var log, read := b.log, b.Now();
    ReadsAreHeralded(options.stopRunning, base, log);
    WellPosedIsValid(m, options, resolver, read.state);
    if planned.Err? {
      outcome := NotApplied(planned.error, EmptyReport([]));
      EarlyFailure(m, options, resolver, outcome, start, read);
      return;
    }
    var (current, plan) := planned.value;
    NothingTold(plan);
    if plan == [] {
      outcome := Applied(EmptyReport(plan).(succeeded := true));
      NothingPlanned(m, options, current, plan, read.state);
      EarlySuccess(m, options, resolver, outcome, start, read);
      return;
    }
    outcome, trace := ApplyPlan(b, m, options, resolver, current, plan, base, trace);
    HeraldedTwice(options.stopRunning, base, log, b.log);
    LedgerKeepsPlan(plan, outcome);
    PromisedSince(m, options, resolver, outcome, start, read, b.Now());
  }

  lemma WellPosedIsValid(m: Manifest, options: ApplyOptions, resolver: Resolver, s: State)
    ensures WellPosed(m, options, resolver, s) ==> ValidManifest(m) && !Blocked(m, Snapshot(m, s), PlanningOptions(options))
  {
    hide ValidManifest, Inside, Habitable, RegistrationsResolve, RestorationsResolve, Blocked;
  }

  lemma NothingTold(plan: seq<PlannedChange>)
    ensures Told(EmptyReport(plan)) && forall cause :: Attested(NotApplied(cause, EmptyReport(plan)))
    ensures Attested(Applied(EmptyReport(plan).(succeeded := true)))
  {
  }

  lemma StopsAreReported(log: seq<Entry>, base: seq<Entry>, outcome: Outcome)
    requires Overseen(log, base, outcome.report.journal) && Attested(outcome)
    ensures outcome.report.irreversibleEffects == Stopped(CallsOf(log[|base|..]))
  {
    hide Watched, Stopped, StopsIn, CallsOf, JournalFootprints, Footprints, Open, FirstError;
    StopsAreCalls(CallsOf(log[|base|..]));
  }

  /** What apply_backend does before it looks at any target. */
  method InspectAndPlan(b: Backend, m: Manifest, options: ApplyOptions)
    returns (r: Result<(CurrentState, seq<PlannedChange>)>)
    modifies b
    ensures b.ReadOnly()
    ensures r.Ok? ==> ValidManifest(m)
    ensures b.Calm() && r.Ok? ==> PlanOf(m, options, r.value.0, r.value.1, b.state)
    ensures b.Calm() && b.lostReads == old(b.lostReads) && ValidManifest(m)
            && !Blocked(m, Snapshot(m, b.state), PlanningOptions(options))
            ==> r.Ok?
    ensures b.Calm() && b.lostReads == old(b.lostReads)
            && ValidManifest(m) && Settled(m, PlanningOptions(options), b.state)
            ==> r.Ok? && r.value.1 == []
  {
    hide Settled, Snapshot, IsPlan, ValidManifest, Blocked, View;
    var current := Inspect(b, m);
    SettledIsUnblocked(m, options, b.state);
    if current.Err? {
      return Err(current.error);
    }
    var planned := PlanState(m, current.value, PlanningOptions(options));
    if planned.Err? {
      return Err(planned.error);
    }
    if Settled(m, PlanningOptions(options), b.state) && PlanOf(m, options, current.value, planned.value, b.state) {
      SettledPlansNothing(m, PlanningOptions(options), b.state, planned.value);
    }
    r := Ok((current.value, planned.value));
  }

  lemma SettledIsUnblocked(m: Manifest, options: ApplyOptions, s: State)
    ensures Settled(m, PlanningOptions(options), s) ==> !Blocked(m, Snapshot(m, s), PlanningOptions(options))
  {
  }

  lemma LedgerKeepsPlan(plan: seq<PlannedChange>, outcome: Outcome)
    requires Ledger(plan, outcome)
    ensures outcome.report.plan == plan
  {
  }
}
