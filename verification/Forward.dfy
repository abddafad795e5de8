/** A whole forward step: check, stop, change, verify (the loop body of apply_backend in reconcile.rs). */
module Forward {
  import opened Wrappers
  import opened Paths
  import opened Scheduler
  import opened Manifests
  import opened Planning
  import opened SchedulerBackend
  import opened Recovery
  import opened ApplySpec
  import opened Accounting
  import opened Journaling
  import opened Compensation
  import opened Progress
  import opened Convergence
  import opened Steps

  // ---- what one step amounts to when reads tell the truth ---------------------------------------------

  /** With at most one change refused or its reply lost, an otherwise undisturbed step of a ready plan either
      is confirmed and can be taken back, or leaves the world as it was, or lost the reply of a change to a
      folder or a descriptor.  The reply of any other change is lost without harm: if anything is to be seen of
      the change it is confirmed. */
  lemma AlmostFaultless(pre: Tally, post: Tally, standard: Acl, m: Manifest, change: Change, P: Prepared,
                        error: Option<ErrorKind>, P': Prepared)
    requires Tree(pre.state) && Ready(m, P, pre.state, change, []) && Insured(P, change, pre.state)
    requires Executed(pre, post, standard, m, change, P, error, P')
    requires post.foreign == pre.foreign && post.lostReads == pre.lostReads && post.wild == pre.wild
    requires post.refused >= pre.refused && post.lost >= pre.lost
    ensures Revocable(P', change, pre.state, Effect(Enactment(m, change, P).value, pre.state, standard).0)
    ensures var (before, now) := (View(pre.state, ChangeTarget(change)), View(post.state, ChangeTarget(change)));
      var verdict := FaithfulVerdict(m, change, before, now, error);
      && (post.refused == pre.refused && post.lost == pre.lost ==> verdict == Verified(now, None))
      && P' == Spent(P, change)
      && (post.refused > pre.refused || post.lost > pre.lost ==> error.Some?)
      && (verdict.Verified? ==>
            verdict.after == now && verdict.error == error && Tree(post.state) && Revocable(P', change, pre.state, post.state))
      && (verdict.Intact? ==> SameWorld(false, pre.state, post.state))
      && (verdict.Doubtful? ==>
            post.lost > pre.lost && (change.CreateFolder? || change.SetFolderSecurity? || change.SetTaskSecurity?))
      && (post.lost > pre.lost ==> Answers(m, post.lostCall, change, verdict, before, now))
      && !verdict.Halted?
  {
    var t := ChangeTarget(change);
    ReadySucceeds(m, P, pre.state, change, standard);
    AlikeIsAnEquivalence(false, View(pre.state, t), View(pre.state, t), View(pre.state, t));
    hide Ready, Enactment, Effect, Achieved, Revocable, Tree, OnlyTouches, View, Insured;
    SpendingKeepsRevocable(P, change, pre.state, Effect(Enactment(m, change, P).value, pre.state, standard).0);
    var verdict := FaithfulVerdict(m, change, View(pre.state, t), View(post.state, t), error);
    if verdict.Intact? {
      UntouchedWorld(false, pre.state, post.state, t, View(pre.state, t));
    }
    if post.state == pre.state {
      assert error.Some? ==> verdict.Intact?;
    }
    if post.lost > pre.lost {
      hide Answers;
      EnactmentAnswers(m, change, P, verdict, View(pre.state, t), View(post.state, t));
    }
  }

  /** The call whose reply was lost is the one that carries out the change; it is credited with what is seen unless
      it is about a folder or a descriptor. */
  ghost predicate Answers(m: Manifest, lost: Option<Call>, change: Change, verdict: Verdict, before: Observed,
                          now: Observed) {
    && lost.Some? && CallTarget(lost.value) == ChangeTarget(change)
    && (match lost.value
        case Register(_, _, _, _) => change.CreateTask? || change.UpdateTask? || change.AdoptTask?
        case DropTask(_) => change.DeleteTask?
        case WriteEnabled(_, _) => change.SetEnabled?
        case MakeFolder(_) => change.CreateFolder?
        case WriteFolderSecurity(_, _) => change.SetFolderSecurity?
        case WriteTaskSecurity(_, _) => change.SetTaskSecurity?
        case _ => false)
    && (if change.CreateFolder? || change.SetFolderSecurity? || change.SetTaskSecurity? then !verdict.Verified?
        else Achieved(m, change, before, now, now) && (!Same(now, before) ==> verdict.Verified?))
  }

  lemma EnactmentAnswers(m: Manifest, change: Change, P: Prepared, verdict: Verdict, before: Observed, now: Observed)
    requires Enactment(m, change, P).Ok?
    requires if change.CreateFolder? || change.SetFolderSecurity? || change.SetTaskSecurity? then !verdict.Verified?
             else Achieved(m, change, before, now, now) && (!Same(now, before) ==> verdict.Verified?)
    ensures Answers(m, Some(Enactment(m, change, P).value), change, verdict, before, now)
  {
    hide Same, Achieved, OwnedDefinition, FindTask, RegisteredDefinition;
  }

  lemma SpendingKeepsRevocable(P: Prepared, c: Change, pre: State, post: State)
    requires Revocable(P, c, pre, post)
    ensures Revocable(Spent(P, c), c, pre, post)
  {
  }

  /** A sight of a task that includes its descriptor. */
  predicate Legible(seen: Observed) { seen.TaskSeen? ==> seen.security.Some? }

  /** A flag that was confirmed with the descriptor in sight before and after did not touch it either. */
  lemma LegibleSightKeepsDescriptor(blind: bool, m: Manifest, change: Change, before: Observed, verdict: Verdict,
                                 s: State, s': State)
    requires Calmly(blind, m, change, before, verdict, s, s')
    requires Legible(before) && Same(View(s, ChangeTarget(change)), before)
    requires verdict.Verified? && verdict.after == View(s', ChangeTarget(change))
    ensures DescriptorKept(change, s, s') && Legible(verdict.after)
  {
    hide OnlyTouches;
  }

  lemma FlagKeepsDescriptor(pre: Tally, post: Tally, standard: Acl, m: Manifest, change: Change, P: Prepared,
                            error: Option<ErrorKind>, P': Prepared)
    requires Executed(pre, post, standard, m, change, P, error, P')
    requires post.foreign == pre.foreign && post.wild == pre.wild
    requires post.refused >= pre.refused && post.lost >= pre.lost
    ensures DescriptorKept(change, pre.state, post.state)
  {
    hide OnlyTouches;
  }

  /** The change and the verification that follows it, whatever the call reported. */
  method Attempt(b: Backend, m: Manifest, options: ApplyOptions, change: Change, before: Observed,
                 P: Prepared, report: ApplyReport, ghost base: seq<Entry>, ghost trace: seq<Event>)
    returns (verdict: Verdict, P': Prepared, report': ApplyReport, ghost trace': seq<Event>,
             error: Option<ErrorKind>, ghost post: Tally)
    requires Accounted(b, base, report, trace) && Cleared(trace, change, Mutation)
    modifies b
    ensures b.Counting() && !verdict.Halted?
    ensures Accounted(b, base, report', trace') && Extends(trace, trace', ChangeTarget(change))
    ensures report' == Judged(report, verdict, change).(journal := report'.journal)
    ensures Continued(report, report', CauseOf(verdict)) && CallsLogged(old(b.log), b.log, EnactedCalls(m, change, P))
    ensures verdict.Verified? ==>
              Knows(trace', ChangeTarget(change), verdict.after) && Left(change, verdict.after) in trace'
    ensures Executed(old(b.Now()), post, b.standard, m, change, P, error, P')
    ensures post.foreign >= old(b.foreign) && post.lostReads >= old(b.lostReads)
    ensures post.refused == b.refused && post.lost == b.lost && post.wild == b.wild && post.lostCall == b.lostCall
    ensures b.Calm() ==> post.foreign == old(b.foreign) && post.state == b.state
    ensures b.lostReads == old(b.lostReads) ==> post.lostReads == old(b.lostReads)
    ensures b.Calm() ==>
              var now := View(b.state, ChangeTarget(change));
              (verdict.Intact? ==> error.Some? && Alike(options.allowIrreversible, now, before))
              && (verdict.Verified? ==> Sees(options.allowIrreversible, now, verdict.after)
                                        && Achieved(m, change, before, verdict.after, now))
    ensures b.Calm() && b.lostReads == old(b.lostReads) ==>
              verdict == FaithfulVerdict(m, change, before, View(b.state, ChangeTarget(change)), error)
    ensures b.Alone() && ChangeTarget(change) != b.chosen ==> b.Sight() == old(b.Sight())
    ensures b.Alone() && ChangeTarget(change) == b.chosen ==>
              (verdict.Intact? ==> Alike(options.allowIrreversible, b.Sight(), before))
              && (verdict.Verified? ==> Alike(options.allowIrreversible, b.Sight(), verdict.after))
  {
    hide AccountedFor, Told, Open, FirstError, Cleared, Knows, View, Alike, Achieved, Executed, Sees, FaithfulVerdict,
         Extends, EnactedCalls;
    error, P', report', trace' := Mutate(b, m, change, P, report, base, trace);
    post := b.Now();
    ghost var trace1 := trace';
    verdict, report', trace' := Confirm(b, m, options, change, before, error, report', base, trace');
    ExtendsTransitive(trace, trace1, trace', ChangeTarget(change));
  }

  /** One iteration of the forward loop up to the verdict. */
  method ForwardStep(b: Backend, m: Manifest, options: ApplyOptions, change: Change, before: Observed,
                     P: Prepared, report: ApplyReport, ghost base: seq<Entry>, ghost trace: seq<Event>)
    returns (verdict: Verdict, P': Prepared, report': ApplyReport, ghost trace': seq<Event>)
    requires Accounted(b, base, report, trace) && Knows(trace, ChangeTarget(change), before)
    modifies b
    ensures b.Counting()
    ensures Accounted(b, base, report', trace') && Extends(trace, trace', ChangeTarget(change))
    ensures SameLedger(Judged(report, verdict, change), report')
    ensures Continued(report, report', CauseOf(verdict)) && Heralded(options.stopRunning, old(b.log), b.log)
    ensures verdict.Verified? ==>
              Knows(trace', ChangeTarget(change), verdict.after) && Left(change, verdict.after) in trace'
    ensures b.Calm() ==> Calmly(options.allowIrreversible, m, change, before, verdict, old(b.state), b.state)
    ensures b.Alone() ==>
              StepAt(options.allowIrreversible, b.chosen, change, before, verdict, old(b.Sight()), b.Sight())
    ensures b.Calm() && b.wild == old(b.wild) ==> DescriptorKept(change, old(b.state), b.state)
    ensures b.Calm() && b.lostReads == old(b.lostReads) && Legible(before) && verdict.Verified? ==>
              DescriptorKept(change, old(b.state), b.state) && Legible(verdict.after)
    ensures b.Calm() && b.lostReads == old(b.lostReads) && b.wild == old(b.wild)
            && Tree(old(b.state)) && Ready(m, P, old(b.state), change, [])
            && before == View(old(b.state), ChangeTarget(change))
            ==> AlmostFaultlessly(m, change, before, verdict, P, P', old(b.Now()), b.Now())
  {
    hide AccountedFor, Told, Open, FirstError, Cleared, Knows, OnlyTouches, View, Alike, Achieved, Executed, Tree, Ready,
         Sees, DescriptorKept, FaithfulVerdict, Revocable, Insured, SameWorld, Same, Extends, AlmostFaultlessly, Calmly,
         Noted, Legible, StepAt, Heralded, EnactedCalls, CallsLogged, Continued, CauseOf;
    ghost var t := ChangeTarget(change);
    P' := P;
    var cause;
    cause, report', trace' := Precheck(b, options, change, before, report, base, trace);
    if cause.Some? {
      verdict := Halted(cause.value);
      HaltedStep(options.allowIrreversible, m, change, before, cause.value, P, old(b.Now()), b.Now());
      HaltedAt(options.allowIrreversible, b.chosen, change, before, cause.value, b.Sight());
      HaltedFor(cause.value);
      return;
    }
    P' := Noted(P, change, before);
    ghost var pre, v := b.Now(), b.Sight();
    ghost var trace1, log1, P1, report1 := trace', b.log, P', report';
    var error;
    ghost var post;
    verdict, P', report', trace', error, post := Attempt(b, m, options, change, before, P', report', base, trace');
    ExtendsTransitive(trace, trace1, trace', t);
    ContinuedTwice(report, report1, report', None, CauseOf(verdict));
    StepIsHeralded(options.stopRunning, m, change, P1, old(b.log), log1, b.log);
    if b.Alone() {
      AttemptAt(options.allowIrreversible, b.chosen, change, before, verdict, v, b.Sight());
    }
    if b.Calm() {
      CalmForward(options.allowIrreversible, m, change, before, P, P', old(b.Now()), pre, post, b.Now(), b.standard,
                  error, verdict);
    }
  }

  lemma StepIsHeralded(stopRunning: bool, m: Manifest, change: Change, P: Prepared, log: seq<Entry>, log1: seq<Entry>,
                       log2: seq<Entry>)
    requires Heralded(stopRunning, log, log1) && CallsLogged(log1, log2, EnactedCalls(m, change, P))
    requires stopRunning && (change.UpdateTask? || change.AdoptTask? || change.DeleteTask?) ==>
               |log1| > |log| && log1[|log1| - 1] == Called(StopAll(change.path))
    ensures Heralded(stopRunning, log, log2)
  {
    var calls := EnactedCalls(m, change, P);
    EnactmentShape(m, change, P);
    hide EnactedCalls;
    forall k | |log| <= k < |log2| ensures HeraldedAt(stopRunning, log, log2, k) {
      if k < |log1| {
        assert HeraldedAt(stopRunning, log, log1, k) && log1[k] == log2[k] && (k > 0 ==> log1[k - 1] == log2[k - 1]);
      } else if k < |log1| + |calls| {
        assert log2[k] == (log1 + Calling(calls))[k] == Called(calls[0]);
        assert |log1| > 0 ==> log2[k - 1] == log1[k - 1];
      }
    }
  }

  lemma EnactmentShape(m: Manifest, change: Change, P: Prepared)
    ensures var calls := EnactedCalls(m, change, P);
      |calls| <= 1
      && (calls != [] ==>
            && !calls[0].StopAll?
            && (calls[0].DropTask? ==> change.DeleteTask? && calls[0].path == change.path)
            && (calls[0].Register? && !calls[0].create ==>
                  (change.UpdateTask? || change.AdoptTask?) && calls[0].path == change.path))
  {
    hide OwnedDefinition, RegisteredDefinition, FindTask;
  }

  lemma HaltedFor(cause: ErrorKind)
    ensures CauseOf(Halted(cause)) == Some(cause)
  {
  }

  lemma HaltedAt(blind: bool, t: Target, change: Change, before: Observed, cause: ErrorKind, v: Observed)
    ensures StepAt(blind, t, change, before, Halted(cause), v, v)
  {
  }

  lemma AttemptAt(blind: bool, t: Target, change: Change, before: Observed, verdict: Verdict, v: Observed, v': Observed)
    requires if ChangeTarget(change) != t then v' == v
             else Alike(blind, v, before)
                  && (verdict.Intact? ==> Alike(blind, v', before))
                  && (verdict.Verified? ==> Alike(blind, v', verdict.after))
    ensures !verdict.Halted? ==> StepAt(blind, t, change, before, verdict, v, v')
  {
    hide Alike;
  }

  /** What an undisturbed attempt amounts to, from the beginning of the step to its end. */
  lemma CalmForward(blind: bool, m: Manifest, change: Change, before: Observed, P: Prepared, P': Prepared,
                    first: Tally, pre: Tally, post: Tally, now: Tally, standard: Acl, error: Option<ErrorKind>,
                    verdict: Verdict)
    requires Executed(pre, post, standard, m, change, Noted(P, change, before), error, P')
    requires post.foreign == pre.foreign && post.refused >= pre.refused && post.lost >= pre.lost
    requires pre.state == first.state && post.state == now.state
    requires pre.refused == first.refused && pre.lost == first.lost && pre.wild == first.wild
    requires now.refused == post.refused && now.lost == post.lost && now.wild == post.wild
    requires now.lostCall == post.lostCall
    requires now.lostReads == first.lostReads ==> post.lostReads == pre.lostReads
    requires !verdict.Halted? && Alike(blind, View(pre.state, ChangeTarget(change)), before)
    requires now.lostReads == first.lostReads ==> Same(View(pre.state, ChangeTarget(change)), before)
    requires verdict.Intact? ==> Alike(blind, View(post.state, ChangeTarget(change)), before)
    requires verdict.Verified? ==>
               Sees(blind, View(post.state, ChangeTarget(change)), verdict.after)
               && Achieved(m, change, before, verdict.after, View(post.state, ChangeTarget(change)))
    requires now.lostReads == first.lostReads ==>
               verdict == FaithfulVerdict(m, change, before, View(post.state, ChangeTarget(change)), error)
    ensures Calmly(blind, m, change, before, verdict, first.state, now.state)
    ensures now.wild == first.wild ==> DescriptorKept(change, first.state, now.state)
    ensures now.lostReads == first.lostReads && Legible(before) && verdict.Verified? ==>
              DescriptorKept(change, first.state, now.state) && Legible(verdict.after)
    ensures now.lostReads == first.lostReads && now.wild == first.wild && Tree(first.state)
            && Ready(m, P, first.state, change, []) && before == View(first.state, ChangeTarget(change))
            ==> AlmostFaultlessly(m, change, before, verdict, P, P', first, now)
  {
    hide Executed, Noted, Calmly, DescriptorKept, Legible, AlmostFaultlessly, Alike, Same, Sees, Achieved, View, Tree,
         Ready, Insured;
    CalmStep(blind, pre, post, standard, m, change, before, Noted(P, change, before), error, P', verdict);
    if now.lostReads == first.lostReads {
      if Legible(before) && verdict.Verified? {
        LegibleSightKeepsDescriptor(blind, m, change, before, verdict, first.state, now.state);
      }
      if now.wild == first.wild && Tree(pre.state) && Ready(m, P, pre.state, change, [])
         && before == View(pre.state, ChangeTarget(change)) {
        NotingInsures(m, P, pre.state, change);
        ConcludeStep(m, change, before, verdict, P, P', pre, post, error, standard);
        SameNumbers(m, change, before, verdict, P, P', pre, post, first, now);
      }
    }
  }

  lemma HaltedStep(blind: bool, m: Manifest, change: Change, before: Observed, cause: ErrorKind, P: Prepared,
                   pre: Tally, post: Tally)
    requires post.lost > pre.lost ==> post.lostCall.Some? && post.lostCall.value.StopAll?
    ensures post.state == pre.state ==>
              Calmly(blind, m, change, before, Halted(cause), pre.state, post.state)
              && DescriptorKept(change, pre.state, post.state)
              && ((post.refused, post.lost) != (pre.refused, pre.lost) ==>
                    AlmostFaultlessly(m, change, before, Halted(cause), P, P, pre, post))
  {
    SameWorldIsReflexive(false, pre.state);
  }

  lemma CalmStep(blind: bool, pre: Tally, post: Tally, standard: Acl, m: Manifest, change: Change, before: Observed,
                 P: Prepared, error: Option<ErrorKind>, P': Prepared, verdict: Verdict)
    requires Executed(pre, post, standard, m, change, P, error, P') && post.foreign == pre.foreign
    requires post.refused >= pre.refused && post.lost >= pre.lost && !verdict.Halted?
    requires Alike(blind, View(pre.state, ChangeTarget(change)), before)
    requires verdict.Intact? ==> Alike(blind, View(post.state, ChangeTarget(change)), before)
    requires verdict.Verified? ==>
               Sees(blind, View(post.state, ChangeTarget(change)), verdict.after)
               && Achieved(m, change, before, verdict.after, View(post.state, ChangeTarget(change)))
    ensures Calmly(blind, m, change, before, verdict, pre.state, post.state)
    ensures post.wild == pre.wild ==> DescriptorKept(change, pre.state, post.state)
  {
    hide Alike, Sees, Achieved, Enactment, Effect, OnlyTouches, DescriptorKept, View;
    if post.wild == pre.wild {
      FlagKeepsDescriptor(pre, post, standard, m, change, P, error, P');
    }
  }

  lemma ConcludeStep(m: Manifest, change: Change, before: Observed, verdict: Verdict, P: Prepared, P': Prepared,
                     pre: Tally, post: Tally, error: Option<ErrorKind>, standard: Acl)
    requires Tree(pre.state) && Ready(m, Noted(P, change, before), pre.state, change, [])
    requires Insured(Noted(P, change, before), change, pre.state)
    requires Executed(pre, post, standard, m, change, Noted(P, change, before), error, P')
    requires post.foreign == pre.foreign && post.lostReads == pre.lostReads && post.wild == pre.wild
    requires post.refused >= pre.refused && post.lost >= pre.lost
    requires before == View(pre.state, ChangeTarget(change))
    requires verdict == FaithfulVerdict(m, change, before, View(post.state, ChangeTarget(change)), error)
    ensures AlmostFaultlessly(m, change, before, verdict, P, P', pre, post)
  {
    hide Executed, Ready, Insured, View, FaithfulVerdict, Revocable, SameWorld, Tree, Noted, Spent, Answers;
    AlmostFaultless(pre, post, standard, m, change, Noted(P, change, before), error, P');
  }

  lemma SameNumbers(m: Manifest, change: Change, before: Observed, verdict: Verdict, P: Prepared, P': Prepared,
                    pre: Tally, post: Tally, pre': Tally, post': Tally)
    requires AlmostFaultlessly(m, change, before, verdict, P, P', pre, post)
    requires pre'.state == pre.state && pre'.refused == pre.refused && pre'.lost == pre.lost
    requires post'.state == post.state && post'.refused == post.refused && post'.lost == post.lost
    requires post'.lostCall == post.lostCall
    ensures AlmostFaultlessly(m, change, before, verdict, P, P', pre', post')
  {
  }

  /** What a step does to one target that nobody else changes. */
  ghost predicate StepAt(blind: bool, t: Target, change: Change, before: Observed, verdict: Verdict,
                         v: Observed, v': Observed) {
    if verdict.Halted? || ChangeTarget(change) != t then v' == v
    else
      && Alike(blind, v, before)
      && (verdict.Intact? ==> Alike(blind, v', before))
      && (verdict.Verified? ==> Alike(blind, v', verdict.after))
  }

  /** What an undisturbed step guarantees, whatever the scheduler's faults. */
  ghost predicate Calmly(blind: bool, m: Manifest, change: Change, before: Observed, verdict: Verdict,
                         s: State, s': State) {
    var t := ChangeTarget(change);
    && OnlyTouches(s, s', t)
    && (verdict.Halted? ==> s' == s)
    && (!verdict.Halted? ==> Alike(blind, View(s, t), before))
    && (verdict.Intact? ==> Alike(blind, View(s', t), before))
    && (verdict.Verified? ==> Sees(blind, View(s', t), verdict.after)
                              && Achieved(m, change, before, verdict.after, View(s', t)))
  }

  /** What it guarantees when moreover every read works and nothing goes wild. */
  ghost predicate AlmostFaultlessly(m: Manifest, change: Change, before: Observed, verdict: Verdict,
                                    P: Prepared, P': Prepared, pre: Tally, post: Tally) {
    var t := ChangeTarget(change);
    && (post.refused == pre.refused && post.lost == pre.lost ==> verdict == Verified(View(post.state, t), None))
    && (post.refused > pre.refused || post.lost > pre.lost ==> !verdict.Verified? || verdict.error.Some?)
    && (verdict.Verified? ==>
          && verdict.after == View(post.state, t) && Tree(post.state)
          && Revocable(P', change, pre.state, post.state)
          && P' == Spent(Noted(P, change, before), change))
    && (verdict.Halted? || verdict.Intact? ==> SameWorld(false, pre.state, post.state) && StillPrepared(P, P', change, before))
    && (verdict.Doubtful? ==>
          post.lost > pre.lost && (change.CreateFolder? || change.SetFolderSecurity? || change.SetTaskSecurity?)
          && StillPrepared(P, P', change, before))
    && (post.lost > pre.lost ==>
          (post.lostCall.Some? && post.lostCall.value.StopAll? && verdict.Halted?)
          || Answers(m, post.lostCall, change, verdict, View(pre.state, t), View(post.state, t)))
  }

  ghost predicate StillPrepared(P: Prepared, P': Prepared, change: Change, before: Observed) {
    P' == P || P' == Noted(P, change, before) || P' == Spent(Noted(P, change, before), change)
  }
}
