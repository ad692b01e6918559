/** Once termination is requested, a run has only a few commits left. */
module WorkerTermination {
  import opened Actions
  import opened GraphDefinition
  import opened GraphStore
  import opened Guards
  import opened Worker
  import opened WorkerHistory
  import opened WorkerRuns
  import opened Wrappers

  /** Commits from a node to `terminal` on the winding-down path. */
  function Distance(n: Node): (d: nat)
    ensures d <= 3
    ensures d == 3 <==> !WindsDown(n)
    ensures d == 0 <==> n == TERMINAL
  {
    if n == TERMINAL then 0 else if n == TERMINATION_REPORT then 1
    else if n == DRAIN_CURRENT_ATOMIC_UNIT then 2 else 3
  }

  /** The worker read the termination flag before it was set and still carries out other work. */
  predicate PastTheCheck(l: Local) {
    || l.Ordinarily? || l.Planned? || l.Frozen? || l.Chosen? || l.Decided?
    || (l.Executed? && l.cause == Ordinary)
  }

  predicate InFlight(db: Db, l: Local) {
    PastTheCheck(l) && db.lease == Some(l.ctx.lease) && !WindsDown(l.ctx.node)
  }

  ghost predicate SomeInFlight(s: Sys) {
    exists p :: p in s.locals && InFlight(s.db, s.locals[p])
  }

  ghost function Measure(s: Sys): (m: nat)
    ensures m <= 4
    ensures !SomeInFlight(s) ==> m == Distance(s.db.node)
  {
    Distance(s.db.node) + if SomeInFlight(s) then 1 else 0
  }

  /** Recorded model failures, and all other transitions. */
  function Failures(log: seq<Transition>): nat {
    if log == [] then 0
    else Failures(log[..|log|-1]) + if log[|log|-1].cause == ModelFailure then 1 else 0
  }

  function Commits(log: seq<Transition>): nat {
    if log == [] then 0
    else Commits(log[..|log|-1]) + if log[|log|-1].cause == ModelFailure then 0 else 1
  }

  lemma WindingTemplateIsCloser(v: GraphVersion, n: Node, kind: ActionKind, m: Node)
    requires WindsDown(n) && HasTemplate(v, n, kind, m)
    ensures Distance(m) < Distance(n)
  {
  }

  /** No step pays more than it may: a commit lowers the measure, a failure may raise it by three. */
  ghost predicate Pays(s: Sys, t: Sys) {
    Commits(t.db.log) + Measure(t) + 3 * Failures(s.db.log) <=
    Commits(s.db.log) + Measure(s) + 3 * Failures(t.db.log)
  }

  lemma {:induction false} CommitPays(s: Sys, p: nat)
    requires Inv(s) && Step(s, ECommit(p)) != s
    ensures Pays(s, Step(s, ECommit(p)))
  {
    hide Commit, LinearLog, FencesRise, SetsHold, DecisionsHold, AllExplained;
    var l := LocalOf(s, p);
    assert l.Executed? && LocalInv(s.db, l);
    CommitWrites(s.db, l.ctx, l.action, l.pause, l.cause);
    var t := Step(s, ECommit(p));
    assert t.db.log[..|s.db.log|] == s.db.log;
    if l.cause == TerminateRequest {
      TerminateRequestLeadsToDrain(s.db.version, l.ctx.node, l.action);
    } else if WindsDown(l.ctx.node) {
      WindingTemplateIsCloser(s.db.version, l.ctx.node, EffectiveKind(l.action).value, l.action.successor);
    } else {
      assert InFlight(s.db, s.locals[p]);
    }
  }

  lemma {:induction false} BlockPays(s: Sys, p: nat)
    requires Inv(s) && LocalOf(s, p) != Idle && BlockModelFailure(s.db, LocalOf(s, p).ctx).Ok?
    ensures Pays(s, Step(s, EBlock(p)))
  {
    hide BlockModelFailure, DbInv;
    BlockKeeps(s.db, LocalOf(s, p).ctx);
    var t := Step(s, EBlock(p));
    assert t.db.log[..|s.db.log|] == s.db.log;
  }

  /** With the flag set, a worker is past the check only if it already was. */
  lemma CheckIsFinal(s: Sys, e: Event)
    requires Actor(e).Some? && s.db.terminationRequested
    ensures var l, m := LocalOf(s, e.p), LocalOf(Step(s, e), e.p);
      PastTheCheck(m) && !WindsDown(m.ctx.node) ==> PastTheCheck(l) && l.ctx == m.ctx
  {
  }

  lemma NoNewFlight(s: Sys, e: Event)
    requires TokensIssued(s) && s.db.terminationRequested && SomeInFlight(Step(s, e))
    ensures SomeInFlight(s)
  {
    hide Step;
    var t := Step(s, e);
    var p :| p in t.locals && InFlight(t.db, t.locals[p]);
    LeaseChanges(s, e);
    if Some(p) == Actor(e) {
      CheckIsFinal(s, e);
    } else {
      OthersKeepSnapshots(s, e);
    }
    assert InFlight(s.db, s.locals[p]);
  }

  lemma OtherStepPays(s: Sys, e: Event)
    requires TokensIssued(s) && s.db.terminationRequested
    requires (e.ECommit? && LocalOf(s, e.p).Executed?) || e.EBlock? ==> Step(s, e) == s
    ensures Pays(s, Step(s, e))
  {
    hide Step;
    LogUnchanged(s, e);
    if SomeInFlight(Step(s, e)) {
      NoNewFlight(s, e);
    }
  }

  lemma {:induction false} FlagStays(s: Sys, e: Event)
    requires s.db.terminationRequested
    ensures Step(s, e).db.terminationRequested
  {
    if e.ECommit? {
      hide Commit;
      var l := LocalOf(s, e.p);
      if l.Executed? && Commit(s.db, l.ctx, l.action, l.pause, l.cause).Ok? {
        CommitWrites(s.db, l.ctx, l.action, l.pause, l.cause);
      }
    } else {
      hide Commit, Decide, LegalPath, Offers, HasCoarsePhase;
    }
  }

  lemma {:induction false} StepPays(s: Sys, e: Event)
    requires Inv(s) && TokensIssued(s) && s.db.terminationRequested
    ensures Pays(s, Step(s, e))
  {
    hide Inv, TokensIssued, Pays;
    if e.ECommit? && LocalOf(s, e.p).Executed? && Step(s, e) != s {
      CommitPays(s, e.p);
    } else if e.EBlock? && Step(s, e) != s {
      BlockPays(s, e.p);
    } else {
      OtherStepPays(s, e);
    }
  }

  lemma {:induction false} RunPays(s: Sys, events: seq<Event>)
    requires Inv(s) && TokensIssued(s) && s.db.terminationRequested
    ensures var t := Run(s, events); Inv(t) && TokensIssued(t) && t.db.terminationRequested && Pays(s, t)
  {
    hide Inv, TokensIssued;
    if events != [] {
      var m := Run(s, events[..|events|-1]);
      var e := events[|events|-1];
      RunPays(s, events[..|events|-1]);
      StepKeeps(m, e);
      StepIssues(m, e);
      FlagStays(m, e);
      StepPays(m, e);
    }
  }

  /** After a termination request at most three commits follow, four if a worker past its check
      of the flag still holds the claim, plus three for every model failure recorded meanwhile;
      and what remains to be done is always bounded by the distance still to go. */
  lemma TerminationIsBounded(v: GraphVersion, events: seq<Event>, more: seq<Event>)
    requires Reached(v, events).terminationRequested
    ensures var s, t := Run(Begin(v), events), Run(Begin(v), events + more);
      && Commits(t.db.log) - Commits(s.db.log) + Measure(t) <=
           Distance(s.db.node) + (if SomeInFlight(s) then 1 else 0) + 3 * (Failures(t.db.log) - Failures(s.db.log))
      && Distance(s.db.node) <= 3
  {
    ReachedHolds(v, events);
    RunIssues(v, events);
    RunJoins(Begin(v), events, more);
    RunPays(Run(Begin(v), events), more);
  }

  ghost predicate EndedByTermination(db: Db) {
    db.node == TERMINAL && db.runStatus == db.graphStatus == db.taskStatus == Terminated &&
    !db.lockHeld && db.lease.None?
  }

  lemma {:induction false} StepEnds(s: Sys, e: Event)
    requires Inv(s) && s.db.terminationRequested && s.db.node != TERMINAL && Step(s, e).db.node == TERMINAL
    ensures EndedByTermination(Step(s, e).db)
  {
    hide LinearLog, FencesRise, SetsHold, DecisionsHold, AllExplained;
    if e.ECommit? && LocalOf(s, e.p).Executed? && Step(s, e) != s {
      hide Commit;
      var l := LocalOf(s, e.p);
      CommitWrites(s.db, l.ctx, l.action, l.pause, l.cause);
    } else if e.EBlock? && Step(s, e) != s {
      hide BlockModelFailure;
      BlockKeeps(s.db, LocalOf(s, e.p).ctx);
    } else {
      hide Step;
      LogUnchanged(s, e);
    }
  }

  lemma {:induction false} StaysEnded(s: Sys, e: Event)
    requires Inv(s) && EndedByTermination(s.db)
    ensures EndedByTermination(Step(s, e).db)
  {
    hide LinearLog, FencesRise, SetsHold, DecisionsHold, AllExplained, Decide, LegalPath, Offers, HasCoarsePhase;
  }

  /** A run that reaches `terminal` after a termination request ends terminated in the step that
      reaches it: run, graph and task agree and the school lock is released, and so it stays. */
  lemma {:induction false} TerminationEndsTheRun(v: GraphVersion, events: seq<Event>, more: seq<Event>)
    requires Reached(v, events).terminationRequested && Reached(v, events).node != TERMINAL
    requires Reached(v, events + more).node == TERMINAL
    ensures EndedByTermination(Reached(v, events + more))
  {
    assert more == [] ==> events + more == events;
    if more != [] {
      var n := |more| - 1;
      var m := Run(Begin(v), events + more[..n]);
      assert (events + more)[..|events + more|-1] == events + more[..n];
      ReachedHolds(v, events);
      ReachedHolds(v, events + more[..n]);
      if m.db.node == TERMINAL {
        TerminationEndsTheRun(v, events, more[..n]);
        StaysEnded(m, more[n]);
      } else {
        RunIssues(v, events);
        RunJoins(Begin(v), events, more[..n]);
        RunPays(Run(Begin(v), events), more[..n]);
        StepEnds(m, more[n]);
      }
    }
  }
}
