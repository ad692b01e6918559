/** How a commit leaves the run: waiting for people, ended, or ready for the next claim; and that a
    run which is not running rests until an operator acts. */
module WorkerPauses {
  import opened Actions
  import opened GraphDefinition
  import opened GraphStore
  import opened Guards
  import opened Worker
  import opened WorkerHistory
  import opened WorkerRuns
  import opened Wrappers

  predicate IsOperator(e: Event) {
    e.ERequestTermination? || e.EDecideGate?
  }

  /** Nothing but facts at earlier cursors is written. */
  ghost predicate Rests(a: Db, b: Db) {
    b == a.(candidates := b.candidates, decisions := b.decisions)
  }

  /** No worker transaction but a claim finds its fence, and a claim needs a running run. */
  lemma RestingStep(s: Sys, e: Event)
    requires s.db.lease.None? && s.db.runStatus != Running && !IsOperator(e)
    ensures Rests(s.db, Step(s, e).db)
  {
    if e.EFreeze? || e.ERecordDecision? {
      if LocalOf(s, e.p).Idle? {
        assert Step(s, e) == s;
      } else {
        UnfencedFact(s, e, e.p);
      }
    } else if e.EClaim? {
    } else if LocalOf(s, e.p).Idle? {
      assert Step(s, e).db == s.db;
    } else {
      UnfencedEnd(s, e, e.p);
    }
  }

  lemma {:induction false} RestingRun(s: Sys, events: seq<Event>)
    requires s.db.lease.None? && s.db.runStatus != Running
    requires forall e :: e in events ==> !IsOperator(e)
    ensures Rests(s.db, Run(s, events).db)
  {
    if events != [] {
      var n := |events| - 1;
      RestingRun(s, events[..n]);
      assert events[n] in events;
      hide Step;
      RestingStep(Run(s, events[..n]), events[n]);
    }
  }

  /** What a commit that succeeded makes of the three statuses, the lock and the lease: a pause waits
      for people; `terminal` ends run, graph and task alike, as terminated when that was requested and
      as completed otherwise; any other commit leaves the run as it was, free to be claimed. */
  lemma CommitOutcome(db: Db, c: Context, a: AllowedAction, pause: bool, cause: Cause)
    requires Commit(db, c, a, pause, cause).Ok? && db.runStatus != Terminating
    ensures var b := Commit(db, c, a, pause, cause).value;
      && b.node == a.successor && b.lease.None?
      && (if a.successor == TERMINAL then
            && !pause && !b.lockHeld
            && b.runStatus == b.graphStatus == b.taskStatus == (if db.terminationRequested then Terminated else Completed)
          else
            && b.lockHeld && b.graphStatus == db.graphStatus && b.taskStatus == db.taskStatus
            && b.runStatus == (if pause then WaitingHuman else db.runStatus))
  {
  }

  /** No transaction puts a run into the terminating status of the older workflow. */
  lemma {:induction false} NeverTerminating(v: GraphVersion, events: seq<Event>)
    ensures Reached(v, events).runStatus != Terminating
  {
    if events != [] {
      var n := |events| - 1;
      NeverTerminating(v, events[..n]);
      StepNotTerminating(Run(Begin(v), events[..n]), events[n]);
    }
  }

  lemma StepNotTerminating(s: Sys, e: Event)
    requires s.db.runStatus != Terminating
    ensures Step(s, e).db.runStatus != Terminating
  {
    if e.ECommit? {
      hide Commit;
      var l := LocalOf(s, e.p);
      if l.Executed? && Commit(s.db, l.ctx, l.action, l.pause, l.cause).Ok? {
        CommitOutcome(s.db, l.ctx, l.action, l.pause, l.cause);
      }
    } else {
      hide Commit, Decide, LegalPath, Offers, HasCoarsePhase;
    }
  }

  /** The commit of worker `p` is accepted. */
  ghost predicate Commits(s: Sys, p: nat) {
    LocalOf(s, p).Executed? && Step(s, ECommit(p)).db.cursor > s.db.cursor
  }

  lemma CommitsIfOk(s: Sys, p: nat)
    requires Commits(s, p)
    ensures var l := LocalOf(s, p);
      Commit(s.db, l.ctx, l.action, l.pause, l.cause).Ok? &&
      Step(s, ECommit(p)).db == Commit(s.db, l.ctx, l.action, l.pause, l.cause).value
  {
    hide Commit;
  }

  /** After a commit that pauses, the run waits at a human gate: for every continuation without an
      operator, no claim succeeds and log, node, cursor, statuses and lock stay as they are. */
  lemma {:induction false} PausedRunWaits(v: GraphVersion, events: seq<Event>, p: nat, more: seq<Event>, q: nat, lease: Lease, expired: bool)
    requires Commits(Run(Begin(v), events), p) && LocalOf(Run(Begin(v), events), p).pause
    requires forall e :: e in more ==> !IsOperator(e)
    ensures var l := LocalOf(Run(Begin(v), events), p);
      var t, u := Reached(v, events + [ECommit(p)]), Reached(v, events + [ECommit(p)] + more);
      && t.runStatus == WaitingHuman && t.node == l.action.successor && MayPauseForHuman(t.node) && t.lockHeld
      && Rests(t, u)
      && Step(Run(Begin(v), events + [ECommit(p)] + more), EClaim(q, lease, expired)).db == u
  {
    var s := Run(Begin(v), events);
    var l := LocalOf(s, p);
    NeverTerminating(v, events);
    CommitsIfOk(s, p);
    CommitOutcome(s.db, l.ctx, l.action, l.pause, l.cause);
    PauseIsAtGate(s.db, l.ctx, l.action, l.cause);
    assert (events + [ECommit(p)])[..|events|] == events;
    hide Step;
    RunJoins(Begin(v), events + [ECommit(p)], more);
    RestingRun(Run(Begin(v), events + [ECommit(p)]), more);
    NoClaim(Run(Begin(v), events + [ECommit(p)] + more), q, lease, expired);
  }

  lemma PauseIsAtGate(db: Db, c: Context, a: AllowedAction, cause: Cause)
    requires Commit(db, c, a, true, cause).Ok?
    ensures MayPauseForHuman(a.successor)
  {
    hide RecordTransition;
  }

  lemma NoClaim(s: Sys, q: nat, lease: Lease, expired: bool)
    requires s.db.runStatus != Running
    ensures Step(s, EClaim(q, lease, expired)).db == s.db
  {
  }

  /** An idle worker's claim succeeds exactly on a running run whose lease is absent or expired, under
      a fresh token and with the school lock held; it installs that lease and a new fencing number. */
  lemma ClaimSucceedsIff(s: Sys, p: nat, lease: Lease, expired: bool)
    requires LocalOf(s, p).Idle?
    ensures var t := Step(s, EClaim(p, lease, expired));
      if s.db.runStatus == Running && (s.db.lease.None? || expired) && lease.token !in s.db.issued && s.db.lockHeld
      then
        && t.db == s.db.(lease := Some(lease), attempts := s.db.attempts + 1, issued := s.db.issued + {lease.token})
        && LocalOf(t, p) == Claimed(Context(lease, s.db.attempts + 1, s.db.node, s.db.cursor))
      else t == s
  {
  }

  /** A run that reaches `terminal` ends in that step, as terminated exactly when that was requested,
      and rests for ever unless an operator acts. */
  lemma {:induction false} TerminalOutcome(v: GraphVersion, events: seq<Event>, e: Event)
    requires Reached(v, events).node != TERMINAL && Reached(v, events + [e]).node == TERMINAL
    ensures var a, b := Reached(v, events), Reached(v, events + [e]);
      && b.runStatus == b.graphStatus == b.taskStatus == (if a.terminationRequested then Terminated else Completed)
      && !b.lockHeld && b.lease.None?
  {
    var s := Run(Begin(v), events);
    assert (events + [e])[..|events|] == events;
    NeverTerminating(v, events);
    if e.ECommit? && LocalOf(s, e.p).Executed? && Step(s, e) != s {
      var l := LocalOf(s, e.p);
      hide Commit;
      CommitOutcome(s.db, l.ctx, l.action, l.pause, l.cause);
    } else if e.EBlock? && Step(s, e) != s {
      hide BlockModelFailure;
      ReachedHolds(v, events);
      BlockKeeps(s.db, LocalOf(s, e.p).ctx);
    } else {
      hide Step;
      LogUnchanged(s, e);
    }
  }

  /** A recorded model failure stops the run at the blocked node, with run and graph blocked and the
      lock kept; it too rests until an operator acts. */
  lemma {:induction false} BlockedRunWaits(v: GraphVersion, events: seq<Event>, p: nat, more: seq<Event>)
    requires var s := Run(Begin(v), events); Step(s, EBlock(p)).db.cursor > s.db.cursor
    requires forall e :: e in more ==> !IsOperator(e)
    ensures var s, t, u := Reached(v, events), Reached(v, events + [EBlock(p)]), Reached(v, events + [EBlock(p)] + more);
      && t.runStatus == t.graphStatus == RunStatus.Blocked && t.taskStatus == s.taskStatus && t.node == BLOCKED_MODEL_ERROR
      && t.lockHeld == s.lockHeld && Rests(t, u)
  {
    var s := Run(Begin(v), events);
    assert (events + [EBlock(p)])[..|events|] == events;
    BlockOutcome(s.db, LocalOf(s, p).ctx);
    hide Step;
    RunJoins(Begin(v), events + [EBlock(p)], more);
    RestingRun(Run(Begin(v), events + [EBlock(p)]), more);
  }

  lemma BlockOutcome(db: Db, c: Context)
    ensures var r := BlockModelFailure(db, c);
      r.Ok? ==>
        && r.value.runStatus == r.value.graphStatus == RunStatus.Blocked && r.value.taskStatus == db.taskStatus
        && r.value.node == BLOCKED_MODEL_ERROR && r.value.lockHeld == db.lockHeld && r.value.lease.None?
  {
  }

  /** A failed run ends in that step: run, graph and task failed, lock and lease gone; and it rests. */
  lemma {:induction false} FailedRunRests(v: GraphVersion, events: seq<Event>, p: nat, more: seq<Event>)
    requires var s := Run(Begin(v), events); !LocalOf(s, p).Idle? && FailRun(s.db, LocalOf(s, p).ctx).Ok?
    requires forall e :: e in more ==> !IsOperator(e)
    ensures var s, t, u := Reached(v, events), Reached(v, events + [EFail(p)]), Reached(v, events + [EFail(p)] + more);
      && t.runStatus == t.graphStatus == t.taskStatus == RunStatus.Failed && !t.lockHeld && t.lease.None?
      && t.log == s.log && t.node == s.node && Rests(t, u)
  {
    assert (events + [EFail(p)])[..|events|] == events;
    assert var t := Reached(v, events + [EFail(p)]);
      t.runStatus == t.graphStatus == t.taskStatus == RunStatus.Failed && !t.lockHeld && t.lease.None?;
    RunJoins(Begin(v), events + [EFail(p)], more);
    hide Step;
    RestingRun(Run(Begin(v), events + [EFail(p)]), more);
  }

  /** What the operator can do: a termination request flags a run that has not ended and makes a
      waiting or blocked one claimable again; a rejection that stops the run flags it; and the last
      decision makes a waiting run, and no other, running again. */
  lemma OperatorOutcome(s: Sys, stops: bool, last: bool)
    ensures var b := Step(s, ERequestTermination).db;
      && (s.db.runStatus == Completed || s.db.runStatus == Terminated ==> b == s.db)
      && (s.db.runStatus != Completed && s.db.runStatus != Terminated ==>
            && b.terminationRequested
            && b.runStatus == (if s.db.runStatus == WaitingHuman || s.db.runStatus == RunStatus.Blocked then Running else s.db.runStatus)
            && b == s.db.(terminationRequested := true, runStatus := b.runStatus))
    ensures var b := Step(s, EDecideGate(stops, last)).db;
      && (b.terminationRequested <==> s.db.terminationRequested || stops)
      && b.runStatus == (if s.db.runStatus == WaitingHuman && last then Running else s.db.runStatus)
      && b == s.db.(terminationRequested := b.terminationRequested, runStatus := b.runStatus)
  {
  }

  // ----- When a worker's transactions succeed -----

  /** In every history, a worker that has executed its action commits it exactly when it still holds the
      claim, the run still stands where it was claimed, the lock is held, and the successor has a phase
      and may pause if asked to; and the commit appends exactly this move. */
  lemma {:induction false} CommitSucceedsIff(v: GraphVersion, events: seq<Event>, p: nat)
    requires LocalOf(Run(Begin(v), events), p).Executed?
    ensures var s := Run(Begin(v), events);
      var l, b := LocalOf(s, p), Step(s, ECommit(p)).db;
      && (Commits(s, p) <==>
            && s.db.lease == Some(l.ctx.lease) && s.db.attempts == l.ctx.attempt
            && s.db.node == l.ctx.node && s.db.cursor == l.ctx.cursor && s.db.lockHeld
            && HasCoarsePhase(l.action.successor) && (l.pause ==> MayPauseForHuman(l.action.successor)))
      && (Commits(s, p) ==>
            && b.log == s.db.log + [Transition(s.db.cursor + 1, s.db.node, l.action.successor, l.action.id, s.db.attempts, l.cause)]
            && b.cursor == s.db.cursor + 1 && b.node == l.action.successor)
      && (!Commits(s, p) ==> b == s.db)
  {
    ReachedHolds(v, events);
    var s := Run(Begin(v), events);
    var l := LocalOf(s, p);
    hide Run, AllExplained, DecisionsHold, SetsHold, FencesRise, LocalInv;
    CommitOkIff(s.db, l.ctx, l.action, l.pause, l.cause);
    hide Commit, LinearLog;
    if Commit(s.db, l.ctx, l.action, l.pause, l.cause).Ok? {
      CommitWrites(s.db, l.ctx, l.action, l.pause, l.cause);
    }
  }

  lemma CommitOkIff(db: Db, c: Context, a: AllowedAction, pause: bool, cause: Cause)
    requires LinearLog(db.version, db.node, db.cursor, db.log)
    ensures Commit(db, c, a, pause, cause).Ok? <==>
      && db.lease == Some(c.lease) && db.attempts == c.attempt && db.node == c.node && db.cursor == c.cursor && db.lockHeld
      && HasCoarsePhase(a.successor) && (pause ==> MayPauseForHuman(a.successor))
  {
    hide Edge;
  }

  /** In every history, a worker records a model failure exactly when it holds the claim, the run stands
      where it was claimed, and the node has a phase. */
  lemma {:induction false} BlockSucceedsIff(v: GraphVersion, events: seq<Event>, p: nat)
    requires !LocalOf(Run(Begin(v), events), p).Idle?
    ensures var s := Run(Begin(v), events);
      var c, b := LocalOf(s, p).ctx, Step(s, EBlock(p)).db;
      && (b.cursor > s.db.cursor <==>
            && s.db.lease == Some(c.lease) && s.db.attempts == c.attempt
            && s.db.node == c.node && s.db.cursor == c.cursor && HasCoarsePhase(c.node))
      && (b.cursor > s.db.cursor ==>
            b.log == s.db.log + [Transition(s.db.cursor + 1, s.db.node, BLOCKED_MODEL_ERROR, BlockModelError, s.db.attempts, ModelFailure)])
      && (b.cursor <= s.db.cursor ==> b == s.db)
  {
    ReachedHolds(v, events);
    var s := Run(Begin(v), events);
    hide Run, AllExplained, DecisionsHold, SetsHold, FencesRise, LocalInv, Edge;
  }

  /** In every history, a worker with a plan freezes it, or finds it frozen, exactly when the run stands
      where it was claimed and no other actions were frozen there. */
  lemma {:induction false} FreezeSucceedsIff(v: GraphVersion, events: seq<Event>, p: nat)
    requires LocalOf(Run(Begin(v), events), p).Planned?
    ensures var s := Run(Begin(v), events);
      var l, t := LocalOf(s, p), Step(s, EFreeze(p));
      && (LocalOf(t, p).Frozen? <==>
            && s.db.node == l.ctx.node && s.db.cursor == l.ctx.cursor
            && (l.ctx.cursor in s.db.candidates ==> s.db.candidates[l.ctx.cursor].actions == l.offer.actions))
      && (LocalOf(t, p).Frozen? ==> l.ctx.cursor in t.db.candidates && t.db.candidates[l.ctx.cursor].actions == l.offer.actions)
      && (!LocalOf(t, p).Frozen? ==> t == s)
  {
    hide Run, AllExplained, DecisionsHold, SetsHold, FencesRise, LinearLog, Offers, ContextInv, Within, Commit, BlockModelFailure;
    ReachedHolds(v, events);
    var s := Run(Begin(v), events);
    assert LocalInv(s.db, LocalOf(s, p));
  }

  /** In every history, a worker that chose an action records its decision exactly when none was recorded
      at its cursor. */
  lemma {:induction false} DecisionSucceedsIff(v: GraphVersion, events: seq<Event>, p: nat)
    requires LocalOf(Run(Begin(v), events), p).Chosen?
    ensures var s := Run(Begin(v), events);
      var l, t := LocalOf(s, p), Step(s, ERecordDecision(p));
      && (LocalOf(t, p).Decided? <==> l.ctx.cursor !in s.db.decisions)
      && (LocalOf(t, p).Decided? ==> l.ctx.cursor in t.db.decisions && t.db.decisions[l.ctx.cursor] == l.decision)
      && (!LocalOf(t, p).Decided? ==> t == s)
  {
    hide Run, AllExplained, DecisionsHold, SetsHold, FencesRise, LinearLog, Offers, ContextInv, Within, Commit, BlockModelFailure;
    ReachedHolds(v, events);
    var s := Run(Begin(v), events);
    assert LocalInv(s.db, LocalOf(s, p));
  }
}
