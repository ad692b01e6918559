/** What every run of the worker system keeps, over any sequence of events. */
module WorkerRuns {
  import opened Actions
  import opened GraphDefinition
  import opened GraphStore
  import opened Guards
  import opened Worker
  import opened Wrappers

  // ----- Every event keeps the invariant -----

  lemma ReleaseKeeps(db: Db, c: Context)
    requires DbInv(db)
    ensures DbInv(Release(db, c)) && Grows(db, Release(db, c))
  {
    StatusKeeps(db, Release(db, c));
  }

  lemma FailKeeps(db: Db, c: Context)
    requires DbInv(db) && FailRun(db, c).Ok?
    ensures DbInv(FailRun(db, c).value) && Grows(db, FailRun(db, c).value)
  {
  }

  lemma {:induction false} OperatorKeeps(db: Db, stops: bool, last: bool)
    requires DbInv(db)
    ensures DbInv(RequestTermination(db)) && Grows(db, RequestTermination(db))
    ensures DbInv(DecideGate(db, stops, last)) && Grows(db, DecideGate(db, stops, last))
  {
    hide LinearLog, FencesRise, SetsHold, DecisionsHold, AllExplained;
    StatusKeeps(db, RequestTermination(db));
    StatusKeeps(db, DecideGate(db, stops, last));
  }

  /** New rows that grow from the old ones, and one worker's new snapshot, keep the invariant. */
  lemma {:induction false} Carry(s: Sys, b: Db, p: nat, l: Local)
    requires Inv(s) && DbInv(b) && Grows(s.db, b) && LocalInv(b, l)
    ensures Inv(Become(s.(db := b), p, l)) && Inv(s.(db := b))
  {
    forall q | q in s.locals ensures LocalInv(b, s.locals[q]) {
      LocalsSurvive(s.db, b, s.locals[q]);
    }
  }

  lemma Unmoved(db: Db)
    ensures Grows(db, db)
  {
  }

  lemma LocalHolds(s: Sys, p: nat)
    requires Inv(s)
    ensures LocalInv(s.db, LocalOf(s, p))
  {
  }

  lemma IdleHolds(db: Db)
    ensures LocalInv(db, Idle)
  {
  }

  /** A step a worker takes on its own snapshot. */
  lemma CarryLocal(s: Sys, p: nat, l: Local)
    requires Inv(s) && LocalInv(s.db, l)
    ensures Inv(Become(s, p, l)) && Grows(s.db, s.db)
  {
  }

  lemma {:induction false} ClaimEvent(s: Sys, p: nat, lease: Lease, expired: bool)
    requires Inv(s)
    ensures var t := Step(s, EClaim(p, lease, expired)); Inv(t) && Grows(s.db, t.db)
  {
    if LocalOf(s, p).Idle? && Claim(s.db, lease, expired).Ok? {
      var b := Claim(s.db, lease, expired).value;
      ClaimKeeps(s.db, lease, expired);
      Carry(s, b, p, Claimed(ContextOf(b, lease)));
    }
  }

  lemma CheckEvent(s: Sys, p: nat)
    requires Inv(s)
    ensures var t := Step(s, ECheckTermination(p)); Inv(t) && Grows(s.db, t.db)
  {
    var l := LocalOf(s, p);
    if l.Claimed? {
      CarryLocal(s, p, Ordinarily(l.ctx));
      if !WindsDown(l.ctx.node) {
        CarryLocal(s, p, ToTerminate(l.ctx));
      }
    }
  }

  lemma PlanEvent(s: Sys, p: nat, offer: ActionSet)
    requires Inv(s)
    ensures var t := Step(s, EPlan(p, offer)); Inv(t) && Grows(s.db, t.db)
  {
    var l := LocalOf(s, p);
    if l.Ordinarily? {
      if l.ctx.cursor in s.db.candidates {
        CarryLocal(s, p, Planned(l.ctx, true, s.db.candidates[l.ctx.cursor]));
      } else if Offers(l.ctx.node, offer) {
        CarryLocal(s, p, Planned(l.ctx, false, offer));
      }
    }
  }

  lemma {:induction false} FreezeEvent(s: Sys, p: nat)
    requires Inv(s)
    ensures var t := Step(s, EFreeze(p)); Inv(t) && Grows(s.db, t.db)
  {
    hide DbInv, Grows, LocalInv, RecordCandidateSet;
    Unmoved(s.db);
    var l := LocalOf(s, p);
    if l.Planned? && Freeze(s.db, l.ctx, if l.stored then None else Some(l.offer)).Ok? {
      var b := Freeze(s.db, l.ctx, if l.stored then None else Some(l.offer)).value;
      FreezeKeeps(s.db, l.ctx, l.stored, l.offer);
      FreezeYields(s.db, l.ctx, l.stored, l.offer);
      var known := if l.ctx.cursor in b.decisions then Some(b.decisions[l.ctx.cursor]) else None;
      Carry(s, b, p, Frozen(l.ctx, l.offer, known, b.replans));
    }
  }

  lemma {:induction false} DecideEvent(s: Sys, p: nat, supervised: Decision)
    requires Inv(s)
    ensures var t := Step(s, EDecide(p, supervised)); Inv(t) && Grows(s.db, t.db)
  {
    var l := LocalOf(s, p);
    if l.Frozen? {
      DecideKeeps(s.db, l, supervised);
      CarryLocal(s, p, AfterDecide(s.db.version, l, supervised));
    }
  }

  lemma {:induction false} RecordDecisionEvent(s: Sys, p: nat)
    requires Inv(s)
    ensures var t := Step(s, ERecordDecision(p)); Inv(t) && Grows(s.db, t.db)
  {
    hide DbInv, Grows, LocalInv, RecordDecision;
    Unmoved(s.db);
    var l := LocalOf(s, p);
    LocalHolds(s, p);
    if l.Chosen? && RecordDecision(s.db, l.ctx.cursor, l.decision).Ok? {
      RecordDecisionKeeps(s.db, l.ctx, l.action, l.decision);
      Carry(s, RecordDecision(s.db, l.ctx.cursor, l.decision).value, p, Decided(l.ctx, l.action));
    }
  }

  lemma PlanTerminationEvent(s: Sys, p: nat, offer: ActionSet)
    requires Inv(s)
    ensures var t := Step(s, EPlanTermination(p, offer)); Inv(t) && Grows(s.db, t.db)
  {
    var l := LocalOf(s, p);
    if l.ToTerminate? && |offer.actions| == 1 {
      var a := offer.actions[0];
      if IsTerminateRequest(a) && LegalPath(s.db.version, l.ctx.node, a) {
        TerminateRequestLeadsToDrain(s.db.version, l.ctx.node, a);
        CarryLocal(s, p, TerminateChosen(l.ctx, a));
      }
    }
  }

  lemma {:induction false} ExecuteEvent(s: Sys, p: nat, outcome: Outcome)
    requires Inv(s)
    ensures var t := Step(s, EExecute(p, outcome)); Inv(t) && Grows(s.db, t.db)
  {
    hide DbInv, ContextInv, Within, FromFrozenSet, IsDecided;
    var l := LocalOf(s, p);
    if l.Decided? {
      CarryLocal(s, p, Executed(l.ctx, l.action, outcome.pause, Ordinary));
    } else if l.TerminateChosen? {
      CarryLocal(s, p, Executed(l.ctx, l.action, outcome.pause, TerminateRequest));
    }
  }

  lemma {:induction false} CommitEvent(s: Sys, p: nat)
    requires Inv(s)
    ensures var t := Step(s, ECommit(p)); Inv(t) && Grows(s.db, t.db)
  {
    hide DbInv, Grows, LocalInv, Commit;
    Unmoved(s.db);
    LocalHolds(s, p);
    var l := LocalOf(s, p);
    if l.Executed? && Commit(s.db, l.ctx, l.action, l.pause, l.cause).Ok? {
      CommitKeeps(s.db, l.ctx, l.action, l.pause, l.cause);
      IdleHolds(Commit(s.db, l.ctx, l.action, l.pause, l.cause).value);
      Carry(s, Commit(s.db, l.ctx, l.action, l.pause, l.cause).value, p, Idle);
    }
  }

  lemma {:induction false} GiveUpEvent(s: Sys, p: nat)
    requires Inv(s)
    ensures var t := Step(s, EBlock(p)); Inv(t) && Grows(s.db, t.db)
    ensures var t := Step(s, EFail(p)); Inv(t) && Grows(s.db, t.db)
    ensures var t := Step(s, ERelease(p)); Inv(t) && Grows(s.db, t.db)
    ensures var t := Step(s, ECrash(p)); Inv(t) && Grows(s.db, t.db)
  {
    IdleHolds(s.db);
    hide BlockModelFailure, FailRun, DbInv, Grows;
    var l := LocalOf(s, p);
    CarryLocal(s, p, Idle);
    if !l.Idle? {
      if BlockModelFailure(s.db, l.ctx).Ok? {
        BlockKeeps(s.db, l.ctx);
        Carry(s, BlockModelFailure(s.db, l.ctx).value, p, Idle);
      }
      if FailRun(s.db, l.ctx).Ok? {
        FailKeeps(s.db, l.ctx);
        Carry(s, FailRun(s.db, l.ctx).value, p, Idle);
      }
      ReleaseKeeps(s.db, l.ctx);
      Carry(s, Release(s.db, l.ctx), p, Idle);
    }
  }

  lemma {:induction false} OperatorEvent(s: Sys, stops: bool, last: bool)
    requires Inv(s)
    ensures var t := Step(s, ERequestTermination); Inv(t) && Grows(s.db, t.db)
    ensures var t := Step(s, EDecideGate(stops, last)); Inv(t) && Grows(s.db, t.db)
  {
    hide RequestTermination, DecideGate, DbInv, Grows, LocalInv;
    OperatorKeeps(s.db, stops, last);
    Carry(s, RequestTermination(s.db), 0, Idle);
    Carry(s, DecideGate(s.db, stops, last), 0, Idle);
  }

  lemma {:induction false} StepKeeps(s: Sys, e: Event)
    requires Inv(s)
    ensures Inv(Step(s, e)) && Grows(s.db, Step(s, e).db)
  {
    match e
    case EClaim(p, lease, expired) => ClaimEvent(s, p, lease, expired);
    case ECheckTermination(p) => CheckEvent(s, p);
    case EPlan(p, offer) => PlanEvent(s, p, offer);
    case EFreeze(p) => FreezeEvent(s, p);
    case EDecide(p, supervised) => DecideEvent(s, p, supervised);
    case ERecordDecision(p) => RecordDecisionEvent(s, p);
    case EPlanTermination(p, offer) => PlanTerminationEvent(s, p, offer);
    case EExecute(p, outcome) => ExecuteEvent(s, p, outcome);
    case ECommit(p) => CommitEvent(s, p);
    case EBlock(p) => GiveUpEvent(s, p);
    case EFail(p) => GiveUpEvent(s, p);
    case ERelease(p) => GiveUpEvent(s, p);
    case ECrash(p) => GiveUpEvent(s, p);
    case ERequestTermination => OperatorEvent(s, false, false);
    case EDecideGate(stops, last) => OperatorEvent(s, stops, last);
  }

  lemma {:induction false} RunKeeps(s: Sys, events: seq<Event>)
    requires Inv(s)
    ensures Inv(Run(s, events)) && Grows(s.db, Run(s, events).db)
  {
    if events != [] {
      RunKeeps(s, events[..|events|-1]);
      StepKeeps(Run(s, events[..|events|-1]), events[|events|-1]);
    }
  }

  lemma {:induction false} RunJoins(s: Sys, first: seq<Event>, more: seq<Event>)
    ensures Run(s, first + more) == Run(Run(s, first), more)
  {
    hide Step;
    if more == [] {
      assert first + more == first;
    } else {
      var n := |more| - 1;
      RunJoins(s, first, more[..n]);
      assert (first + more)[..|first + more|-1] == first + more[..n];
    }
  }
}
