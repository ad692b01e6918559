/** What the rows say after any run of the worker system: one linear history, decisions that
    replay, a bounded replan count, and superseded workers that cannot interfere. */
module WorkerHistory {
  import opened Actions
  import opened GraphDefinition
  import opened GraphStore
  import opened Guards
  import opened Worker
  import opened WorkerRuns
  import opened Wrappers

  ghost function Reached(v: GraphVersion, events: seq<Event>): Db {
    Run(Begin(v), events).db
  }

  lemma {:induction false} ReachedHolds(v: GraphVersion, events: seq<Event>)
    ensures Inv(Run(Begin(v), events)) && Reached(v, events).version == v
  {
    StartHolds(v);
    RunKeeps(Begin(v), events);
  }

  // ----- One linear history -----

  /** The nodes visited, in order. */
  function Visited(log: seq<Transition>): (r: seq<Node>)
    requires log != []
    ensures |r| == |log| + 1 && r[0] == log[0].from
    ensures forall i :: 0 < i < |r| ==> r[i] == log[i-1].to
  {
    [log[0].from] + seq(|log|, i requires 0 <= i < |log| => log[i].to)
  }

  lemma LogIsRun(v: GraphVersion, node: Node, cursor: nat, log: seq<Transition>)
    requires LinearLog(v, node, cursor, log)
    ensures IsRun(v, Visited(log)) && Visited(log)[cursor] == node
  {
  }

  /** Whatever the interleaving of claims, crashes, reclaims, commits and blocks: the cursor counts
      the transitions, cursors are contiguous, the transitions chain along edges from the initial
      node to the current node, and every worker transition carries a higher fencing number than
      all before it. */
  lemma LinearHistory(v: GraphVersion, events: seq<Event>)
    ensures var db := Reached(v, events);
      && |db.log| == db.cursor > 0
      && (forall i :: 0 <= i < |db.log| ==> db.log[i].cursor == i + 1)
      && (forall i :: 0 < i < |db.log| ==> db.log[i].from == db.log[i-1].to)
      && IsRun(v, Visited(db.log)) && Visited(db.log)[db.cursor] == db.node
      && (forall i, j :: 0 <= i < j < |db.log| && db.log[j].cause != Confirmation ==>
            db.log[i].fencing < db.log[j].fencing <= db.attempts)
  {
    ReachedHolds(v, events);
    var db := Reached(v, events);
    LogIsRun(v, db.node, db.cursor, db.log);
  }

  /** Every execution step of every run comes after the approval gate and a compile and preflight
      that no replan gate separates from it. */
  lemma RunsExecuteOnlyWhenApproved(v: GraphVersion, events: seq<Event>, j: nat) returns (p: nat, approval: nat)
    requires j < |Reached(v, events).log| && Executes(Reached(v, events).log[j].to)
    ensures |Reached(v, events).log| > 0
    ensures var h := Visited(Reached(v, events).log);
      && approval + 2 <= p <= j && FreshlyPlanned(h, p)
      && h[approval] == WAIT_HIGH_RISK_APPROVALS
      && (forall k :: p < k <= j + 1 ==> Executes(h[k]))
      && (forall i :: 0 <= i <= j && h[i] == WAIT_REPLAN_CONFIRMATION ==> i + 2 <= p)
  {
    LinearHistory(v, events);
    p, approval := ExecutionIsGated(v, Visited(Reached(v, events).log), j + 1);
  }

  // ----- Replay -----

  /** The candidate set and the decision at a cursor are written once, the history is only
      appended to, every decision lies in the set it was taken from, and every ordinary
      transition takes the action decided at its cursor; the only others are the two that
      confirmed the task, moves into the drain and recorded model failures. */
  lemma ReplayIsDeterministic(v: GraphVersion, events: seq<Event>, more: seq<Event>)
    ensures var a, b := Reached(v, events), Reached(v, events + more);
      && a.log <= b.log
      && (forall c :: c in a.candidates ==> c in b.candidates && b.candidates[c] == a.candidates[c])
      && (forall c :: c in a.decisions ==> c in b.decisions && b.decisions[c] == a.decisions[c])
      && (forall c :: c in b.decisions ==> c in b.candidates && Holds(b.candidates[c], b.decisions[c]))
      && (forall i :: 0 <= i < |b.log| ==> Explained(b.log[i], b.candidates, b.decisions))
  {
    ReachedHolds(v, events);
    ReachedHolds(v, events + more);
    RunJoins(Begin(v), events, more);
    RunKeeps(Run(Begin(v), events), more);
  }

  predicate CarriesOut(l: Local) {
    l.Decided? || (l.Executed? && l.cause == Ordinary)
  }

  /** Two workers that carry out the ordinary work of one cursor carry out the same action. */
  lemma OneActionPerCursor(v: GraphVersion, events: seq<Event>, p: nat, q: nat)
    requires var s := Run(Begin(v), events);
      CarriesOut(LocalOf(s, p)) && CarriesOut(LocalOf(s, q)) && LocalOf(s, p).ctx.cursor == LocalOf(s, q).ctx.cursor
    ensures var s := Run(Begin(v), events); LocalOf(s, p).action == LocalOf(s, q).action
  {
    hide Run, LinearLog, FencesRise, AllExplained, Within;
    ReachedHolds(v, events);
    var s := Run(Begin(v), events);
    var c := LocalOf(s, p).ctx.cursor;
    assert LocalInv(s.db, s.locals[p]) && LocalInv(s.db, s.locals[q]);
    assert WellShaped(s.db.candidates[c]);
  }

  // ----- The replan budget -----

  /** The action an ordinary transition took. */
  function TakenAction(t: Transition, candidates: map<nat, ActionSet>): Option<AllowedAction> {
    if t.cause == Ordinary && t.cursor > 0 && t.cursor - 1 in candidates
    then ActionById(candidates[t.cursor - 1].actions, t.action) else None
  }

  predicate IsRepair(t: Transition, candidates: map<nat, ActionSet>) {
    var a := TakenAction(t, candidates);
    a.Some? && IsLowRiskReplan(a.value.graphKind)
  }

  function Repairs(log: seq<Transition>, candidates: map<nat, ActionSet>): nat {
    if log == [] then 0
    else Repairs(log[..|log|-1], candidates) + if IsRepair(log[|log|-1], candidates) then 1 else 0
  }

  ghost predicate Counted(db: Db) {
    db.replans == Repairs(db.log, db.candidates)
  }

  lemma {:induction false} RepairsKept(log: seq<Transition>, a: map<nat, ActionSet>, b: map<nat, ActionSet>,
                                       d: map<nat, Decision>)
    requires AllExplained(log, a, d)
    requires forall c :: c in a ==> c in b && b[c] == a[c]
    ensures Repairs(log, a) == Repairs(log, b)
  {
    if log != [] {
      RepairsKept(log[..|log|-1], a, b, d);
      assert Explained(log[|log|-1], a, d);
    }
  }

  lemma MemberFound(actions: seq<AllowedAction>, a: AllowedAction)
    requires a in actions
    requires forall i, j :: 0 <= i < j < |actions| ==> actions[i].id != actions[j].id
    ensures ActionById(actions, a.id) == Some(a)
  {
  }

  /** A commit counts exactly when it takes a repair action. */
  lemma {:induction false} CommitCounts(db: Db, c: Context, a: AllowedAction, pause: bool, cause: Cause)
    requires DbInv(db) && LocalInv(db, Executed(c, a, pause, cause)) && Counted(db)
    requires Commit(db, c, a, pause, cause).Ok?
    ensures Counted(Commit(db, c, a, pause, cause).value)
  {
    hide LinearLog, FencesRise, DecisionsHold, AllExplained, Commit;
    CommitWrites(db, c, a, pause, cause);
    var t := CommitEntry(c, a, cause);
    assert (db.log + [t])[..|db.log|] == db.log;
    if cause == Ordinary {
      assert WellShaped(db.candidates[c.cursor]);
      MemberFound(db.candidates[c.cursor].actions, a);
    } else {
      TerminateRequestLeadsToDrain(db.version, c.node, a);
    }
  }

  /** Events that append no transition leave the count alone. */
  lemma SameLogCounts(a: Db, b: Db)
    requires DbInv(a) && Grows(a, b) && a.log == b.log && a.cursor == b.cursor && Counted(a)
    ensures Counted(b)
  {
    RepairsKept(a.log, a.candidates, b.candidates, a.decisions);
  }

  lemma StepCounts(s: Sys, e: Event)
    requires Inv(s) && Counted(s.db)
    ensures Counted(Step(s, e).db)
  {
    hide DbInv, LocalInv, Counted;
    StepKeeps(s, e);
    var t := Step(s, e).db;
    if e.ECommit? && LocalOf(s, e.p).Executed? && Step(s, e) != s {
      var l := LocalOf(s, e.p);
      assert LocalInv(s.db, l);
      CommitCounts(s.db, l.ctx, l.action, l.pause, l.cause);
    } else if e.EBlock? && Step(s, e) != s {
      BlockCounts(s.db, LocalOf(s, e.p).ctx);
    } else {
      LogUnchanged(s, e);
      SameLogCounts(s.db, t);
    }
  }

  lemma BlockCounts(db: Db, c: Context)
    requires DbInv(db) && BlockModelFailure(db, c).Ok? && Counted(db)
    ensures Counted(BlockModelFailure(db, c).value)
  {
  }

  lemma LogUnchanged(s: Sys, e: Event)
    requires (e.ECommit? && LocalOf(s, e.p).Executed?) || e.EBlock? ==> Step(s, e) == s
    ensures var t := Step(s, e).db; t.log == s.db.log && t.cursor == s.db.cursor && t.node == s.db.node
  {
    hide Decide, LegalPath, Offers, HasCoarsePhase, Commit, BlockModelFailure;
  }

  lemma {:induction false} RunCounts(v: GraphVersion, events: seq<Event>)
    ensures Counted(Reached(v, events))
  {
    if events == [] {
      var log := Start(v).log;
      assert log[..1] == [log[0]] && log[..1][..0] == [];
      assert !IsRepair(log[0], map[]) && !IsRepair(log[1], map[]);
      assert Repairs(log[..1], map[]) == 0;
    } else {
      var n := |events| - 1;
      RunCounts(v, events[..n]);
      ReachedHolds(v, events[..n]);
      StepCounts(Run(Begin(v), events[..n]), events[n]);
    }
  }

  /** The budget is read in one transaction and drawn on in a later one, yet no history holds
      more than three repair moves, and the stored count is their number. */
  lemma ReplanBudgetHolds(v: GraphVersion, events: seq<Event>)
    ensures var db := Reached(v, events); db.replans == Repairs(db.log, db.candidates) <= REPLAN_BUDGET
  {
    RunCounts(v, events);
    ReachedHolds(v, events);
  }

  // ----- Superseded workers -----

  function Actor(e: Event): Option<nat> {
    if e.ERequestTermination? || e.EDecideGate? then None else Some(e.p)
  }

  /** Every lease token in use was issued by a claim. */
  ghost predicate TokensIssued(s: Sys) {
    && (s.db.lease.Some? ==> s.db.lease.value.token in s.db.issued)
    && (forall p :: p in s.locals && !s.locals[p].Idle? ==> s.locals[p].ctx.lease.token in s.db.issued)
  }

  lemma {:induction false} StepIssues(s: Sys, e: Event)
    requires TokensIssued(s)
    ensures TokensIssued(Step(s, e)) && s.db.issued <= Step(s, e).db.issued
  {
    hide Step;
    LeaseChanges(s, e);
    OthersKeepSnapshots(s, e);
    if Actor(e).Some? {
      SnapshotLease(s, e);
    }
  }

  /** An event keeps the lease, drops it or installs one with a new token. */
  lemma {:induction false} LeaseChanges(s: Sys, e: Event)
    ensures LeaseMoves(s.db, Step(s, e).db, if e.EClaim? then Some(e.lease) else None)
  {
    if e.ECommit? {
      hide Commit;
      var l := LocalOf(s, e.p);
      if l.Executed? && Commit(s.db, l.ctx, l.action, l.pause, l.cause).Ok? {
        CommitWrites(s.db, l.ctx, l.action, l.pause, l.cause);
      }
    } else {
      hide Commit, Decide, LegalPath, Offers, HasCoarsePhase;
    }
  }

  predicate LeaseMoves(a: Db, b: Db, claimed: Option<Lease>) {
    || (b.issued == a.issued && (b.lease == a.lease || b.lease == None))
    || (claimed.Some? && claimed.value.token !in a.issued && b.lease == claimed &&
        b.issued == a.issued + {claimed.value.token})
  }

  lemma OthersKeepSnapshots(s: Sys, e: Event)
    ensures forall q :: q in Step(s, e).locals && Some(q) != Actor(e) ==>
      q in s.locals && Step(s, e).locals[q] == s.locals[q]
  {
  }

  /** A worker's snapshot keeps its lease, or is taken anew by a claim. */
  lemma SnapshotLease(s: Sys, e: Event)
    requires Actor(e).Some?
    ensures var l, m := LocalOf(s, e.p), LocalOf(Step(s, e), e.p);
      || m.Idle? || (!l.Idle? && m.ctx.lease == l.ctx.lease)
      || (e.EClaim? && m.ctx.lease.token in Step(s, e).db.issued)
  {
  }

  /** A lease that was issued and is no longer held is never held again. */
  lemma {:induction false} LeaseNeverReturns(s: Sys, events: seq<Event>, lease: Lease)
    requires TokensIssued(s) && lease.token in s.db.issued && s.db.lease != Some(lease)
    ensures TokensIssued(Run(s, events)) && lease.token in Run(s, events).db.issued
    ensures Run(s, events).db.lease != Some(lease)
  {
    if events != [] {
      var n := |events| - 1;
      LeaseNeverReturns(s, events[..n], lease);
      StepIssues(Run(s, events[..n]), events[n]);
      LeaseChanges(Run(s, events[..n]), events[n]);
    }
  }

  /** Rows that differ in write-once facts at one cursor, and in nothing else. */
  ghost predicate OnlyFactsAt(a: Db, b: Db, cursor: nat) {
    && b == a.(candidates := b.candidates, decisions := b.decisions)
    && a.candidates.Keys <= b.candidates.Keys <= a.candidates.Keys + {cursor}
    && a.decisions.Keys <= b.decisions.Keys <= a.decisions.Keys + {cursor}
    && (forall c :: c in a.candidates ==> b.candidates[c] == a.candidates[c])
    && (forall c :: c in a.decisions ==> b.decisions[c] == a.decisions[c])
  }

  lemma UnfencedStep(s: Sys, e: Event, p: nat)
    requires Actor(e) == Some(p) && !LocalOf(s, p).Idle? && s.db.lease != Some(LocalOf(s, p).ctx.lease)
    ensures OnlyFactsAt(s.db, Step(s, e).db, LocalOf(s, p).ctx.cursor)
  {
    if e.EFreeze? || e.ERecordDecision? {
      UnfencedFact(s, e, p);
    } else {
      UnfencedEnd(s, e, p);
    }
  }

  lemma UnfencedEnd(s: Sys, e: Event, p: nat)
    requires Actor(e) == Some(p) && !e.EFreeze? && !e.ERecordDecision?
    requires !LocalOf(s, p).Idle? && s.db.lease != Some(LocalOf(s, p).ctx.lease)
    ensures Step(s, e).db == s.db
  {
    hide Decide, LegalPath, Offers, HasCoarsePhase, Freeze, RecordDecision, Move, Settle, RecordTransition;
  }

  lemma UnfencedFact(s: Sys, e: Event, p: nat)
    requires Actor(e) == Some(p) && (e.EFreeze? || e.ERecordDecision?)
    requires !LocalOf(s, p).Idle?
    ensures OnlyFactsAt(s.db, Step(s, e).db, LocalOf(s, p).ctx.cursor)
  {
    hide Commit, BlockModelFailure, FailRun, Claim;
  }

  lemma {:induction false} RunIssues(v: GraphVersion, events: seq<Event>)
    ensures TokensIssued(Run(Begin(v), events))
  {
    if events != [] {
      RunIssues(v, events[..|events|-1]);
      StepIssues(Run(Begin(v), events[..|events|-1]), events[|events|-1]);
    }
  }

  /** Once a worker has lost its claim, no later step it takes under that claim changes the node,
      the cursor, a status, the lock, the log or the replan count: at most it adds a candidate
      set or a decision at the cursor of its snapshot, and it changes no recorded fact. */
  lemma {:induction false} SupersededWorkerIsHarmless(v: GraphVersion, events: seq<Event>, more: seq<Event>, p: nat, e: Event)
    requires var s := Run(Begin(v), events); !LocalOf(s, p).Idle? && s.db.lease != Some(LocalOf(s, p).ctx.lease)
    requires !LocalOf(Run(Begin(v), events + more), p).Idle?
    requires LocalOf(Run(Begin(v), events + more), p).ctx.lease == LocalOf(Run(Begin(v), events), p).ctx.lease
    requires Actor(e) == Some(p)
    ensures var t := Run(Begin(v), events + more);
      OnlyFactsAt(t.db, Step(t, e).db, LocalOf(t, p).ctx.cursor)
  {
    RunIssues(v, events);
    RunJoins(Begin(v), events, more);
    LeaseNeverReturns(Run(Begin(v), events), more, LocalOf(Run(Begin(v), events), p).ctx.lease);
    UnfencedStep(Run(Begin(v), events + more), e, p);
  }
}
