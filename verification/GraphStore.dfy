/** The durable rows of one graph run and the transactions over them.

    `Db` is the value of the rows; each transaction is a function from rows to rows that either
    commits or fails and leaves them unchanged.  The class `GraphRows` carries out the same
    transactions in place. */
module GraphStore {
  import opened Actions
  import opened GraphDefinition
  import opened Guards
  import opened Wrappers

  datatype RunStatus = Running | WaitingHuman | Blocked | Terminating | Completed | Terminated | Failed

  datatype Lease = Lease(worker: nat, token: nat)

  /** What wrote a transition: the confirmation of the task, an ordinary commit, the commit of a
      termination request, or a recorded model failure. */
  datatype Cause = Confirmation | Ordinary | TerminateRequest | ModelFailure

  datatype Transition = Transition(
    cursor: nat, from: Node, to: Node, action: ActionId, fencing: nat, cause: Cause)

  datatype Db = Db(
    version: GraphVersion,
    node: Node,
    cursor: nat,
    runStatus: RunStatus,
    graphStatus: RunStatus,
    taskStatus: RunStatus,
    replans: nat,
    terminationRequested: bool,
    lockHeld: bool,
    lease: Option<Lease>,
    attempts: nat,
    issued: set<nat>,
    log: seq<Transition>,
    candidates: map<nat, ActionSet>,
    decisions: map<nat, Decision>)

  datatype Fault =
    | NothingToClaim | StaleFencing | StaleCursor | SchoolLockMissing | FactConflict
    | NotFound | OutsideCandidateSet | NoCoarsePhase | NotAHumanGate

  /** A worker's snapshot, taken when it claims the run. */
  datatype Context = Context(lease: Lease, attempt: nat, node: Node, cursor: nat)

  predicate Fenced(db: Db, c: Context) {
    db.lease == Some(c.lease) && db.attempts == c.attempt
  }

  predicate SnapshotCurrent(db: Db, c: Context) {
    db.node == c.node && db.cursor == c.cursor
  }

  // ----- Write-once facts and the cursor -----

  function RecordCandidateSet(db: Db, cursor: nat, s: ActionSet): Result<Db, Fault> {
    if db.cursor != cursor then Err(StaleCursor)
    else if cursor in db.candidates then
      if db.candidates[cursor].actions != s.actions then Err(FactConflict) else Ok(db)
    else Ok(db.(candidates := db.candidates[cursor := s]))
  }

  function RecordDecision(db: Db, cursor: nat, d: Decision): Result<Db, Fault> {
    if cursor !in db.candidates then Err(NotFound)
    else if cursor in db.decisions then Err(FactConflict)
    else if forall a :: a in db.candidates[cursor].actions ==> a.id != d.id then Err(OutsideCandidateSet)
    else Ok(db.(decisions := db.decisions[cursor := d]))
  }

  function RecordTransition(db: Db, expected: nat, from: Node, to: Node, action: ActionId,
                            fencing: nat, cause: Cause): Result<Db, Fault>
  {
    if db.cursor != expected || db.node != from then Err(StaleCursor)
    else if exists i :: 0 <= i < |db.log| && db.log[i].cursor == expected + 1 then Err(FactConflict)
    else Ok(db.(log := db.log + [Transition(expected + 1, from, to, action, fencing, cause)],
                cursor := expected + 1, node := to))
  }

  // ----- Worker transactions -----

  /** Claims a running run whose lease is absent or has expired. */
  function Claim(db: Db, lease: Lease, expired: bool): Result<Db, Fault> {
    if db.runStatus != Running || (db.lease.Some? && !expired) || lease.token in db.issued
    then Err(NothingToClaim)
    else if !db.lockHeld then Err(SchoolLockMissing)
    else Ok(db.(lease := Some(lease), attempts := db.attempts + 1, issued := db.issued + {lease.token}))
  }

  function ContextOf(db: Db, lease: Lease): Context {
    Context(lease, db.attempts, db.node, db.cursor)
  }

  function Release(db: Db, c: Context): Db {
    if db.lease == Some(c.lease) then db.(lease := None) else db
  }

  /** Freezes the candidate set at the snapshot's cursor, or finds the one already frozen. */
  function Freeze(db: Db, c: Context, plan: Option<ActionSet>): Result<Db, Fault> {
    if !SnapshotCurrent(db, c) then Err(StaleCursor)
    else match plan
      case Some(s) => RecordCandidateSet(db, db.cursor, s)
      case None => if db.cursor in db.candidates then Ok(db) else Err(NotFound)
  }

  function TerminalStatus(db: Db): RunStatus {
    if db.runStatus == Terminating || db.terminationRequested then Terminated else Completed
  }

  /** The statuses and the lock after a move: a pause waits, `terminal` ends run, graph and task. */
  function Settle(db: Db, successor: Node, pause: bool): Db {
    var paused := if pause then db.(runStatus := WaitingHuman) else db;
    if successor != TERMINAL then paused
    else
      var t := TerminalStatus(paused);
      paused.(runStatus := t, graphStatus := t, taskStatus := t, lockHeld := false)
  }

  /** Run, graph and task of a live run end together, without the lock, exactly at `terminal`. */
  lemma SettleEndsTogether(db: Db, successor: Node, pause: bool)
    requires db.lockHeld && !Ended(db.runStatus) && !Ended(db.graphStatus) && !Ended(db.taskStatus)
    ensures var b := Settle(db, successor, pause);
      && (Ended(b.runStatus) <==> successor == TERMINAL) && (Ended(b.graphStatus) <==> successor == TERMINAL)
      && (Ended(b.taskStatus) <==> successor == TERMINAL) && (!b.lockHeld <==> successor == TERMINAL)
      && (successor == TERMINAL ==> b.runStatus == b.graphStatus == b.taskStatus)
      && (successor == TERMINAL && db.terminationRequested ==> b.runStatus == Terminated)
  {
  }

  predicate Ended(s: RunStatus) {
    s == Completed || s == Terminated || s == Failed
  }

  /** The move of a commit: a repair action draws on the replan budget in the same step. */
  function Move(db: Db, c: Context, a: AllowedAction, cause: Cause): Result<Db, Fault> {
    var drawn := if IsLowRiskReplan(a.graphKind) then db.(replans := db.replans + 1) else db;
    RecordTransition(drawn, c.cursor, c.node, a.successor, a.id, c.attempt, cause)
  }

  function Commit(db: Db, c: Context, a: AllowedAction, pause: bool, cause: Cause): Result<Db, Fault> {
    if !Fenced(db, c) then Err(StaleFencing)
    else if !SnapshotCurrent(db, c) then Err(StaleCursor)
    else if !db.lockHeld then Err(SchoolLockMissing)
    else
      var moved := Move(db, c, a, cause);
      if moved.Err? then moved
      else if !HasCoarsePhase(a.successor) then Err(NoCoarsePhase)
      else if pause && !MayPauseForHuman(a.successor) then Err(NotAHumanGate)
      else Ok(Release(Settle(moved.value, a.successor, pause), c))
  }

  function BlockModelFailure(db: Db, c: Context): Result<Db, Fault> {
    if !Fenced(db, c) then Err(StaleFencing)
    else if !SnapshotCurrent(db, c) then Err(StaleCursor)
    else
      var moved := RecordTransition(db, c.cursor, c.node, BLOCKED_MODEL_ERROR, BlockModelError,
                                    c.attempt, ModelFailure);
      if moved.Err? then moved
      else if !HasCoarsePhase(c.node) then Err(NoCoarsePhase)
      else Ok(Release(moved.value.(runStatus := Blocked, graphStatus := Blocked), c))
  }

  /** Ends run, graph and task as failed.  Releasing the school lock fails when it is not held, and
      then nothing is written. */
  function FailRun(db: Db, c: Context): Result<Db, Fault> {
    if !Fenced(db, c) then Err(StaleFencing)
    else if !SnapshotCurrent(db, c) then Err(StaleCursor)
    else if !db.lockHeld then Err(SchoolLockMissing)
    else Ok(Release(db.(runStatus := Failed, graphStatus := Failed, taskStatus := Failed,
                        lockHeld := false), c))
  }

  // ----- Operator transactions -----

  function RequestTermination(db: Db): Db {
    if db.runStatus == Completed || db.runStatus == Terminated then db
    else
      var resumed := if db.runStatus == WaitingHuman || db.runStatus == Blocked then Running else db.runStatus;
      db.(terminationRequested := true, runStatus := resumed)
  }

  /** A decided gate: a rejection of a rollback or replan gate asks for termination; the last
      pending gate of its kind resumes a waiting run. */
  function DecideGate(db: Db, stops: bool, last: bool): Db {
    var flagged := if stops then db.(terminationRequested := true) else db;
    if last && db.runStatus == WaitingHuman then flagged.(runStatus := Running) else flagged
  }

  /** The rows after the task was confirmed: the lock is held and the first two moves are logged. */
  function Start(v: GraphVersion): Db {
    var first := if v.RollbackV1? then LOAD_VERIFIED_MUTATIONS
                 else if v.SyncV2? then MATERIALIZE_SOURCES else INSPECT_SOURCES;
    var kind := if v.RollbackV1? then DO_LOAD_VERIFIED_MUTATIONS
                else if v.SyncV2? then DO_MATERIALIZE_SOURCES else DO_INSPECT_SOURCES;
    Db(v, first, 2, Running, Running, Running, 0, false, true, None, 0, {},
       [Transition(1, InitialNode(v), ACQUIRE_SCHOOL_LOCK, Named(DO_ACQUIRE_SCHOOL_LOCK), 0, Confirmation),
        Transition(2, ACQUIRE_SCHOOL_LOCK, first, Named(kind), 0, Confirmation)],
       map[], map[])
  }

  // ----- What each refusal means -----

  /** A set is refused at any cursor but the current one, and in place of other actions; otherwise the
      cursor has it afterwards, or the one stored first. */
  lemma CandidateSetRefusals(db: Db, cursor: nat, s: ActionSet)
    ensures var r := RecordCandidateSet(db, cursor, s);
      && (r == Err(StaleCursor) <==> db.cursor != cursor)
      && (r == Err(FactConflict) <==> db.cursor == cursor && cursor in db.candidates && db.candidates[cursor].actions != s.actions)
      && (r.Err? ==> r.error == StaleCursor || r.error == FactConflict)
      && (r.Ok? ==> cursor in r.value.candidates && r.value.candidates[cursor].actions == s.actions)
      && (r.Ok? && cursor !in db.candidates ==> r.value.candidates[cursor] == s)
  {
  }

  /** A decision is refused without a frozen set, a second time, and outside the set. */
  lemma DecisionRefusals(db: Db, cursor: nat, d: Decision)
    ensures var r := RecordDecision(db, cursor, d);
      && (r == Err(NotFound) <==> cursor !in db.candidates)
      && (r == Err(FactConflict) <==> cursor in db.candidates && cursor in db.decisions)
      && (r.Ok? <==> cursor in db.candidates && cursor !in db.decisions && exists a :: a in db.candidates[cursor].actions && a.id == d.id)
      && (r.Err? ==> r.error == NotFound || r.error == FactConflict || r.error == OutsideCandidateSet)
      && (r.Ok? ==> cursor in r.value.decisions && r.value.decisions[cursor] == d)
  {
  }

  /** Freezing is refused away from the snapshot's place, without a set to freeze or find, and for other
      actions than the frozen ones. */
  lemma FreezeRefusals(db: Db, c: Context, plan: Option<ActionSet>)
    ensures var r, current := Freeze(db, c, plan), db.node == c.node && db.cursor == c.cursor;
      && (r == Err(StaleCursor) <==> !current)
      && (r == Err(NotFound) <==> current && plan.None? && c.cursor !in db.candidates)
      && (r == Err(FactConflict) <==>
            current && plan.Some? && c.cursor in db.candidates && db.candidates[c.cursor].actions != plan.value.actions)
      && (r.Err? ==> r.error == StaleCursor || r.error == NotFound || r.error == FactConflict)
      && (r.Ok? && plan.None? ==> r.value == db)
  {
  }

  /** A move is refused from any node or cursor but the current one, and when the log has one already. */
  lemma TransitionRefusals(db: Db, expected: nat, from: Node, to: Node, action: ActionId, fencing: nat, cause: Cause)
    ensures var r := RecordTransition(db, expected, from, to, action, fencing, cause);
      var t := Transition(expected + 1, from, to, action, fencing, cause);
      && (r == Err(StaleCursor) <==> db.cursor != expected || db.node != from)
      && (r == Err(FactConflict) <==> db.cursor == expected && db.node == from && exists x :: x in db.log && x.cursor == expected + 1)
      && (r.Err? ==> r.error == StaleCursor || r.error == FactConflict)
      && (r.Ok? ==> r.value == db.(log := db.log + [t], cursor := expected + 1, node := to))
  {
    if exists i :: 0 <= i < |db.log| && db.log[i].cursor == expected + 1 {
      var i :| 0 <= i < |db.log| && db.log[i].cursor == expected + 1;
      assert db.log[i] in db.log;
    }
  }

  /** Every transaction of a worker that lost its fence, its place or the lock is refused for that
      reason, the fence first. */
  lemma FencedRefusals(db: Db, c: Context, a: AllowedAction, pause: bool, cause: Cause)
    ensures var fenced, current := db.lease == Some(c.lease) && db.attempts == c.attempt, db.node == c.node && db.cursor == c.cursor;
      && (!fenced <==> Commit(db, c, a, pause, cause) == Err(StaleFencing))
      && (!fenced <==> BlockModelFailure(db, c) == Err(StaleFencing))
      && (!fenced <==> FailRun(db, c) == Err(StaleFencing))
      && (fenced && !current ==> Commit(db, c, a, pause, cause) == BlockModelFailure(db, c) == FailRun(db, c) == Err(StaleCursor))
      && (fenced && current && !db.lockHeld ==> Commit(db, c, a, pause, cause) == FailRun(db, c) == Err(SchoolLockMissing))
      && (FailRun(db, c).Ok? <==> fenced && current && db.lockHeld)
  {
  }

  // ----- The same transactions in place -----

  class GraphRows {
    const version: GraphVersion
    var node: Node
    var cursor: nat
    var runStatus: RunStatus
    var graphStatus: RunStatus
    var taskStatus: RunStatus
    var replans: nat
    var terminationRequested: bool
    var lockHeld: bool
    var lease: Option<Lease>
    var attempts: nat
    var issued: set<nat>
    var log: seq<Transition>
    var candidates: map<nat, ActionSet>
    var decisions: map<nat, Decision>

    function View(): Db
      reads this
    {
      Db(version, node, cursor, runStatus, graphStatus, taskStatus, replans, terminationRequested,
         lockHeld, lease, attempts, issued, log, candidates, decisions)
    }

    constructor (v: GraphVersion)
      ensures View() == Start(v)
    {
      version := v;
      if v.RollbackV1? {
        node := LOAD_VERIFIED_MUTATIONS;
      } else if v.SyncV2? {
        node := MATERIALIZE_SOURCES;
      } else {
        node := INSPECT_SOURCES;
      }
      cursor := 2;
      runStatus, graphStatus, taskStatus := Running, Running, Running;
      replans, terminationRequested, lockHeld := 0, false, true;
      lease, attempts, issued := None, 0, {};
      log := Start(v).log;
      candidates, decisions := map[], map[];
    }

    method DoRecordCandidateSet(at: nat, s: ActionSet) returns (r: Result<ActionSet, Fault>)
      modifies this`candidates
      ensures match RecordCandidateSet(old(View()), at, s)
        case Ok(db) => View() == db && at in db.candidates && r == Ok(db.candidates[at])
        case Err(f) => View() == old(View()) && r == Err(f)
    {
      if cursor != at {
        return Err(StaleCursor);
      }
      if at in candidates {
        if candidates[at].actions != s.actions {
          return Err(FactConflict);
        }
        return Ok(candidates[at]);
      }
      candidates := candidates[at := s];
      return Ok(s);
    }

    method DoRecordDecision(at: nat, d: Decision) returns (r: Result<Decision, Fault>)
      modifies this`decisions
      ensures match RecordDecision(old(View()), at, d)
        case Ok(db) => View() == db && r == Ok(d)
        case Err(f) => View() == old(View()) && r == Err(f)
    {
      if at !in candidates {
        return Err(NotFound);
      }
      if at in decisions {
        return Err(FactConflict);
      }
      var ids := set a | a in candidates[at].actions :: a.id;
      if d.id !in ids {
        return Err(OutsideCandidateSet);
      }
      decisions := decisions[at := d];
      return Ok(d);
    }

    method DoRecordTransition(expected: nat, from: Node, to: Node, action: ActionId, fencing: nat, cause: Cause)
        returns (r: Result<Transition, Fault>)
      modifies this`log, this`cursor, this`node
      ensures match RecordTransition(old(View()), expected, from, to, action, fencing, cause)
        case Ok(db) => View() == db && r == Ok(Transition(expected + 1, from, to, action, fencing, cause))
        case Err(f) => View() == old(View()) && r == Err(f)
    {
      if cursor != expected || node != from {
        return Err(StaleCursor);
      }
      var existing := set t | t in log :: t.cursor;
      if expected + 1 in existing {
        assert exists i :: 0 <= i < |log| && log[i].cursor == expected + 1;
        return Err(FactConflict);
      }
      assert forall i :: 0 <= i < |log| ==> log[i].cursor in existing;
      var record := Transition(expected + 1, from, to, action, fencing, cause);
      log := log + [record];
      cursor := expected + 1;
      node := to;
      return Ok(record);
    }

    method DoClaim(l: Lease, expired: bool) returns (r: Result<Context, Fault>)
      modifies this`lease, this`attempts, this`issued
      ensures match Claim(old(View()), l, expired)
        case Ok(db) => View() == db && r == Ok(ContextOf(db, l))
        case Err(f) => View() == old(View()) && r == Err(f)
    {
      if runStatus != Running || (lease.Some? && !expired) || l.token in issued {
        return Err(NothingToClaim);
      }
      if !lockHeld {
        return Err(SchoolLockMissing);
      }
      lease := Some(l);
      attempts := attempts + 1;
      issued := issued + {l.token};
      return Ok(Context(l, attempts, node, cursor));
    }

    method DoRelease(c: Context) returns (released: bool)
      modifies this`lease
      ensures View() == Release(old(View()), c)
      ensures released <==> old(lease) == Some(c.lease)
    {
      released := lease == Some(c.lease);
      if released {
        lease := None;
      }
    }

    method DoSettle(successor: Node, pause: bool)
      modifies this`runStatus, this`graphStatus, this`taskStatus, this`lockHeld
      ensures View() == Settle(old(View()), successor, pause)
    {
      if pause {
        runStatus := WaitingHuman;
      }
      if successor == TERMINAL {
        runStatus := if runStatus == Terminating || terminationRequested then Terminated else Completed;
        graphStatus, taskStatus := runStatus, runStatus;
        lockHeld := false;
      }
    }

    method DoMove(c: Context, a: AllowedAction, cause: Cause) returns (r: Result<Transition, Fault>)
      modifies this`replans, this`log, this`cursor, this`node
      ensures match Move(old(View()), c, a, cause)
        case Ok(db) => View() == db && r == Ok(Transition(c.cursor + 1, c.node, a.successor, a.id, c.attempt, cause))
        case Err(f) => View() == old(View()) && r == Err(f)
    {
      var before := replans;
      if IsLowRiskReplan(a.graphKind) {
        replans := replans + 1;
      }
      r := DoRecordTransition(c.cursor, c.node, a.successor, a.id, c.attempt, cause);
      if r.Err? {
        replans := before;
      }
    }

    method DoCommit(c: Context, a: AllowedAction, pause: bool, cause: Cause) returns (r: Result<Transition, Fault>)
      modifies this
      ensures match Commit(old(View()), c, a, pause, cause)
        case Ok(db) => View() == db && r == Ok(Transition(c.cursor + 1, c.node, a.successor, a.id, c.attempt, cause))
        case Err(f) => View() == old(View()) && r == Err(f)
    {
      hide Move, Settle, Release;
      if lease != Some(c.lease) || attempts != c.attempt {
        return Err(StaleFencing);
      }
      if node != c.node || cursor != c.cursor {
        return Err(StaleCursor);
      }
      if !lockHeld {
        return Err(SchoolLockMissing);
      }
      r := WriteCommit(c, a, pause, cause);
    }

    /** A commit that fails after its first writes is rolled back as a whole. */
    method WriteCommit(c: Context, a: AllowedAction, pause: bool, cause: Cause) returns (r: Result<Transition, Fault>)
      requires Fenced(View(), c) && SnapshotCurrent(View(), c) && lockHeld
      modifies this
      ensures match Commit(old(View()), c, a, pause, cause)
        case Ok(db) => View() == db && r == Ok(Transition(c.cursor + 1, c.node, a.successor, a.id, c.attempt, cause))
        case Err(f) => View() == old(View()) && r == Err(f)
    {
      var logBefore, replansBefore := log, replans;
      r := DoMove(c, a, cause);
      if r.Ok? {
        if !HasCoarsePhase(a.successor) || (pause && !MayPauseForHuman(a.successor)) {
          log, replans, cursor, node := logBefore, replansBefore, c.cursor, c.node;
          r := Err(if !HasCoarsePhase(a.successor) then NoCoarsePhase else NotAHumanGate);
        } else {
          DoSettle(a.successor, pause);
          var _ := DoRelease(c);
        }
      }
    }

    method DoBlockModelFailure(c: Context) returns (r: Result<Transition, Fault>)
      modifies this
      ensures match BlockModelFailure(old(View()), c)
        case Ok(db) => View() == db && 
          r == Ok(Transition(c.cursor + 1, c.node, BLOCKED_MODEL_ERROR, BlockModelError, c.attempt, ModelFailure))
        case Err(f) => View() == old(View()) && r == Err(f)
    {
      hide RecordTransition, Release, HasCoarsePhase;
      if lease != Some(c.lease) || attempts != c.attempt {
        return Err(StaleFencing);
      }
      if node != c.node || cursor != c.cursor {
        return Err(StaleCursor);
      }
      var logBefore := log;
      r := DoRecordTransition(c.cursor, c.node, BLOCKED_MODEL_ERROR, BlockModelError, c.attempt, ModelFailure);
      if r.Err? || !HasCoarsePhase(c.node) {
        log, cursor, node := logBefore, c.cursor, c.node;
        return if r.Err? then r else Err(NoCoarsePhase);
      }
      runStatus, graphStatus := Blocked, Blocked;
      var _ := DoRelease(c);
    }

    method DoFailRun(c: Context) returns (r: Result<(), Fault>)
      modifies this
      ensures match FailRun(old(View()), c)
        case Ok(db) => View() == db && r == Ok(())
        case Err(f) => View() == old(View()) && r == Err(f)
    {
      if lease != Some(c.lease) || attempts != c.attempt {
        return Err(StaleFencing);
      }
      if node != c.node || cursor != c.cursor {
        return Err(StaleCursor);
      }
      if !lockHeld {
        return Err(SchoolLockMissing);
      }
      runStatus, graphStatus, taskStatus := Failed, Failed, Failed;
      lockHeld := false;
      var _ := DoRelease(c);
      return Ok(());
    }

    /** Freezes a candidate set for a worker's snapshot and reads the decision already taken on it. */
    method DoFreeze(c: Context, plan: Option<ActionSet>) returns (r: Result<(ActionSet, Option<Decision>, nat), Fault>)
      modifies this`candidates
      ensures match Freeze(old(View()), c, plan)
        case Ok(db) => View() == db && c.cursor in db.candidates && r == Ok((db.candidates[c.cursor],
          if c.cursor in db.decisions then Some(db.decisions[c.cursor]) else None, db.replans))
        case Err(f) => View() == old(View()) && r == Err(f)
    {
      if node != c.node || cursor != c.cursor {
        return Err(StaleCursor);
      }
      if plan.Some? {
        var recorded := DoRecordCandidateSet(cursor, plan.value);
        if recorded.Err? {
          return Err(recorded.error);
        }
      } else if cursor !in candidates {
        return Err(NotFound);
      }
      return Ok((candidates[cursor], if cursor in decisions then Some(decisions[cursor]) else None, replans));
    }
  }
}
