/** Many workers over one graph run.

    A worker handles a claim in several separate transactions.  Each event below is one of them,
    or one step a worker takes on its own snapshot between them; a run of the system is any
    sequence of events.  The candidate provider, the supervisor and the executor are arbitrary:
    what they return is part of the event.  A worker can fail, release or vanish at any point. */
module Worker {
  import opened Actions
  import opened GraphDefinition
  import opened GraphStore
  import opened Guards
  import opened Wrappers

  /** What a worker holds between its transactions. */
  datatype Local =
    | Idle
    | Claimed(ctx: Context)
    | Ordinarily(ctx: Context)
    | ToTerminate(ctx: Context)
    | Planned(ctx: Context, stored: bool, offer: ActionSet)
    | Frozen(ctx: Context, offer: ActionSet, known: Option<Decision>, replansSeen: nat)
    | Chosen(ctx: Context, action: AllowedAction, decision: Decision)
    | Decided(ctx: Context, action: AllowedAction)
    | TerminateChosen(ctx: Context, action: AllowedAction)
    | Executed(ctx: Context, action: AllowedAction, pause: bool, cause: Cause)

  datatype Sys = Sys(db: Db, locals: map<nat, Local>)

  datatype Outcome = Outcome(id: ActionId, evidence: set<Ref>, pause: bool)

  datatype Event =
    | EClaim(p: nat, lease: Lease, expired: bool)
    | ECheckTermination(p: nat)
    | EPlan(p: nat, offer: ActionSet)
    | EFreeze(p: nat)
    | EDecide(p: nat, supervised: Decision)
    | ERecordDecision(p: nat)
    | EPlanTermination(p: nat, offer: ActionSet)
    | EExecute(p: nat, outcome: Outcome)
    | ECommit(p: nat)
    | EBlock(p: nat)
    | EFail(p: nat)
    | ERelease(p: nat)
    | ECrash(p: nat)
    | ERequestTermination
    | EDecideGate(stops: bool, last: bool)

  function LocalOf(s: Sys, p: nat): Local {
    if p in s.locals then s.locals[p] else Idle
  }

  function Become(s: Sys, p: nat, l: Local): Sys {
    s.(locals := s.locals[p := l])
  }

  /** The nodes at which a termination request no longer changes the path. */
  predicate WindsDown(n: Node) {
    n == DRAIN_CURRENT_ATOMIC_UNIT || n == TERMINATION_REPORT || n == TERMINAL
  }

  /** What the candidate provider promises: a well-shaped set with evidence for every action and
      no termination request once the run is winding down. */
  ghost predicate Offers(n: Node, s: ActionSet) {
    && WellShaped(s)
    && (forall a :: a in s.actions ==> a.evidence != [])
    && (WindsDown(n) ==> forall a :: a in s.actions ==> EffectiveKind(a) != Some(DO_TERMINATE_REQUESTED))
  }

  function ActionById(actions: seq<AllowedAction>, id: ActionId): (r: Option<AllowedAction>)
    ensures r.Some? ==> r.value in actions && r.value.id == id
    ensures r.None? ==> forall a :: a in actions ==> a.id != id
  {
    if actions == [] then None
    else if actions[0].id == id then Some(actions[0])
    else ActionById(actions[1..], id)
  }

  /** The decision a worker takes on its frozen set, if its checks let it take one. */
  ghost function Decide(c: Context, offer: ActionSet, known: Option<Decision>, supervised: Decision): Option<Decision> {
    if known.Some? then
      if Accepts(offer, known.value) then known else None
    else if KindOf(c.node) == DecisionNode && !(|offer.actions| == 1 && offer.reason.Some?) then
      if Accepts(offer, supervised) then Some(supervised) else None
    else if |offer.actions| == 1 && offer.actions[0].evidence != [] then
      Some(DeterministicDecision(offer.actions[0]))
    else None
  }

  predicate OverBudget(a: AllowedAction, replans: nat) {
    IsLowRiskReplan(a.graphKind) && Disposition(replans, false) == ModelErrorBlocked
  }

  ghost function AfterDecide(v: GraphVersion, l: Local, supervised: Decision): Local
    requires l.Frozen?
  {
    var d := Decide(l.ctx, l.offer, l.known, supervised);
    if d.None? then l
    else
      var a := ActionById(l.offer.actions, d.value.id);
      if a.None? || !LegalPath(v, l.ctx.node, a.value) || OverBudget(a.value, l.replansSeen) then l
      else if l.known.Some? then Decided(l.ctx, a.value)
      else Chosen(l.ctx, a.value, d.value)
  }

  predicate Fulfils(a: AllowedAction, o: Outcome) {
    o.id == a.id && forall r :: r in o.evidence ==> r in a.evidence
  }

  function Adopt(s: Sys, p: nat, r: Result<Db, Fault>, onSuccess: Local): Sys {
    match r
    case Ok(db) => Become(s.(db := db), p, onSuccess)
    case Err(_) => s
  }

  /** One event.  An event that does not apply, and a transaction that fails, change nothing. */
  ghost function Step(s: Sys, e: Event): Sys {
    match e
    case EClaim(p, lease, expired) =>
      if !LocalOf(s, p).Idle? then s
      else
        var r := Claim(s.db, lease, expired);
        if r.Err? then s else Become(s.(db := r.value), p, Claimed(ContextOf(r.value, lease)))
    case ECheckTermination(p) =>
      var l := LocalOf(s, p);
      if !l.Claimed? then s
      else if !WindsDown(l.ctx.node) && s.db.terminationRequested then Become(s, p, ToTerminate(l.ctx))
      else Become(s, p, Ordinarily(l.ctx))
    case EPlan(p, offer) =>
      var l := LocalOf(s, p);
      if !l.Ordinarily? then s
      else if l.ctx.cursor in s.db.candidates then
        Become(s, p, Planned(l.ctx, true, s.db.candidates[l.ctx.cursor]))
      else if !Offers(l.ctx.node, offer) then s
      else Become(s, p, Planned(l.ctx, false, offer))
    case EFreeze(p) =>
      var l := LocalOf(s, p);
      if !l.Planned? then s
      else
        var r := Freeze(s.db, l.ctx, if l.stored then None else Some(l.offer));
        if r.Err? then s
        else
          var known := if l.ctx.cursor in r.value.decisions then Some(r.value.decisions[l.ctx.cursor]) else None;
          Become(s.(db := r.value), p, Frozen(l.ctx, l.offer, known, r.value.replans))
    case EDecide(p, supervised) =>
      var l := LocalOf(s, p);
      if !l.Frozen? then s else Become(s, p, AfterDecide(s.db.version, l, supervised))
    case ERecordDecision(p) =>
      var l := LocalOf(s, p);
      if !l.Chosen? then s
      else Adopt(s, p, RecordDecision(s.db, l.ctx.cursor, l.decision), Decided(l.ctx, l.action))
    case EPlanTermination(p, offer) =>
      var l := LocalOf(s, p);
      if !l.ToTerminate? || |offer.actions| != 1 then s
      else
        var a := offer.actions[0];
        if !IsTerminateRequest(a) || !LegalPath(s.db.version, l.ctx.node, a) then s
        else Become(s, p, TerminateChosen(l.ctx, a))
    case EExecute(p, outcome) =>
      var l := LocalOf(s, p);
      if !(l.Decided? || l.TerminateChosen?) || !Fulfils(l.action, outcome) then s
      else Become(s, p, Executed(l.ctx, l.action, outcome.pause,
                                 if l.Decided? then Ordinary else TerminateRequest))
    case ECommit(p) =>
      var l := LocalOf(s, p);
      if !l.Executed? then s
      else Adopt(s, p, Commit(s.db, l.ctx, l.action, l.pause, l.cause), Idle)
    case EBlock(p) =>
      var l := LocalOf(s, p);
      if l.Idle? then s else Adopt(s, p, BlockModelFailure(s.db, l.ctx), Idle)
    case EFail(p) =>
      var l := LocalOf(s, p);
      if l.Idle? then s else Adopt(s, p, FailRun(s.db, l.ctx), Idle)
    case ERelease(p) =>
      var l := LocalOf(s, p);
      if l.Idle? then s else Become(s.(db := Release(s.db, l.ctx)), p, Idle)
    case ECrash(p) => Become(s, p, Idle)
    case ERequestTermination => s.(db := RequestTermination(s.db))
    case EDecideGate(stops, last) => s.(db := DecideGate(s.db, stops, last))
  }

  ghost function Run(s: Sys, events: seq<Event>): Sys {
    if events == [] then s
    else Step(Run(s, events[..|events|-1]), events[|events|-1])
  }

  function Begin(v: GraphVersion): Sys {
    Sys(Start(v), map[])
  }

  // ----- The invariant of the rows -----

  /** The log is a gap-free chain of edges from the initial node to the current node. */
  ghost predicate LinearLog(v: GraphVersion, node: Node, cursor: nat, log: seq<Transition>) {
    && |log| == cursor > 0
    && (forall i :: 0 <= i < |log| ==> log[i].cursor == i + 1)
    && log[0].from == InitialNode(v)
    && (forall i :: 0 < i < |log| ==> log[i].from == log[i-1].to)
    && log[|log|-1].to == node
    && (forall i :: 0 <= i < |log| ==> Edge(v, log[i].from, log[i].to))
  }

  /** Fencing tokens rise strictly from one worker transition to the next and stay below `bound`. */
  ghost predicate FencesRise(log: seq<Transition>, bound: nat) {
    && (forall i, j :: 0 <= i < j < |log| && log[j].cause != Confirmation ==>
          log[i].fencing < log[j].fencing)
    && (forall i :: 0 <= i < |log| ==> log[i].fencing < bound)
  }

  /** While a claim is held its fencing number is unused; afterwards it may be the last one used. */
  function FenceBound(db: Db): nat {
    if db.lease.Some? then db.attempts else db.attempts + 1
  }

  /** The node the run was at when its cursor stood at `c`. */
  function NodeAt(log: seq<Transition>, c: nat): Node
    requires 0 < c <= |log|
  {
    log[c-1].to
  }

  ghost predicate SetsHold(log: seq<Transition>, candidates: map<nat, ActionSet>) {
    forall c :: c in candidates ==> 0 < c <= |log| && Offers(NodeAt(log, c), candidates[c])
  }

  ghost predicate Holds(s: ActionSet, d: Decision) {
    exists a :: a in s.actions && a.id == d.id
  }

  ghost predicate DecisionsHold(candidates: map<nat, ActionSet>, decisions: map<nat, Decision>) {
    forall c :: c in decisions ==> c in candidates && Holds(candidates[c], decisions[c])
  }

  /** The transition takes the action the decision names, in the set it was taken from. */
  ghost predicate Takes(t: Transition, s: ActionSet, d: Decision) {
    exists a :: a in s.actions && a.id == d.id == t.action && a.successor == t.to
  }

  /** What each kind of transition is allowed to be. */
  ghost predicate Explained(t: Transition, candidates: map<nat, ActionSet>, decisions: map<nat, Decision>) {
    match t.cause
    case Confirmation => t.cursor <= 2
    case Ordinary =>
      t.cursor > 0 && t.cursor - 1 in candidates && t.cursor - 1 in decisions &&
      Takes(t, candidates[t.cursor - 1], decisions[t.cursor - 1])
    case TerminateRequest => t.to == DRAIN_CURRENT_ATOMIC_UNIT
    case ModelFailure => t.action == BlockModelError && t.to == BLOCKED_MODEL_ERROR
  }

  ghost predicate AllExplained(log: seq<Transition>, candidates: map<nat, ActionSet>, decisions: map<nat, Decision>) {
    forall i :: 0 <= i < |log| ==> Explained(log[i], candidates, decisions)
  }

  ghost predicate EndsTogether(db: Db) {
    db.node == TERMINAL ==>
      db.lease.None? && !db.lockHeld && db.runStatus == db.graphStatus == db.taskStatus &&
      (db.runStatus == Completed || db.runStatus == Terminated)
  }

  ghost predicate DbInv(db: Db) {
    && LinearLog(db.version, db.node, db.cursor, db.log)
    && FencesRise(db.log, FenceBound(db))
    && SetsHold(db.log, db.candidates)
    && DecisionsHold(db.candidates, db.decisions)
    && AllExplained(db.log, db.candidates, db.decisions)
    && EndsTogether(db)
    && db.replans <= REPLAN_BUDGET
  }

  // ----- The invariant of a worker's snapshot -----

  ghost predicate Within(db: Db, c: Context, a: AllowedAction) {
    && LegalPath(db.version, c.node, a)
    && (db.cursor == c.cursor && IsLowRiskReplan(a.graphKind) ==> db.replans < REPLAN_BUDGET)
  }

  ghost predicate FromFrozenSet(db: Db, c: Context, a: AllowedAction) {
    && c.cursor in db.candidates && a in db.candidates[c.cursor].actions
    && (WindsDown(c.node) ==> EffectiveKind(a) != Some(DO_TERMINATE_REQUESTED))
  }

  ghost predicate IsDecided(db: Db, c: Context, a: AllowedAction) {
    c.cursor in db.decisions && db.decisions[c.cursor].id == a.id
  }

  ghost predicate ContextInv(db: Db, c: Context) {
    0 < c.cursor <= |db.log| && c.cursor <= db.cursor && c.node == NodeAt(db.log, c.cursor)
  }

  ghost predicate LocalInv(db: Db, l: Local) {
    match l
    case Idle => true
    case Claimed(c) => ContextInv(db, c)
    case Ordinarily(c) => ContextInv(db, c)
    case ToTerminate(c) => ContextInv(db, c) && !WindsDown(c.node)
    case Planned(c, stored, offer) =>
      ContextInv(db, c) && Offers(c.node, offer) &&
      (stored ==> c.cursor in db.candidates && db.candidates[c.cursor] == offer)
    case Frozen(c, offer, known, seen) =>
      ContextInv(db, c) && Offers(c.node, offer) &&
      c.cursor in db.candidates && db.candidates[c.cursor].actions == offer.actions &&
      (known.Some? ==> c.cursor in db.decisions && db.decisions[c.cursor] == known.value) &&
      (db.cursor == c.cursor ==> db.replans == seen)
    case Chosen(c, a, d) =>
      ContextInv(db, c) && FromFrozenSet(db, c, a) && Within(db, c, a) && d.id == a.id
    case Decided(c, a) =>
      ContextInv(db, c) && FromFrozenSet(db, c, a) && Within(db, c, a) && IsDecided(db, c, a)
    case TerminateChosen(c, a) =>
      ContextInv(db, c) && Within(db, c, a) && IsTerminateRequest(a) && !WindsDown(c.node)
    case Executed(c, a, pause, cause) =>
      ContextInv(db, c) && Within(db, c, a) &&
      (cause == Ordinary || cause == TerminateRequest) &&
      (cause == Ordinary ==> FromFrozenSet(db, c, a) && IsDecided(db, c, a)) &&
      (cause == TerminateRequest ==> IsTerminateRequest(a) && !WindsDown(c.node))
  }

  ghost predicate Inv(s: Sys) {
    DbInv(s.db) && forall p :: p in s.locals ==> LocalInv(s.db, s.locals[p])
  }

  /** How rows may evolve: facts and the log are kept, the cursor only rises, and a standing
      cursor keeps the replan count. */
  ghost predicate Grows(a: Db, b: Db) {
    && a.version == b.version
    && a.cursor <= b.cursor
    && (a.cursor == b.cursor ==> a.replans == b.replans)
    && a.log <= b.log
    && (forall c :: c in a.candidates ==> c in b.candidates && b.candidates[c] == a.candidates[c])
    && (forall c :: c in a.decisions ==> c in b.decisions && b.decisions[c] == a.decisions[c])
  }

  lemma LocalsSurvive(a: Db, b: Db, l: Local)
    requires LocalInv(a, l) && Grows(a, b)
    ensures LocalInv(b, l)
  {
  }

  // ----- Each transaction keeps the invariant -----

  lemma StartHolds(v: GraphVersion)
    ensures Inv(Begin(v))
  {
    var db := Start(v);
    assert HasTemplate(v, InitialNode(v), DO_ACQUIRE_SCHOOL_LOCK, ACQUIRE_SCHOOL_LOCK);
    assert HasTemplate(v, ACQUIRE_SCHOOL_LOCK, db.log[1].action.kind, db.node);
  }

  /** A transaction that writes no fact, no transition and no replan count. */
  ghost predicate StatusOnly(db: Db, b: Db) {
    b == db.(runStatus := b.runStatus, graphStatus := b.graphStatus, taskStatus := b.taskStatus,
             terminationRequested := b.terminationRequested, lockHeld := b.lockHeld, lease := b.lease,
             attempts := b.attempts, issued := b.issued)
  }

  lemma StatusKeeps(db: Db, b: Db)
    requires DbInv(db) && StatusOnly(db, b) && EndsTogether(b) && FenceBound(db) <= FenceBound(b)
    ensures DbInv(b) && Grows(db, b)
  {
  }

  lemma ClaimKeeps(db: Db, lease: Lease, expired: bool)
    requires DbInv(db) && Claim(db, lease, expired).Ok?
    ensures var b := Claim(db, lease, expired).value;
      DbInv(b) && Grows(db, b) && LocalInv(b, Claimed(ContextOf(b, lease)))
  {
  }

  /** A transaction that only adds facts which hold. */
  lemma FactsKeep(db: Db, b: Db)
    requires DbInv(db) && b == db.(candidates := b.candidates, decisions := b.decisions)
    requires forall x :: x in db.candidates ==> x in b.candidates && b.candidates[x] == db.candidates[x]
    requires forall x :: x in db.decisions ==> x in b.decisions && b.decisions[x] == db.decisions[x]
    requires SetsHold(b.log, b.candidates) && DecisionsHold(b.candidates, b.decisions)
    ensures DbInv(b) && Grows(db, b)
  {
    hide LinearLog, FencesRise, SetsHold, DecisionsHold;
    FactsGrow(db.log, db.candidates, db.decisions, b.candidates, b.decisions);
  }

  lemma {:induction false} FreezeKeeps(db: Db, c: Context, stored: bool, offer: ActionSet)
    requires DbInv(db) && LocalInv(db, Planned(c, stored, offer))
    requires Freeze(db, c, if stored then None else Some(offer)).Ok?
    ensures var b := Freeze(db, c, if stored then None else Some(offer)).value; DbInv(b) && Grows(db, b)
  {
    hide LinearLog, FencesRise, AllExplained, Offers;
    FactsKeep(db, Freeze(db, c, if stored then None else Some(offer)).value);
  }

  /** What the worker holds after freezing: the set every worker finds at this cursor. */
  lemma FreezeYields(db: Db, c: Context, stored: bool, offer: ActionSet)
    requires LocalInv(db, Planned(c, stored, offer))
    requires Freeze(db, c, if stored then None else Some(offer)).Ok?
    ensures var b := Freeze(db, c, if stored then None else Some(offer)).value;
      LocalInv(b, Frozen(c, offer, if c.cursor in b.decisions then Some(b.decisions[c.cursor]) else None, b.replans))
  {
  }

  /** Explanations survive when facts are only added. */
  lemma FactsGrow(log: seq<Transition>, c: map<nat, ActionSet>, d: map<nat, Decision>,
                  c': map<nat, ActionSet>, d': map<nat, Decision>)
    requires AllExplained(log, c, d)
    requires forall x :: x in c ==> x in c' && c'[x] == c[x]
    requires forall x :: x in d ==> x in d' && d'[x] == d[x]
    ensures AllExplained(log, c', d')
  {
  }

  /** An explained log stays explained when an explained transition is appended. */
  lemma ExplainedExtends(log: seq<Transition>, t: Transition, c: map<nat, ActionSet>, d: map<nat, Decision>)
    requires AllExplained(log, c, d) && Explained(t, c, d)
    ensures AllExplained(log + [t], c, d)
  {
  }

  lemma DecideKeeps(db: Db, l: Local, supervised: Decision)
    requires DbInv(db) && l.Frozen? && LocalInv(db, l)
    ensures LocalInv(db, AfterDecide(db.version, l, supervised))
  {
    var d := Decide(l.ctx, l.offer, l.known, supervised);
    if d.Some? {
      var a := ActionById(l.offer.actions, d.value.id);
      if a.Some? {
        assert a.value in db.candidates[l.ctx.cursor].actions;
      }
    }
  }

  lemma {:induction false} RecordDecisionKeeps(db: Db, c: Context, a: AllowedAction, d: Decision)
    requires DbInv(db) && LocalInv(db, Chosen(c, a, d)) && RecordDecision(db, c.cursor, d).Ok?
    ensures var b := RecordDecision(db, c.cursor, d).value;
      DbInv(b) && Grows(db, b) && LocalInv(b, Decided(c, a))
  {
    hide LinearLog, FencesRise, AllExplained, Offers;
    var b := RecordDecision(db, c.cursor, d).value;
    assert Holds(b.candidates[c.cursor], d);
    FactsKeep(db, b);
  }

  /** A fenced move at the current snapshot extends the linear log and the rising fences. */
  lemma MoveKeepsLog(db: Db, c: Context, t: Transition)
    requires DbInv(db) && Fenced(db, c) && SnapshotCurrent(db, c)
    requires t.cursor == c.cursor + 1 && t.from == c.node && t.fencing == c.attempt
    requires Edge(db.version, c.node, t.to)
    ensures LinearLog(db.version, t.to, db.cursor + 1, db.log + [t])
    ensures FencesRise(db.log + [t], db.attempts + 1)
    ensures SetsHold(db.log + [t], db.candidates)
    ensures forall i :: 0 <= i < |db.log| ==> db.log[i].cursor != c.cursor + 1
  {
    hide AllExplained, DecisionsHold, EndsTogether, LinearLog, FencesRise;
    SetsStayHeld(db.log, t, db.candidates);
    LinearLogGrows(db.version, db.node, db.cursor, db.log, t);
    FencesGrow(db.log, db.attempts, t);
  }

  lemma LinearLogGrows(v: GraphVersion, node: Node, cursor: nat, log: seq<Transition>, t: Transition)
    requires LinearLog(v, node, cursor, log)
    requires t.cursor == cursor + 1 && t.from == node && Edge(v, node, t.to)
    ensures LinearLog(v, t.to, cursor + 1, log + [t])
    ensures forall i :: 0 <= i < |log| ==> log[i].cursor != cursor + 1
  {
    hide Edge;
  }

  lemma FencesGrow(log: seq<Transition>, attempts: nat, t: Transition)
    requires FencesRise(log, attempts) && t.fencing == attempts
    ensures FencesRise(log + [t], attempts + 1)
  {
  }

  lemma SetsStayHeld(log: seq<Transition>, t: Transition, candidates: map<nat, ActionSet>)
    requires SetsHold(log, candidates)
    ensures SetsHold(log + [t], candidates)
  {
  }

  function CommitEntry(c: Context, a: AllowedAction, cause: Cause): Transition {
    Transition(c.cursor + 1, c.node, a.successor, a.id, c.attempt, cause)
  }

  /** Rows that follow from `db` by one fenced transition and the release of the lease. */
  ghost predicate Advances(db: Db, c: Context, t: Transition, b: Db) {
    b == db.(node := t.to, cursor := t.cursor, log := db.log + [t], lease := None, replans := b.replans,
             runStatus := b.runStatus, graphStatus := b.graphStatus, taskStatus := b.taskStatus,
             lockHeld := b.lockHeld)
  }

  /** What a successful commit writes, and that it passed the fence, the snapshot and the lock. */
  lemma CommitWrites(db: Db, c: Context, a: AllowedAction, pause: bool, cause: Cause)
    requires Commit(db, c, a, pause, cause).Ok?
    ensures Fenced(db, c) && SnapshotCurrent(db, c) && db.lockHeld
    ensures var b := Commit(db, c, a, pause, cause).value;
      && Advances(db, c, CommitEntry(c, a, cause), b)
      && b.replans == db.replans + (if IsLowRiskReplan(a.graphKind) then 1 else 0)
      && EndsTogether(b)
      && (a.successor == TERMINAL && db.terminationRequested ==> b.runStatus == Terminated)
  {
  }

  /** The entry a commit appends moves along an edge and is explained by the frozen facts. */
  lemma CommitIsExplained(db: Db, c: Context, a: AllowedAction, pause: bool, cause: Cause)
    requires LocalInv(db, Executed(c, a, pause, cause)) && Declares(db.version, c.node)
    ensures Edge(db.version, c.node, a.successor)
    ensures Explained(CommitEntry(c, a, cause), db.candidates, db.decisions)
  {
  }

  lemma AdvanceKeeps(db: Db, c: Context, t: Transition, b: Db)
    requires DbInv(db) && Fenced(db, c) && SnapshotCurrent(db, c)
    requires t.cursor == c.cursor + 1 && t.from == c.node && t.fencing == c.attempt
    requires Edge(db.version, c.node, t.to) && Explained(t, db.candidates, db.decisions)
    requires Advances(db, c, t, b) && EndsTogether(b) && b.replans <= REPLAN_BUDGET
    ensures DbInv(b) && Grows(db, b)
  {
    MoveKeepsLog(db, c, t);
    ExplainedExtends(db.log, t, db.candidates, db.decisions);
  }

  lemma {:induction false} CommitKeeps(db: Db, c: Context, a: AllowedAction, pause: bool, cause: Cause)
    requires DbInv(db) && LocalInv(db, Executed(c, a, pause, cause)) && Commit(db, c, a, pause, cause).Ok?
    ensures var b := Commit(db, c, a, pause, cause).value; DbInv(b) && Grows(db, b)
  {
    CommitWrites(db, c, a, pause, cause);
    NodeIsDeclared(db);
    CommitIsExplained(db, c, a, pause, cause);
    AdvanceKeeps(db, c, CommitEntry(c, a, cause), Commit(db, c, a, pause, cause).value);
  }

  function BlockEntry(c: Context): Transition {
    Transition(c.cursor + 1, c.node, BLOCKED_MODEL_ERROR, BlockModelError, c.attempt, ModelFailure)
  }

  lemma {:induction false} BlockKeeps(db: Db, c: Context)
    requires DbInv(db) && BlockModelFailure(db, c).Ok?
    ensures var b := BlockModelFailure(db, c).value; DbInv(b) && Grows(db, b)
    ensures Fenced(db, c) && Advances(db, c, BlockEntry(c), BlockModelFailure(db, c).value)
  {
    NodeIsDeclared(db);
    AdvanceKeeps(db, c, BlockEntry(c), BlockModelFailure(db, c).value);
  }

  lemma {:induction false} NodeIsDeclared(db: Db)
    requires DbInv(db)
    ensures Declares(db.version, db.node)
  {
    var last := db.log[|db.log|-1];
    EdgesStayDeclared(db.version, last.from, last.to);
  }
}
