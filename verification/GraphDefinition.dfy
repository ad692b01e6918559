/** The three reviewed graphs and what holds along every path through them.

    A graph is a table from node to action templates.  Besides its template edges a run can
    take two more: the terminate edge into the drain node and the edge into the blocked node
    that records a model failure. */
module GraphDefinition {
  import opened Paths

  datatype GraphVersion = SyncV1 | SyncV2 | RollbackV1

  datatype NodeKind =
    DecisionNode | SubAgentNode | DeterministicNode | HumanGateNode | ReportNode | TerminalNode

  /** Node identifiers, numbered; the numbers carry no meaning. */
  newtype Node = n: int | 0 <= n < 35

  const INTENT_CONFIRMED: Node := 0
  const ACQUIRE_SCHOOL_LOCK: Node := 1
  const MATERIALIZE_SOURCES: Node := 2
  const INSPECT_SOURCES: Node := 3
  const NORMALIZE_INPUT_BATCHES: Node := 4
  const VALIDATE_INPUT_CONTRACT: Node := 5
  const ABNORMAL_INPUT_REPORT: Node := 6
  const BUILD_IDENTITY_INDEX: Node := 7
  const CONSTRUCT_IDENTITY_WORK: Node := 8
  const ANALYZE_ACTIONABLE_BATCHES: Node := 9
  const REPAIR_ANALYSIS_BATCH: Node := 10
  const RESOLVE_IDENTITY_CONFLICTS: Node := 11
  const AGGREGATE_RISK: Node := 12
  const WAIT_HIGH_RISK_APPROVALS: Node := 13
  const COMPILE_EXECUTION_PLAN: Node := 14
  const PREFLIGHT_EXECUTION: Node := 15
  const WAIT_REPLAN_CONFIRMATION: Node := 16
  const EXECUTE_READY_OPERATIONS: Node := 17
  const VERIFY_OPERATIONS: Node := 18
  const EXECUTE_REMAINING_INDEPENDENT: Node := 19
  const GENERATE_TERMINAL_REPORT: Node := 20
  const ROLLBACK_INTENT_CONFIRMED: Node := 21
  const LOAD_VERIFIED_MUTATIONS: Node := 22
  const ASSESS_RESTORE_IMPACT: Node := 23
  const WAIT_RESTORE_CONFLICTS: Node := 24
  const WAIT_ROLLBACK_APPROVAL: Node := 25
  const COMPILE_RESTORE_PLAN: Node := 26
  const PREFLIGHT_RESTORE: Node := 27
  const EXECUTE_RESTORE_OPERATIONS: Node := 28
  const VERIFY_RESTORE_OPERATIONS: Node := 29
  const GENERATE_ROLLBACK_REPORT: Node := 30
  const DRAIN_CURRENT_ATOMIC_UNIT: Node := 31
  const TERMINATION_REPORT: Node := 32
  const BLOCKED_MODEL_ERROR: Node := 33
  const TERMINAL: Node := 34

  /** Action kinds, numbered; the numbers carry no meaning. */
  newtype ActionKind = n: int | 0 <= n < 43

  const DO_ACQUIRE_SCHOOL_LOCK: ActionKind := 0
  const DO_MATERIALIZE_SOURCES: ActionKind := 1
  const DO_MATERIALIZE_REMOTE_AUTHORITY: ActionKind := 2
  const DO_INSPECT_SOURCES: ActionKind := 3
  const DO_INSPECT_AUTHORITY: ActionKind := 4
  const DO_INSPECT_TARGET: ActionKind := 5
  const DO_NORMALIZE_READY_SOURCES: ActionKind := 6
  const DO_NORMALIZE_NEXT_BATCH: ActionKind := 7
  const DO_VALIDATE_NORMALIZED_INPUT: ActionKind := 8
  const DO_REPORT_ABNORMAL_INPUT: ActionKind := 9
  const DO_FINISH_ABNORMAL_REPORT: ActionKind := 10
  const DO_BUILD_IDENTITY_INDEX: ActionKind := 11
  const DO_CONSTRUCT_IDENTITY_WORK: ActionKind := 12
  const DO_ANALYZE_NEXT_BATCH: ActionKind := 13
  const DO_REPAIR_ANALYSIS_BATCH: ActionKind := 14
  const DO_RESOLVE_IDENTITY_CONFLICTS: ActionKind := 15
  const DO_RESUME_ANALYSIS: ActionKind := 16
  const DO_ENTER_AGGREGATE_RISK: ActionKind := 17
  const DO_AGGREGATE_RISK: ActionKind := 18
  const DO_COMPILE_EXECUTION_PLAN: ActionKind := 19
  const DO_PREFLIGHT_EXECUTION: ActionKind := 20
  const DO_REQUEST_CROSS_PHASE_REPLAN: ActionKind := 21
  const DO_EXECUTE_READY_OPERATIONS: ActionKind := 22
  const DO_VERIFY_OPERATIONS: ActionKind := 23
  const DO_EXECUTE_REMAINING_INDEPENDENT: ActionKind := 24
  const DO_GENERATE_TERMINAL_REPORT: ActionKind := 25
  const DO_FINISH_TERMINAL_REPORT: ActionKind := 26
  const DO_LOAD_VERIFIED_MUTATIONS: ActionKind := 27
  const DO_ASSESS_RESTORE_IMPACT: ActionKind := 28
  const DO_WAIT_ROLLBACK_APPROVAL: ActionKind := 29
  const DO_COMPILE_RESTORE_PLAN: ActionKind := 30
  const DO_PREFLIGHT_RESTORE: ActionKind := 31
  const DO_EXECUTE_RESTORE_OPERATIONS: ActionKind := 32
  const DO_VERIFY_RESTORE_OPERATIONS: ActionKind := 33
  const DO_GENERATE_ROLLBACK_REPORT: ActionKind := 34
  const DO_FINISH_ROLLBACK_REPORT: ActionKind := 35
  const DO_TERMINATION_REPORT: ActionKind := 36
  const DO_FINISH_TERMINATION_REPORT: ActionKind := 37
  const DO_TERMINATE_BLOCKED_RUN: ActionKind := 38
  const DO_TERMINATE_REQUESTED: ActionKind := 39
  const DO_REREAD_SOURCE_PAGE: ActionKind := 40
  const DO_RENORMALIZE_INPUT_BATCH: ActionKind := 41
  const DO_REGENERATE_REPORT_NARRATIVE: ActionKind := 42

  /** The class of a node; only decision nodes may consult the model supervisor. */
  function KindOf(n: Node): NodeKind {
    match n
    case INSPECT_SOURCES | NORMALIZE_INPUT_BATCHES | ANALYZE_ACTIONABLE_BATCHES | PREFLIGHT_EXECUTION
       | EXECUTE_READY_OPERATIONS | VERIFY_OPERATIONS | EXECUTE_REMAINING_INDEPENDENT => DecisionNode
    case REPAIR_ANALYSIS_BATCH | RESOLVE_IDENTITY_CONFLICTS | ASSESS_RESTORE_IMPACT
       | EXECUTE_RESTORE_OPERATIONS => SubAgentNode
    case WAIT_HIGH_RISK_APPROVALS | WAIT_REPLAN_CONFIRMATION | WAIT_RESTORE_CONFLICTS
       | WAIT_ROLLBACK_APPROVAL | BLOCKED_MODEL_ERROR => HumanGateNode
    case ABNORMAL_INPUT_REPORT | GENERATE_TERMINAL_REPORT | GENERATE_ROLLBACK_REPORT
       | TERMINATION_REPORT => ReportNode
    case TERMINAL => TerminalNode
    case _ => DeterministicNode
  }

  /** Templates of the nodes that close every graph. */
  predicate ClosingTemplate(n: Node, kind: ActionKind, m: Node) {
    || (n == DRAIN_CURRENT_ATOMIC_UNIT && kind == DO_TERMINATION_REPORT && m == TERMINATION_REPORT)
    || (n == TERMINATION_REPORT && kind == DO_FINISH_TERMINATION_REPORT && m == TERMINAL)
    || (n == BLOCKED_MODEL_ERROR && kind == DO_TERMINATE_BLOCKED_RUN && m == DRAIN_CURRENT_ATOMIC_UNIT)
  }

  /** The template table of the first sync graph: node, action kind, successor. */
  predicate SyncV1Template(n: Node, kind: ActionKind, m: Node) {
    || (n == INTENT_CONFIRMED && kind == DO_ACQUIRE_SCHOOL_LOCK && m == ACQUIRE_SCHOOL_LOCK)
    || (n == ACQUIRE_SCHOOL_LOCK && kind == DO_INSPECT_SOURCES && m == INSPECT_SOURCES)
    || (n == INSPECT_SOURCES &&
        ((kind == DO_INSPECT_AUTHORITY && m == INSPECT_SOURCES) ||
         (kind == DO_INSPECT_TARGET && m == INSPECT_SOURCES) ||
         (kind == DO_NORMALIZE_READY_SOURCES && m == NORMALIZE_INPUT_BATCHES)))
    || (n == NORMALIZE_INPUT_BATCHES &&
        ((kind == DO_NORMALIZE_NEXT_BATCH && m == NORMALIZE_INPUT_BATCHES) ||
         (kind == DO_VALIDATE_NORMALIZED_INPUT && m == VALIDATE_INPUT_CONTRACT)))
    || (n == VALIDATE_INPUT_CONTRACT &&
        ((kind == DO_REPORT_ABNORMAL_INPUT && m == ABNORMAL_INPUT_REPORT) ||
         (kind == DO_BUILD_IDENTITY_INDEX && m == BUILD_IDENTITY_INDEX)))
    || (n == ABNORMAL_INPUT_REPORT && kind == DO_FINISH_ABNORMAL_REPORT && m == TERMINAL)
    || (n == BUILD_IDENTITY_INDEX && kind == DO_BUILD_IDENTITY_INDEX && m == CONSTRUCT_IDENTITY_WORK)
    || (n == CONSTRUCT_IDENTITY_WORK && kind == DO_CONSTRUCT_IDENTITY_WORK && m == ANALYZE_ACTIONABLE_BATCHES)
    || (n == ANALYZE_ACTIONABLE_BATCHES &&
        ((kind == DO_ANALYZE_NEXT_BATCH && m == ANALYZE_ACTIONABLE_BATCHES) ||
         (kind == DO_REPAIR_ANALYSIS_BATCH && m == REPAIR_ANALYSIS_BATCH) ||
         (kind == DO_RESOLVE_IDENTITY_CONFLICTS && m == RESOLVE_IDENTITY_CONFLICTS) ||
         (kind == DO_ENTER_AGGREGATE_RISK && m == AGGREGATE_RISK)))
    || (n == REPAIR_ANALYSIS_BATCH && kind == DO_REPAIR_ANALYSIS_BATCH && m == ANALYZE_ACTIONABLE_BATCHES)
    || (n == RESOLVE_IDENTITY_CONFLICTS && kind == DO_RESUME_ANALYSIS && m == ANALYZE_ACTIONABLE_BATCHES)
    || (n == AGGREGATE_RISK && kind == DO_AGGREGATE_RISK && m == WAIT_HIGH_RISK_APPROVALS)
    || (n == WAIT_HIGH_RISK_APPROVALS && kind == DO_COMPILE_EXECUTION_PLAN && m == COMPILE_EXECUTION_PLAN)
    || (n == COMPILE_EXECUTION_PLAN && kind == DO_PREFLIGHT_EXECUTION && m == PREFLIGHT_EXECUTION)
    || (n == PREFLIGHT_EXECUTION &&
        ((kind == DO_REQUEST_CROSS_PHASE_REPLAN && m == WAIT_REPLAN_CONFIRMATION) ||
         (kind == DO_EXECUTE_READY_OPERATIONS && m == EXECUTE_READY_OPERATIONS)))
    || (n == WAIT_REPLAN_CONFIRMATION && kind == DO_COMPILE_EXECUTION_PLAN && m == COMPILE_EXECUTION_PLAN)
    || (n == EXECUTE_READY_OPERATIONS && kind == DO_VERIFY_OPERATIONS && m == VERIFY_OPERATIONS)
    || (n == VERIFY_OPERATIONS &&
        ((kind == DO_EXECUTE_REMAINING_INDEPENDENT && m == EXECUTE_REMAINING_INDEPENDENT) ||
         (kind == DO_GENERATE_TERMINAL_REPORT && m == GENERATE_TERMINAL_REPORT)))
    || (n == EXECUTE_REMAINING_INDEPENDENT && kind == DO_VERIFY_OPERATIONS && m == VERIFY_OPERATIONS)
    || (n == GENERATE_TERMINAL_REPORT && kind == DO_FINISH_TERMINAL_REPORT && m == TERMINAL)
    || ClosingTemplate(n, kind, m)
  }

  /** The second sync graph is the first with the lock node redirected and one node added. */
  predicate SyncV2Template(n: Node, kind: ActionKind, m: Node) {
    if n == ACQUIRE_SCHOOL_LOCK then kind == DO_MATERIALIZE_SOURCES && m == MATERIALIZE_SOURCES
    else if n == MATERIALIZE_SOURCES then kind == DO_MATERIALIZE_REMOTE_AUTHORITY && m == INSPECT_SOURCES
    else SyncV1Template(n, kind, m)
  }

  predicate RollbackV1Template(n: Node, kind: ActionKind, m: Node) {
    || (n == ROLLBACK_INTENT_CONFIRMED && kind == DO_ACQUIRE_SCHOOL_LOCK && m == ACQUIRE_SCHOOL_LOCK)
    || (n == ACQUIRE_SCHOOL_LOCK && kind == DO_LOAD_VERIFIED_MUTATIONS && m == LOAD_VERIFIED_MUTATIONS)
    || (n == LOAD_VERIFIED_MUTATIONS && kind == DO_ASSESS_RESTORE_IMPACT && m == ASSESS_RESTORE_IMPACT)
    || (n == ASSESS_RESTORE_IMPACT && kind == DO_ASSESS_RESTORE_IMPACT && m == WAIT_RESTORE_CONFLICTS)
    || (n == WAIT_RESTORE_CONFLICTS && kind == DO_WAIT_ROLLBACK_APPROVAL && m == WAIT_ROLLBACK_APPROVAL)
    || (n == WAIT_ROLLBACK_APPROVAL && kind == DO_COMPILE_RESTORE_PLAN && m == COMPILE_RESTORE_PLAN)
    || (n == COMPILE_RESTORE_PLAN && kind == DO_PREFLIGHT_RESTORE && m == PREFLIGHT_RESTORE)
    || (n == PREFLIGHT_RESTORE && kind == DO_EXECUTE_RESTORE_OPERATIONS && m == EXECUTE_RESTORE_OPERATIONS)
    || (n == EXECUTE_RESTORE_OPERATIONS && kind == DO_VERIFY_RESTORE_OPERATIONS && m == VERIFY_RESTORE_OPERATIONS)
    || (n == VERIFY_RESTORE_OPERATIONS && kind == DO_GENERATE_ROLLBACK_REPORT && m == GENERATE_ROLLBACK_REPORT)
    || (n == GENERATE_ROLLBACK_REPORT && kind == DO_FINISH_ROLLBACK_REPORT && m == TERMINAL)
    || ClosingTemplate(n, kind, m)
  }

  predicate HasTemplate(v: GraphVersion, n: Node, kind: ActionKind, m: Node) {
    match v
    case SyncV1 => SyncV1Template(n, kind, m)
    case SyncV2 => SyncV2Template(n, kind, m)
    case RollbackV1 => RollbackV1Template(n, kind, m)
  }

  predicate IsClosing(n: Node) {
    n == DRAIN_CURRENT_ATOMIC_UNIT || n == TERMINATION_REPORT || n == BLOCKED_MODEL_ERROR || n == TERMINAL
  }

  predicate InRollback(n: Node) {
    n == ROLLBACK_INTENT_CONFIRMED || n == LOAD_VERIFIED_MUTATIONS || n == ASSESS_RESTORE_IMPACT
    || n == WAIT_RESTORE_CONFLICTS || n == WAIT_ROLLBACK_APPROVAL || n == COMPILE_RESTORE_PLAN
    || n == PREFLIGHT_RESTORE || n == EXECUTE_RESTORE_OPERATIONS || n == VERIFY_RESTORE_OPERATIONS
    || n == GENERATE_ROLLBACK_REPORT
  }

  /** The nodes a graph declares. */
  predicate Declares(v: GraphVersion, n: Node) {
    match v
    case SyncV1 => !InRollback(n) && n != MATERIALIZE_SOURCES
    case SyncV2 => !InRollback(n)
    case RollbackV1 => InRollback(n) || n == ACQUIRE_SCHOOL_LOCK || IsClosing(n)
  }

  function InitialNode(v: GraphVersion): Node {
    if v.RollbackV1? then ROLLBACK_INTENT_CONFIRMED else INTENT_CONFIRMED
  }

  /** The nodes whose run phase is defined; a commit into any other node is refused. */
  predicate HasCoarsePhase(n: Node) {
    n != INTENT_CONFIRMED && n != ACQUIRE_SCHOOL_LOCK && n != ROLLBACK_INTENT_CONFIRMED && n != BLOCKED_MODEL_ERROR
  }

  predicate MayPauseForHuman(n: Node) {
    n == RESOLVE_IDENTITY_CONFLICTS || n == WAIT_HIGH_RISK_APPROVALS || n == WAIT_REPLAN_CONFIRMATION
    || n == WAIT_RESTORE_CONFLICTS || n == WAIT_ROLLBACK_APPROVAL || n == BLOCKED_MODEL_ERROR
  }

  // ----- Edges and runs -----

  ghost predicate TemplateEdge(v: GraphVersion, a: Node, b: Node) {
    exists kind :: HasTemplate(v, a, kind, b)
  }

  predicate TerminateEdge(v: GraphVersion, a: Node, b: Node) {
    Declares(v, a) && a != TERMINAL && b == DRAIN_CURRENT_ATOMIC_UNIT
  }

  /** A model failure is recorded only where the failed node has a phase and the run is live. */
  predicate BlockEdge(v: GraphVersion, a: Node, b: Node) {
    Declares(v, a) && HasCoarsePhase(a) && a != TERMINAL && b == BLOCKED_MODEL_ERROR
  }

  ghost predicate Edge(v: GraphVersion, a: Node, b: Node) {
    TemplateEdge(v, a, b) || TerminateEdge(v, a, b) || BlockEdge(v, a, b)
  }

  ghost predicate IsRun(v: GraphVersion, h: seq<Node>) {
    IsPath((a, b) => Edge(v, a, b), h) && h[0] == InitialNode(v)
  }

  lemma EdgesStayDeclared(v: GraphVersion, a: Node, b: Node)
    requires Edge(v, a, b)
    ensures Declares(v, a) && Declares(v, b)
  {
  }

  /** Every node a run visits is declared by its graph. */
  lemma RunNodesAreDeclared(v: GraphVersion, h: seq<Node>, i: nat)
    requires IsRun(v, h) && i < |h|
    ensures Declares(v, h[i])
  {
    forall a, b | Edge(v, a, b) && Declares(v, a) ensures Declares(v, b) {
      EdgesStayDeclared(v, a, b);
    }
    NeverLeft((a, b) => Edge(v, a, b), h, n => Declares(v, n), 0, i);
  }

  // ----- Synchronisation runs -----

  predicate Executes(n: Node) {
    n == EXECUTE_READY_OPERATIONS || n == VERIFY_OPERATIONS || n == EXECUTE_REMAINING_INDEPENDENT
  }

  predicate Planned(n: Node) {
    Executes(n) || n == WAIT_REPLAN_CONFIRMATION || n == COMPILE_EXECUTION_PLAN || n == PREFLIGHT_EXECUTION
  }

  lemma OnlyPreflightEntersExecution(v: GraphVersion, a: Node, b: Node)
    requires Edge(v, a, b) && Executes(b) && !Executes(a)
    ensures a == PREFLIGHT_EXECUTION
  {
  }

  lemma OnlyCompileEntersPreflight(v: GraphVersion, a: Node)
    requires Edge(v, a, PREFLIGHT_EXECUTION)
    ensures a == COMPILE_EXECUTION_PLAN
  {
  }

  lemma OnlyGatesEnterCompile(v: GraphVersion, a: Node)
    requires Edge(v, a, COMPILE_EXECUTION_PLAN)
    ensures a == WAIT_HIGH_RISK_APPROVALS || a == WAIT_REPLAN_CONFIRMATION
  {
  }

  lemma OnlyApprovalEntersPlanning(v: GraphVersion, a: Node, b: Node)
    requires Edge(v, a, b) && Planned(b) && !Planned(a)
    ensures a == WAIT_HIGH_RISK_APPROVALS
  {
  }

  /** Position `p` closes a gate, compile, preflight sequence. */
  predicate FreshlyPlanned(h: seq<Node>, p: int) {
    2 <= p < |h| && h[p] == PREFLIGHT_EXECUTION && h[p-1] == COMPILE_EXECUTION_PLAN &&
    (h[p-2] == WAIT_HIGH_RISK_APPROVALS || h[p-2] == WAIT_REPLAN_CONFIRMATION)
  }

  /** Execution is reached only through the approval gate and a fresh compile and preflight;
      after a replan gate the compile and preflight both come later than that gate. */
  lemma ExecutionIsGated(v: GraphVersion, h: seq<Node>, j: nat) returns (p: nat, approval: nat)
    requires IsRun(v, h) && j < |h| && Executes(h[j])
    ensures p < j && FreshlyPlanned(h, p)
    ensures forall k :: p < k <= j ==> Executes(h[k])
    ensures approval <= p - 2 && h[approval] == WAIT_HIGH_RISK_APPROVALS
    ensures forall i :: 0 <= i < j && h[i] == WAIT_REPLAN_CONFIRMATION ==> i <= p - 2
  {
    var edge := (a, b) => Edge(v, a, b);
    forall a, b | edge(a, b) && Executes(b) && !Executes(a) ensures a == PREFLIGHT_EXECUTION {
      OnlyPreflightEntersExecution(v, a, b);
    }
    p := LastEntry(edge, h, n => Executes(n), PREFLIGHT_EXECUTION, j);
    assert edge(h[p-1], h[p]);
    OnlyCompileEntersPreflight(v, h[p-1]);
    assert edge(h[p-2], h[p-1]);
    OnlyGatesEnterCompile(v, h[p-2]);
    forall a, b | edge(a, b) && Planned(b) && !Planned(a) ensures a == WAIT_HIGH_RISK_APPROVALS {
      OnlyApprovalEntersPlanning(v, a, b);
    }
    approval := LastEntry(edge, h, n => Planned(n), WAIT_HIGH_RISK_APPROVALS, p);
  }

  // ----- TERMINAL and drain -----

  lemma OnlyReportsEnterTerminal(v: GraphVersion, a: Node)
    requires Edge(v, a, TERMINAL)
    ensures KindOf(a) == ReportNode
  {
  }

  lemma NothingLeavesTerminal(v: GraphVersion, b: Node)
    ensures !Edge(v, TERMINAL, b)
  {
  }

  lemma ClosingStaysClosing(v: GraphVersion, a: Node, b: Node)
    requires Edge(v, a, b) && IsClosing(a)
    ensures IsClosing(b)
  {
  }

  /** A run enters `terminal` only from a report node and never leaves it. */
  lemma TerminalClosesTheRun(v: GraphVersion, h: seq<Node>, i: nat)
    requires IsRun(v, h) && i < |h| && h[i] == TERMINAL
    ensures i == |h| - 1 > 0
    ensures KindOf(h[i-1]) == ReportNode
  {
    var edge := (a, b) => Edge(v, a, b);
    if i + 1 < |h| {
      assert edge(h[i], h[i+1]);
      NothingLeavesTerminal(v, h[i+1]);
    }
    assert edge(h[i-1], h[i]);
    OnlyReportsEnterTerminal(v, h[i-1]);
  }

  /** Once a run drains or blocks it does no further work. */
  lemma NoWorkAfterDrain(v: GraphVersion, h: seq<Node>, i: nat, j: nat)
    requires IsRun(v, h) && i <= j < |h|
    requires h[i] == DRAIN_CURRENT_ATOMIC_UNIT || h[i] == BLOCKED_MODEL_ERROR
    ensures IsClosing(h[j])
  {
    forall a, b | Edge(v, a, b) && IsClosing(a) ensures IsClosing(b) {
      ClosingStaysClosing(v, a, b);
    }
    NeverLeft((a, b) => Edge(v, a, b), h, n => IsClosing(n), i, j);
  }

  // ----- Rollback runs -----

  const RESTORE_CHAIN: seq<Node> :=
    [ROLLBACK_INTENT_CONFIRMED, ACQUIRE_SCHOOL_LOCK, LOAD_VERIFIED_MUTATIONS, ASSESS_RESTORE_IMPACT,
     WAIT_RESTORE_CONFLICTS, WAIT_ROLLBACK_APPROVAL, COMPILE_RESTORE_PLAN, PREFLIGHT_RESTORE,
     EXECUTE_RESTORE_OPERATIONS, VERIFY_RESTORE_OPERATIONS, GENERATE_ROLLBACK_REPORT]

  lemma ChainEntersInOrder(a: Node, k: nat)
    requires k < |RESTORE_CHAIN| && Edge(RollbackV1, a, RESTORE_CHAIN[k])
    ensures k > 0 && a == RESTORE_CHAIN[k-1]
  {
  }

  /** A rollback run at the k-th working node has visited exactly the chain up to it, once each. */
  lemma {:induction false} RestoreVisitsChainOnce(h: seq<Node>, j: nat, k: nat)
    requires IsRun(RollbackV1, h) && j < |h| && k < |RESTORE_CHAIN| && h[j] == RESTORE_CHAIN[k]
    ensures j == k && h[..j+1] == RESTORE_CHAIN[..k+1]
  {
    if j > 0 {
      var edge := (a, b) => Edge(RollbackV1, a, b);
      assert edge(h[j-1], h[j]);
      ChainEntersInOrder(h[j-1], k);
      RestoreVisitsChainOnce(h, j - 1, k - 1);
      assert h[..j+1] == h[..j] + [h[j]];
      assert RESTORE_CHAIN[..k+1] == RESTORE_CHAIN[..k] + [RESTORE_CHAIN[k]];
    }
  }

  // ----- Erasing source materialisation -----

  /** The run without its visits to the materialisation node. */
  function Erase(h: seq<Node>): (r: seq<Node>) {
    if h == [] then []
    else
      var last := h[|h|-1];
      if last == MATERIALIZE_SOURCES then Erase(h[..|h|-1]) else Erase(h[..|h|-1]) + [last]
  }

  /** A v2 run that records a model failure straight at the materialisation node. */
  predicate BlocksAtMaterialize(h: seq<Node>) {
    exists i :: 0 < i < |h| && h[i-1] == MATERIALIZE_SOURCES && h[i] == BLOCKED_MODEL_ERROR
  }

  lemma V2EdgeAwayFromMaterialize(a: Node, b: Node)
    requires Edge(SyncV2, a, b) && a != MATERIALIZE_SOURCES && b != MATERIALIZE_SOURCES
    ensures Edge(SyncV1, a, b)
  {
    if TemplateEdge(SyncV2, a, b) {
      var kind :| HasTemplate(SyncV2, a, kind, b);
      assert HasTemplate(SyncV1, a, kind, b);
    }
  }

  lemma V2EdgesAtMaterialize(a: Node, b: Node)
    ensures Edge(SyncV2, a, MATERIALIZE_SOURCES) ==> a == ACQUIRE_SCHOOL_LOCK
    ensures Edge(SyncV2, MATERIALIZE_SOURCES, b) ==>
      b == INSPECT_SOURCES || b == DRAIN_CURRENT_ATOMIC_UNIT || b == BLOCKED_MODEL_ERROR
  {
  }

  lemma V1EdgesFromLock(b: Node)
    ensures Edge(SyncV1, ACQUIRE_SCHOOL_LOCK, b) <==> b == INSPECT_SOURCES || b == DRAIN_CURRENT_ATOMIC_UNIT
  {
    assert HasTemplate(SyncV1, ACQUIRE_SCHOOL_LOCK, DO_INSPECT_SOURCES, INSPECT_SOURCES);
  }

  lemma PathPrefix(v: GraphVersion, h: seq<Node>, n: nat)
    requires IsRun(v, h) && 0 < n <= |h|
    ensures IsRun(v, h[..n])
  {
  }

  lemma {:induction false} ErasedEnd(h: seq<Node>)
    requires IsRun(SyncV2, h)
    ensures |Erase(h)| > 0
    ensures Erase(h)[|Erase(h)|-1] ==
      if h[|h|-1] == MATERIALIZE_SOURCES then ACQUIRE_SCHOOL_LOCK else h[|h|-1]
  {
  }

  /** Erasing one more step keeps the erased run legal exactly when the step does not block
      at the materialisation node. */
  lemma {:induction false} ErasedStep(h: seq<Node>)
    requires IsRun(SyncV2, h) && |h| > 1
    ensures IsRun(SyncV1, Erase(h)) <==>
      IsRun(SyncV1, Erase(h[..|h|-1])) &&
      !(h[|h|-2] == MATERIALIZE_SOURCES && h[|h|-1] == BLOCKED_MODEL_ERROR)
  {
    var v1 := (a, b) => Edge(SyncV1, a, b);
    var v2 := (a, b) => Edge(SyncV2, a, b);
    var front, last := h[..|h|-1], h[|h|-1];
    PathPrefix(SyncV2, h, |h| - 1);
    ErasedEnd(front);
    assert v2(h[|h|-2], last);
    var e, f := Erase(h), Erase(front);
    if last != MATERIALIZE_SOURCES {
      var end := f[|f|-1];
      assert e == f + [last] && end == e[|e|-2];
      if h[|h|-2] == MATERIALIZE_SOURCES {
        V2EdgesAtMaterialize(h[|h|-2], last);
        V1EdgesFromLock(last);
      } else {
        V2EdgeAwayFromMaterialize(h[|h|-2], last);
      }
      if IsRun(SyncV1, e) {
        assert v1(e[|e|-2], e[|e|-1]);
        PathPrefix(SyncV1, e, |f|);
        assert e[..|f|] == f;
      }
    }
  }

  /** Erasing the materialisation node turns a v2 run into a v1 run, except that a v1 run cannot
      record a model failure at the lock node, which is where such a v2 failure would land. */
  lemma {:induction false} ErasureIsV1Run(h: seq<Node>)
    requires IsRun(SyncV2, h)
    ensures IsRun(SyncV1, Erase(h)) <==> !BlocksAtMaterialize(h)
  {
    var n := |h|;
    if n > 1 {
      var front := h[..n-1];
      PathPrefix(SyncV2, h, n - 1);
      ErasureIsV1Run(front);
      ErasedStep(h);
      assert BlocksAtMaterialize(h) <==>
        BlocksAtMaterialize(front) || (h[n-2] == MATERIALIZE_SOURCES && h[n-1] == BLOCKED_MODEL_ERROR) by {
        if BlocksAtMaterialize(front) {
          var i :| 0 < i < |front| && front[i-1] == MATERIALIZE_SOURCES && front[i] == BLOCKED_MODEL_ERROR;
          assert h[i-1] == MATERIALIZE_SOURCES && h[i] == BLOCKED_MODEL_ERROR;
        }
        if BlocksAtMaterialize(h) {
          var i :| 0 < i < n && h[i-1] == MATERIALIZE_SOURCES && h[i] == BLOCKED_MODEL_ERROR;
          if i < n - 1 {
            assert front[i-1] == MATERIALIZE_SOURCES && front[i] == BLOCKED_MODEL_ERROR;
          }
        }
      }
    } else {
      assert Erase(h[..0]) == [];
      assert Erase(h) == h;
    }
  }

  /** A v2 run that does block there, and so erases to no v1 run. */
  lemma BlockedMaterialisationIsNoV1Run() returns (h: seq<Node>)
    ensures h == [INTENT_CONFIRMED, ACQUIRE_SCHOOL_LOCK, MATERIALIZE_SOURCES, BLOCKED_MODEL_ERROR]
    ensures IsRun(SyncV2, h) && !IsRun(SyncV1, Erase(h))
  {
    h := [INTENT_CONFIRMED, ACQUIRE_SCHOOL_LOCK, MATERIALIZE_SOURCES, BLOCKED_MODEL_ERROR];
    assert HasTemplate(SyncV2, h[0], DO_ACQUIRE_SCHOOL_LOCK, h[1]);
    assert HasTemplate(SyncV2, h[1], DO_MATERIALIZE_SOURCES, h[2]);
    assert IsRun(SyncV2, h);
    assert h[2] == MATERIALIZE_SOURCES && h[3] == BLOCKED_MODEL_ERROR;
    ErasureIsV1Run(h);
  }
}
