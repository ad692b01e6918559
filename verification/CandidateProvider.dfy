/** The candidate provider: the actions it projects from durable facts at each node, and the
    candidate list it hands to the worker. */
module CandidateProvider {
  import opened Actions
  import opened Distinctness
  import opened GraphDefinition
  import opened GraphStore
  import opened Guards
  import opened Wrappers
  import Execution = ExecutionLoop
  import Intake = Ingestion
  import Worker

  // ----- Templates -----

  datatype Shape = Plain | Dispatch(agent: SubAgentName, risk: Risk) | Wait | End

  datatype Template = Template(kind: ActionKind, successor: Node, shape: Shape)

  function FromTemplate(t: Template): AllowedAction {
    var id := Named(t.kind);
    match t.shape
    case Plain => AllowedAction(id, Some(t.kind), RunDeterministic, None, [RuntimeOf(id)], [ResultOf(id)], Low, false, t.successor)
    case Dispatch(agent, risk) =>
      AllowedAction(id, Some(t.kind), DispatchSubAgent, Some(agent), [RuntimeOf(id)], [ResultOf(id)], risk, false, t.successor)
    case Wait => AllowedAction(id, Some(t.kind), WaitHuman, None, [RuntimeOf(id)], [ResultOf(id)], High, true, t.successor)
    case End => AllowedAction(id, Some(t.kind), Terminate, None, [RuntimeOf(id)], [ResultOf(id)], Low, false, t.successor)
  }

  function ClosingTemplates(n: Node): seq<Template> {
    match n
    case DRAIN_CURRENT_ATOMIC_UNIT => [Template(DO_TERMINATION_REPORT, TERMINATION_REPORT, Plain)]
    case TERMINATION_REPORT => [Template(DO_FINISH_TERMINATION_REPORT, TERMINAL, Dispatch(Reporting, Low))]
    case BLOCKED_MODEL_ERROR => [Template(DO_TERMINATE_BLOCKED_RUN, DRAIN_CURRENT_ATOMIC_UNIT, End)]
    case _ => []
  }

  function SyncTemplates(n: Node): seq<Template> {
    match n
    case INTENT_CONFIRMED => [Template(DO_ACQUIRE_SCHOOL_LOCK, ACQUIRE_SCHOOL_LOCK, Plain)]
    case ACQUIRE_SCHOOL_LOCK => [Template(DO_INSPECT_SOURCES, INSPECT_SOURCES, Plain)]
    case INSPECT_SOURCES =>
      [Template(DO_INSPECT_AUTHORITY, INSPECT_SOURCES, Dispatch(SourceInspectionAgent, Low)),
       Template(DO_INSPECT_TARGET, INSPECT_SOURCES, Dispatch(SourceInspectionAgent, Low)),
       Template(DO_NORMALIZE_READY_SOURCES, NORMALIZE_INPUT_BATCHES, Plain)]
    case NORMALIZE_INPUT_BATCHES =>
      [Template(DO_NORMALIZE_NEXT_BATCH, NORMALIZE_INPUT_BATCHES, Dispatch(InputNormalization, Low)),
       Template(DO_VALIDATE_NORMALIZED_INPUT, VALIDATE_INPUT_CONTRACT, Plain)]
    case VALIDATE_INPUT_CONTRACT =>
      [Template(DO_REPORT_ABNORMAL_INPUT, ABNORMAL_INPUT_REPORT, Plain),
       Template(DO_BUILD_IDENTITY_INDEX, BUILD_IDENTITY_INDEX, Plain)]
    case ABNORMAL_INPUT_REPORT => [Template(DO_FINISH_ABNORMAL_REPORT, TERMINAL, Dispatch(Reporting, Low))]
    case BUILD_IDENTITY_INDEX => [Template(DO_BUILD_IDENTITY_INDEX, CONSTRUCT_IDENTITY_WORK, Plain)]
    case CONSTRUCT_IDENTITY_WORK => [Template(DO_CONSTRUCT_IDENTITY_WORK, ANALYZE_ACTIONABLE_BATCHES, Plain)]
    case ANALYZE_ACTIONABLE_BATCHES =>
      [Template(DO_ANALYZE_NEXT_BATCH, ANALYZE_ACTIONABLE_BATCHES, Dispatch(ReconciliationAnalysis, Low)),
       Template(DO_REPAIR_ANALYSIS_BATCH, REPAIR_ANALYSIS_BATCH, Dispatch(ReconciliationAnalysis, Low)),
       Template(DO_RESOLVE_IDENTITY_CONFLICTS, RESOLVE_IDENTITY_CONFLICTS, Wait),
       Template(DO_ENTER_AGGREGATE_RISK, AGGREGATE_RISK, Plain)]
    case REPAIR_ANALYSIS_BATCH =>
      [Template(DO_REPAIR_ANALYSIS_BATCH, ANALYZE_ACTIONABLE_BATCHES, Dispatch(ReconciliationAnalysis, Low))]
    case RESOLVE_IDENTITY_CONFLICTS => [Template(DO_RESUME_ANALYSIS, ANALYZE_ACTIONABLE_BATCHES, Plain)]
    case AGGREGATE_RISK => [Template(DO_AGGREGATE_RISK, WAIT_HIGH_RISK_APPROVALS, Plain)]
    case WAIT_HIGH_RISK_APPROVALS => [Template(DO_COMPILE_EXECUTION_PLAN, COMPILE_EXECUTION_PLAN, Plain)]
    case COMPILE_EXECUTION_PLAN => [Template(DO_PREFLIGHT_EXECUTION, PREFLIGHT_EXECUTION, Plain)]
    case PREFLIGHT_EXECUTION =>
      [Template(DO_REQUEST_CROSS_PHASE_REPLAN, WAIT_REPLAN_CONFIRMATION, Wait),
       Template(DO_EXECUTE_READY_OPERATIONS, EXECUTE_READY_OPERATIONS, Plain)]
    case WAIT_REPLAN_CONFIRMATION => [Template(DO_COMPILE_EXECUTION_PLAN, COMPILE_EXECUTION_PLAN, Plain)]
    case EXECUTE_READY_OPERATIONS =>
      [Template(DO_VERIFY_OPERATIONS, VERIFY_OPERATIONS, Dispatch(GovernanceExecution, High))]
    case VERIFY_OPERATIONS =>
      [Template(DO_EXECUTE_REMAINING_INDEPENDENT, EXECUTE_REMAINING_INDEPENDENT, Dispatch(GovernanceExecution, High)),
       Template(DO_GENERATE_TERMINAL_REPORT, GENERATE_TERMINAL_REPORT, Plain)]
    case EXECUTE_REMAINING_INDEPENDENT =>
      [Template(DO_VERIFY_OPERATIONS, VERIFY_OPERATIONS, Dispatch(GovernanceExecution, High))]
    case GENERATE_TERMINAL_REPORT => [Template(DO_FINISH_TERMINAL_REPORT, TERMINAL, Dispatch(Reporting, Low))]
    case _ => ClosingTemplates(n)
  }

  function RollbackTemplates(n: Node): seq<Template> {
    match n
    case ROLLBACK_INTENT_CONFIRMED => [Template(DO_ACQUIRE_SCHOOL_LOCK, ACQUIRE_SCHOOL_LOCK, Plain)]
    case ACQUIRE_SCHOOL_LOCK => [Template(DO_LOAD_VERIFIED_MUTATIONS, LOAD_VERIFIED_MUTATIONS, Plain)]
    case LOAD_VERIFIED_MUTATIONS =>
      [Template(DO_ASSESS_RESTORE_IMPACT, ASSESS_RESTORE_IMPACT, Dispatch(RollbackAnalysis, Low))]
    case ASSESS_RESTORE_IMPACT =>
      [Template(DO_ASSESS_RESTORE_IMPACT, WAIT_RESTORE_CONFLICTS, Dispatch(RollbackAnalysis, High))]
    case WAIT_RESTORE_CONFLICTS => [Template(DO_WAIT_ROLLBACK_APPROVAL, WAIT_ROLLBACK_APPROVAL, Wait)]
    case WAIT_ROLLBACK_APPROVAL => [Template(DO_COMPILE_RESTORE_PLAN, COMPILE_RESTORE_PLAN, Plain)]
    case COMPILE_RESTORE_PLAN => [Template(DO_PREFLIGHT_RESTORE, PREFLIGHT_RESTORE, Plain)]
    case PREFLIGHT_RESTORE => [Template(DO_EXECUTE_RESTORE_OPERATIONS, EXECUTE_RESTORE_OPERATIONS, Plain)]
    case EXECUTE_RESTORE_OPERATIONS =>
      [Template(DO_VERIFY_RESTORE_OPERATIONS, VERIFY_RESTORE_OPERATIONS, Dispatch(RollbackExecution, High))]
    case VERIFY_RESTORE_OPERATIONS => [Template(DO_GENERATE_ROLLBACK_REPORT, GENERATE_ROLLBACK_REPORT, Plain)]
    case GENERATE_ROLLBACK_REPORT => [Template(DO_FINISH_ROLLBACK_REPORT, TERMINAL, Dispatch(Reporting, Low))]
    case _ => ClosingTemplates(n)
  }

  function TemplatesOf(v: GraphVersion, n: Node): seq<Template> {
    match v
    case SyncV1 => SyncTemplates(n)
    case SyncV2 =>
      if n == ACQUIRE_SCHOOL_LOCK then [Template(DO_MATERIALIZE_SOURCES, MATERIALIZE_SOURCES, Plain)]
      else if n == MATERIALIZE_SOURCES then [Template(DO_MATERIALIZE_REMOTE_AUTHORITY, INSPECT_SOURCES, Plain)]
      else SyncTemplates(n)
    case RollbackV1 => RollbackTemplates(n)
  }

  /** The vocabulary of the provider is exactly the vocabulary of the reviewed graph. */
  lemma TemplatesMatchTheGraph(v: GraphVersion, n: Node, kind: ActionKind, m: Node)
    ensures HasTemplate(v, n, kind, m) <==>
      exists i :: 0 <= i < |TemplatesOf(v, n)| && TemplatesOf(v, n)[i].kind == kind && TemplatesOf(v, n)[i].successor == m
  {
    FourSlots(v, n, kind, m);
    hide TemplatesOf, HasTemplate;
  }

  /** Some template of a short list has this kind and this successor. */
  predicate Lists(t: seq<Template>, kind: ActionKind, m: Node) {
    || (|t| > 0 && t[0].kind == kind && t[0].successor == m)
    || (|t| > 1 && t[1].kind == kind && t[1].successor == m)
    || (|t| > 2 && t[2].kind == kind && t[2].successor == m)
    || (|t| > 3 && t[3].kind == kind && t[3].successor == m)
  }

  lemma FourSlots(v: GraphVersion, n: Node, kind: ActionKind, m: Node)
    ensures |TemplatesOf(v, n)| <= 4 && (HasTemplate(v, n, kind, m) <==> Lists(TemplatesOf(v, n), kind, m))
  {
  }

  // ----- Facts and projection -----

  datatype Operation = Operation(status: Execution.Status, dependencies: seq<nat>)

  /** The newest plan of the run, its operations in identifier order. */
  datatype PlanFacts = PlanFacts(id: nat, targetVersion: nat, operations: seq<Operation>)

  datatype Batch = Batch(id: nat, items: seq<nat>)

  /** The durable facts the provider reads.  `externalVersion` is the version the database target
      reports, absent when no connector runtime is available; `earlierPending` counts the pending
      operations of all plans of the run but the newest. */
  datatype Facts = Facts(
    cursor: nat,
    terminationRequested: bool,
    deterministicExecution: bool,
    intake: Intake.Intake,
    apiSource: Option<nat>,
    remoteSource: Option<nat>,
    clarificationOpen: bool,
    pendingBatches: seq<Batch>,
    plan: Option<PlanFacts>,
    earlierPending: nat,
    currentTarget: Option<nat>,
    databaseTarget: bool,
    externalVersion: Option<nat>)

  function Statuses(operations: seq<Operation>): (r: Execution.Statuses)
    ensures |r| == |operations|
  {
    seq(|operations|, i requires 0 <= i < |operations| => operations[i].status)
  }

  function DependenciesOf(operations: seq<Operation>): (r: Execution.Dependencies)
    ensures |r| == |operations|
  {
    seq(|operations|, i requires 0 <= i < |operations| => operations[i].dependencies)
  }

  function FindTemplate(templates: seq<Template>, kind: ActionKind): (r: Option<Template>)
    ensures r.Some? ==> r.value in templates && r.value.kind == kind
    ensures r.None? ==> forall t :: t in templates ==> t.kind != kind
  {
    if templates == [] then None
    else if templates[0].kind == kind then Some(templates[0])
    else FindTemplate(templates[1..], kind)
  }

  /** The declared template of an action kind; asking for an undeclared one fails. */
  function Declared(v: GraphVersion, n: Node, kind: ActionKind): Option<AllowedAction> {
    var t := FindTemplate(TemplatesOf(v, n), kind);
    if t.Some? then Some(FromTemplate(t.value)) else None
  }

  function TerminateAction(): AllowedAction {
    AllowedAction(Named(DO_TERMINATE_REQUESTED), Some(DO_TERMINATE_REQUESTED), Terminate, None,
                  [RuntimeOf(Named(DO_TERMINATE_REQUESTED))], [TerminationAccepted], Low, false,
                  DRAIN_CURRENT_ATOMIC_UNIT)
  }

  /** Empty references fall back on references named after the action. */
  function BatchAction(id: ActionId, kind: ActionKind, items: seq<nat>): AllowedAction {
    var resources := seq(|items|, i requires 0 <= i < |items| => WorkItem(items[i]));
    var evidence := seq(|items|, i requires 0 <= i < |items| => PairedRecord(items[i]));
    AllowedAction(id, Some(kind), DispatchSubAgent, Some(ReconciliationAnalysis),
                  if items == [] then [RuntimeOf(id)] else resources,
                  if items == [] then [ResultOf(id)] else evidence, Low, false, ANALYZE_ACTIONABLE_BATCHES)
  }

  /** Offers the first pending batch; every pending batch is turned into an action on the way. */
  method FirstBatchAction(batches: seq<Batch>, repair: bool) returns (r: Option<AllowedAction>)
    ensures r == FirstBatch(batches, repair)
  {
    var actions: seq<AllowedAction> := [];
    for i := 0 to |batches|
      invariant |actions| == i
      invariant i > 0 ==> Some(actions[0]) == FirstBatch(batches, repair)
    {
      var id := if repair then RepairBatch(batches[i].id) else AnalyzeBatch(batches[i].id);
      var kind := if repair then DO_REPAIR_ANALYSIS_BATCH else DO_ANALYZE_NEXT_BATCH;
      actions := actions + [BatchAction(id, kind, batches[i].items)];
    }
    return if actions != [] then Some(actions[0]) else None;
  }

  function FirstBatch(batches: seq<Batch>, repair: bool): Option<AllowedAction> {
    if batches == [] then None
    else if repair then Some(BatchAction(RepairBatch(batches[0].id), DO_REPAIR_ANALYSIS_BATCH, batches[0].items))
    else Some(BatchAction(AnalyzeBatch(batches[0].id), DO_ANALYZE_NEXT_BATCH, batches[0].items))
  }

  function ExecuteAction(deterministic: bool, plan: nat, operations: seq<nat>): AllowedAction {
    AllowedAction(ExecuteOperationsBatch, Some(DO_VERIFY_OPERATIONS),
                  if deterministic then RunDeterministic else DispatchSubAgent,
                  if deterministic then None else Some(GovernanceExecution),
                  [ExecutionPlan(plan)] + seq(|operations|, i requires 0 <= i < |operations| => Ref.Operation(operations[i])),
                  seq(|operations|, i requires 0 <= i < |operations| => ExecutionOutcome(operations[i])),
                  High, false, VERIFY_OPERATIONS)
  }

  /** A plan is stale when its version is not the current one, or not the one the database reports. */
  predicate VersionIsStale(planned: Option<nat>, current: Option<nat>, external: Option<nat>) {
    planned.Some? && (current != planned || (external.Some? && current != external))
  }

  predicate TargetIsStale(f: Facts, external: Option<nat>) {
    VersionIsStale(if f.plan.Some? then Some(f.plan.value.targetVersion) else None, f.currentTarget, external)
  }

  function Sole(a: Option<AllowedAction>): Option<seq<AllowedAction>> {
    if a.Some? then Some([a.value]) else None
  }

  function MaterializeActions(v: GraphVersion, n: Node, f: Facts): Option<seq<AllowedAction>> {
    var source := if f.apiSource.Some? then f.apiSource else f.remoteSource;
    var t := Declared(v, n, DO_MATERIALIZE_REMOTE_AUTHORITY);
    if source.None? || t.None? then None
    else
      var ref := ExternalSource(source.value);
      Some([t.value.(resources := [ref], evidence := [MaterializedSource(source.value)])])
  }

  function ExecuteActions(v: GraphVersion, n: Node, f: Facts): Option<seq<AllowedAction>> {
    if f.plan.None? then Sole(Declared(v, n, DO_VERIFY_OPERATIONS))
    else
      var plan := f.plan.value;
      var batch := Execution.Batch(DependenciesOf(plan.operations), Statuses(plan.operations));
      if batch == [] then Sole(Declared(v, n, DO_VERIFY_OPERATIONS))
      else Some([ExecuteAction(f.deterministicExecution, plan.id, batch)])
  }

  function ReportActions(v: GraphVersion, n: Node, f: Facts): Option<seq<AllowedAction>> {
    var t := TemplatesOf(v, n);
    if t == [] then None
    else Some([FromTemplate(t[0]).(resources := [ReportFacts(f.cursor)], evidence := [ReportFacts(f.cursor)])])
  }

  function OtherActions(v: GraphVersion, n: Node, f: Facts): Option<seq<AllowedAction>> {
    var t := TemplatesOf(v, n);
    if |t| == 1 then Some([FromTemplate(t[0])])
    else if n == PREFLIGHT_EXECUTION then
      if f.databaseTarget && f.externalVersion.None? then None
      else
        var stale := TargetIsStale(f, if f.databaseTarget then f.externalVersion else None);
        Sole(Declared(v, n, if stale then DO_REQUEST_CROSS_PHASE_REPLAN else DO_EXECUTE_READY_OPERATIONS))
    else if n == ASSESS_RESTORE_IMPACT then Sole(Declared(v, n, DO_ASSESS_RESTORE_IMPACT))
    else if n == EXECUTE_RESTORE_OPERATIONS && f.deterministicExecution then
      var a := Declared(v, n, DO_VERIFY_RESTORE_OPERATIONS);
      if a.None? then None else Some([a.value.(mode := RunDeterministic, subAgent := None)])
    else Some(seq(|t|, i requires 0 <= i < |t| => FromTemplate(t[i])))
  }

  /** The actions the facts allow at a node; `None` where the provider fails. */
  function Project(v: GraphVersion, n: Node, f: Facts): Option<seq<AllowedAction>> {
    if f.terminationRequested && !Worker.WindsDown(n) then Some([TerminateAction()])
    else match n
      case INSPECT_SOURCES => Some([Intake.NextInspection(f.intake)])
      case MATERIALIZE_SOURCES => MaterializeActions(v, n, f)
      case NORMALIZE_INPUT_BATCHES => Sole(Intake.NextNormalization(f.intake))
      case VALIDATE_INPUT_CONTRACT => Sole(Declared(v, n, Intake.ValidationKind(f.intake)))
      case ANALYZE_ACTIONABLE_BATCHES =>
        if f.clarificationOpen then Sole(Declared(v, n, DO_RESOLVE_IDENTITY_CONFLICTS))
        else if f.pendingBatches != [] then Sole(FirstBatch(f.pendingBatches, false))
        else Sole(Declared(v, n, DO_ENTER_AGGREGATE_RISK))
      case REPAIR_ANALYSIS_BATCH => Sole(FirstBatch(f.pendingBatches, true))
      case AGGREGATE_RISK => Sole(Declared(v, n, DO_AGGREGATE_RISK))
      case VERIFY_OPERATIONS =>
        Sole(Declared(v, n, Execution.AfterVerify(f.earlierPending,
          if f.plan.Some? then Statuses(f.plan.value.operations) else [])))
      case EXECUTE_READY_OPERATIONS => ExecuteActions(v, n, f)
      case EXECUTE_REMAINING_INDEPENDENT => ExecuteActions(v, n, f)
      case GENERATE_TERMINAL_REPORT => ReportActions(v, n, f)
      case ABNORMAL_INPUT_REPORT => ReportActions(v, n, f)
      case TERMINATION_REPORT => ReportActions(v, n, f)
      case GENERATE_ROLLBACK_REPORT => ReportActions(v, n, f)
      case _ => OtherActions(v, n, f)
  }

  // ----- The candidate list -----

  datatype CandidatePlan = CandidatePlan(evaluations: seq<Evaluation>, reason: Option<ReasonCode>)

  function Reason(n: Node, actions: seq<AllowedAction>): Option<ReasonCode> {
    if |actions| != 1 then None
    else
      var a := actions[0];
      if a.mode == Terminate then Some(TerminationRequested)
      else if a.mode == WaitHuman || a.requiresHuman then Some(HumanGateRequired)
      else if a.successor == TERMINAL then Some(TerminalizationRequired)
      else if n == INTENT_CONFIRMED || n == ACQUIRE_SCHOOL_LOCK || n == VALIDATE_INPUT_CONTRACT ||
              n == PREFLIGHT_EXECUTION || n == PREFLIGHT_RESTORE || n == DRAIN_CURRENT_ATOMIC_UNIT
      then Some(SafetyMandatory)
      else Some(OnlyGuardSatisfied)
  }

  function Refused(templates: seq<Template>, passed: set<ActionKind>): (r: seq<Evaluation>)
    ensures |r| <= |templates|
    ensures forall e :: e in r ==> IsRefusal(e, templates, passed)
  {
    if templates == [] then []
    else
      var last := templates[|templates|-1];
      Refused(templates[..|templates|-1], passed) +
      if last.kind in passed then [] else [Evaluation(FromTemplate(last), false, {GuardCode(last.kind as nat)})]
  }

  ghost predicate IsRefusal(e: Evaluation, templates: seq<Template>, passed: set<ActionKind>) {
    !e.passed && e.rejected != {} && exists t :: t in templates && t.kind !in passed && e.action == FromTemplate(t)
  }

  /** The passed actions and, refused, every template of a kind not among them. */
  function PlanOf(v: GraphVersion, n: Node, actions: seq<AllowedAction>): CandidatePlan {
    var kinds := set a | a in actions && EffectiveKind(a).Some? :: EffectiveKind(a).value;
    CandidatePlan(
      seq(|actions|, i requires 0 <= i < |actions| => Evaluation(actions[i], true, {})) + Refused(TemplatesOf(v, n), kinds),
      Reason(n, actions))
  }

  /** The candidate list at a node; `None` where the provider fails. */
  function Plan(v: GraphVersion, n: Node, f: Facts): Option<CandidatePlan> {
    var actions := Project(v, n, f);
    if actions.None? || actions.value == [] then None
    else Some(PlanOf(v, n, actions.value))
  }

  // ----- What every offer is -----

  /** One action, legal at its node, well formed, with evidence, and a termination request only
      while the run is not winding down.  It asks for people exactly when it waits for them, and is of
      high risk exactly when it does, changes the target or assesses a restore. */
  predicate Fits(v: GraphVersion, n: Node, a: AllowedAction) {
    && a.graphKind.Some? && LegalPath(v, n, a) && WellFormed(a) && a.evidence != []
    && (a.id.Named? ==> a.graphKind == Some(a.id.kind))
    && (Worker.WindsDown(n) ==> a.graphKind != Some(DO_TERMINATE_REQUESTED))
    && (a.requiresHuman <==> a.mode == WaitHuman)
    && (a.risk == High <==> a.mode == WaitHuman || Executes(a) || (n == ASSESS_RESTORE_IMPACT && a.mode == DispatchSubAgent))
    && a.risk != Medium
  }

  /** The action changes the target. */
  predicate Executes(a: AllowedAction) {
    a.subAgent == Some(GovernanceExecution) || a.subAgent == Some(RollbackExecution) || a.id == ExecuteOperationsBatch
  }

  lemma TemplatesFit(v: GraphVersion, n: Node, t: Template)
    requires t in TemplatesOf(v, n)
    ensures Fits(v, n, FromTemplate(t)) && t.kind != DO_TERMINATE_REQUESTED
  {
    TemplateRisk(v, n, t);
    hide TemplatesOf, HasTemplate;
    TemplatesMatchTheGraph(v, n, t.kind, t.successor);
    NoTerminateTemplate(v, n, t.successor);
  }

  lemma TemplateRisk(v: GraphVersion, n: Node, t: Template)
    requires t in TemplatesOf(v, n)
    ensures t.shape.Dispatch? ==> t.shape.risk != Medium
    ensures t.shape.Dispatch? ==> (t.shape.risk == High <==>
      t.shape.agent == GovernanceExecution || t.shape.agent == RollbackExecution || n == ASSESS_RESTORE_IMPACT)
    ensures n == ASSESS_RESTORE_IMPACT ==> t.shape.Dispatch?
  {
  }

  lemma NoTerminateTemplate(v: GraphVersion, n: Node, m: Node)
    ensures !HasTemplate(v, n, DO_TERMINATE_REQUESTED, m)
  {
  }

  /** Apart from the nodes whose action depends on facts, a declared node has one template. */
  lemma OneTemplate(v: GraphVersion, n: Node)
    requires Declares(v, n) && n != TERMINAL && n != INSPECT_SOURCES && n != NORMALIZE_INPUT_BATCHES
    requires n != VALIDATE_INPUT_CONTRACT && n != ANALYZE_ACTIONABLE_BATCHES && n != PREFLIGHT_EXECUTION
    requires n != VERIFY_OPERATIONS
    ensures |TemplatesOf(v, n)| == 1
  {
  }

  /** Where the provider fails: at `terminal`, and where a fact it depends on is missing. */
  predicate Raises(n: Node, f: Facts) {
    || n == TERMINAL
    || ((!f.terminationRequested || Worker.WindsDown(n)) &&
        (|| (n == MATERIALIZE_SOURCES && f.apiSource.None? && f.remoteSource.None?)
         || (n == NORMALIZE_INPUT_BATCHES && f.intake.contract == Intake.V1 &&
             (f.intake.rows.authoritative.None? || f.intake.rows.target.None?))
         || (n == REPAIR_ANALYSIS_BATCH && f.pendingBatches == [])
         || (n == PREFLIGHT_EXECUTION && f.databaseTarget && f.externalVersion.None?)))
  }

  ghost predicate SoleFit(v: GraphVersion, n: Node, actions: Option<seq<AllowedAction>>) {
    actions.Some? && |actions.value| == 1 && Fits(v, n, actions.value[0])
  }

  lemma IntakeFits(v: GraphVersion, n: Node, f: Facts)
    requires Declares(v, n) && (n == INSPECT_SOURCES || n == NORMALIZE_INPUT_BATCHES)
    requires !Raises(n, f) && !f.terminationRequested
    ensures SoleFit(v, n, Project(v, n, f))
  {
    if n == INSPECT_SOURCES {
      InspectionFits(v, f.intake);
    } else {
      NormalizationFits(v, f.intake);
    }
  }

  lemma InspectionFits(v: GraphVersion, f: Intake.Intake)
    requires Declares(v, INSPECT_SOURCES)
    ensures Fits(v, INSPECT_SOURCES, Intake.NextInspection(f))
  {
  }

  lemma NormalizationFits(v: GraphVersion, f: Intake.Intake)
    requires Declares(v, NORMALIZE_INPUT_BATCHES) && Intake.NextNormalization(f).Some?
    ensures Fits(v, NORMALIZE_INPUT_BATCHES, Intake.NextNormalization(f).value)
  {
    hide Intake.FirstPage, Intake.PageCount, Intake.Fatal, Intake.ModelNeeded;
  }

  lemma {:induction false} DeclaredFits(v: GraphVersion, n: Node, kind: ActionKind, m: Node)
    requires HasTemplate(v, n, kind, m)
    ensures SoleFit(v, n, Sole(Declared(v, n, kind)))
  {
    TemplatesMatchTheGraph(v, n, kind, m);
    var i :| 0 <= i < |TemplatesOf(v, n)| && TemplatesOf(v, n)[i].kind == kind;
    assert TemplatesOf(v, n)[i] in TemplatesOf(v, n);
    TemplatesFit(v, n, FindTemplate(TemplatesOf(v, n), kind).value);
  }

  lemma BatchFits(v: GraphVersion, n: Node, b: seq<Batch>)
    requires Declares(v, n) && b != [] && (n == ANALYZE_ACTIONABLE_BATCHES || n == REPAIR_ANALYSIS_BATCH)
    ensures SoleFit(v, n, Sole(FirstBatch(b, n == REPAIR_ANALYSIS_BATCH)))
  {
  }

  lemma MaterializeFits(v: GraphVersion, n: Node, f: Facts)
    requires Declares(v, n) && n == MATERIALIZE_SOURCES && (f.apiSource.Some? || f.remoteSource.Some?)
    ensures SoleFit(v, n, MaterializeActions(v, n, f))
  {
  }

  lemma {:induction false} PlannedFits(v: GraphVersion, n: Node, f: Facts)
    requires Declares(v, n) && !Raises(n, f) && !f.terminationRequested
    requires n == VALIDATE_INPUT_CONTRACT || n == ANALYZE_ACTIONABLE_BATCHES || n == REPAIR_ANALYSIS_BATCH
      || n == AGGREGATE_RISK || n == VERIFY_OPERATIONS || n == PREFLIGHT_EXECUTION || n == MATERIALIZE_SOURCES
    ensures SoleFit(v, n, Project(v, n, f))
  {
    PreflightHasAlternatives(v);
    hide Declared, TemplatesOf, Fits, MaterializeActions, FirstBatch, TargetIsStale;
    match n
    case VALIDATE_INPUT_CONTRACT =>
      DeclaredFits(v, n, DO_REPORT_ABNORMAL_INPUT, ABNORMAL_INPUT_REPORT);
      DeclaredFits(v, n, DO_BUILD_IDENTITY_INDEX, BUILD_IDENTITY_INDEX);
    case ANALYZE_ACTIONABLE_BATCHES =>
      DeclaredFits(v, n, DO_RESOLVE_IDENTITY_CONFLICTS, RESOLVE_IDENTITY_CONFLICTS);
      DeclaredFits(v, n, DO_ENTER_AGGREGATE_RISK, AGGREGATE_RISK);
      if f.pendingBatches != [] {
        BatchFits(v, n, f.pendingBatches);
      }
    case REPAIR_ANALYSIS_BATCH => BatchFits(v, n, f.pendingBatches);
    case AGGREGATE_RISK => DeclaredFits(v, n, DO_AGGREGATE_RISK, WAIT_HIGH_RISK_APPROVALS);
    case VERIFY_OPERATIONS =>
      DeclaredFits(v, n, DO_EXECUTE_REMAINING_INDEPENDENT, EXECUTE_REMAINING_INDEPENDENT);
      DeclaredFits(v, n, DO_GENERATE_TERMINAL_REPORT, GENERATE_TERMINAL_REPORT);
    case PREFLIGHT_EXECUTION =>
      DeclaredFits(v, n, DO_REQUEST_CROSS_PHASE_REPLAN, WAIT_REPLAN_CONFIRMATION);
      DeclaredFits(v, n, DO_EXECUTE_READY_OPERATIONS, EXECUTE_READY_OPERATIONS);
    case MATERIALIZE_SOURCES => MaterializeFits(v, n, f);
  }

  lemma PreflightHasAlternatives(v: GraphVersion)
    ensures |TemplatesOf(v, PREFLIGHT_EXECUTION)| != 1
  {
  }

  lemma ExecuteFits(v: GraphVersion, n: Node, f: Facts)
    requires Declares(v, n) && !f.terminationRequested
    requires n == EXECUTE_READY_OPERATIONS || n == EXECUTE_REMAINING_INDEPENDENT
    ensures SoleFit(v, n, Project(v, n, f))
  {
    DeclaredFits(v, n, DO_VERIFY_OPERATIONS, VERIFY_OPERATIONS);
  }

  lemma OtherFits(v: GraphVersion, n: Node, f: Facts)
    requires Declares(v, n) && !Raises(n, f) && (f.terminationRequested ==> Worker.WindsDown(n))
    requires n != INSPECT_SOURCES && n != NORMALIZE_INPUT_BATCHES && n != VALIDATE_INPUT_CONTRACT
    requires n != ANALYZE_ACTIONABLE_BATCHES && n != REPAIR_ANALYSIS_BATCH && n != AGGREGATE_RISK
    requires n != VERIFY_OPERATIONS && n != PREFLIGHT_EXECUTION && n != MATERIALIZE_SOURCES
    requires n != EXECUTE_READY_OPERATIONS && n != EXECUTE_REMAINING_INDEPENDENT
    ensures SoleFit(v, n, Project(v, n, f))
  {
    OneTemplate(v, n);
    TemplatesFit(v, n, TemplatesOf(v, n)[0]);
  }

  /** For every declared node, contract and valuation of the facts, the provider either fails for
      a listed reason or offers exactly one fitting action. */
  lemma {:induction false} OffersOneAction(v: GraphVersion, n: Node, f: Facts)
    requires Declares(v, n)
    ensures Raises(n, f) <==> (Project(v, n, f).None? || Project(v, n, f).value == [])
    ensures !Raises(n, f) ==> SoleFit(v, n, Project(v, n, f))
  {
    hide TemplatesOf, Intake.NextNormalizationV2, Intake.NextNormalizationV3, Intake.NextInspection, Fits;
    if Raises(n, f) {
      FailureShows(v, n, f);
    } else if f.terminationRequested && !Worker.WindsDown(n) {
      TerminateFits(v, n);
    } else if n == INSPECT_SOURCES || n == NORMALIZE_INPUT_BATCHES {
      IntakeFits(v, n, f);
    } else if n == EXECUTE_READY_OPERATIONS || n == EXECUTE_REMAINING_INDEPENDENT {
      ExecuteFits(v, n, f);
    } else if n == VALIDATE_INPUT_CONTRACT || n == ANALYZE_ACTIONABLE_BATCHES || n == REPAIR_ANALYSIS_BATCH
        || n == AGGREGATE_RISK || n == VERIFY_OPERATIONS || n == PREFLIGHT_EXECUTION || n == MATERIALIZE_SOURCES {
      PlannedFits(v, n, f);
    } else {
      OtherFits(v, n, f);
    }
  }

  lemma FailureShows(v: GraphVersion, n: Node, f: Facts)
    requires Declares(v, n) && Raises(n, f)
    ensures Project(v, n, f).None? || Project(v, n, f).value == []
  {
  }

  lemma TerminateFits(v: GraphVersion, n: Node)
    requires Declares(v, n) && !Worker.WindsDown(n)
    ensures Fits(v, n, TerminateAction())
  {
  }

  // ----- Agreement with the builder, the guards and the worker -----

  lemma {:induction false} RefusedPassNothing(r: seq<Evaluation>)
    requires forall e :: e in r ==> !e.passed
    ensures Passed(r) == []
  {
    if r != [] {
      RefusedPassNothing(r[..|r|-1]);
    }
  }

  lemma {:induction false} OnlyFirstPassed(e: Evaluation, r: seq<Evaluation>)
    requires e.passed && forall x :: x in r ==> !x.passed
    ensures Passed([e] + r) == [e.action]
  {
    if r == [] {
      assert [e] + r == [e] && [e][..0] == [];
      assert Passed([e][..0]) == [];
    } else {
      OnlyFirstPassed(e, r[..|r|-1]);
      assert ([e] + r)[..|r|] == [e] + r[..|r|-1];
    }
  }

  lemma {:induction false} RefusedDistinct(templates: seq<Template>, passed: set<ActionKind>)
    requires forall i, j :: 0 <= i < j < |templates| ==> templates[i].kind != templates[j].kind
    ensures Distinct(Ids(Refused(templates, passed)))
  {
    if templates != [] {
      var front := templates[..|templates|-1];
      RefusedDistinct(front, passed);
      var r, last := Refused(front, passed), templates[|templates|-1];
      var all := Refused(templates, passed);
      if last.kind !in passed {
        forall i | 0 <= i < |r| ensures r[i].action.id != Named(last.kind) {
          assert IsRefusal(r[i], front, passed);
        }
        forall i, j | 0 <= i < j < |all| ensures Ids(all)[i] != Ids(all)[j] {
          if j < |r| {
            assert Ids(r)[i] != Ids(r)[j];
          }
        }
      }
    }
  }

  lemma TemplateKindsDiffer(v: GraphVersion, n: Node, i: nat, j: nat)
    requires i < j < |TemplatesOf(v, n)|
    ensures TemplatesOf(v, n)[i].kind != TemplatesOf(v, n)[j].kind
  {
  }

  /** One passed candidate and any refused ones, under different identifiers, can be frozen. */
  lemma SoleBuild(e: Evaluation, r: seq<Evaluation>, reason: ReasonCode)
    requires e.passed && Distinct(Ids(r)) && forall x :: x in r ==> !x.passed && x.action.id != e.action.id
    ensures Passed([e] + r) == [e.action]
    ensures Buildable([e] + r, Some(reason))
    ensures WellShaped(ActionSet([e.action], Some(reason), Rejected([e] + r)))
  {
    OnlyFirstPassed(e, r);
    DistinctWithHead(e, r);
    BuildableIsWellShaped([e] + r, Some(reason));
  }

  lemma RefusedAreOthers(v: GraphVersion, n: Node, a: AllowedAction, kinds: set<ActionKind>)
    requires a.graphKind.Some? && a.graphKind.value in kinds && (a.id.Named? ==> a.graphKind == Some(a.id.kind))
    ensures Distinct(Ids(Refused(TemplatesOf(v, n), kinds)))
    ensures forall x :: x in Refused(TemplatesOf(v, n), kinds) ==> !x.passed && x.action.id != a.id
  {
    forall i, j | 0 <= i < j < |TemplatesOf(v, n)| ensures TemplatesOf(v, n)[i].kind != TemplatesOf(v, n)[j].kind {
      TemplateKindsDiffer(v, n, i, j);
    }
    RefusedDistinct(TemplatesOf(v, n), kinds);
    forall x | x in Refused(TemplatesOf(v, n), kinds) ensures !x.passed && x.action.id != a.id {
      assert IsRefusal(x, TemplatesOf(v, n), kinds);
    }
  }

  /** Every candidate list the provider hands over is accepted by the set builder, its one action
      is accepted by the path guard, and it is what the worker expects of an offer. */
  lemma ProviderAgreesWithBuilder(v: GraphVersion, n: Node, f: Facts)
    requires Declares(v, n) && Plan(v, n, f).Some?
    ensures var plan := Plan(v, n, f).value;
      && |Passed(plan.evaluations)| == 1 && plan.reason.Some?
      && Buildable(plan.evaluations, plan.reason)
      && Fits(v, n, Passed(plan.evaluations)[0])
      && Worker.Offers(n, ActionSet(Passed(plan.evaluations), plan.reason, Rejected(plan.evaluations)))
  {
    OffersOneAction(v, n, f);
    hide Project, Raises;
    SolePlanBuilds(v, n, Project(v, n, f).value);
  }

  lemma SolePlanBuilds(v: GraphVersion, n: Node, actions: seq<AllowedAction>)
    requires |actions| == 1 && Fits(v, n, actions[0])
    ensures var plan := PlanOf(v, n, actions);
      && Passed(plan.evaluations) == actions && plan.reason.Some?
      && Buildable(plan.evaluations, plan.reason)
      && Worker.Offers(n, ActionSet(Passed(plan.evaluations), plan.reason, Rejected(plan.evaluations)))
  {
    hide TemplatesOf, LegalPath, Buildable, Passed, Rejected, Refused;
    var a, plan := actions[0], PlanOf(v, n, actions);
    assert actions == [a];
    var kinds := set x | x in actions && EffectiveKind(x).Some? :: EffectiveKind(x).value;
    var r := Refused(TemplatesOf(v, n), kinds);
    var first := Evaluation(a, true, {});
    assert plan.evaluations == [first] + r;
    assert a in actions && EffectiveKind(a).value in kinds;
    RefusedAreOthers(v, n, a, kinds);
    SoleBuild(first, r, plan.reason.value);
  }

  lemma DistinctWithHead(e: Evaluation, r: seq<Evaluation>)
    requires Distinct(Ids(r)) && forall x :: x in r ==> x.action.id != e.action.id
    ensures Distinct(Ids([e] + r))
  {
  }

  /** So the worker decides by itself, for the one action offered, whatever the supervisor says. */
  lemma SupervisorIsNeverConsulted(v: GraphVersion, f: Facts, c: Context, supervised: Decision)
    requires Declares(v, c.node) && Plan(v, c.node, f).Some?
    ensures var plan := Plan(v, c.node, f).value;
      var offer := ActionSet(Passed(plan.evaluations), plan.reason, Rejected(plan.evaluations));
      var d := Worker.Decide(c, offer, None, supervised);
      && |offer.actions| == 1 && d.Some? && d.value.id == offer.actions[0].id
      && d.value.expected in offer.actions[0].evidence && Accepts(offer, d.value)
  {
    ProviderAgreesWithBuilder(v, c.node, f);
    hide Plan, Rejected, Passed, Buildable, LegalPath;
    var plan := Plan(v, c.node, f).value;
    DeterministicDecisionReplays(ActionSet(Passed(plan.evaluations), plan.reason, Rejected(plan.evaluations)));
  }

  // ----- What the choice among alternatives means -----

  /** The provider asks for a replan exactly when a plan exists whose target version is not the
      current one, or is not the one the database reports. */
  lemma PreflightReplansIffStale(v: GraphVersion, f: Facts)
    requires Declares(v, PREFLIGHT_EXECUTION) && !f.terminationRequested && !Raises(PREFLIGHT_EXECUTION, f)
    ensures Project(v, PREFLIGHT_EXECUTION, f).Some? && |Project(v, PREFLIGHT_EXECUTION, f).value| == 1
    ensures Project(v, PREFLIGHT_EXECUTION, f).value[0].successor == WAIT_REPLAN_CONFIRMATION <==>
      f.plan.Some? && !(f.currentTarget == Some(f.plan.value.targetVersion) &&
                        (f.databaseTarget ==> f.externalVersion == f.currentTarget))
  {
  }

  /** A restore is dispatched to the sub-agent whatever the execution contract: the deterministic
      variant comes after the single template has already been returned. */
  lemma RestoreIsNeverDeterministic(f: Facts)
    requires !f.terminationRequested
    ensures var a := Project(RollbackV1, EXECUTE_RESTORE_OPERATIONS, f);
      a.Some? && |a.value| == 1 && a.value[0].mode == DispatchSubAgent &&
      a.value[0].subAgent == Some(RollbackExecution)
  {
  }

  /** The only action at a node. */
  ghost predicate OffersOnly(v: GraphVersion, n: Node, f: Facts, a: AllowedAction) {
    Project(v, n, f) == Some([a])
  }

  /** Analysis waits for people while a clarification is open, then takes the first pending batch, and
      moves on when none is left. */
  lemma AnalysisOffer(v: GraphVersion, f: Facts) returns (a: AllowedAction)
    requires !v.RollbackV1? && !f.terminationRequested
    ensures OffersOnly(v, ANALYZE_ACTIONABLE_BATCHES, f, a)
    ensures f.clarificationOpen ==> a.mode == WaitHuman && a.successor == RESOLVE_IDENTITY_CONFLICTS
    ensures !f.clarificationOpen && f.pendingBatches == [] ==> a.mode == RunDeterministic && a.successor == AGGREGATE_RISK
    ensures !f.clarificationOpen && f.pendingBatches != [] ==>
      TakesBatch(a, f.pendingBatches[0]) && a.id == AnalyzeBatch(f.pendingBatches[0].id) && a.graphKind == Some(DO_ANALYZE_NEXT_BATCH)
  {
    a := Project(v, ANALYZE_ACTIONABLE_BATCHES, f).value[0];
  }

  /** A repair takes the first pending batch too. */
  lemma RepairOffer(v: GraphVersion, f: Facts) returns (a: AllowedAction)
    requires !v.RollbackV1? && !f.terminationRequested && f.pendingBatches != []
    ensures OffersOnly(v, REPAIR_ANALYSIS_BATCH, f, a)
    ensures TakesBatch(a, f.pendingBatches[0]) && a.id == RepairBatch(f.pendingBatches[0].id) && a.graphKind == Some(DO_REPAIR_ANALYSIS_BATCH)
  {
    a := Project(v, REPAIR_ANALYSIS_BATCH, f).value[0];
  }

  /** The action reads the work items of the batch and brings a paired record for each. */
  ghost predicate TakesBatch(a: AllowedAction, b: Batch) {
    && a.successor == ANALYZE_ACTIONABLE_BATCHES && a.mode == DispatchSubAgent && a.subAgent == Some(ReconciliationAnalysis)
    && (b.items != [] ==> |a.resources| == |a.evidence| == |b.items|)
    && (b.items != [] ==> forall i :: 0 <= i < |b.items| ==> a.resources[i] == WorkItem(b.items[i]) && a.evidence[i] == PairedRecord(b.items[i]))
  }

  /** A report is written from the facts at the current cursor. */
  lemma ReportOffer(v: GraphVersion, n: Node, f: Facts) returns (a: AllowedAction)
    requires Declares(v, n) && (!f.terminationRequested || Worker.WindsDown(n))
    requires n == GENERATE_TERMINAL_REPORT || n == ABNORMAL_INPUT_REPORT || n == TERMINATION_REPORT || n == GENERATE_ROLLBACK_REPORT
    ensures OffersOnly(v, n, f, a) && a.successor == TERMINAL && a.subAgent == Some(Reporting)
    ensures a.resources == [ReportFacts(f.cursor)] && a.evidence == [ReportFacts(f.cursor)]
  {
    a := Project(v, n, f).value[0];
  }

  /** The API source is materialised if there is one, and the remote one otherwise. */
  lemma MaterializeOffer(v: GraphVersion, f: Facts) returns (a: AllowedAction)
    requires Declares(v, MATERIALIZE_SOURCES) && !f.terminationRequested && (f.apiSource.Some? || f.remoteSource.Some?)
    ensures OffersOnly(v, MATERIALIZE_SOURCES, f, a) && a.successor == INSPECT_SOURCES
    ensures f.apiSource.Some? ==> a.resources == [ExternalSource(f.apiSource.value)] && a.evidence == [MaterializedSource(f.apiSource.value)]
    ensures f.apiSource.None? ==> a.resources == [ExternalSource(f.remoteSource.value)] && a.evidence == [MaterializedSource(f.remoteSource.value)]
  {
    a := Project(v, MATERIALIZE_SOURCES, f).value[0];
  }

  /** The nodes whose action safety demands. */
  const MANDATORY: set<Node> :=
    {INTENT_CONFIRMED, ACQUIRE_SCHOOL_LOCK, VALIDATE_INPUT_CONTRACT, PREFLIGHT_EXECUTION, PREFLIGHT_RESTORE, DRAIN_CURRENT_ATOMIC_UNIT}

  /** What the reason of a lone action says: it winds the run down, waits for people, ends the run, is
      demanded by the node, or is simply the only one possible; exactly one of these. */
  lemma ReasonSays(n: Node, a: AllowedAction)
    ensures var r, waits := Reason(n, [a]), a.mode == WaitHuman || a.requiresHuman;
      && r.Some?
      && (r.value == TerminationRequested <==> a.mode == Terminate)
      && (r.value == HumanGateRequired <==> a.mode != Terminate && waits)
      && (r.value == TerminalizationRequired <==> a.mode != Terminate && !waits && a.successor == TERMINAL)
      && (r.value == SafetyMandatory <==> a.mode != Terminate && !waits && a.successor != TERMINAL && n in MANDATORY)
  {
  }
}
