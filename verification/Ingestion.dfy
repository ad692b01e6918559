/** Inspection and normalisation of the two sources under the three ingestion contracts.

    The candidate provider offers one action at a time from durable facts; the executor records
    a checkpoint and the commit records the action's identifier.  The loop at the normalisation
    node ends because each commit uses up a page or a missing checkpoint. */
module Ingestion {
  import opened Actions
  import opened GraphDefinition
  import opened Wrappers

  datatype Contract = V1 | V2 | V3

  datatype Pair<T> = Pair(authoritative: T, target: T) {
    function At(role: Role): T {
      if role == Authoritative then authoritative else target
    }

    function With(role: Role, value: T): Pair<T> {
      if role == Authoritative then Pair(value, target) else Pair(authoritative, value)
    }
  }

  datatype Connector = Api | Database | CsvFile

  datatype SourceMode = DatabasePair | RemoteCsv | CsvPair

  datatype Inspection = Inspection(recognized: bool, mappingRequired: bool, problems: bool)

  /** The durable facts about intake.  `rows` counts the data rows of each CSV source (v1),
      `fixedMapping` is the pair mapping (v2), `roleMappings` the mapping of each role (v3); a
      mapping checkpoint says whether it is resolved, a normalisation checkpoint how many records
      it persisted. */
  datatype Intake = Intake(
    contract: Contract,
    mode: SourceMode,
    connectors: Pair<Connector>,
    completed: set<ActionId>,
    inspections: Pair<Option<Inspection>>,
    rows: Pair<Option<nat>>,
    fixedMapping: Option<bool>,
    roleMappings: Pair<Option<bool>>,
    normalized: Pair<Option<nat>>,
    inputCounts: Pair<nat>,
    snapshotsComplete: bool)

  const PAGE_SIZE := 50

  // ----- Actions the provider forms -----

  function Act(id: ActionId, kind: ActionKind, agent: Option<SubAgentName>, resources: seq<Ref>,
               evidence: seq<Ref>, successor: Node): AllowedAction
  {
    AllowedAction(id, Some(kind), if agent.Some? then DispatchSubAgent else RunDeterministic, agent,
                  if resources == [] then [RuntimeOf(id)] else resources,
                  if evidence == [] then [ResultOf(id)] else evidence, Low, false, successor)
  }

  function InspectKind(role: Role): ActionKind {
    if role == Authoritative then DO_INSPECT_AUTHORITY else DO_INSPECT_TARGET
  }

  function InspectAction(contract: Contract, role: Role): AllowedAction {
    if contract == V1 then
      Act(InspectSource(role), InspectKind(role), Some(SourceInspectionAgent), [SourcePage(role, 1)],
          [SourceInspection(role)], INSPECT_SOURCES)
    else
      Act(InspectSource(role), InspectKind(role), None, [SourceFull(role)], [SourceInspection(role)], INSPECT_SOURCES)
  }

  function NormalizeReady(): AllowedAction {
    Act(NormalizeReadyPair, DO_NORMALIZE_READY_SOURCES, None, [SnapshotPair], [NormalizationReady],
        NORMALIZE_INPUT_BATCHES)
  }

  function ToValidation(): AllowedAction {
    Act(Named(DO_VALIDATE_NORMALIZED_INPUT), DO_VALIDATE_NORMALIZED_INPUT, None, [], [], VALIDATE_INPUT_CONTRACT)
  }

  function Batch(id: ActionId, agent: Option<SubAgentName>, resources: seq<Ref>, evidence: seq<Ref>): AllowedAction {
    Act(id, DO_NORMALIZE_NEXT_BATCH, agent, resources, evidence, NORMALIZE_INPUT_BATCHES)
  }

  function PageAction(role: Role, page: nat): AllowedAction {
    Batch(NormalizePage(role, page), Some(InputNormalization), [SourcePage(role, page)], [NormalizedPage(role, page)])
  }

  function FullAction(role: Role): AllowedAction {
    Batch(NormalizeFull(role), None, [SourceFull(role)], [NormalizedFull(role)])
  }

  // ----- Inspection -----

  /** The first source not inspected yet, authoritative before target. */
  function NextInspection(f: Intake): AllowedAction {
    if InspectSource(Authoritative) !in f.completed then InspectAction(f.contract, Authoritative)
    else if InspectSource(Target) !in f.completed then InspectAction(f.contract, Target)
    else NormalizeReady()
  }

  /** The provider collects every outstanding inspection and offers the first; the later
      contracts return as soon as one is found. */
  method InspectionAction(f: Intake) returns (a: AllowedAction)
    ensures a == NextInspection(f)
  {
    var roles := [Authoritative, Target];
    var actions: seq<AllowedAction> := [];
    for i := 0 to |roles|
      invariant f.contract != V1 ==> actions == []
      invariant actions == [] ==> forall j :: 0 <= j < i ==> InspectSource(roles[j]) in f.completed
      invariant actions != [] ==> actions[0] == NextInspection(f)
    {
      assert i == 1 ==> actions != [] || InspectSource(roles[0]) in f.completed;
      if InspectSource(roles[i]) !in f.completed {
        if f.contract != V1 {
          return InspectAction(f.contract, roles[i]);
        }
        actions := actions + [InspectAction(f.contract, roles[i])];
      }
    }
    assert actions != [] || (InspectSource(roles[0]) in f.completed && InspectSource(roles[1]) in f.completed);
    if actions != [] {
      return actions[0];
    }
    return NormalizeReady();
  }

  // ----- Pages (v1) -----

  function PageCount(rows: nat): nat {
    var pages := (rows + PAGE_SIZE - 1) / PAGE_SIZE;
    if pages < 1 then 1 else pages
  }

  /** The rows of one page: where its slice starts and ends. */
  function PageSlice(rows: nat, page: nat): (nat, nat)
    requires page >= 1
  {
    var from := (page - 1) * PAGE_SIZE;
    if from >= rows then (rows, rows)
    else if from + PAGE_SIZE > rows then (from, rows)
    else (from, from + PAGE_SIZE)
  }

  function FirstPage(role: Role, page: nat, last: nat, completed: set<ActionId>): (r: Option<nat>)
    ensures r.Some? ==> page <= r.value <= last && NormalizePage(role, r.value) !in completed
    ensures r.Some? ==> forall p :: page <= p < r.value ==> NormalizePage(role, p) in completed
    ensures r.None? ==> forall p :: page <= p <= last ==> NormalizePage(role, p) in completed
    decreases last + 1 - page
  {
    if page > last then None
    else if NormalizePage(role, page) !in completed then Some(page)
    else FirstPage(role, page + 1, last, completed)
  }

  function NextPage(f: Intake, authoritative: nat, target: nat): AllowedAction {
    var a := FirstPage(Authoritative, 1, PageCount(authoritative), f.completed);
    var t := FirstPage(Target, 1, PageCount(target), f.completed);
    if a.Some? then PageAction(Authoritative, a.value)
    else if t.Some? then PageAction(Target, t.value)
    else ToValidation()
  }

  method PageNormalization(f: Intake) returns (r: Option<AllowedAction>)
    ensures r == NextNormalizationV1(f)
  {
    if f.rows.authoritative.None? || f.rows.target.None? {
      return None;
    }
    var counts := [(Authoritative, PageCount(f.rows.authoritative.value)), (Target, PageCount(f.rows.target.value))];
    var actions: seq<AllowedAction> := [];
    for i := 0 to |counts|
      invariant actions == [] ==>
        forall j :: 0 <= j < i ==> FirstPage(counts[j].0, 1, counts[j].1, f.completed).None?
      invariant actions != [] ==>
        actions[0] == NextPage(f, f.rows.authoritative.value, f.rows.target.value)
    {
      assert i == 1 ==> actions != [] || FirstPage(counts[0].0, 1, counts[0].1, f.completed).None?;
      var page := 1;
      while page <= counts[i].1 && NormalizePage(counts[i].0, page) in f.completed
        invariant page <= counts[i].1 + 1
        invariant FirstPage(counts[i].0, 1, counts[i].1, f.completed) ==
          FirstPage(counts[i].0, page, counts[i].1, f.completed)
        decreases counts[i].1 + 1 - page
      {
        page := page + 1;
      }
      if page <= counts[i].1 {
        actions := actions + [PageAction(counts[i].0, page)];
      }
    }
    assert actions != [] || (FirstPage(counts[0].0, 1, counts[0].1, f.completed).None? &&
                             FirstPage(counts[1].0, 1, counts[1].1, f.completed).None?);
    return Some(if actions != [] then actions[0] else ToValidation());
  }

  /** Fails when a source file is missing. */
  function NextNormalizationV1(f: Intake): Option<AllowedAction> {
    if f.rows.authoritative.None? || f.rows.target.None? then None
    else Some(NextPage(f, f.rows.authoritative.value, f.rows.target.value))
  }

  // ----- Mappings and full normalisation (v2, v3) -----

  /** An inspection after which no mapping can help. */
  predicate Fatal(i: Option<Inspection>) {
    i.None? || (!i.value.recognized && !i.value.mappingRequired)
  }

  function NextNormalizationV2(f: Intake): AllowedAction {
    if f.fixedMapping.None? then
      if Fatal(f.inspections.authoritative) || Fatal(f.inspections.target) then ToValidation()
      else
        var model := ModelNeeded(f.mode, f.inspections.authoritative.value) || ModelNeeded(f.mode, f.inspections.target.value);
        Batch(ResolveFixedMapping, if model then Some(SchemaMapping) else None,
              if f.mode == RemoteCsv then [SourcePair, SourcePage(Authoritative, 1), SourcePage(Target, 1)]
              else [SourcePair], [FixedMapping])
    else if !f.fixedMapping.value then ToValidation()
    else if NormalizeFull(Authoritative) !in f.completed then FullAction(Authoritative)
    else if NormalizeFull(Target) !in f.completed then FullAction(Target)
    else ToValidation()
  }

  predicate ModelNeeded(mode: SourceMode, i: Inspection) {
    i.mappingRequired || (mode != DatabasePair && !i.recognized)
  }

  function RoleMappingAction(f: Intake, role: Role): AllowedAction {
    var i := f.inspections.At(role);
    var model := i.Some? && i.value.mappingRequired && f.connectors.At(role) != Api;
    Batch(ResolveRoleMapping(role), if model then Some(SchemaMapping) else None,
          [RoleMapping(role)], [MappingEvidence(role)])
  }

  function NextNormalizationV3(f: Intake): AllowedAction {
    if Fatal(f.inspections.authoritative) || Fatal(f.inspections.target) then ToValidation()
    else if f.roleMappings.authoritative.None? then RoleMappingAction(f, Authoritative)
    else if !f.roleMappings.authoritative.value then ToValidation()
    else if f.roleMappings.target.None? then RoleMappingAction(f, Target)
    else if !f.roleMappings.target.value then ToValidation()
    else if f.normalized.authoritative.None? then FullAction(Authoritative)
    else if f.normalized.target.None? then FullAction(Target)
    else ToValidation()
  }

  method RoleNormalization(f: Intake) returns (a: AllowedAction)
    ensures a == NextNormalizationV3(f)
  {
    var roles := [Authoritative, Target];
    if exists i :: 0 <= i < |roles| && Fatal(f.inspections.At(roles[i])) {
      return ToValidation();
    }
    assert !Fatal(f.inspections.At(roles[0])) && !Fatal(f.inspections.At(roles[1]));
    for i := 0 to |roles|
      invariant forall j :: 0 <= j < i ==> f.roleMappings.At(roles[j]) == Some(true)
    {
      var mapping := f.roleMappings.At(roles[i]);
      if mapping.None? {
        return RoleMappingAction(f, roles[i]);
      }
      if !mapping.value {
        return ToValidation();
      }
    }
    assert f.roleMappings.At(roles[0]) == Some(true) && f.roleMappings.At(roles[1]) == Some(true);
    for i := 0 to |roles|
      invariant forall j :: 0 <= j < i ==> f.normalized.At(roles[j]).Some?
    {
      if f.normalized.At(roles[i]).None? {
        return FullAction(roles[i]);
      }
    }
    assert f.normalized.At(roles[0]).Some? && f.normalized.At(roles[1]).Some?;
    return ToValidation();
  }

  function NextNormalization(f: Intake): Option<AllowedAction> {
    match f.contract
    case V1 => NextNormalizationV1(f)
    case V2 => Some(NextNormalizationV2(f))
    case V3 => Some(NextNormalizationV3(f))
  }

  // ----- Validation -----

  predicate InspectionResolved(i: Option<Inspection>, mapping: Option<bool>) {
    i.Some? && (i.value.recognized || (i.value.mappingRequired && !i.value.problems && mapping == Some(true)))
  }

  predicate Abnormal(f: Intake) {
    match f.contract
    case V1 =>
      || f.inspections.authoritative.None? || !f.inspections.authoritative.value.recognized
      || f.inspections.target.None? || !f.inspections.target.value.recognized
    case V2 =>
      f.fixedMapping != Some(true) || f.normalized.authoritative.None? || f.normalized.target.None?
    case V3 =>
      || !InspectionResolved(f.inspections.authoritative, f.roleMappings.authoritative)
      || !InspectionResolved(f.inspections.target, f.roleMappings.target)
      || f.roleMappings.authoritative != Some(true) || f.roleMappings.target != Some(true)
      || f.normalized.authoritative != Some(f.inputCounts.authoritative)
      || f.normalized.target != Some(f.inputCounts.target)
      || !f.snapshotsComplete || f.inputCounts.authoritative == 0
  }

  function ValidationKind(f: Intake): ActionKind {
    if Abnormal(f) then DO_REPORT_ABNORMAL_INPUT else DO_BUILD_IDENTITY_INDEX
  }

  // ----- The loop -----

  /** What the executor found: whether each role's mapping is resolved and how many records it
      persisted. */
  datatype Finding = Finding(resolved: Pair<bool>, records: nat)

  predicate IsBatch(a: AllowedAction) {
    a.graphKind == Some(DO_NORMALIZE_NEXT_BATCH)
  }

  /** The facts after the executor carried out a batch action and the commit recorded it.  A pair
      of database sources is mapped for both roles at once. */
  function Committed(f: Intake, a: AllowedAction, x: Finding): Intake {
    var g := f.(completed := f.completed + {a.id});
    match a.id
    case ResolveFixedMapping => g.(fixedMapping := Some(x.resolved.authoritative && x.resolved.target))
    case ResolveRoleMapping(role) =>
      if f.connectors == Pair(Database, Database) then
        g.(roleMappings := Pair(Some(x.resolved.authoritative), Some(x.resolved.target)))
      else g.(roleMappings := f.roleMappings.With(role, Some(f.connectors.At(role) == Api || x.resolved.At(role))))
    case NormalizeFull(role) =>
      g.(normalized := f.normalized.With(role, Some(x.records)), inputCounts := f.inputCounts.With(role, x.records))
    case _ => g
  }

  function Missing<T>(o: Option<T>): nat {
    if o.None? then 1 else 0
  }

  function MissingId(id: ActionId, completed: set<ActionId>): nat {
    if id in completed then 0 else 1
  }

  function PagesLeft(role: Role, last: nat, completed: set<ActionId>): nat {
    if last == 0 then 0
    else PagesLeft(role, last - 1, completed) + MissingId(NormalizePage(role, last), completed)
  }

  /** Batch actions still to come: pages, or missing mappings and normalisations. */
  function Remaining(f: Intake): nat {
    match f.contract
    case V1 =>
      (if f.rows.authoritative.None? then 0 else PagesLeft(Authoritative, PageCount(f.rows.authoritative.value), f.completed)) +
      (if f.rows.target.None? then 0 else PagesLeft(Target, PageCount(f.rows.target.value), f.completed))
    case V2 =>
      Missing(f.fixedMapping) + MissingId(NormalizeFull(Authoritative), f.completed) +
      MissingId(NormalizeFull(Target), f.completed)
    case V3 =>
      Missing(f.roleMappings.authoritative) + Missing(f.roleMappings.target) +
      Missing(f.normalized.authoritative) + Missing(f.normalized.target)
  }

  lemma {:induction false} PagesLeftFalls(role: Role, last: nat, completed: set<ActionId>, id: ActionId)
    ensures PagesLeft(role, last, completed + {id}) <= PagesLeft(role, last, completed)
    ensures id.NormalizePage? && id.role == role && 1 <= id.page <= last && id !in completed ==>
      PagesLeft(role, last, completed + {id}) < PagesLeft(role, last, completed)
  {
    if last > 0 {
      PagesLeftFalls(role, last - 1, completed, id);
    }
  }

  lemma PageMakesProgress(f: Intake, x: Finding)
    requires f.contract == V1 && NextNormalization(f).Some? && IsBatch(NextNormalization(f).value)
    ensures Remaining(Committed(f, NextNormalization(f).value, x)) < Remaining(f)
  {
    hide PageCount, FirstPage, PagesLeft;
    var a := NextNormalization(f).value;
    PagesLeftFalls(Authoritative, PageCount(f.rows.authoritative.value), f.completed, a.id);
    PagesLeftFalls(Target, PageCount(f.rows.target.value), f.completed, a.id);
  }

  lemma RoleMakesProgress(f: Intake, x: Finding)
    requires f.contract == V3 && IsBatch(NextNormalizationV3(f))
    ensures Remaining(Committed(f, NextNormalizationV3(f), x)) < Remaining(f)
  {
    hide Fatal;
  }

  /** Every committed batch action leaves strictly less to do. */
  lemma BatchMakesProgress(f: Intake, x: Finding)
    requires NextNormalization(f).Some? && IsBatch(NextNormalization(f).value)
    ensures Remaining(Committed(f, NextNormalization(f).value, x)) < Remaining(f)
  {
    hide NextNormalizationV1, NextNormalizationV3, PagesLeft, ModelNeeded, Fatal;
    if f.contract == V1 {
      PageMakesProgress(f, x);
    } else if f.contract == V3 {
      RoleMakesProgress(f, x);
    }
  }

  /** The facts after up to `n` turns of the loop, whatever the executor finds. */
  function AfterLoop(f: Intake, finds: nat -> Finding, n: nat): Intake {
    if n == 0 then f
    else
      var g := AfterLoop(f, finds, n - 1);
      var a := NextNormalization(g);
      if a.Some? && IsBatch(a.value) then Committed(g, a.value, finds(n - 1)) else g
  }

  lemma {:induction false} LoopCountsDown(f: Intake, finds: nat -> Finding, n: nat)
    ensures var g := AfterLoop(f, finds, n);
      || Remaining(g) + n <= Remaining(f)
      || NextNormalization(g).None? || !IsBatch(NextNormalization(g).value)
  {
    hide Remaining, NextNormalization, Committed;
    if n > 0 {
      LoopCountsDown(f, finds, n - 1);
      var g := AfterLoop(f, finds, n - 1);
      if NextNormalization(g).Some? && IsBatch(NextNormalization(g).value) {
        BatchMakesProgress(g, finds(n - 1));
      }
    }
  }

  /** The loop is left within as many commits as there are pages or missing checkpoints. */
  lemma NormalizationTerminates(f: Intake, finds: nat -> Finding, n: nat)
    requires n > Remaining(f)
    ensures var a := NextNormalization(AfterLoop(f, finds, n)); a.None? || a.value == ToValidation()
  {
    LoopCountsDown(f, finds, n);
    if NextNormalization(AfterLoop(f, finds, n)).Some? {
      OfferIsBatchOrValidation(AfterLoop(f, finds, n));
    }
  }

  lemma OfferIsBatchOrValidation(f: Intake)
    requires NextNormalization(f).Some?
    ensures IsBatch(NextNormalization(f).value) || NextNormalization(f).value == ToValidation()
  {
  }

  predicate MappingsResolved(f: Intake) {
    match f.contract
    case V1 => true
    case V2 => f.fixedMapping == Some(true)
    case V3 => f.roleMappings == Pair(Some(true), Some(true))
  }

  /** The source was normalised as a whole: its action was committed or left a checkpoint. */
  predicate Normalized(f: Intake, role: Role) {
    NormalizeFull(role) in f.completed || f.normalized.At(role).Some?
  }

  predicate MappedFirst(f: Intake) {
    && (Normalized(f, Authoritative) ==> MappingsResolved(f))
    && (Normalized(f, Target) ==> MappingsResolved(f) && Normalized(f, Authoritative))
  }

  lemma CommitStaysMapped(f: Intake, x: Finding)
    requires MappedFirst(f) && NextNormalization(f).Some?
    ensures var a := NextNormalization(f).value;
      && (a.id == NormalizeFull(Authoritative) ==> MappingsResolved(f))
      && (a.id == NormalizeFull(Target) ==> MappingsResolved(f) && Normalized(f, Authoritative))
      && MappedFirst(Committed(f, a, x)) && Committed(f, a, x).contract == f.contract
  {
    hide NextNormalizationV1;
    if f.contract == V1 {
      PageOrValidation(f);
    }
  }

  lemma PageOrValidation(f: Intake)
    requires NextNormalizationV1(f).Some?
    ensures NextNormalizationV1(f).value.id.NormalizePage? || NextNormalizationV1(f).value == ToValidation()
  {
  }

  lemma {:induction false} LoopStaysMapped(f: Intake, finds: nat -> Finding, n: nat)
    requires MappedFirst(f)
    ensures MappedFirst(AfterLoop(f, finds, n)) && AfterLoop(f, finds, n).contract == f.contract
  {
    hide NextNormalization, Committed, MappedFirst;
    if n > 0 {
      LoopStaysMapped(f, finds, n - 1);
      var g := AfterLoop(f, finds, n - 1);
      if NextNormalization(g).Some? {
        CommitStaysMapped(g, finds(n - 1));
      }
    }
  }

  /** From an intake where no source was normalised yet, in every state the loop reaches and
      whatever the executor finds: a source that is or has been normalised as a whole has every
      mapping resolved, and the target comes after the authoritative source. */
  lemma {:induction false} MappingsComeFirst(f: Intake, finds: nat -> Finding, n: nat, role: Role)
    requires !Normalized(f, Authoritative) && !Normalized(f, Target)
    ensures var g := AfterLoop(f, finds, n);
      Normalized(g, role) || NextNormalization(g) == Some(FullAction(role)) ==>
        && MappingsResolved(g) && g.contract == f.contract
        && (role == Target ==> Normalized(g, Authoritative))
  {
    LoopStaysMapped(f, finds, n);
    hide AfterLoop, NextNormalization, MappingsResolved, Normalized;
    if NextNormalization(AfterLoop(f, finds, n)).Some? {
      CommitStaysMapped(AfterLoop(f, finds, n), finds(n));
    }
  }

  /** A normalisation that was committed left its checkpoint, and the checkpoint counts the
      records that were persisted. */
  predicate Consistent(f: Intake) {
    && (NormalizeFull(Authoritative) in f.completed ==> f.normalized.authoritative.Some?)
    && (NormalizeFull(Target) in f.completed ==> f.normalized.target.Some?)
    && (f.normalized.authoritative.Some? ==> f.normalized.authoritative.value == f.inputCounts.authoritative)
    && (f.normalized.target.Some? ==> f.normalized.target.value == f.inputCounts.target)
  }

  lemma {:induction false} LoopStaysConsistent(f: Intake, finds: nat -> Finding, n: nat)
    requires Consistent(f)
    ensures Consistent(AfterLoop(f, finds, n)) && AfterLoop(f, finds, n).contract == f.contract
  {
    hide NextNormalization, Committed, Consistent;
    if n > 0 {
      LoopStaysConsistent(f, finds, n - 1);
      var g := AfterLoop(f, finds, n - 1);
      if NextNormalization(g).Some? {
        CommitStaysConsistent(g, NextNormalization(g).value, finds(n - 1));
      }
    }
  }

  lemma CommitStaysConsistent(f: Intake, a: AllowedAction, x: Finding)
    requires Consistent(f)
    ensures Consistent(Committed(f, a, x)) && Committed(f, a, x).contract == f.contract
  {
  }

  /** When the loop is left, the intake is reported as abnormal under v1 exactly when a source was
      not recognised; and under v2 and v3 exactly when a mapping stayed unresolved, or, under v3,
      when an unrecognised source has problems, the authoritative source is empty or a snapshot is
      missing; a finished normalisation is never the reason. */
  lemma FinishedIntakeIsJudged(f: Intake, finds: nat -> Finding, n: nat)
    requires Consistent(f)
    requires NextNormalization(AfterLoop(f, finds, n)) == Some(ToValidation())
    ensures var g := AfterLoop(f, finds, n);
      f.contract == V1 ==> (ValidationKind(g) == DO_BUILD_IDENTITY_INDEX <==>
        && g.inspections.authoritative.Some? && g.inspections.authoritative.value.recognized
        && g.inspections.target.Some? && g.inspections.target.value.recognized)
    ensures var g := AfterLoop(f, finds, n);
      f.contract == V2 ==> (ValidationKind(g) == DO_BUILD_IDENTITY_INDEX <==> g.fixedMapping == Some(true))
    ensures var g := AfterLoop(f, finds, n);
      f.contract == V3 ==> (ValidationKind(g) == DO_BUILD_IDENTITY_INDEX <==>
        && !Fatal(g.inspections.authoritative) && !Fatal(g.inspections.target)
        && g.roleMappings == Pair(Some(true), Some(true))
        && (g.inspections.authoritative.value.problems ==> g.inspections.authoritative.value.recognized)
        && (g.inspections.target.value.problems ==> g.inspections.target.value.recognized)
        && g.snapshotsComplete && g.inputCounts.authoritative > 0)
  {
    LoopStaysConsistent(f, finds, n);
    hide AfterLoop;
    var g := AfterLoop(f, finds, n);
    assert FullAction(Authoritative) != ToValidation() && FullAction(Target) != ToValidation();
  }

  // ----- Exact cover of the rows (v1) -----

  /** The i-th page action: every authoritative page, then every target page. */
  function PageAt(authoritative: nat, i: nat): ActionId {
    if i < authoritative then NormalizePage(Authoritative, i + 1) else NormalizePage(Target, i - authoritative + 1)
  }

  /** Of `a` authoritative and `t` target pages exactly the first `n` are completed. */
  ghost predicate PagesDone(completed: set<ActionId>, a: nat, t: nat, n: nat) {
    n <= a + t && forall i: nat :: i < a + t ==> (PageAt(a, i) in completed <==> i < n)
  }

  lemma FirstPageAfter(role: Role, page: nat, last: nat, completed: set<ActionId>, next: nat)
    requires page <= next <= last + 1
    requires forall p: nat :: page <= p <= last ==> (NormalizePage(role, p) in completed <==> p < next)
    ensures FirstPage(role, page, last, completed) == if next <= last then Some(next) else None
    decreases next - page
  {
    if page < next && page <= last {
      FirstPageAfter(role, page + 1, last, completed, next);
    }
  }

  lemma NextPageInOrder(f: Intake, authoritative: nat, target: nat, n: nat)
    requires PagesDone(f.completed, PageCount(authoritative), PageCount(target), n)
    ensures var a, t := PageCount(authoritative), PageCount(target);
      NextPage(f, authoritative, target) ==
        if n >= a + t then ToValidation()
        else if n < a then PageAction(Authoritative, n + 1) else PageAction(Target, n - a + 1)
  {
    hide PageCount, Batch;
    var a, t := PageCount(authoritative), PageCount(target);
    forall p: nat | 1 <= p <= a ensures NormalizePage(Authoritative, p) in f.completed <==> p < n + 1 {
      assert PageAt(a, p - 1) == NormalizePage(Authoritative, p);
    }
    FirstPageAfter(Authoritative, 1, a, f.completed, if n < a then n + 1 else a + 1);
    if n >= a {
      forall p: nat | 1 <= p <= t ensures NormalizePage(Target, p) in f.completed <==> p < n - a + 1 {
        assert PageAt(a, a + p - 1) == NormalizePage(Target, p);
      }
      FirstPageAfter(Target, 1, t, f.completed, n - a + 1);
    }
  }

  /** Under v1 the loop commits every authoritative page and then every target page, in order
      and once each, and moves on. */
  lemma {:induction false} PagesInOrder(f: Intake, finds: nat -> Finding, authoritative: nat, target: nat, n: nat)
    requires f.contract == V1 && f.rows == Pair(Some(authoritative), Some(target))
    requires PagesDone(f.completed, PageCount(authoritative), PageCount(target), 0)
    requires n <= PageCount(authoritative) + PageCount(target)
    ensures var g, a, t := AfterLoop(f, finds, n), PageCount(authoritative), PageCount(target);
      && g.contract == V1 && g.rows == f.rows && PagesDone(g.completed, a, t, n)
      && NextNormalization(g) == Some(
           if n == a + t then ToValidation()
           else if n < a then PageAction(Authoritative, n + 1) else PageAction(Target, n - a + 1))
  {
    hide PageCount, NextNormalizationV2, NextNormalizationV3, NextPage;
    if n > 0 {
      PagesInOrder(f, finds, authoritative, target, n - 1);
    }
    NextPageInOrder(AfterLoop(f, finds, n), authoritative, target, n);
  }

  /** For a source with rows, each row lies on exactly one page, and every page holds between one
      and fifty rows. */
  lemma PagesCoverRows(rows: nat)
    requires rows > 0
    ensures forall page :: 1 <= page <= PageCount(rows) ==>
      PageSlice(rows, page).0 < PageSlice(rows, page).1 <= PageSlice(rows, page).0 + PAGE_SIZE
    ensures forall r: nat, page: nat :: r < rows && 1 <= page <= PageCount(rows) ==>
      (OnPage(rows, page, r) <==> page == PageOf(r))
    ensures forall r: nat :: r < rows ==> 1 <= PageOf(r) <= PageCount(rows)
  {
  }

  predicate OnPage(rows: nat, page: nat, r: nat)
    requires page >= 1
  {
    PageSlice(rows, page).0 <= r < PageSlice(rows, page).1
  }

  function PageOf(r: nat): nat {
    r / PAGE_SIZE + 1
  }

  /** A source without rows still gets one page, which is empty. */
  lemma EmptySourceHasOnePage()
    ensures PageCount(0) == 1 && PageSlice(0, 1).0 == PageSlice(0, 1).1
  {
  }

  // ----- What each offer asks for -----

  /** An inspection reads its own source and no other; only under v1 a sub-agent carries it out, on
      the first page, and otherwise the server does, on the whole source. */
  ghost predicate InspectsOnly(a: AllowedAction, contract: Contract, role: Role) {
    && a.id == InspectSource(role) && a.successor == INSPECT_SOURCES && a.evidence == [SourceInspection(role)]
    && (contract == V1 ==> a.resources == [SourcePage(role, 1)] && a.mode == DispatchSubAgent && a.subAgent == Some(SourceInspectionAgent))
    && (contract != V1 ==> a.resources == [SourceFull(role)] && a.mode == RunDeterministic && a.subAgent == None)
  }

  function AfterInspection(f: Intake): Intake {
    f.(completed := f.completed + {NextInspection(f).id})
  }

  /** From an intake without inspections the authoritative source is inspected, then the target, and
      then normalisation begins. */
  lemma InspectionsInOrder(f: Intake)
    requires InspectSource(Authoritative) !in f.completed && InspectSource(Target) !in f.completed
    ensures var first, second := NextInspection(f), NextInspection(AfterInspection(f));
      && InspectsOnly(first, f.contract, Authoritative) && first.graphKind == Some(DO_INSPECT_AUTHORITY)
      && InspectsOnly(second, f.contract, Target) && second.graphKind == Some(DO_INSPECT_TARGET)
      && NextInspection(AfterInspection(AfterInspection(f))).successor == NORMALIZE_INPUT_BATCHES
  {
  }

  /** No mapping can help a source that was not inspected, or is neither recognised nor mappable. */
  ghost predicate Hopeless(i: Option<Inspection>) {
    i.Some? ==> !i.value.recognized && !i.value.mappingRequired
  }

  /** Under v2 the pair mapping is asked for once, unless a source is hopeless; a model is asked exactly
      when a source needs a mapping, or was not recognised although a file is involved; and the first
      pages are shown to it for a remote source with a file. */
  lemma PairMappingOffer(f: Intake)
    requires f.contract == V2 && f.fixedMapping.None?
    ensures var i, j, a := f.inspections.authoritative, f.inspections.target, NextNormalizationV2(f);
      if Hopeless(i) || Hopeless(j) then a == ToValidation()
      else
        && a.id == ResolveFixedMapping && SourcePair in a.resources && a.successor == NORMALIZE_INPUT_BATCHES
        && (a.subAgent == Some(SchemaMapping) <==>
              i.value.mappingRequired || j.value.mappingRequired ||
              (f.mode != DatabasePair && !(i.value.recognized && j.value.recognized)))
        && (a.subAgent.None? <==> a.mode == RunDeterministic)
        && (SourcePage(Authoritative, 1) in a.resources <==> f.mode == RemoteCsv)
        && (SourcePage(Target, 1) in a.resources <==> f.mode == RemoteCsv)
        && (forall role, page: nat :: SourcePage(role, page) in a.resources ==> page == 1)
  {
    var a := NextNormalizationV2(f);
    if !Hopeless(f.inspections.authoritative) && !Hopeless(f.inspections.target) && f.mode == RemoteCsv {
      assert a.resources[1] == SourcePage(Authoritative, 1) && a.resources[2] == SourcePage(Target, 1);
    }
  }

  /** Under v3 each role's mapping is asked for once, authoritative first, unless a source is hopeless; a
      model is asked exactly when the source needs a mapping and is not an API. */
  lemma RoleMappingOffer(f: Intake)
    requires f.contract == V3
    ensures var i, j, a := f.inspections.authoritative, f.inspections.target, NextNormalizationV3(f);
      && (Hopeless(i) || Hopeless(j) ==> a == ToValidation())
      && (!Hopeless(i) && !Hopeless(j) && f.roleMappings.authoritative.None? ==> AsksToMap(a, f, Authoritative))
      && (!Hopeless(i) && !Hopeless(j) && f.roleMappings == Pair(Some(true), None) ==> AsksToMap(a, f, Target))
      && (f.roleMappings.authoritative == Some(false) || f.roleMappings.target == Some(false) ==>
            a == ToValidation() || f.roleMappings.authoritative.None?)
  {
  }

  ghost predicate AsksToMap(a: AllowedAction, f: Intake, role: Role) {
    var i := if role == Authoritative then f.inspections.authoritative else f.inspections.target;
    var c := if role == Authoritative then f.connectors.authoritative else f.connectors.target;
    && a.id == ResolveRoleMapping(role) && a.evidence == [MappingEvidence(role)] && a.resources == [RoleMapping(role)]
    && (a.subAgent == Some(SchemaMapping) <==> i.Some? && i.value.mappingRequired && c != Api)
    && (a.subAgent.None? <==> a.mode == RunDeterministic)
  }

  /** What is normalised as a whole is read as a whole by the server; a page is read by the sub-agent. */
  lemma NormalisationsRead(role: Role, page: nat)
    ensures FullAction(role).resources == [SourceFull(role)] && FullAction(role).evidence == [NormalizedFull(role)]
    ensures FullAction(role).mode == RunDeterministic && FullAction(role).id == NormalizeFull(role)
    ensures PageAction(role, page).resources == [SourcePage(role, page)]
    ensures PageAction(role, page).evidence == [NormalizedPage(role, page)] && PageAction(role, page).mode == DispatchSubAgent
    ensures PageAction(role, page).id == NormalizePage(role, page) && PageAction(role, page).subAgent == Some(InputNormalization)
  {
  }

  /** A pair mapping is resolved when both roles are; two databases are mapped for both roles at once;
      and an API always maps itself. */
  lemma MappingsCommitted(f: Intake, a: AllowedAction, x: Finding, role: Role)
    ensures a.id == ResolveFixedMapping ==>
      (Committed(f, a, x).fixedMapping == Some(true) <==> x.resolved.authoritative && x.resolved.target)
    ensures a.id == ResolveRoleMapping(role) && f.connectors.authoritative == Database && f.connectors.target == Database ==>
      Committed(f, a, x).roleMappings == Pair(Some(x.resolved.authoritative), Some(x.resolved.target))
    ensures a.id == ResolveRoleMapping(Authoritative) && f.connectors.authoritative != Database ==>
      Committed(f, a, x).roleMappings ==
        Pair(Some(x.resolved.authoritative || f.connectors.authoritative == Api), f.roleMappings.target)
    ensures a.id == ResolveRoleMapping(Target) && f.connectors.authoritative != Database ==>
      Committed(f, a, x).roleMappings ==
        Pair(f.roleMappings.authoritative, Some(x.resolved.target || f.connectors.target == Api))
  {
  }
}
