/** Candidate actions, the frozen action set built from them and the decision checked
    against it. */
module Actions {
  import opened Distinctness
  import opened GraphDefinition
  import opened Wrappers

  datatype Role = Authoritative | Target

  /** Action identifiers, one constructor per shape the provider can form.  `Named` is an
      identifier that equals a graph action kind. */
  datatype ActionId =
    | Named(kind: ActionKind)
    | InspectSource(role: Role)
    | NormalizeReadyPair
    | ResolveFixedMapping
    | ResolveRoleMapping(role: Role)
    | NormalizePage(role: Role, page: nat)
    | NormalizeFull(role: Role)
    | AnalyzeBatch(batch: nat)
    | RepairBatch(batch: nat)
    | ExecuteOperationsBatch
    | BlockModelError

  /** Resource and evidence references. */
  datatype Ref =
    | RuntimeOf(action: ActionId) | ResultOf(action: ActionId)
    | SourcePage(role: Role, page: nat) | SourceFull(role: Role) | SourceInspection(role: Role)
    | NormalizedPage(role: Role, page: nat) | NormalizedFull(role: Role)
    | SnapshotPair | NormalizationReady | SourcePair | FixedMapping
    | RoleMapping(role: Role) | MappingEvidence(role: Role)
    | WorkItem(item: nat) | PairedRecord(item: nat)
    | ExecutionPlan(plan: nat) | Operation(operation: nat) | ExecutionOutcome(operation: nat)
    | MaterializedSource(source: nat) | ExternalSource(source: nat)
    | ReportFacts(cursor: nat) | TerminationAccepted

  datatype ActionMode = DispatchSubAgent | RunDeterministic | WaitHuman | Terminate

  datatype Risk = Low | Medium | High

  datatype SubAgentName =
    | SourceInspectionAgent | InputNormalization | SchemaMapping | ReconciliationAnalysis
    | GovernanceExecution | Reporting | RollbackAnalysis | RollbackExecution

  datatype AllowedAction = AllowedAction(
    id: ActionId,
    graphKind: Option<ActionKind>,
    mode: ActionMode,
    subAgent: Option<SubAgentName>,
    resources: seq<Ref>,
    evidence: seq<Ref>,
    risk: Risk,
    requiresHuman: bool,
    successor: Node)

  /** The graph action kind, or the identifier read as a kind when none is given. */
  function EffectiveKind(a: AllowedAction): Option<ActionKind> {
    if a.graphKind.Some? then a.graphKind
    else if a.id.Named? then Some(a.id.kind) else None
  }

  /** The dispatch-target rule of the action contract. */
  predicate WellFormed(a: AllowedAction) {
    (a.mode == DispatchSubAgent <==> a.subAgent.Some?)
  }

  datatype ReasonCode =
    | SafetyMandatory | HumanGateRequired | OnlyGuardSatisfied
    | TerminationRequested | TerminalizationRequired

  datatype GuardCode = GuardCode(code: nat)

  datatype Evaluation = Evaluation(action: AllowedAction, passed: bool, rejected: set<GuardCode>)

  datatype Excluded = Excluded(id: ActionId, codes: set<GuardCode>)

  datatype ActionSet = ActionSet(
    actions: seq<AllowedAction>,
    reason: Option<ReasonCode>,
    excluded: seq<Excluded>)

  datatype BuildError =
    | DuplicateIds | NoSafeAction | SingletonReasonMissing | SingletonReasonUnexpected
    | SemanticAlias(earlier: ActionId, later: ActionId)

  /** What two actions must not share: everything but identifier, risk and human flag. */
  datatype Fingerprint = Fingerprint(
    mode: ActionMode, graphKind: Option<ActionKind>, subAgent: Option<SubAgentName>,
    resources: seq<Ref>, evidence: seq<Ref>, successor: Node)

  function FingerprintOf(a: AllowedAction): Fingerprint {
    Fingerprint(a.mode, a.graphKind, a.subAgent, a.resources, a.evidence, a.successor)
  }

  function Ids(evaluations: seq<Evaluation>): (r: seq<ActionId>)
    ensures |r| == |evaluations|
    ensures forall i :: 0 <= i < |r| ==> r[i] == evaluations[i].action.id
  {
    seq(|evaluations|, i requires 0 <= i < |evaluations| => evaluations[i].action.id)
  }

  function Passed(evaluations: seq<Evaluation>): (r: seq<AllowedAction>) {
    if evaluations == [] then []
    else
      var last := evaluations[|evaluations|-1];
      Passed(evaluations[..|evaluations|-1]) + if last.passed then [last.action] else []
  }

  function Rejected(evaluations: seq<Evaluation>): (r: seq<Excluded>) {
    if evaluations == [] then []
    else
      var last := evaluations[|evaluations|-1];
      Rejected(evaluations[..|evaluations|-1]) +
      if last.passed then [] else [Excluded(last.action.id, last.rejected)]
  }

  ghost predicate AliasFree(actions: seq<AllowedAction>) {
    forall i, j :: 0 <= i < j < |actions| ==> FingerprintOf(actions[i]) != FingerprintOf(actions[j])
  }

  /** When a candidate list can be frozen. */
  ghost predicate Buildable(evaluations: seq<Evaluation>, reason: Option<ReasonCode>) {
    && Distinct(Ids(evaluations))
    && Passed(evaluations) != []
    && (reason.Some? <==> |Passed(evaluations)| == 1)
    && AliasFree(Passed(evaluations))
  }

  lemma AliasFreeGrows(actions: seq<AllowedAction>, k: nat)
    requires k < |actions| && AliasFree(actions[..k])
    ensures AliasFree(actions[..k+1]) <==> forall i :: 0 <= i < k ==> FingerprintOf(actions[i]) != FingerprintOf(actions[k])
  {
    hide FingerprintOf;
    var longer := actions[..k+1];
    if AliasFree(longer) {
      forall i | 0 <= i < k ensures FingerprintOf(actions[i]) != FingerprintOf(actions[k]) {
        assert longer[i] == actions[i] && longer[k] == actions[k];
      }
    }
  }

  lemma AliasRemains(actions: seq<AllowedAction>, k: nat)
    requires k < |actions| && !AliasFree(actions[..k+1])
    ensures !AliasFree(actions)
  {
    hide FingerprintOf;
  }

  lemma NoAliasYet(actions: seq<AllowedAction>)
    ensures AliasFree(actions[..0])
  {
  }

  method BuildAllowedActionSet(evaluations: seq<Evaluation>, reason: Option<ReasonCode>)
      returns (r: Result<ActionSet, BuildError>)
    ensures r.Ok? <==> Buildable(evaluations, reason)
    ensures r.Ok? ==> r.value == ActionSet(Passed(evaluations), reason, Rejected(evaluations))
    ensures r.Err? && r.error.DuplicateIds? <==> !Distinct(Ids(evaluations))
    ensures r.Err? && r.error.SemanticAlias? ==>
      exists i, j :: 0 <= i < j < |Passed(evaluations)| &&
        Passed(evaluations)[i].id == r.error.earlier && Passed(evaluations)[j].id == r.error.later &&
        FingerprintOf(Passed(evaluations)[i]) == FingerprintOf(Passed(evaluations)[j])
  {
    hide Distinct, Ids, Passed, Rejected, FingerprintOf, AliasFree;
    var ids := Ids(evaluations);
    CountsDistinct(ids);
    if |ToSet(ids)| != |ids| {
      return Err(DuplicateIds);
    }
    var allowed := Passed(evaluations);
    if allowed == [] {
      return Err(NoSafeAction);
    }
    if |allowed| == 1 && reason.None? {
      return Err(SingletonReasonMissing);
    }
    if |allowed| > 1 && reason.Some? {
      return Err(SingletonReasonUnexpected);
    }
    var fingerprints: map<Fingerprint, ActionId> := map[];
    NoAliasYet(allowed);
    for k := 0 to |allowed|
      invariant forall i :: 0 <= i < k ==> FingerprintOf(allowed[i]) in fingerprints
      invariant forall f :: f in fingerprints ==>
        exists i :: 0 <= i < k && FingerprintOf(allowed[i]) == f && fingerprints[f] == allowed[i].id
      invariant AliasFree(allowed[..k])
    {
      var f := FingerprintOf(allowed[k]);
      AliasFreeGrows(allowed, k);
      if f in fingerprints {
        AliasRemains(allowed, k);
        return Err(SemanticAlias(fingerprints[f], allowed[k].id));
      }
      fingerprints := fingerprints[f := allowed[k].id];
    }
    assert allowed[..|allowed|] == allowed;
    return Ok(ActionSet(allowed, reason, Rejected(evaluations)));
  }

  /** Allowed and excluded identifiers are unique and disjoint. */
  ghost predicate IdsApart(s: seq<AllowedAction>, x: seq<Excluded>) {
    && (forall i, j :: 0 <= i < j < |s| ==> s[i].id != s[j].id)
    && (forall i, j :: 0 <= i < j < |x| ==> x[i].id != x[j].id)
    && (forall i, j :: 0 <= i < |s| && 0 <= j < |x| ==> s[i].id != x[j].id)
  }

  /** The choice-shape rule of a frozen action set. */
  ghost predicate WellShaped(s: ActionSet) {
    && s.actions != []
    && (s.reason.Some? <==> |s.actions| == 1)
    && IdsApart(s.actions, s.excluded)
  }

  lemma {:induction false} SplitSources(evaluations: seq<Evaluation>)
    ensures forall a :: a in Passed(evaluations) ==>
      exists i :: 0 <= i < |evaluations| && evaluations[i].passed && evaluations[i].action == a
    ensures forall x :: x in Rejected(evaluations) ==>
      exists i :: 0 <= i < |evaluations| && !evaluations[i].passed && evaluations[i].action.id == x.id
  {
    if evaluations != [] {
      SplitSources(evaluations[..|evaluations|-1]);
    }
  }

  /** The builder's own checks already imply every rule of the frozen set's contract: allowed
      and excluded identifiers are unique and disjoint. */
  lemma {:induction false} BuildableIsWellShaped(evaluations: seq<Evaluation>, reason: Option<ReasonCode>)
    requires Buildable(evaluations, reason)
    ensures WellShaped(ActionSet(Passed(evaluations), reason, Rejected(evaluations)))
  {
    SplitIdsUnique(evaluations);
  }

  lemma SplitIdsGrow(s: seq<AllowedAction>, x: seq<Excluded>, last: Evaluation)
    requires IdsApart(s, x)
    requires forall i :: 0 <= i < |s| ==> s[i].id != last.action.id
    requires forall i :: 0 <= i < |x| ==> x[i].id != last.action.id
    ensures last.passed ==> IdsApart(s + [last.action], x)
    ensures !last.passed ==> IdsApart(s, x + [Excluded(last.action.id, last.rejected)])
  {
  }

  lemma NothingApart()
    ensures IdsApart([], [])
  {
  }

  lemma {:induction false} SplitIdsUnique(evaluations: seq<Evaluation>)
    requires Distinct(Ids(evaluations))
    ensures IdsApart(Passed(evaluations), Rejected(evaluations))
  {
    hide IdsApart;
    if evaluations == [] {
      NothingApart();
    } else {
      var n := |evaluations| - 1;
      var front := evaluations[..n];
      assert Distinct(Ids(front)) by {
        forall i, j | 0 <= i < j < n ensures Ids(front)[i] != Ids(front)[j] {
          assert Ids(evaluations)[i] != Ids(evaluations)[j];
        }
      }
      SplitIdsUnique(front);
      SplitSources(front);
      var last := evaluations[n].action.id;
      forall i | 0 <= i < n ensures front[i].action.id != last {
        assert Ids(evaluations)[i] != Ids(evaluations)[n];
      }
      forall i | 0 <= i < |Passed(front)| ensures Passed(front)[i].id != last {
        assert Passed(front)[i] in Passed(front);
      }
      forall i | 0 <= i < |Rejected(front)| ensures Rejected(front)[i].id != last {
        assert Rejected(front)[i] in Rejected(front);
      }
      SplitIdsGrow(Passed(front), Rejected(front), evaluations[n]);
      assert evaluations[n].passed ==> Rejected(evaluations) == Rejected(front);
      assert !evaluations[n].passed ==> Passed(evaluations) == Passed(front);
    }
  }

  // ----- Decisions -----

  datatype Decision = Decision(
    id: ActionId, expected: Ref, blockers: set<GuardCode>, whyNot: seq<ActionId>)

  function ActiveBlockers(s: ActionSet): set<GuardCode> {
    set x, c | x in s.excluded && c in x.codes :: c
  }

  /** The acceptance rule for a decision against the action set it was asked about. */
  ghost predicate Accepts(s: ActionSet, d: Decision) {
    exists k :: 0 <= k < |s.actions| && s.actions[k].id == d.id && d.expected in s.actions[k].evidence &&
      d.blockers <= ActiveBlockers(s) && Distinct(d.whyNot) &&
      ToSet(d.whyNot) == (set a | a in s.actions :: a.id) - {d.id}
  }

  /** The decision recorded for a lone guarded action. */
  function DeterministicDecision(a: AllowedAction): Decision
    requires a.evidence != []
  {
    Decision(a.id, a.evidence[0], {}, [])
  }

  /** A lone action with evidence is always accepted again when its decision is replayed. */
  lemma DeterministicDecisionReplays(s: ActionSet)
    requires |s.actions| == 1 && s.actions[0].evidence != []
    ensures Accepts(s, DeterministicDecision(s.actions[0]))
  {
  }

  /** The frozen hash covers the allowed actions only.  A decision accepted against one set is
      accepted against another with the same hash exactly when the blockers it names are
      blockers there too. */
  lemma ReplayAcceptedIff(asked: ActionSet, stored: ActionSet, d: Decision)
    requires asked.actions == stored.actions && Accepts(asked, d)
    ensures Accepts(stored, d) <==> d.blockers <= ActiveBlockers(stored)
  {
  }

  /** Two sets with the same hash under which one decision is accepted and refused. */
  lemma ReplayCanBeRefused() returns (asked: ActionSet, stored: ActionSet, d: Decision)
    ensures WellShaped(asked) && WellShaped(stored)
    ensures asked.actions == stored.actions && Accepts(asked, d) && !Accepts(stored, d)
  {
    var a := AllowedAction(Named(DO_GENERATE_TERMINAL_REPORT), None, RunDeterministic, None, [],
                           [TerminationAccepted], Low, false, GENERATE_TERMINAL_REPORT);
    var code := GuardCode(0);
    var other := Named(DO_EXECUTE_REMAINING_INDEPENDENT);
    asked := ActionSet([a], Some(OnlyGuardSatisfied), [Excluded(other, {code})]);
    stored := ActionSet([a], Some(OnlyGuardSatisfied), []);
    d := Decision(a.id, TerminationAccepted, {code}, []);
    assert asked.actions[0].id == d.id;
    assert Excluded(other, {code}) in asked.excluded && code in ActiveBlockers(asked);
    assert (set x | x in asked.actions :: x.id) == {d.id};
    assert ToSet(d.whyNot) == {};
    assert code !in ActiveBlockers(stored);
  }
}
