/** The server-side guards: replan budget and legality of an action's path. */
module Guards {
  import opened Actions
  import opened GraphDefinition
  import opened Wrappers

  datatype ReplanDisposition = AutoAllowed | HumanGateNeeded | ModelErrorBlocked

  const REPLAN_BUDGET := 3

  function Disposition(replans: nat, crossPhase: bool): ReplanDisposition {
    if crossPhase then HumanGateNeeded
    else if replans >= REPLAN_BUDGET then ModelErrorBlocked
    else AutoAllowed
  }

  /** Action kinds that repair model output and draw on the replan budget. */
  predicate IsLowRiskReplan(kind: Option<ActionKind>) {
    kind.Some? && (kind.value == DO_REREAD_SOURCE_PAGE || kind.value == DO_RENORMALIZE_INPUT_BATCH ||
                   kind.value == DO_REPAIR_ANALYSIS_BATCH || kind.value == DO_REGENERATE_REPORT_NARRATIVE)
  }

  predicate IsTerminateRequest(a: AllowedAction) {
    a.mode == Terminate && EffectiveKind(a) == Some(DO_TERMINATE_REQUESTED)
  }

  /** An action may leave a node along a template, or along the terminate edge. */
  predicate LegalPath(v: GraphVersion, n: Node, a: AllowedAction) {
    || (IsTerminateRequest(a) && a.successor == DRAIN_CURRENT_ATOMIC_UNIT && n != TERMINAL)
    || (EffectiveKind(a).Some? && HasTemplate(v, n, EffectiveKind(a).value, a.successor))
  }

  /** No graph declares a template for a termination request, so one can only lead to the drain. */
  lemma TerminateRequestLeadsToDrain(v: GraphVersion, n: Node, a: AllowedAction)
    requires LegalPath(v, n, a) && EffectiveKind(a) == Some(DO_TERMINATE_REQUESTED)
    ensures a.successor == DRAIN_CURRENT_ATOMIC_UNIT && n != TERMINAL && !IsLowRiskReplan(a.graphKind)
  {
  }
}
