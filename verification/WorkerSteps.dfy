/** What each step of a worker on its own snapshot does, and when it goes on. */
module WorkerSteps {
  import opened Actions
  import opened GraphDefinition
  import opened GraphStore
  import opened Worker
  import opened Wrappers

  /** A worker takes the winding-down path exactly when termination was requested by the time it looks and
      the node is not on that path already. */
  lemma CheckTakesPath(s: Sys, p: nat)
    requires LocalOf(s, p).Claimed?
    ensures var c, t := LocalOf(s, p).ctx, Step(s, ECheckTermination(p));
      var closing := c.node == DRAIN_CURRENT_ATOMIC_UNIT || c.node == TERMINATION_REPORT || c.node == TERMINAL;
      && t.db == s.db
      && LocalOf(t, p) == if s.db.terminationRequested && !closing then ToTerminate(c) else Ordinarily(c)
  {
  }

  /** A frozen set is planned again whatever is offered; without one, the offer is. */
  lemma PlanTakesStored(s: Sys, p: nat, offer: ActionSet)
    requires LocalOf(s, p).Ordinarily?
    ensures var c, t := LocalOf(s, p).ctx, Step(s, EPlan(p, offer));
      && t.db == s.db
      && (c.cursor in s.db.candidates ==> LocalOf(t, p).Planned? && LocalOf(t, p).offer == s.db.candidates[c.cursor])
      && (c.cursor !in s.db.candidates && Offers(c.node, offer) ==> LocalOf(t, p) == Planned(c, false, offer))
  {
  }

  /** A decision already recorded is replayed or the worker stops; a lone action is decided by the worker
      alone; and a supervisor is asked only at a decision node with a choice, where its answer counts
      exactly when it is accepted. */
  lemma WhoDecides(c: Context, offer: ActionSet, known: Option<Decision>, supervised: Decision)
    requires WellShaped(offer)
    ensures var d := Decide(c, offer, known, supervised);
      && (known.Some? ==> d == if Accepts(offer, known.value) then known else None)
      && (known.None? && |offer.actions| == 1 && offer.actions[0].evidence != [] ==>
            d == Some(DeterministicDecision(offer.actions[0])) && d.value.id == offer.actions[0].id)
      && (known.None? && |offer.actions| > 1 && KindOf(c.node) == DecisionNode ==>
            d == if Accepts(offer, supervised) then Some(supervised) else None)
      && (known.None? && |offer.actions| > 1 && KindOf(c.node) != DecisionNode ==> d.None?)
  {
  }

  /** A decided action is carried on exactly when it moves along a template, or winds the run down, and
      does not repair model output for the fourth time. */
  lemma DecidedActionGoesOn(s: Sys, p: nat, supervised: Decision)
    requires LocalOf(s, p).Frozen?
    ensures var l, m := LocalOf(s, p), LocalOf(Step(s, EDecide(p, supervised)), p);
      var d := Decide(l.ctx, l.offer, l.known, supervised);
      && Step(s, EDecide(p, supervised)).db == s.db
      && (d.None? ==> m == l)
      && (d.Some? ==> forall a :: IsOnly(l.offer, d.value.id, a) ==>
            var goesOn := MovesLegally(s.db.version, l.ctx.node, a) && !(Repairs(a) && l.replansSeen >= 3);
            && (!goesOn ==> m == l)
            && (goesOn ==> m == if l.known.Some? then Decided(l.ctx, a) else Chosen(l.ctx, a, d.value)))
  {
    var l := LocalOf(s, p);
    var d := Decide(l.ctx, l.offer, l.known, supervised);
    hide Decide, HasTemplate;
  }

  /** The action of the set with this identifier, which no other has. */
  ghost predicate IsOnly(s: ActionSet, id: ActionId, a: AllowedAction) {
    a in s.actions && a.id == id && forall b :: b in s.actions && b.id == id ==> b == a
  }

  ghost predicate MovesLegally(v: GraphVersion, n: Node, a: AllowedAction) {
    var kind := EffectiveKind(a);
    || (kind.Some? && HasTemplate(v, n, kind.value, a.successor))
    || (kind == Some(DO_TERMINATE_REQUESTED) && a.mode == Terminate && n != TERMINAL && a.successor == DRAIN_CURRENT_ATOMIC_UNIT)
  }

  predicate Repairs(a: AllowedAction) {
    a.graphKind.Some? && a.graphKind.value in
      {DO_REREAD_SOURCE_PAGE, DO_RENORMALIZE_INPUT_BATCH, DO_REPAIR_ANALYSIS_BATCH, DO_REGENERATE_REPORT_NARRATIVE}
  }

  /** The winding-down path goes on exactly with one action, and that a termination request to the drain. */
  lemma TerminationGoesOn(s: Sys, p: nat, offer: ActionSet)
    requires LocalOf(s, p).ToTerminate?
    ensures var c, m := LocalOf(s, p).ctx, LocalOf(Step(s, EPlanTermination(p, offer)), p);
      && (m.TerminateChosen? <==>
            && |offer.actions| == 1 && offer.actions[0].mode == Terminate
            && EffectiveKind(offer.actions[0]) == Some(DO_TERMINATE_REQUESTED)
            && offer.actions[0].successor == DRAIN_CURRENT_ATOMIC_UNIT && c.node != TERMINAL)
      && (m.TerminateChosen? ==> m == TerminateChosen(c, offer.actions[0]))
  {
    if |offer.actions| == 1 {
      NoTemplateTerminates(s.db.version, LocalOf(s, p).ctx.node, offer.actions[0]);
    }
  }

  lemma NoTemplateTerminates(v: GraphVersion, n: Node, a: AllowedAction)
    ensures !HasTemplate(v, n, DO_TERMINATE_REQUESTED, a.successor)
  {
  }

  /** What an executor returns is taken exactly when it is about the decided action and brings no
      evidence that was not asked for; the pause is the executor's. */
  lemma OutcomeIsTaken(s: Sys, p: nat, o: Outcome)
    requires LocalOf(s, p).Decided? || LocalOf(s, p).TerminateChosen?
    ensures var l, t := LocalOf(s, p), Step(s, EExecute(p, o));
      && (LocalOf(t, p).Executed? <==> o.id == l.action.id && forall r :: r in o.evidence ==> r in l.action.evidence)
      && (LocalOf(t, p).Executed? ==>
            LocalOf(t, p) == Executed(l.ctx, l.action, o.pause, if l.Decided? then Ordinary else TerminateRequest))
      && (!LocalOf(t, p).Executed? ==> t == s)
  {
  }

  /** Nothing is executed that was not decided. */
  lemma OnlyDecidedIsExecuted(s: Sys, p: nat, o: Outcome)
    requires !LocalOf(s, p).Decided? && !LocalOf(s, p).TerminateChosen?
    ensures Step(s, EExecute(p, o)) == s
  {
  }
}
