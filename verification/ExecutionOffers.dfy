/** What the provider offers at the two execute nodes, and the order in which successive offers have
    operations dispatched. */
module ExecutionOffers {
  import opened Actions
  import opened CandidateProvider
  import opened Distinctness
  import Execution = ExecutionLoop
  import opened GraphDefinition
  import opened Wrappers

  /** Pending, with every dependency in the plan and succeeded. */
  predicate CanRun(operations: seq<Operation>, i: nat) {
    i < |operations| && operations[i].status == Execution.Pending &&
    forall d :: d in operations[i].dependencies ==> d < |operations| && operations[d].status == Execution.Succeeded
  }

  /** The operations whose outcomes an action has to bring, in order. */
  function OfferedOperations(a: AllowedAction): (r: seq<nat>)
    ensures forall i :: i in r <==> ExecutionOutcome(i) in a.evidence
  {
    OutcomesIn(a.evidence)
  }

  function OutcomesIn(refs: seq<Ref>): (r: seq<nat>)
    ensures forall i :: i in r <==> ExecutionOutcome(i) in refs
  {
    if refs == [] then []
    else
      var last := refs[|refs|-1];
      assert refs == refs[..|refs|-1] + [last];
      OutcomesIn(refs[..|refs|-1]) + if last.ExecutionOutcome? then [last.operation] else []
  }

  predicate AtExecuteNode(n: Node) {
    n == EXECUTE_READY_OPERATIONS || n == EXECUTE_REMAINING_INDEPENDENT
  }

  /** The offer at an execute node. */
  function Offer(v: GraphVersion, n: Node, f: Facts): Option<AllowedAction> {
    var r := Project(v, n, f);
    if r.Some? && |r.value| == 1 then Some(r.value[0]) else None
  }

  lemma {:induction false} OutcomesOfBatch(batch: seq<nat>)
    ensures OutcomesIn(seq(|batch|, i requires 0 <= i < |batch| => ExecutionOutcome(batch[i]))) == batch
  {
    if batch != [] {
      var n := |batch| - 1;
      OutcomesOfBatch(batch[..n]);
      var refs := seq(|batch|, i requires 0 <= i < |batch| => ExecutionOutcome(batch[i]));
      assert refs[..n] == seq(n, i requires 0 <= i < n => ExecutionOutcome(batch[..n][i]));
    }
  }

  lemma ReadyIsCanRun(operations: seq<Operation>, i: nat)
    ensures Execution.IsReady(DependenciesOf(operations), Statuses(operations), i) <==> CanRun(operations, i)
  {
    assert forall d :: 0 <= d < |operations| ==> Statuses(operations)[d] == operations[d].status;
    if i < |operations| {
      assert DependenciesOf(operations)[i] == operations[i].dependencies;
      assert forall d: nat :: Execution.SucceededAt(Statuses(operations), d) <==>
        d < |operations| && operations[d].status == Execution.Succeeded;
    }
  }

  /** A template's own reference is no outcome of an operation. */
  lemma NoOutcomeInResult(id: ActionId)
    ensures OutcomesIn([ResultOf(id)]) == []
  {
    assert [ResultOf(id)][..0] == [];
  }

  function VerifyTemplate(): AllowedAction {
    FromTemplate(Template(DO_VERIFY_OPERATIONS, VERIFY_OPERATIONS, Dispatch(GovernanceExecution, High)))
  }

  lemma VerifyIsDeclared(v: GraphVersion, n: Node)
    requires Declares(v, n) && AtExecuteNode(n)
    ensures Declared(v, n, DO_VERIFY_OPERATIONS) == Some(VerifyTemplate())
  {
  }

  /** The action at an execute node: the batch, or the bare template when the batch is empty. */
  lemma {:induction false} OffersTheBatch(v: GraphVersion, n: Node, f: Facts)
    requires Declares(v, n) && AtExecuteNode(n) && !f.terminationRequested && f.plan.Some?
    ensures var ops := f.plan.value.operations;
      var batch := Execution.Batch(DependenciesOf(ops), Statuses(ops));
      && Offer(v, n, f) == Some(
           if batch == [] then VerifyTemplate() else ExecuteAction(f.deterministicExecution, f.plan.value.id, batch))
      && OfferedOperations(Offer(v, n, f).value) == batch
  {
    hide Declared, OutcomesIn, Execution.Batch;
    VerifyIsDeclared(v, n);
    var ops := f.plan.value.operations;
    OutcomesOfBatch(Execution.Batch(DependenciesOf(ops), Statuses(ops)));
    NoOutcomeInResult(Named(DO_VERIFY_OPERATIONS));
  }

  ghost predicate Rises(r: seq<nat>) {
    forall p, q :: 0 <= p < q < |r| ==> r[p] < r[q]
  }

  lemma {:induction false} ReadyIsSorted(deps: Execution.Dependencies, st: Execution.Statuses, n: nat)
    requires |deps| == |st| && n <= |st|
    ensures Rises(Execution.ReadyBelow(deps, st, n))
  {
    if n > 0 {
      ReadyIsSorted(deps, st, n - 1);
      var front := Execution.ReadyBelow(deps, st, n - 1);
      forall p | 0 <= p < |front| ensures front[p] < n - 1 {
        assert front[p] in front;
      }
    }
  }

  /** The batch holds the first ready operations, and all of them when it is not full. */
  lemma BatchIsFirst(deps: Execution.Dependencies, st: Execution.Statuses, i: nat)
    requires |deps| == |st| && Execution.IsReady(deps, st, i) && i !in Execution.Batch(deps, st)
    ensures |Execution.Batch(deps, st)| == 50 && forall j :: j in Execution.Batch(deps, st) ==> j < i
  {
    ReadyIsSorted(deps, st, |st|);
    var ready := Execution.ReadyBelow(deps, st, |st|);
    assert i in ready;
    var q :| 0 <= q < |ready| && ready[q] == i;
    if q < |Execution.Batch(deps, st)| {
      assert false;
    }
    forall j | j in Execution.Batch(deps, st) ensures j < i {
      var k :| 0 <= k < |Execution.Batch(deps, st)| && Execution.Batch(deps, st)[k] == j;
      assert ready[k] == j;
    }
  }

  /** With a plan and no termination request, an execute node offers for execution at most fifty
      operations, in order, each pending with all its dependencies succeeded; an operation that could
      run is left for later only when fifty earlier ones are offered; the action names exactly these
      operations in its resources and outcomes; and it is the bare template exactly when none can run. */
  lemma {:induction false} OffersWhatCanRun(v: GraphVersion, n: Node, f: Facts)
    requires Declares(v, n) && AtExecuteNode(n) && !f.terminationRequested && f.plan.Some?
    ensures Offer(v, n, f).Some?
    ensures var ops, a := f.plan.value.operations, Offer(v, n, f).value;
      var offered := OfferedOperations(a);
      && |offered| <= 50 && Distinct(offered)
      && (forall i :: i in offered ==> CanRun(ops, i))
      && (forall i: nat :: CanRun(ops, i) && i !in offered ==> |offered| == 50 && forall j :: j in offered ==> j < i)
      && (forall i :: i in offered <==> Ref.Operation(i) in a.resources)
      && (offered != [] ==> a.id == ExecuteOperationsBatch && ExecutionPlan(f.plan.value.id) in a.resources)
      && (offered == [] ==> a == VerifyTemplate())
      && a.successor == VERIFY_OPERATIONS
  {
    OffersTheBatch(v, n, f);
    var ops := f.plan.value.operations;
    var deps, st := DependenciesOf(ops), Statuses(ops);
    Execution.BatchIsIndependent(deps, st);
    hide Offer, Execution.Batch, Execution.IsReady, DependenciesOf, Statuses, OutcomesIn, CanRun;
    forall i: nat ensures Execution.IsReady(deps, st, i) <==> CanRun(ops, i) {
      ReadyIsCanRun(ops, i);
    }
    forall i: nat | CanRun(ops, i) && i !in Execution.Batch(deps, st)
      ensures |Execution.Batch(deps, st)| == 50 && forall j :: j in Execution.Batch(deps, st) ==> j < i
    {
      BatchIsFirst(deps, st, i);
    }
    ResourcesNameTheBatch(f.deterministicExecution, f.plan.value.id, Execution.Batch(deps, st));
  }

  lemma ResourcesNameTheBatch(deterministic: bool, plan: nat, batch: seq<nat>)
    ensures forall i :: i in batch <==> Ref.Operation(i) in ExecuteAction(deterministic, plan, batch).resources
    ensures ExecutionPlan(plan) in ExecuteAction(deterministic, plan, batch).resources
    ensures forall i :: Ref.Operation(i) !in VerifyTemplate().resources
  {
    var r := ExecuteAction(deterministic, plan, batch).resources;
    forall i | i in batch ensures Ref.Operation(i) in r {
      var k :| 0 <= k < |batch| && batch[k] == i;
      assert r[k + 1] == Ref.Operation(i);
    }
  }

  // ----- Successive offers -----

  function Restated(operations: seq<Operation>, st: Execution.Statuses): (r: seq<Operation>)
    requires |operations| == |st|
    ensures |r| == |operations| && Statuses(r) == st && DependenciesOf(r) == DependenciesOf(operations)
  {
    seq(|operations|, i requires 0 <= i < |operations| => operations[i].(status := st[i]))
  }

  /** The facts once the operations stand at these statuses. */
  function FactsAt(f: Facts, st: Execution.Statuses): Facts
    requires f.plan.Some? && |f.plan.value.operations| == |st|
  {
    f.(plan := Some(f.plan.value.(operations := Restated(f.plan.value.operations, st))))
  }

  /** What the provider offers at the statuses of a round: first at one execute node, then at the other. */
  function OfferedAt(v: GraphVersion, f: Facts, st: Execution.Statuses, round: nat): seq<nat>
    requires f.plan.Some? && |f.plan.value.operations| == |st|
  {
    var a := Offer(v, if round == 0 then EXECUTE_READY_OPERATIONS else EXECUTE_REMAINING_INDEPENDENT, FactsAt(f, st));
    if a.Some? then OfferedOperations(a.value) else []
  }

  /** The statuses after so many rounds in which what was offered was executed. */
  ghost function AfterOffers(h: Execution.Handler, v: GraphVersion, f: Facts, out: nat -> Execution.Status, rounds: nat): (r: Execution.Statuses)
    requires f.plan.Some?
    ensures |r| == |f.plan.value.operations|
  {
    var deps := DependenciesOf(f.plan.value.operations);
    if rounds == 0 then Statuses(f.plan.value.operations)
    else
      var st := AfterOffers(h, v, f, out, rounds - 1);
      Execution.ExecuteAll(h, deps, out, st, OfferedAt(v, f, st, rounds - 1))
  }

  ghost function AllOffered(h: Execution.Handler, v: GraphVersion, f: Facts, out: nat -> Execution.Status, rounds: nat): seq<nat>
    requires f.plan.Some?
  {
    if rounds == 0 then []
    else AllOffered(h, v, f, out, rounds - 1) + OfferedAt(v, f, AfterOffers(h, v, f, out, rounds - 1), rounds - 1)
  }

  lemma {:induction false} OffersAreDispatched(h: Execution.Handler, v: GraphVersion, f: Facts, out: nat -> Execution.Status, rounds: nat)
    requires f.plan.Some? && !f.terminationRequested && !v.RollbackV1?
    ensures var deps, st := DependenciesOf(f.plan.value.operations), Statuses(f.plan.value.operations);
      && AfterOffers(h, v, f, out, rounds) == Execution.After(h, deps, out, st, rounds)
      && AllOffered(h, v, f, out, rounds) == Execution.Dispatched(h, deps, out, st, rounds)
  {
    hide Offer, Execution.ExecuteAll, Execution.Batch, DependenciesOf, Statuses;
    if rounds > 0 {
      OffersAreDispatched(h, v, f, out, rounds - 1);
      var st := AfterOffers(h, v, f, out, rounds - 1);
      OffersTheBatch(v, if rounds == 1 then EXECUTE_READY_OPERATIONS else EXECUTE_REMAINING_INDEPENDENT, FactsAt(f, st));
    }
  }

  /** Every dependency of the operation at position `p` comes earlier and succeeded. */
  ghost predicate FollowsDependencies(ops: seq<Operation>, out: nat -> Execution.Status, order: seq<nat>, p: nat)
    requires p < |order| && order[p] < |ops|
  {
    forall d :: d in ops[order[p]].dependencies ==> d in order[..p] && out(d) == Execution.Succeeded
  }

  /** Over any number of rounds of offers, whatever outcomes come back: no operation is offered twice,
      and each is offered only after all its dependencies were offered and succeeded. */
  lemma {:induction false} OffersAreLinearExtension(h: Execution.Handler, v: GraphVersion, f: Facts, out: nat -> Execution.Status, rounds: nat)
    requires f.plan.Some? && !f.terminationRequested && !v.RollbackV1? && Execution.Decisive(out)
    requires forall i :: 0 <= i < |f.plan.value.operations| ==> f.plan.value.operations[i].status == Execution.Pending
    ensures var ops, order := f.plan.value.operations, AllOffered(h, v, f, out, rounds);
      && Distinct(order) && (forall i :: i in order ==> i < |ops|)
      && (forall p :: 0 <= p < |order| && order[p] < |ops| ==> FollowsDependencies(ops, out, order, p))
  {
    hide Offer, AllOffered, Execution.Dispatched, Execution.After, Execution.Extends, Execution.Tracks, Distinct;
    var ops := f.plan.value.operations;
    var deps := DependenciesOf(ops);
    assert Statuses(ops) == Execution.Fresh(|deps|);
    OffersAreDispatched(h, v, f, out, rounds);
    Execution.DispatchIsLinearExtension(h, deps, out, rounds);
    hide AfterOffers, Execution.Decisive;
    OrderExtends(ops, out, AllOffered(h, v, f, out, rounds), AfterOffers(h, v, f, out, rounds));
  }

  lemma OrderExtends(ops: seq<Operation>, out: nat -> Execution.Status, order: seq<nat>, st: Execution.Statuses)
    requires |st| == |ops| && Execution.Extends(DependenciesOf(ops), out, order) && Execution.Tracks(out, order, st)
    ensures forall i :: i in order ==> i < |ops|
    ensures forall p :: 0 <= p < |order| && order[p] < |ops| ==> FollowsDependencies(ops, out, order, p)
  {
    var deps := DependenciesOf(ops);
    forall p | 0 <= p < |order| && order[p] < |ops| ensures FollowsDependencies(ops, out, order, p) {
      forall d | d in ops[order[p]].dependencies ensures d in order[..p] && out(d) == Execution.Succeeded {
        assert deps[order[p]] == ops[order[p]].dependencies && d in deps[order[p]];
        assert out(d) == Execution.Succeeded;
      }
    }
  }
}
