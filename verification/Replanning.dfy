/** Compilation of the execution plan, round after round of a cross-phase replan, and what it means
    for the execution that follows.

    A compiled plan holds one operation for each executable finding and is stored once per run and
    content.  The identifier of an operation is derived from its finding and the target version, so
    equal content means the same version and the same work, and two plans for one version cannot
    share a finding.  A compilation that finds its content again stores nothing, and one without
    executable work stores nothing either; preflight and execution look at the plan stored last. */
module Replanning {
  import opened CandidateProvider
  import Execution = ExecutionLoop
  import opened GraphDefinition
  import opened Wrappers

  /** The findings that are executable, and what their operations do. */
  datatype Work = Work(findings: set<nat>, detail: nat)

  datatype Compiled = Compiled(version: nat, work: Work)

  predicate IsStored(plans: seq<Compiled>, version: nat, work: Work) {
    work.findings == {} || Compiled(version, work) in plans
  }

  predicate IsNew(plans: seq<Compiled>, version: nat, work: Work) {
    work.findings != {} && forall p :: p in plans && p.version == version ==> p.work.findings !! work.findings
  }

  /** The stored plans, the newest last, after one more compilation; it fails when an operation
      exists already under another content. */
  function Compile(plans: seq<Compiled>, version: nat, work: Work): Option<seq<Compiled>> {
    if IsStored(plans, version, work) then Some(plans)
    else if !IsNew(plans, version, work) then None
    else Some(plans + [Compiled(version, work)])
  }

  function NewestVersion(plans: seq<Compiled>): Option<nat> {
    if plans == [] then None else Some(plans[|plans|-1].version)
  }

  /** A compilation at the current version succeeds and gets through preflight. */
  predicate Passes(plans: seq<Compiled>, version: nat, work: Work, external: Option<nat>) {
    var after := Compile(plans, version, work);
    after.Some? && !VersionIsStale(NewestVersion(after.value), Some(version), external)
  }

  /** When one more replan gets through preflight: there is no plan at all; or the database, if there
      is one, reports the current version, and either the plan is new, or nothing is new and the
      newest plan was already compiled for this version. */
  lemma ReplanPassesIff(plans: seq<Compiled>, version: nat, work: Work, external: Option<nat>)
    ensures Passes(plans, version, work, external) <==>
      || (plans == [] && work.findings == {})
      || ((external.Some? ==> external.value == version)
          && (IsNew(plans, version, work) || (IsStored(plans, version, work) && NewestVersion(plans) == Some(version))))
  {
    if IsNew(plans, version, work) {
      NewIsNotStored(plans, version, work);
    }
  }

  /** The provider's choice at preflight is the one described here. */
  lemma ProviderFollowsPlans(v: GraphVersion, f: Facts, plans: seq<Compiled>, version: nat, work: Work)
    requires Declares(v, PREFLIGHT_EXECUTION) && !f.terminationRequested && !Raises(PREFLIGHT_EXECUTION, f)
    requires Compile(plans, version, work).Some? && f.currentTarget == Some(version)
    requires NewestVersion(Compile(plans, version, work).value) ==
      if f.plan.Some? then Some(f.plan.value.targetVersion) else None
    ensures Project(v, PREFLIGHT_EXECUTION, f).Some? && |Project(v, PREFLIGHT_EXECUTION, f).value| == 1
    ensures Project(v, PREFLIGHT_EXECUTION, f).value[0].successor == WAIT_REPLAN_CONFIRMATION <==>
      !Passes(plans, version, work, if f.databaseTarget then f.externalVersion else None)
  {
    hide Project, Compile;
    PreflightReplansIffStale(v, f);
  }

  /** One confirmed replan: what the compilation found. */
  datatype Round = Round(version: nat, work: Work)

  /** A compilation that fails stores nothing. */
  function After(plans: seq<Compiled>, rounds: seq<Round>): seq<Compiled> {
    if rounds == [] then plans
    else
      var before, last := After(plans, rounds[..|rounds|-1]), rounds[|rounds|-1];
      var after := Compile(before, last.version, last.work);
      if after.Some? then after.value else before
  }

  lemma CompileTwice(plans: seq<Compiled>, version: nat, work: Work)
    requires Compile(plans, version, work).Some?
    ensures IsStored(Compile(plans, version, work).value, version, work)
  {
  }

  /** While version and work stay the same, every further replan ends as the first one did: a
      replan that was asked for again is asked for forever. */
  lemma {:induction false} SameRoundSameAnswer(plans: seq<Compiled>, rounds: seq<Round>, version: nat, work: Work, external: Option<nat>)
    requires forall r :: r in rounds ==> r == Round(version, work)
    ensures Passes(After(plans, rounds), version, work, external) <==> Passes(plans, version, work, external)
  {
    if rounds != [] {
      var n := |rounds| - 1;
      assert rounds[n] in rounds;
      forall r | r in rounds[..n] ensures r == Round(version, work) {
        assert r in rounds;
      }
      SameRoundSameAnswer(plans, rounds[..n], version, work, external);
      var before := After(plans, rounds[..n]);
      if Compile(before, version, work).Some? {
        CompileTwice(before, version, work);
      }
    }
  }

  ghost predicate StoresPlan(rounds: seq<Round>, i: nat)
    requires i < |rounds|
  {
    IsNew(After([], rounds[..i]), rounds[i].version, rounds[i].work)
  }

  lemma NewIsNotStored(plans: seq<Compiled>, version: nat, work: Work)
    requires IsNew(plans, version, work)
    ensures Compile(plans, version, work) == Some(plans + [Compiled(version, work)])
  {
  }

  /** The newest plan is that of the last round which stored one. */
  lemma {:induction false} NewestIsLastStored(rounds: seq<Round>, i: nat)
    requires i < |rounds| && StoresPlan(rounds, i)
    requires forall j :: i < j < |rounds| ==> !StoresPlan(rounds, j)
    ensures NewestVersion(After([], rounds)) == Some(rounds[i].version)
  {
    var n := |rounds| - 1;
    var front := rounds[..n];
    if i < n {
      forall j | 0 <= j < n ensures StoresPlan(front, j) <==> StoresPlan(rounds, j) {
        assert front[..j] == rounds[..j];
      }
      NewestIsLastStored(front, i);
      assert !StoresPlan(rounds, n);
    } else {
      NewIsNotStored(After([], front), rounds[n].version, rounds[n].work);
    }
  }

  /** Over any history of compilations that stored a plan: preflight passes after the last one if
      and only if the database agrees and the plan stored last was compiled for the current version. */
  lemma {:induction false} HistoryPassesIff(rounds: seq<Round>, i: nat, external: Option<nat>)
    requires i < |rounds| && StoresPlan(rounds, i)
    requires forall j :: i < j < |rounds| ==> !StoresPlan(rounds, j)
    ensures var version := rounds[|rounds|-1].version;
      !VersionIsStale(NewestVersion(After([], rounds)), Some(version), external) <==>
        rounds[i].version == version && (external.Some? ==> external.value == version)
  {
    NewestIsLastStored(rounds, i);
  }

  /** The target returns to an earlier version with the same work: the plan of the version in
      between stays the newest, and every further replan is stale. */
  lemma {:induction false} ReturnIsStaleForever(a: nat, b: nat, work: Work, more: seq<Round>)
    requires a != b && work.findings != {} && forall r :: r in more ==> r == Round(a, work)
    ensures var plans := After([], [Round(a, work), Round(b, work)]);
      !Passes(After(plans, more), a, work, None)
  {
    TwoVersionsTwoPlans(a, b, work);
    SameRoundSameAnswer([Compiled(a, work), Compiled(b, work)], more, a, work, None);
  }

  lemma TwoVersionsTwoPlans(a: nat, b: nat, work: Work)
    requires a != b && work.findings != {}
    ensures After([], [Round(a, work)]) == [Compiled(a, work)]
    ensures After([], [Round(a, work), Round(b, work)]) == [Compiled(a, work), Compiled(b, work)]
  {
    var rounds := [Round(a, work), Round(b, work)];
    assert rounds[..1] == [Round(a, work)] && rounds[..1][..0] == [];
    NewIsNotStored([], a, work);
    NewIsNotStored([Compiled(a, work)], b, work);
  }

  /** A database that no longer reports the current version is not helped by any replan. */
  lemma {:induction false} ForeignChangeIsStaleForever(plans: seq<Compiled>, rounds: seq<Round>, version: nat, work: Work, external: nat)
    requires external != version && plans != []
    ensures !Passes(After(plans, rounds), version, work, Some(external))
  {
    PlansStay(plans, rounds);
  }

  lemma {:induction false} PlansStay(plans: seq<Compiled>, rounds: seq<Round>)
    ensures plans <= After(plans, rounds)
  {
    if rounds != [] {
      PlansStay(plans, rounds[..|rounds|-1]);
    }
  }

  // ----- Execution after a replan -----

  function Operations(plans: seq<Compiled>): nat {
    if plans == [] then 0 else Operations(plans[..|plans|-1]) + |plans[|plans|-1].work.findings|
  }

  /** The pending operations of all plans but the newest: a run that executes does not compile any
      more, so no older plan was ever executed. */
  function EarlierPending(plans: seq<Compiled>): nat {
    if plans == [] then 0 else Operations(plans[..|plans|-1])
  }

  lemma {:induction false} PlansHaveWork(rounds: seq<Round>)
    ensures forall p :: p in After([], rounds) ==> p.work.findings != {}
  {
    if rounds != [] {
      PlansHaveWork(rounds[..|rounds|-1]);
    }
  }

  lemma NothingEarlierIff(plans: seq<Compiled>)
    requires forall p :: p in plans ==> p.work.findings != {}
    ensures EarlierPending(plans) == 0 <==> |plans| <= 1
  {
    if |plans| > 1 {
      var front := plans[..|plans|-1];
      assert front[|front|-1] == plans[|plans|-2] && plans[|plans|-2] in plans;
    }
  }

  /** Over any history of compilations, the execution of the newest plan gets to the terminal report
      if and only if the run has stored at most one plan and, with the SQL handler, every operation
      that another depends on succeeds. */
  lemma RunFinishesIff(h: Execution.Handler, rounds: seq<Round>, deps: Execution.Dependencies, out: nat -> Execution.Status)
    requires Execution.Decisive(out) && Execution.Acyclic(deps)
    ensures Execution.Finishes(h, deps, out, EarlierPending(After([], rounds))) <==>
      |After([], rounds)| <= 1 && (h == Execution.Sql ==> Execution.DependenciesSucceed(deps, out))
  {
    var plans := After([], rounds);
    PlansHaveWork(rounds);
    NothingEarlierIff(plans);
    if h == Execution.Csv {
      Execution.CsvLoopFinishesIff(deps, out, EarlierPending(plans));
    } else {
      Execution.SqlLoopFinishesIff(deps, out, EarlierPending(plans));
    }
  }

  /** A replan that cures a stale plan leads into an execution that never gets to the report: the
      stale plan's operations stay pending. */
  lemma CuredRunNeverFinishes(h: Execution.Handler, rounds: seq<Round>, version: nat, work: Work, external: Option<nat>,
                              deps: Execution.Dependencies, out: nat -> Execution.Status)
    requires Execution.Decisive(out) && Execution.Acyclic(deps)
    requires VersionIsStale(NewestVersion(After([], rounds)), Some(version), external)
    requires Passes(After([], rounds), version, work, external)
    ensures !Execution.Finishes(h, deps, out, EarlierPending(After([], rounds + [Round(version, work)])))
  {
    var longer := rounds + [Round(version, work)];
    assert longer[..|longer|-1] == rounds;
    ReplanPassesIff(After([], rounds), version, work, external);
    NewIsNotStored(After([], rounds), version, work);
    assert |After([], longer)| > 1;
    RunFinishesIff(h, longer, deps, out);
  }

  /** One finding, planned again after the target changed: the second plan gets through preflight,
      its operation succeeds, and the loop goes on for ever. */
  lemma ReplannedRunRepeatsForever(rounds: nat)
    ensures var plans := After([], [Round(0, Work({1}, 0))]);
      VersionIsStale(NewestVersion(plans), Some(1), None) && Passes(plans, 1, Work({1}, 0), None)
    ensures Execution.AfterVerify(EarlierPending(After([], [Round(0, Work({1}, 0)), Round(1, Work({1}, 0))])),
        Execution.After(Execution.Csv, [[]], _ => Execution.Succeeded, Execution.Fresh(1), rounds))
      == DO_EXECUTE_REMAINING_INDEPENDENT
  {
    var work := Work({1}, 0);
    TwoVersionsTwoPlans(0, 1, work);
    ReplanPassesIff([Compiled(0, work)], 1, work, None);
    NothingEarlierIff([Compiled(0, work), Compiled(1, work)]);
  }
}
