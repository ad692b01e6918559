/** The tools a model may use while it executes frozen operations, the report it must give, and
    the partition and freezing checks around them. */
module ExecutionTools {
  import opened Distinctness
  import opened Wrappers

  datatype Status = Succeeded | Failed | Blocked | VerificationFailed | AlreadyRestored | ConflictSkipped

  datatype Outcome = Outcome(operation: nat, status: Status, reference: Option<nat>, errorCode: Option<nat>)

  type Outcomes = map<nat, Outcome>

  /** One invocation of the execution callback and what it answered. */
  datatype Invocation = Invocation(operation: nat, answer: Outcome) {
    /** A callback that answers for another operation is refused. */
    predicate Accepted() {
      answer.operation == operation
    }
  }

  /** The recorded outcomes and every invocation of the callback so far. */
  datatype Ledger = Ledger(outcomes: Outcomes, invoked: seq<Invocation>)

  datatype ToolError = OutsideContext | OutsidePlan | OtherOperation | NoOutcome | PlanNotAuthorized

  // ----- Tool calls -----

  /** What one call asks for.  `callback` is what the execution callback would return, should it be
      invoked; `inContext` says that task, run and tenant match. */
  datatype Call =
    | ExecuteOne(inContext: bool, operation: nat, callback: nat -> Outcome)
    | ExecuteBatch(inContext: bool, plan: nat, callback: nat -> Outcome)
    | ReadReady(inContext: bool, plan: nat)
    | ReadVerification(inContext: bool, operation: nat)

  /** An operation is executed only when it has no outcome; an answer for another operation is an
      error and is not recorded. */
  function Once(l: Ledger, operation: nat, callback: nat -> Outcome): (Ledger, Option<ToolError>) {
    if operation in l.outcomes then (l, None)
    else
      var i := Invocation(operation, callback(operation));
      if !i.Accepted() then (l.(invoked := l.invoked + [i]), Some(OtherOperation))
      else (Ledger(l.outcomes[operation := i.answer], l.invoked + [i]), None)
  }

  /** A batch runs in order and stops at the first error; what it recorded until then stays. */
  function AllOnce(l: Ledger, operations: seq<nat>, callback: nat -> Outcome): (Ledger, Option<ToolError>)
    decreases |operations|
  {
    if operations == [] then (l, None)
    else
      var first := Once(l, operations[0], callback);
      if first.1.Some? then first else AllOnce(first.0, operations[1..], callback)
  }

  function AfterCall(plan: nat, operations: seq<nat>, l: Ledger, call: Call): Ledger {
    match call
    case ExecuteOne(inContext, operation, callback) =>
      if !inContext || operation !in operations then l else Once(l, operation, callback).0
    case ExecuteBatch(inContext, p, callback) =>
      if !inContext || p != plan then l else AllOnce(l, operations, callback).0
    case ReadReady(_, _) => l
    case ReadVerification(_, _) => l
  }

  function AfterCalls(plan: nat, operations: seq<nat>, calls: seq<Call>): Ledger {
    if calls == [] then Ledger(map[], [])
    else AfterCall(plan, operations, AfterCalls(plan, operations, calls[..|calls|-1]), calls[|calls|-1])
  }

  function ReadyOf(operations: seq<nat>, outcomes: Outcomes): (r: seq<nat>)
    ensures forall x :: x in r <==> x in operations && x !in outcomes
  {
    if operations == [] then []
    else
      var last := operations[|operations|-1];
      ReadyOf(operations[..|operations|-1], outcomes) + if last in outcomes then [] else [last]
  }

  /** Outcomes belong to frozen operations and to the operation they are filed under. */
  predicate Filed(operations: seq<nat>, outcomes: Outcomes) {
    forall x :: x in outcomes ==> x in operations && outcomes[x].operation == x
  }

  /** The outcomes are the accepted answers, and no operation is invoked after its accepted answer. */
  ghost predicate Traced(l: Ledger) {
    && (forall i :: 0 <= i < |l.invoked| && l.invoked[i].Accepted() ==>
          l.invoked[i].operation in l.outcomes && l.outcomes[l.invoked[i].operation] == l.invoked[i].answer)
    && (forall x :: x in l.outcomes ==> exists i :: 0 <= i < |l.invoked| && l.invoked[i] == Invocation(x, l.outcomes[x]))
    && (forall i, j :: 0 <= i < j < |l.invoked| && l.invoked[i].operation == l.invoked[j].operation ==>
          !l.invoked[i].Accepted())
  }

  /** From one ledger to a later one: recorded outcomes are kept as they are, and only operations
      without an outcome are invoked. */
  ghost predicate Keeps(a: Ledger, b: Ledger) {
    && (forall x :: x in a.outcomes ==> x in b.outcomes && b.outcomes[x] == a.outcomes[x])
    && a.invoked <= b.invoked
    && forall i :: |a.invoked| <= i < |b.invoked| ==> b.invoked[i].operation !in a.outcomes
  }

  function Invoked(l: Ledger, i: Invocation): Ledger {
    Ledger(if i.Accepted() then l.outcomes[i.operation := i.answer] else l.outcomes, l.invoked + [i])
  }

  lemma InvokedStaysTraced(l: Ledger, i: Invocation)
    requires Traced(l) && i.operation !in l.outcomes
    ensures Traced(Invoked(l, i))
  {
    var next := Invoked(l, i);
    forall x | x in next.outcomes
      ensures exists k :: 0 <= k < |next.invoked| && next.invoked[k] == Invocation(x, next.outcomes[x])
    {
      if x in l.outcomes {
        var k :| 0 <= k < |l.invoked| && l.invoked[k] == Invocation(x, l.outcomes[x]);
        assert next.invoked[k] == l.invoked[k];
      } else {
        assert next.invoked[|l.invoked|] == Invocation(x, next.outcomes[x]);
      }
    }
    forall j, k | 0 <= j < k < |next.invoked| && next.invoked[j].operation == next.invoked[k].operation
      ensures !next.invoked[j].Accepted()
    {
      assert next.invoked[j] == l.invoked[j];
    }
  }

  lemma OnceKeeps(l: Ledger, operation: nat, callback: nat -> Outcome)
    requires Traced(l)
    ensures Traced(Once(l, operation, callback).0) && Keeps(l, Once(l, operation, callback).0)
  {
    hide Traced;
    if operation !in l.outcomes {
      InvokedStaysTraced(l, Invocation(operation, callback(operation)));
    }
  }

  lemma {:induction false} AllOnceKeeps(l: Ledger, operations: seq<nat>, callback: nat -> Outcome, frozen: seq<nat>)
    requires Filed(frozen, l.outcomes) && Traced(l) && forall x :: x in operations ==> x in frozen
    ensures var (b, e) := AllOnce(l, operations, callback);
      && Filed(frozen, b.outcomes) && Traced(b) && Keeps(l, b)
      && (e.None? ==> forall x :: x in operations ==> x in b.outcomes)
    decreases |operations|
  {
    hide Traced;
    if operations != [] {
      var first := Once(l, operations[0], callback);
      OnceKeeps(l, operations[0], callback);
      assert operations[0] in operations;
      if first.1.None? {
        AllOnceKeeps(first.0, operations[1..], callback, frozen);
      }
    }
  }

  lemma CallKeeps(plan: nat, operations: seq<nat>, l: Ledger, call: Call)
    requires Filed(operations, l.outcomes) && Traced(l)
    ensures var b := AfterCall(plan, operations, l, call);
      Filed(operations, b.outcomes) && Traced(b) && Keeps(l, b)
  {
    hide Traced;
    if call.ExecuteBatch? {
      AllOnceKeeps(l, operations, call.callback, operations);
    } else if call.ExecuteOne? {
      OnceKeeps(l, call.operation, call.callback);
    }
  }

  lemma {:induction false} CallsKeep(plan: nat, operations: seq<nat>, calls: seq<Call>, n: nat)
    requires n <= |calls|
    ensures var early, late := AfterCalls(plan, operations, calls[..n]), AfterCalls(plan, operations, calls);
      Filed(operations, late.outcomes) && Traced(late) && Keeps(early, late)
  {
    if n == |calls| {
      assert calls[..n] == calls;
    }
    if calls != [] {
      var m := |calls| - 1;
      CallsKeep(plan, operations, calls[..m], if n <= m then n else m);
      assert n <= m ==> calls[..m][..n] == calls[..n];
      hide Traced;
      CallKeeps(plan, operations, AfterCalls(plan, operations, calls[..m]), calls[m]);
    }
  }

  lemma {:induction false} ReadyPartitions(operations: seq<nat>, outcomes: Outcomes)
    requires Distinct(operations) && Filed(operations, outcomes)
    ensures ToSet(ReadyOf(operations, outcomes)) !! outcomes.Keys
    ensures ToSet(ReadyOf(operations, outcomes)) + outcomes.Keys == ToSet(operations)
    ensures Distinct(ReadyOf(operations, outcomes))
  {
    ReadyDistinct(operations, outcomes);
  }

  lemma {:induction false} ReadyDistinct(operations: seq<nat>, outcomes: Outcomes)
    requires Distinct(operations)
    ensures Distinct(ReadyOf(operations, outcomes))
  {
    if operations != [] {
      var n := |operations| - 1;
      ReadyDistinct(operations[..n], outcomes);
      var front := ReadyOf(operations[..n], outcomes);
      forall i | 0 <= i < |front| ensures front[i] != operations[n] {
        assert front[i] in front && front[i] in operations[..n];
        var j :| 0 <= j < n && operations[..n][j] == front[i];
        assert operations[j] != operations[n];
      }
    }
  }

  /** For any sequence of tool calls, whatever the callbacks return: a recorded outcome is never
      changed, its operation is not invoked again, the outcomes are the accepted answers, of which
      each operation has at most one, and at every point the ready and the recorded operations
      partition the frozen list. */
  lemma OutcomesAreWriteOnce(plan: nat, operations: seq<nat>, calls: seq<Call>, n: nat)
    requires Distinct(operations) && n <= |calls|
    ensures var early, late := AfterCalls(plan, operations, calls[..n]), AfterCalls(plan, operations, calls);
      && Keeps(early, late) && Traced(late) && Filed(operations, late.outcomes)
      && ToSet(ReadyOf(operations, early.outcomes)) !! early.outcomes.Keys
      && ToSet(ReadyOf(operations, early.outcomes)) + early.outcomes.Keys == ToSet(operations)
  {
    CallsKeep(plan, operations, calls, n);
    CallsKeep(plan, operations, calls[..n], n);
    ReadyPartitions(operations, AfterCalls(plan, operations, calls[..n]).outcomes);
  }

  /** Which call invokes the callback, and how often: a call outside its context, for a foreign
      operation or plan, or a reading call, changes nothing; executing one operation invokes the
      callback for it exactly when it has no outcome. */
  lemma CallInvokes(plan: nat, operations: seq<nat>, l: Ledger, call: Call)
    ensures call.ReadReady? || call.ReadVerification? || !call.inContext ==> AfterCall(plan, operations, l, call) == l
    ensures call.ExecuteOne? && (call.operation !in operations || call.operation in l.outcomes) ==>
      AfterCall(plan, operations, l, call) == l
    ensures call.ExecuteBatch? && call.plan != plan ==> AfterCall(plan, operations, l, call) == l
    ensures call.ExecuteOne? && call.inContext && call.operation in operations && call.operation !in l.outcomes ==>
      var b, answer := AfterCall(plan, operations, l, call), call.callback(call.operation);
      && b.invoked == l.invoked + [Invocation(call.operation, answer)]
      && b.outcomes == if answer.operation == call.operation then l.outcomes[call.operation := answer] else l.outcomes
  {
  }

  /** A batch in its context leaves no operation without an outcome, unless the callback answered for
      another operation, and then nothing was invoked after that answer. */
  lemma {:induction false} BatchIsComplete(operations: seq<nat>, l: Ledger, callback: nat -> Outcome)
    ensures var (b, e) := AllOnce(l, operations, callback);
      && (e.None? ==> forall x :: x in operations ==> x in b.outcomes)
      && (e.Some? ==> e.value == OtherOperation && b.invoked != [] && !b.invoked[|b.invoked|-1].Accepted())
      && (e.None? <==> forall x :: x in operations && x !in l.outcomes ==> callback(x).operation == x)
      && (forall x :: x in l.outcomes ==> x in b.outcomes)
    decreases |operations|
  {
    if operations != [] {
      var first := Once(l, operations[0], callback);
      assert operations[0] in operations;
      if first.1.None? {
        BatchIsComplete(operations[1..], first.0, callback);
        assert forall x :: x in operations ==> x == operations[0] || x in operations[1..];
      }
    }
  }

  // ----- The report -----

  function OperationsOf(report: seq<Outcome>): (r: seq<nat>)
    ensures |r| == |report| && forall i :: 0 <= i < |r| ==> r[i] == report[i].operation
  {
    seq(|report|, i requires 0 <= i < |report| => report[i].operation)
  }

  /** The recorded outcomes in the order of the frozen list. */
  function Recorded(operations: seq<nat>, outcomes: Outcomes): (r: seq<Outcome>)
    requires forall x :: x in operations ==> x in outcomes
    ensures |r| == |operations| && forall i :: 0 <= i < |r| ==> r[i] == outcomes[operations[i]]
  {
    seq(|operations|, i requires 0 <= i < |operations| => outcomes[operations[i]])
  }

  predicate IsRecorded(item: Outcome, outcomes: Outcomes) {
    item.operation in outcomes && outcomes[item.operation] == item
  }

  /** The checks made on a report. */
  method ValidateReport(operations: seq<nat>, outcomes: Outcomes, report: seq<Outcome>) returns (ok: bool)
    ensures ok <==> (
      && Distinct(OperationsOf(report)) && ToSet(OperationsOf(report)) == ToSet(operations)
      && outcomes.Keys == ToSet(operations)
      && forall item :: item in report ==> IsRecorded(item, outcomes))
  {
    CountsDistinct(OperationsOf(report));
    if |ToSet(OperationsOf(report))| != |report| || ToSet(OperationsOf(report)) != ToSet(operations) {
      return false;
    }
    if outcomes.Keys != ToSet(operations) {
      return false;
    }
    for i := 0 to |report|
      invariant forall item :: item in report[..i] ==> IsRecorded(item, outcomes)
    {
      assert OperationsOf(report)[i] in ToSet(OperationsOf(report)) && report[i] in report;
      if report[i] != outcomes[report[i].operation] {
        return false;
      }
      assert report[..i+1] == report[..i] + [report[i]];
    }
    assert report[..|report|] == report;
    return true;
  }

  lemma DistinctReport(report: seq<Outcome>)
    requires Distinct(OperationsOf(report))
    ensures Distinct(report)
  {
  }

  lemma RecordedMembers(operations: seq<nat>, outcomes: Outcomes)
    requires forall x :: x in operations ==> x in outcomes
    ensures forall o :: o in Recorded(operations, outcomes) <==> exists x :: x in operations && outcomes[x] == o
  {
  }

  /** A report is accepted if and only if every frozen operation was executed by the tools and the
      report is a permutation of the recorded outcomes. */
  lemma AcceptedIffPermutation(operations: seq<nat>, outcomes: Outcomes, report: seq<Outcome>)
    requires Distinct(operations) && Filed(operations, outcomes)
    ensures (
      && Distinct(OperationsOf(report)) && ToSet(OperationsOf(report)) == ToSet(operations)
      && outcomes.Keys == ToSet(operations)
      && forall item :: item in report ==> IsRecorded(item, outcomes))
      <==>
      ((forall x :: x in operations ==> x in outcomes) && multiset(report) == multiset(Recorded(operations, outcomes)))
  {
    if forall x :: x in operations ==> x in outcomes {
      RecordedMembers(operations, outcomes);
      var recorded := Recorded(operations, outcomes);
      assert OperationsOf(recorded) == operations;
      DistinctReport(recorded);
      if multiset(report) == multiset(recorded) {
        PermutationAccepted(operations, outcomes, report);
      }
      if Distinct(OperationsOf(report)) && ToSet(OperationsOf(report)) == ToSet(operations) &&
        forall item :: item in report ==> IsRecorded(item, outcomes)
      {
        DistinctReport(report);
        forall o ensures o in ToSet(report) <==> o in ToSet(recorded) {
          if o in recorded {
            assert o.operation in ToSet(OperationsOf(report));
            var i :| 0 <= i < |report| && OperationsOf(report)[i] == o.operation;
            assert report[i] in report;
          }
        }
        SameMembersPermute(report, recorded);
      }
    }
  }

  lemma PermutationAccepted(operations: seq<nat>, outcomes: Outcomes, report: seq<Outcome>)
    requires Distinct(operations) && Filed(operations, outcomes) && forall x :: x in operations ==> x in outcomes
    requires multiset(report) == multiset(Recorded(operations, outcomes))
    ensures Distinct(OperationsOf(report)) && ToSet(OperationsOf(report)) == ToSet(operations)
    ensures forall item :: item in report ==> IsRecorded(item, outcomes)
  {
    var recorded := Recorded(operations, outcomes);
    RecordedMembers(operations, outcomes);
    forall o ensures o in report <==> o in recorded {
      assert o in multiset(report) <==> o in multiset(recorded);
    }
    forall x | x in ToSet(operations) ensures x in ToSet(OperationsOf(report)) {
      assert outcomes[x] in recorded && outcomes[x] in report;
      var i :| 0 <= i < |report| && report[i] == outcomes[x];
      assert OperationsOf(report)[i] == x;
    }
    forall x | x in ToSet(OperationsOf(report)) ensures x in ToSet(operations) {
      var i :| 0 <= i < |report| && OperationsOf(report)[i] == x;
      assert report[i] in report;
    }
    assert ToSet(OperationsOf(report)) == ToSet(operations);
    assert |report| == |multiset(report)| == |multiset(recorded)| == |operations|;
    CountsDistinct(operations);
    CountsDistinct(OperationsOf(report));
  }

  class Tools {
    const plan: nat
    const operations: seq<nat>
    var outcomes: Outcomes
    ghost var invoked: seq<Invocation>

    predicate Valid()
      reads this
    {
      operations != [] && Filed(operations, outcomes)
    }

    ghost function View(): Ledger
      reads this
    {
      Ledger(outcomes, invoked)
    }

    constructor (plan: nat, operations: seq<nat>)
      requires operations != [] && Distinct(operations)
      ensures Valid() && this.plan == plan && this.operations == operations && View() == Ledger(map[], [])
    {
      this.plan := plan;
      this.operations := operations;
      outcomes := map[];
      invoked := [];
    }

    /** Tools for an empty or repeating list of operations are refused. */
    static method Create(plan: nat, operations: seq<nat>) returns (t: Tools?)
      ensures t != null <==> operations != [] && Distinct(operations)
      ensures t != null ==> fresh(t) && t.Valid() && t.plan == plan && t.operations == operations && t.View() == Ledger(map[], [])
    {
      CountsDistinct(operations);
      if operations == [] || |ToSet(operations)| != |operations| {
        return null;
      }
      t := new Tools(plan, operations);
    }

    method RunOnce(operation: nat, callback: nat -> Outcome) returns (r: Result<Outcome, ToolError>)
      requires Valid() && operation in operations
      modifies this`outcomes, this`invoked
      ensures Valid() && View() == Once(old(View()), operation, callback).0
      ensures operation in old(outcomes) ==> invoked == old(invoked) && r == Ok(old(outcomes)[operation])
      ensures r == match Once(old(View()), operation, callback).1
        case Some(e) => Err(e)
        case None => Ok(outcomes[operation])
    {
      if operation in outcomes {
        return Ok(outcomes[operation]);
      }
      var outcome := callback(operation);
      invoked := invoked + [Invocation(operation, outcome)];
      if outcome.operation != operation {
        return Err(OtherOperation);
      }
      outcomes := outcomes[operation := outcome];
      return Ok(outcome);
    }

    method RequestExecution(inContext: bool, operation: nat, callback: nat -> Outcome) returns (r: Result<Outcome, ToolError>)
      requires Valid()
      modifies this`outcomes, this`invoked
      ensures Valid() && View() == AfterCall(plan, operations, old(View()), ExecuteOne(inContext, operation, callback))
      ensures r.Ok? ==> operation in outcomes && r.value == outcomes[operation]
    {
      if !inContext {
        return Err(OutsideContext);
      }
      if operation !in operations {
        return Err(OutsidePlan);
      }
      r := RunOnce(operation, callback);
    }

    method RequestBatch(inContext: bool, p: nat, callback: nat -> Outcome) returns (r: Result<seq<Outcome>, ToolError>)
      requires Valid()
      modifies this`outcomes, this`invoked
      ensures Valid() && View() == AfterCall(plan, operations, old(View()), ExecuteBatch(inContext, p, callback))
      ensures r.Ok? ==> (forall x :: x in operations ==> x in outcomes) && r.value == Recorded(operations, outcomes)
    {
      if !inContext {
        return Err(OutsideContext);
      }
      if p != plan {
        return Err(PlanNotAuthorized);
      }
      var all: seq<Outcome> := [];
      assert operations[0..] == operations;
      for i := 0 to |operations|
        invariant Valid()
        invariant |all| == i
        invariant forall j :: 0 <= j < i ==> operations[j] in outcomes && all[j] == outcomes[operations[j]]
        invariant AllOnce(old(View()), operations, callback) == AllOnce(View(), operations[i..], callback)
      {
        assert operations[i..][0] == operations[i] && operations[i..][1..] == operations[i+1..];
        var one := RunOnce(operations[i], callback);
        if one.Err? {
          return Err(one.error);
        }
        all := all + [one.value];
      }
      return Ok(all);
    }

    method ReadyOperations(inContext: bool, p: nat) returns (r: Result<seq<nat>, ToolError>)
      ensures r.Ok? <==> inContext && p == plan
      ensures r.Ok? ==> r.value == ReadyOf(operations, outcomes)
    {
      if !inContext {
        return Err(OutsideContext);
      }
      if p != plan {
        return Err(PlanNotAuthorized);
      }
      return Ok(ReadyOf(operations, outcomes));
    }

    method Verification(inContext: bool, operation: nat) returns (r: Result<Outcome, ToolError>)
      ensures r.Ok? <==> inContext && operation in outcomes
      ensures r.Ok? ==> r.value == outcomes[operation]
    {
      if !inContext {
        return Err(OutsideContext);
      }
      if operation !in outcomes {
        return Err(NoOutcome);
      }
      return Ok(outcomes[operation]);
    }
  }

  // ----- Freezing approvals -----

  datatype Reviewable = LowRisk | MediumRisk | HighRisk

  datatype ApprovalGroup = ApprovalGroup(findings: seq<nat>, risk: Reviewable, content: nat)

  datatype FreezeError = NotReviewable | BadMembers | SharedFinding | StaleCursor | GateConflict

  datatype Gate = Gate(members: seq<nat>, content: nat, cursor: nat, pending: bool)

  predicate SameKey(a: Gate, b: Gate) {
    a.cursor == b.cursor && a.content == b.content
  }

  /** A stored gate for the same content at the same cursor that differs. */
  predicate Clashes(stored: seq<Gate>, g: Gate) {
    exists s :: s in stored && SameKey(s, g) && s != g
  }

  /** The stored gates after these were recorded: those already stored are found again. */
  function StoredAfter(stored: seq<Gate>, gates: seq<Gate>): (r: seq<Gate>)
    ensures forall g :: g in r <==> g in stored || g in gates
  {
    if gates == [] then stored
    else
      var front := StoredAfter(stored, gates[..|gates|-1]);
      if gates[|gates|-1] in front then front else front + [gates[|gates|-1]]
  }

  function GateOf(g: ApprovalGroup, cursor: nat): Gate {
    Gate(g.findings, g.content, cursor, true)
  }

  function GatesOf(groups: seq<ApprovalGroup>, cursor: nat): (r: seq<Gate>)
    ensures |r| == |groups| && forall i :: 0 <= i < |r| ==> r[i] == GateOf(groups[i], cursor)
  {
    seq(|groups|, i requires 0 <= i < |groups| => GateOf(groups[i], cursor))
  }

  /** Each gate can be recorded: it clashes neither with a stored one nor with an earlier one. */
  ghost predicate Storable(stored: seq<Gate>, gates: seq<Gate>) {
    forall i :: 0 <= i < |gates| ==> !Clashes(stored, gates[i]) && !Clashes(gates[..i], gates[i])
  }

  lemma ClashesAfter(stored: seq<Gate>, gates: seq<Gate>, g: Gate)
    ensures Clashes(StoredAfter(stored, gates), g) <==> Clashes(stored, g) || Clashes(gates, g)
  {
  }

  lemma StorableGrows(stored: seq<Gate>, gates: seq<Gate>, i: nat)
    requires i < |gates| && Storable(stored, gates[..i])
    ensures Storable(stored, gates[..i+1]) <==> !Clashes(StoredAfter(stored, gates[..i]), gates[i])
    ensures !Storable(stored, gates[..i+1]) ==> !Storable(stored, gates)
  {
    hide Clashes, StoredAfter;
    ClashesAfter(stored, gates[..i], gates[i]);
    var longer := gates[..i+1];
    forall k | 0 <= k <= i ensures longer[..k] == gates[..k] && longer[k] == gates[k] {
    }
    forall k | 0 <= k < i ensures gates[..i][..k] == gates[..k] && gates[..i][k] == gates[k] {
    }
  }

  predicate GroupValid(g: ApprovalGroup) {
    g.risk != LowRisk && g.findings != [] && |ToSet(g.findings)| == |g.findings|
  }

  function Members(groups: seq<ApprovalGroup>): set<nat> {
    if groups == [] then {}
    else Members(groups[..|groups|-1]) + ToSet(groups[|groups|-1].findings)
  }

  lemma {:induction false} MemberIff(groups: seq<ApprovalGroup>, x: nat)
    ensures x in Members(groups) <==> exists i :: 0 <= i < |groups| && x in groups[i].findings
  {
    if groups != [] {
      var n := |groups| - 1;
      MemberIff(groups[..n], x);
      if x in Members(groups[..n]) {
        var i :| 0 <= i < n && x in groups[..n][i].findings;
        assert x in groups[i].findings;
      }
    }
  }

  predicate Freezable(groups: seq<ApprovalGroup>) {
    groups != [] ==>
      var front, last := groups[..|groups|-1], groups[|groups|-1];
      Freezable(front) && GroupValid(last) && Members(front) !! ToSet(last.findings)
  }

  /** Freezable groups are reviewable, non-empty and free of repeats, and no finding lies in two. */
  lemma {:induction false} FreezableIff(groups: seq<ApprovalGroup>)
    ensures Freezable(groups) <==>
      && (forall i :: 0 <= i < |groups| ==>
            (groups[i].risk == MediumRisk || groups[i].risk == HighRisk) && |groups[i].findings| > 0 && Distinct(groups[i].findings))
      && (forall i, j :: 0 <= i < j < |groups| ==> ToSet(groups[i].findings) !! ToSet(groups[j].findings))
  {
    hide GroupValid, Members;
    if groups != [] {
      var n := |groups| - 1;
      FreezableIff(groups[..n]);
      DisjointFromAll(groups[..n], groups[n]);
      ValidIff(groups[n]);
    }
  }

  lemma ValidIff(g: ApprovalGroup)
    ensures GroupValid(g) <==> (g.risk == MediumRisk || g.risk == HighRisk) && |g.findings| > 0 && Distinct(g.findings)
  {
    CountsDistinct(g.findings);
  }

  lemma {:induction false} DisjointFromAll(front: seq<ApprovalGroup>, last: ApprovalGroup)
    ensures Members(front) !! ToSet(last.findings) <==>
      forall i :: 0 <= i < |front| ==> ToSet(front[i].findings) !! ToSet(last.findings)
  {
    hide Members;
    if !(Members(front) !! ToSet(last.findings)) {
      var x :| x in Members(front) && x in ToSet(last.findings);
      MemberIff(front, x);
      var i :| 0 <= i < |front| && x in front[i].findings;
      assert x in ToSet(front[i].findings) * ToSet(last.findings);
    } else {
      forall i | 0 <= i < |front| ensures ToSet(front[i].findings) !! ToSet(last.findings) {
        forall x | x in ToSet(front[i].findings) ensures x !in ToSet(last.findings) {
          MemberIff(front, x);
          assert x !in Members(front) * ToSet(last.findings);
        }
      }
    }
  }

  lemma {:induction false} PrefixFreezable(groups: seq<ApprovalGroup>, n: nat)
    requires n <= |groups| && Freezable(groups)
    ensures Freezable(groups[..n])
  {
    if n == |groups| {
      assert groups[..n] == groups;
    } else {
      PrefixFreezable(groups[..|groups|-1], n);
      assert groups[..|groups|-1][..n] == groups[..n];
    }
  }

  lemma FreezeStep(groups: seq<ApprovalGroup>, i: nat)
    requires i < |groups|
    ensures Members(groups[..i+1]) == Members(groups[..i]) + ToSet(groups[i].findings)
    ensures Freezable(groups[..i+1]) <==>
      Freezable(groups[..i]) && GroupValid(groups[i]) && Members(groups[..i]) !! ToSet(groups[i].findings)
  {
    assert groups[..i+1][..i] == groups[..i] && groups[..i+1][i] == groups[i];
  }

  lemma {:induction false} FreezeFails(groups: seq<ApprovalGroup>, i: nat)
    requires i < |groups| && !Freezable(groups[..i+1])
    ensures !Freezable(groups)
  {
    if Freezable(groups) {
      PrefixFreezable(groups, i + 1);
    }
  }

  method CheckGroup(g: ApprovalGroup, seen: set<nat>) returns (problem: Option<FreezeError>)
    ensures problem.None? <==> GroupValid(g) && seen !! ToSet(g.findings)
    ensures problem == Some(NotReviewable) <==> g.risk == LowRisk
  {
    if g.risk == LowRisk {
      return Some(NotReviewable);
    }
    if g.findings == [] || |ToSet(g.findings)| != |g.findings| {
      return Some(BadMembers);
    }
    if !(seen !! ToSet(g.findings)) {
      return Some(SharedFinding);
    }
    return None;
  }

  /** The unique constraint of the gate table. */
  predicate OnePerKey(stored: seq<Gate>) {
    forall i, j :: 0 <= i < j < |stored| ==> !SameKey(stored[i], stored[j])
  }

  /** Records a gate at the current cursor, or finds it again. */
  method RecordGate(stored: seq<Gate>, current: nat, g: Gate) returns (r: Result<seq<Gate>, FreezeError>)
    requires OnePerKey(stored)
    ensures r.Ok? <==> g.cursor == current && !Clashes(stored, g)
    ensures r.Ok? <==> g.cursor == current && forall s :: s in stored && s.cursor == g.cursor && s.content == g.content ==> s == g
    ensures r.Ok? ==> r.value == StoredAfter(stored, [g]) && OnePerKey(r.value)
  {
    if g.cursor != current {
      return Err(StaleCursor);
    }
    for i := 0 to |stored|
      invariant forall j :: 0 <= j < i ==> !SameKey(stored[j], g)
    {
      if SameKey(stored[i], g) {
        return if stored[i] != g then Err(GateConflict) else Ok(stored);
      }
    }
    return Ok(stored + [g]);
  }

  lemma {:induction false} StoredAfterGrows(stored: seq<Gate>, gates: seq<Gate>)
    ensures stored <= StoredAfter(stored, gates)
  {
    if gates != [] {
      StoredAfterGrows(stored, gates[..|gates|-1]);
    }
  }

  lemma StoredAfterLast(stored: seq<Gate>, gates: seq<Gate>, i: nat)
    requires i < |gates|
    ensures StoredAfter(stored, gates[..i+1]) == StoredAfter(StoredAfter(stored, gates[..i]), [gates[i]])
  {
    assert gates[..i+1][..i] == gates[..i] && gates[..i+1][i] == gates[i];
    assert [gates[i]][..0] == [];
  }

  /** One pending gate per group; a finding lies in at most one. */
  method FreezeApprovals(stored: seq<Gate>, current: nat, cursor: nat, groups: seq<ApprovalGroup>)
      returns (r: Result<seq<Gate>, FreezeError>)
    requires OnePerKey(stored)
    ensures r.Ok? <==> Freezable(groups) && (groups == [] || cursor == current) && Storable(stored, GatesOf(groups, cursor))
    ensures r.Ok? ==> r.value == StoredAfter(stored, GatesOf(groups, cursor))
    ensures r.Ok? ==> stored <= r.value
    ensures r.Ok? ==> forall i :: 0 <= i < |groups| ==> Gate(groups[i].findings, groups[i].content, current, true) in r.value
  {
    assert Freezable(groups[..0]) && Members(groups[..0]) == {};
    assert Storable(stored, []);
    hide Freezable, Members, ToSet, GroupValid, Storable, Clashes, OnePerKey;
    var seen: set<nat> := {};
    var gates := stored;
    ghost var wanted := GatesOf(groups, cursor);
    for i := 0 to |groups|
      invariant Freezable(groups[..i]) && seen == Members(groups[..i])
      invariant Storable(stored, wanted[..i]) && gates == StoredAfter(stored, wanted[..i])
      invariant OnePerKey(gates) && (i > 0 ==> cursor == current)
    {
      FreezeStep(groups, i);
      var problem := CheckGroup(groups[i], seen);
      if problem.Some? {
        FreezeFails(groups, i);
        return Err(problem.value);
      }
      seen := seen + ToSet(groups[i].findings);
      var recorded := RecordGate(gates, current, GateOf(groups[i], cursor));
      StorableGrows(stored, wanted, i);
      StoredAfterLast(stored, wanted, i);
      if recorded.Err? {
        return Err(recorded.error);
      }
      gates := recorded.value;
    }
    assert groups[..|groups|] == groups && wanted[..|groups|] == wanted;
    StoredAfterGrows(stored, wanted);
    assert forall i :: 0 <= i < |groups| ==> wanted[i] in wanted;
    return Ok(gates);
  }

  // ----- The rollback partition -----

  datatype Disposition = SafeToRestore | Restored | Conflicting | Unknown

  datatype Comparison = Comparison(operation: nat, disposition: Disposition)

  function With(comparisons: seq<Comparison>, d: Disposition): set<nat> {
    set c | c in comparisons && c.disposition == d :: c.operation
  }

  function Compared(comparisons: seq<Comparison>): (r: seq<nat>)
    ensures |r| == |comparisons| && forall i :: 0 <= i < |r| ==> r[i] == comparisons[i].operation
  {
    seq(|comparisons|, i requires 0 <= i < |comparisons| => comparisons[i].operation)
  }

  /** Each frozen operation has exactly one comparison, with a known disposition. */
  ghost predicate ExactlyOneEach(operations: set<nat>, comparisons: seq<Comparison>) {
    && (forall c :: c in comparisons ==> c.disposition != Unknown)
    && Distinct(Compared(comparisons)) && ToSet(Compared(comparisons)) == operations
  }

  method PartitionComparisons(operations: seq<nat>, comparisons: seq<Comparison>)
      returns (r: Option<(set<nat>, set<nat>, set<nat>)>)
    ensures r.Some? <==> ExactlyOneEach(ToSet(operations), comparisons)
    ensures r.Some? ==>
      r.value == (With(comparisons, SafeToRestore), With(comparisons, Restored), With(comparisons, Conflicting))
  {
    var expected := ToSet(operations);
    var safe: set<nat>, restored: set<nat>, conflicts: set<nat> := {}, {}, {};
    for i := 0 to |comparisons|
      invariant safe == With(comparisons[..i], SafeToRestore)
      invariant restored == With(comparisons[..i], Restored)
      invariant conflicts == With(comparisons[..i], Conflicting)
      invariant forall c :: c in comparisons[..i] ==> c.disposition != Unknown
    {
      var c := comparisons[i];
      assert comparisons[..i+1] == comparisons[..i] + [c] && c in comparisons;
      match c.disposition {
        case SafeToRestore => safe := safe + {c.operation};
        case Restored => restored := restored + {c.operation};
        case Conflicting => conflicts := conflicts + {c.operation};
        case Unknown => return None;
      }
    }
    assert comparisons[..|comparisons|] == comparisons;
    CardinalitiesDecide(expected, comparisons);
    if |comparisons| != |expected| || safe + restored + conflicts != expected ||
      |safe| + |restored| + |conflicts| != |expected|
    {
      return None;
    }
    return Some((safe, restored, conflicts));
  }

  lemma WithGrows(front: seq<Comparison>, last: Comparison, d: Disposition)
    ensures With(front + [last], d) == With(front, d) + if last.disposition == d then {last.operation} else {}
    ensures |With(front + [last], d)| <= |With(front, d)| + if last.disposition == d then 1 else 0
    ensures last.disposition == d && last.operation !in With(front, d) ==> |With(front + [last], d)| == |With(front, d)| + 1
  {
  }

  function All(comparisons: seq<Comparison>): set<nat> {
    With(comparisons, SafeToRestore) + With(comparisons, Restored) + With(comparisons, Conflicting)
  }

  function Sizes(comparisons: seq<Comparison>): nat {
    |With(comparisons, SafeToRestore)| + |With(comparisons, Restored)| + |With(comparisons, Conflicting)|
  }

  lemma AllAreCompared(comparisons: seq<Comparison>)
    requires forall c :: c in comparisons ==> c.disposition != Unknown
    ensures All(comparisons) == ToSet(Compared(comparisons))
  {
  }

  lemma {:induction false} SizesBound(comparisons: seq<Comparison>)
    requires forall c :: c in comparisons ==> c.disposition != Unknown
    ensures Sizes(comparisons) <= |comparisons|
    ensures Distinct(Compared(comparisons)) ==> Sizes(comparisons) == |comparisons|
  {
    hide Sizes, All, Distinct;
    if comparisons == [] {
      NoSizes();
    } else {
      var n := |comparisons| - 1;
      var front, last := comparisons[..n], comparisons[n];
      SizesBound(front);
      assert comparisons == front + [last] && last in comparisons;
      assert Compared(comparisons) == Compared(front) + [last.operation];
      SizesGrow(front, last);
      if Distinct(Compared(comparisons)) {
        DistinctFront(Compared(front), last.operation);
        AllAreCompared(front);
      }
    }
  }

  lemma SizesGrow(front: seq<Comparison>, last: Comparison)
    requires last.disposition != Unknown
    ensures Sizes(front + [last]) <= Sizes(front) + 1
    ensures last.operation !in All(front) ==> Sizes(front + [last]) == Sizes(front) + 1
  {
    hide With;
    WithGrows(front, last, SafeToRestore);
    WithGrows(front, last, Restored);
    WithGrows(front, last, Conflicting);
  }

  lemma NoSizes()
    ensures Sizes([]) == 0
  {
  }

  lemma DistinctFront(front: seq<nat>, last: nat)
    requires Distinct(front + [last])
    ensures Distinct(front) && last !in ToSet(front)
  {
    forall i, j | 0 <= i < j < |front| ensures front[i] != front[j] {
      assert (front + [last])[i] != (front + [last])[j];
    }
    forall i | 0 <= i < |front| ensures front[i] != last {
      assert (front + [last])[i] != (front + [last])[|front|];
    }
  }

  /** The three size and union tests hold exactly when each frozen operation has one disposition. */
  lemma CardinalitiesDecide(expected: set<nat>, comparisons: seq<Comparison>)
    requires forall c :: c in comparisons ==> c.disposition != Unknown
    ensures var s, r, k := With(comparisons, SafeToRestore), With(comparisons, Restored), With(comparisons, Conflicting);
      (|comparisons| == |expected| && s + r + k == expected && |s| + |r| + |k| == |expected|) <==>
      ExactlyOneEach(expected, comparisons)
  {
    AllAreCompared(comparisons);
    SizesBound(comparisons);
    CountsDistinct(Compared(comparisons));
  }

  /** Each frozen operation is listed under its own disposition and no other, and nothing else is
      listed. */
  ghost predicate ListsDispositions(operations: set<nat>, comparisons: seq<Comparison>, restorable: seq<nat>,
                                    already: seq<nat>, conflicts: seq<nat>)
  {
    && ToSet(restorable) + ToSet(already) + ToSet(conflicts) <= operations
    && forall c :: c in comparisons ==>
         && (c.operation in restorable <==> c.disposition == SafeToRestore)
         && (c.operation in already <==> c.disposition == Restored)
         && (c.operation in conflicts <==> c.disposition == Conflicting)
  }

  lemma OneDispositionEach(operations: set<nat>, comparisons: seq<Comparison>, listed: seq<nat>, d: Disposition)
    requires ExactlyOneEach(operations, comparisons)
    ensures ToSet(listed) == With(comparisons, d) <==>
      ToSet(listed) <= operations && forall c :: c in comparisons ==> (c.operation in listed <==> c.disposition == d)
  {
    forall b, c | b in comparisons && c in comparisons && b.operation == c.operation ensures b == c {
      var i :| 0 <= i < |comparisons| && comparisons[i] == b;
      var j :| 0 <= j < |comparisons| && comparisons[j] == c;
      assert Compared(comparisons)[i] == Compared(comparisons)[j];
    }
    forall x | x in operations ensures exists c :: c in comparisons && c.operation == x {
      assert x in ToSet(Compared(comparisons));
      var i :| 0 <= i < |comparisons| && Compared(comparisons)[i] == x;
      assert comparisons[i] in comparisons;
    }
    forall c | c in comparisons ensures c.operation in operations {
      var i :| 0 <= i < |comparisons| && comparisons[i] == c;
      assert Compared(comparisons)[i] in ToSet(Compared(comparisons));
    }
    assert forall c :: c in comparisons ==> (c.operation in With(comparisons, d) <==> c.disposition == d);
    assert With(comparisons, d) <= operations;
    assert forall x :: x in ToSet(listed) <==> x in listed;
    if ToSet(listed) <= operations && forall c :: c in comparisons ==> (c.operation in listed <==> c.disposition == d) {
      assert forall x :: x in operations ==> (x in listed <==> x in With(comparisons, d));
    }
  }

  /** An assessment is compared with the server's partition, and so accepted exactly when it lists
      each operation under its own disposition. */
  method ValidateAssessment(ghost operations: set<nat>, ghost comparisons: seq<Comparison>, facts: (set<nat>, set<nat>, set<nat>),
                            restorable: seq<nat>, already: seq<nat>, conflicts: seq<nat>) returns (ok: bool)
    requires ExactlyOneEach(operations, comparisons)
    requires facts == (With(comparisons, SafeToRestore), With(comparisons, Restored), With(comparisons, Conflicting))
    ensures ok <==> ListsDispositions(operations, comparisons, restorable, already, conflicts)
  {
    ok := ToSet(restorable) == facts.0 && ToSet(already) == facts.1 && ToSet(conflicts) == facts.2;
    OneDispositionEach(operations, comparisons, restorable, SafeToRestore);
    OneDispositionEach(operations, comparisons, already, Restored);
    OneDispositionEach(operations, comparisons, conflicts, Conflicting);
    hide With, ExactlyOneEach;
  }
}
