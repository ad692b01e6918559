/** The human gates of a rollback run.

    The executors record conflict gates while the run assesses the restore and an approval gate
    while it waits for conflicts; people decide pending gates; and the executor that compiles the
    restore plan refuses unless the gates allow it.  Executors may run late, under an old cursor. */
module RollbackGates {
  import opened GraphDefinition

  datatype GateKind = ConflictGate | ApprovalGate

  datatype GateStatus = Pending | Approved | Rejected

  datatype Gate = Gate(kind: GateKind, cursor: nat, content: nat, status: GateStatus)

  /** The nodes visited so far (the cursor is the position of the last), the gates, and the cursors
      at which the compile check succeeded. */
  datatype State = State(h: seq<Node>, gates: seq<Gate>, compiled: set<nat>)

  datatype Event =
    | EAssess(cursor: nat, conflicts: bool, content: nat)
    | EEnterApproval(cursor: nat, content: nat)
    | EDecide(gate: nat, approve: bool)
    | ECompile(cursor: nat)
    | EMove(to: Node)

  ghost predicate ConflictsApproved(gates: seq<Gate>) {
    forall i :: 0 <= i < |gates| && gates[i].kind == ConflictGate ==> gates[i].status == Approved
  }

  function Approvals(gates: seq<Gate>): (r: seq<Gate>)
    ensures forall g :: g in r ==> g in gates && g.kind == ApprovalGate
    ensures forall g :: g in gates && g.kind == ApprovalGate ==> g in r
  {
    if gates == [] then []
    else
      var last := gates[|gates|-1];
      Approvals(gates[..|gates|-1]) + if last.kind == ApprovalGate then [last] else []
  }

  /** What a restore needs: exactly one approval gate, approved, and no conflict gate that is not. */
  ghost predicate MayRestore(gates: seq<Gate>) {
    |Approvals(gates)| == 1 && Approvals(gates)[0].status == Approved && ConflictsApproved(gates)
  }

  /** Records a pending gate at the current cursor.  A replay finds the pending gate again; once
      it is decided a replay is refused. */
  ghost function RecordGate(s: State, kind: GateKind, cursor: nat, content: nat): State {
    if cursor != |s.h| - 1 then s
    else if exists g :: g in s.gates && g.kind == kind && g.cursor == cursor && g.content == content then s
    else s.(gates := s.gates + [Gate(kind, cursor, content, Pending)])
  }

  ghost predicate RanAt(s: State, cursor: nat, n: Node) {
    cursor < |s.h| && s.h[cursor] == n
  }

  ghost function Step(s: State, e: Event): State {
    match e
    case EAssess(cursor, conflicts, content) =>
      if !RanAt(s, cursor, ASSESS_RESTORE_IMPACT) || !conflicts then s
      else RecordGate(s, ConflictGate, cursor, content)
    case EEnterApproval(cursor, content) =>
      if !RanAt(s, cursor, WAIT_RESTORE_CONFLICTS) || !ConflictsApproved(s.gates) then s
      else RecordGate(s, ApprovalGate, cursor, content)
    case EDecide(i, approve) =>
      if i >= |s.gates| || s.gates[i].status != Pending then s
      else s.(gates := s.gates[i := s.gates[i].(status := if approve then Approved else Rejected)])
    case ECompile(cursor) =>
      if !RanAt(s, cursor, WAIT_ROLLBACK_APPROVAL) || !MayRestore(s.gates) then s
      else s.(compiled := s.compiled + {cursor})
    case EMove(to) =>
      if s.h == [] || !Edge(RollbackV1, s.h[|s.h|-1], to) || (to == COMPILE_RESTORE_PLAN && |s.h| - 1 !in s.compiled) then s
      else s.(h := s.h + [to])
  }

  ghost function After(events: seq<Event>): State {
    if events == [] then State([ROLLBACK_INTENT_CONFIRMED], [], {})
    else Step(After(events[..|events|-1]), events[|events|-1])
  }

  ghost predicate Inv(s: State) {
    && IsRun(RollbackV1, s.h)
    && (forall c :: c in s.compiled ==> c == 5 && |s.h| > 5)
    && (s.compiled != {} ==> MayRestore(s.gates))
    && (|s.h| > 6 && s.h[6] == COMPILE_RESTORE_PLAN ==> s.compiled != {})
  }

  lemma RunGrows(h: seq<Node>, to: Node)
    requires IsRun(RollbackV1, h) && Edge(RollbackV1, h[|h|-1], to)
    ensures IsRun(RollbackV1, h + [to])
  {
  }

  /** Once a restore is permitted no gate is left to decide. */
  lemma NothingLeftToDecide(gates: seq<Gate>, i: nat)
    requires MayRestore(gates) && i < |gates|
    ensures gates[i].status == Approved
  {
    assert gates[i] in gates;
  }

  /** The chain fixes where in the run each of the gate nodes lies. */
  lemma GateNodePositions(h: seq<Node>, c: nat)
    requires IsRun(RollbackV1, h) && c < |h|
    ensures h[c] == ASSESS_RESTORE_IMPACT ==> c == 3
    ensures h[c] == WAIT_RESTORE_CONFLICTS ==> c == 4
    ensures h[c] == WAIT_ROLLBACK_APPROVAL ==> c == 5
    ensures h[c] == COMPILE_RESTORE_PLAN ==> c == 6
  {
    if h[c] == ASSESS_RESTORE_IMPACT {
      RestoreVisitsChainOnce(h, c, 3);
    } else if h[c] == WAIT_RESTORE_CONFLICTS {
      RestoreVisitsChainOnce(h, c, 4);
    } else if h[c] == WAIT_ROLLBACK_APPROVAL {
      RestoreVisitsChainOnce(h, c, 5);
    } else if h[c] == COMPILE_RESTORE_PLAN {
      RestoreVisitsChainOnce(h, c, 6);
    }
  }

  lemma StepKeeps(s: State, e: Event)
    requires Inv(s)
    ensures Inv(Step(s, e)) && s.h <= Step(s, e).h
    ensures s.compiled != {} ==> Step(s, e).compiled != {}
  {
    hide MayRestore, Edge;
    match e
    case EAssess(cursor, _, _) => GateNodePositions(s.h, |s.h| - 1);
    case EEnterApproval(cursor, _) => GateNodePositions(s.h, |s.h| - 1);
    case EDecide(i, approve) =>
      if i < |s.gates| && s.compiled != {} {
        NothingLeftToDecide(s.gates, i);
      }
    case ECompile(cursor) =>
      if cursor < |s.h| {
        GateNodePositions(s.h, cursor);
      }
    case EMove(to) =>
      if Edge(RollbackV1, s.h[|s.h|-1], to) {
        RunGrows(s.h, to);
        GateNodePositions(s.h + [to], |s.h|);
      }
  }

  lemma {:induction false} AfterKeeps(events: seq<Event>)
    ensures Inv(After(events))
  {
    if events == [] {
      assert IsRun(RollbackV1, [ROLLBACK_INTENT_CONFIRMED]);
    } else {
      AfterKeeps(events[..|events|-1]);
      StepKeeps(After(events[..|events|-1]), events[|events|-1]);
    }
  }

  /** Whatever the order of recordings, decisions, checks and moves, and however late executors
      run: once a run has compiled its restore plan, and so whenever it executes a restore, there
      is exactly one rollback approval gate, it is approved, and no conflict gate is unapproved. */
  lemma RestoreIsApproved(events: seq<Event>, j: nat, k: nat)
    requires j < |After(events).h| && 6 <= k < |RESTORE_CHAIN| && After(events).h[j] == RESTORE_CHAIN[k]
    ensures MayRestore(After(events).gates)
    ensures j == k && After(events).h[..j+1] == RESTORE_CHAIN[..k+1]
  {
    AfterKeeps(events);
    var h := After(events).h;
    RestoreVisitsChainOnce(h, j, k);
    assert h[6] == h[..j+1][6] == RESTORE_CHAIN[..k+1][6];
  }

  // ----- Gates are recorded once -----

  ghost predicate OncePerContent(gates: seq<Gate>) {
    forall i, j :: 0 <= i < j < |gates| ==>
      !(gates[i].kind == gates[j].kind && gates[i].cursor == gates[j].cursor && gates[i].content == gates[j].content)
  }

  lemma StepRecordsOnce(s: State, e: Event)
    requires OncePerContent(s.gates)
    ensures OncePerContent(Step(s, e).gates)
  {
    hide MayRestore, Edge, ConflictsApproved;
  }

  /** However often executors run again, each gate is recorded once. */
  lemma {:induction false} GatesAreRecordedOnce(events: seq<Event>)
    ensures OncePerContent(After(events).gates)
  {
    if events != [] {
      GatesAreRecordedOnce(events[..|events|-1]);
      hide Step;
      StepRecordsOnce(After(events[..|events|-1]), events[|events|-1]);
    }
  }

  /** An assessment that finds conflicts at the current node leaves a conflict gate for them, and one
      that finds none adds nothing; the wait for approval, with every conflict approved, leaves an
      approval gate. */
  lemma GatesAreRecorded(s: State, content: nat)
    requires s.h != []
    ensures var c := |s.h| - 1; s.h[c] == ASSESS_RESTORE_IMPACT ==>
      && (exists g :: g in Step(s, EAssess(c, true, content)).gates && g.kind == ConflictGate && g.cursor == c && g.content == content)
      && Step(s, EAssess(c, false, content)) == s
    ensures var c := |s.h| - 1; s.h[c] == WAIT_RESTORE_CONFLICTS ==>
      if forall i :: 0 <= i < |s.gates| && s.gates[i].kind == ConflictGate ==> s.gates[i].status == Approved then
        exists g :: g in Step(s, EEnterApproval(c, content)).gates && g.kind == ApprovalGate && g.cursor == c && g.content == content
      else Step(s, EEnterApproval(c, content)) == s
  {
    var c := |s.h| - 1;
    var k := if s.h[c] == ASSESS_RESTORE_IMPACT then ConflictGate else ApprovalGate;
    if !exists g :: g in s.gates && g.kind == k && g.cursor == c && g.content == content {
      assert Gate(k, c, content, Pending) in s.gates + [Gate(k, c, content, Pending)];
    }
  }

  // ----- Where decisions come from -----

  /** The n-th event decided gate `i`, which was pending. */
  ghost predicate Decides(events: seq<Event>, n: nat, i: nat, approve: bool) {
    n < |events| && events[n] == EDecide(i, approve) &&
    i < |After(events[..n]).gates| && After(events[..n]).gates[i].status == Pending
  }

  /** Every decided gate was decided by a person, that way. */
  ghost predicate DecidedByPeople(events: seq<Event>) {
    forall i: nat :: i < |After(events).gates| ==>
      && (After(events).gates[i].status == Approved ==> exists n :: Decides(events, n, i, true))
      && (After(events).gates[i].status == Rejected ==> exists n :: Decides(events, n, i, false))
  }

  lemma DecidesStays(events: seq<Event>, e: Event, n: nat, i: nat, approve: bool)
    requires Decides(events, n, i, approve)
    ensures Decides(events + [e], n, i, approve)
  {
    assert (events + [e])[..n] == events[..n];
  }

  /** An event keeps the gates as they are, adds a pending one, or decides a pending one. */
  lemma GatesMove(s: State, e: Event)
    ensures var t := Step(s, e);
      && |s.gates| <= |t.gates|
      && (forall i :: |s.gates| <= i < |t.gates| ==> t.gates[i].status == Pending)
      && (forall i :: 0 <= i < |s.gates| && t.gates[i] != s.gates[i] ==>
            e.EDecide? && e.gate == i && s.gates[i].status == Pending &&
            t.gates[i] == s.gates[i].(status := if e.approve then Approved else Rejected))
  {
    hide MayRestore, Edge, ConflictsApproved;
  }

  lemma {:induction false} PeopleDecide(events: seq<Event>)
    ensures DecidedByPeople(events)
  {
    if events != [] {
      var n := |events| - 1;
      var front, e := events[..n], events[n];
      PeopleDecide(front);
      GatesMove(After(front), e);
      assert events == front + [e];
      hide Step;
      forall i: nat | i < |After(events).gates|
        ensures After(events).gates[i].status == Approved ==> exists k :: Decides(events, k, i, true)
        ensures After(events).gates[i].status == Rejected ==> exists k :: Decides(events, k, i, false)
      {
        DecisionOf(front, e, i);
      }
    }
  }

  lemma DecisionOf(front: seq<Event>, e: Event, i: nat)
    requires DecidedByPeople(front) && i < |After(front + [e]).gates|
    ensures After(front + [e]).gates[i].status == Approved ==> exists k :: Decides(front + [e], k, i, true)
    ensures After(front + [e]).gates[i].status == Rejected ==> exists k :: Decides(front + [e], k, i, false)
  {
    var events := front + [e];
    assert events[..|front|] == front;
    GatesMove(After(front), e);
    hide Step;
    if i < |After(front).gates| && After(events).gates[i] == After(front).gates[i] {
      if After(front).gates[i].status == Approved {
        var k :| Decides(front, k, i, true);
        DecidesStays(front, e, k, i, true);
      } else if After(front).gates[i].status == Rejected {
        var k :| Decides(front, k, i, false);
        DecidesStays(front, e, k, i, false);
      }
    } else if i < |After(front).gates| {
      assert Decides(events, |front|, i, e.approve);
    }
  }

  /** A run that has compiled its restore plan was approved by people: some event of its history
      approved its one approval gate while that was pending, and some event each conflict gate. */
  lemma {:induction false} RestoreWasApproved(events: seq<Event>, j: nat, k: nat) returns (g: nat)
    requires j < |After(events).h| && 6 <= k < |RESTORE_CHAIN| && After(events).h[j] == RESTORE_CHAIN[k]
    ensures var gates := After(events).gates;
      && g < |gates| && gates[g].kind == ApprovalGate && (exists n :: Decides(events, n, g, true))
      && (forall i: nat :: i < |gates| && gates[i].kind == ApprovalGate ==> exists n :: Decides(events, n, i, true))
      && (forall i: nat :: i < |gates| && gates[i].kind == ConflictGate ==> exists n :: Decides(events, n, i, true))
  {
    RestoreIsApproved(events, j, k);
    PeopleDecide(events);
    var gates := After(events).gates;
    hide After, Decides;
    forall i: nat | i < |gates| ensures gates[i].status == Approved {
      NothingLeftToDecide(gates, i);
    }
    assert Approvals(gates)[0] in gates;
    g :| 0 <= g < |gates| && gates[g] == Approvals(gates)[0];
  }

  lemma RejectedForbids(gates: seq<Gate>, i: nat)
    requires i < |gates| && gates[i].status == Rejected
    ensures !MayRestore(gates)
  {
    if MayRestore(gates) {
      NothingLeftToDecide(gates, i);
    }
  }

  ghost predicate Barred(s: State, i: nat) {
    i < |s.gates| && s.gates[i].status == Rejected && s.compiled == {} && COMPILE_RESTORE_PLAN !in s.h
  }

  lemma BarredStays(s: State, e: Event, i: nat)
    requires Barred(s, i)
    ensures Barred(Step(s, e), i)
  {
    RejectedForbids(s.gates, i);
    GatesMove(s, e);
    hide MayRestore, Edge, ConflictsApproved, RecordGate;
  }

  lemma {:induction false} BarredAfter(events: seq<Event>, more: seq<Event>, i: nat)
    requires Barred(After(events), i)
    ensures Barred(After(events + more), i)
  {
    if more == [] {
      assert events + more == events;
    } else {
      var n := |more| - 1;
      BarredAfter(events, more[..n], i);
      assert (events + more)[..|events + more|-1] == events + more[..n];
      hide Step, Barred;
      BarredStays(After(events + more[..n]), more[n], i);
    }
  }

  /** Once a person has rejected a pending gate, no continuation compiles a restore plan. */
  lemma {:induction false} RejectionBarsRestore(events: seq<Event>, i: nat, more: seq<Event>)
    requires i < |After(events).gates| && After(events).gates[i].status == Pending
    ensures COMPILE_RESTORE_PLAN !in After(events + [EDecide(i, false)] + more).h
  {
    AfterKeeps(events);
    var s := After(events);
    if MayRestore(s.gates) {
      NothingLeftToDecide(s.gates, i);
    }
    if COMPILE_RESTORE_PLAN in s.h {
      var c :| 0 <= c < |s.h| && s.h[c] == COMPILE_RESTORE_PLAN;
      GateNodePositions(s.h, c);
    }
    hide MayRestore;
    AfterOneMore(events, EDecide(i, false));
    BarredAfter(events + [EDecide(i, false)], more, i);
  }

  // ----- A restore can be reached -----

  lemma AfterOneMore(events: seq<Event>, e: Event)
    ensures After(events + [e]) == Step(After(events), e)
  {
    assert (events + [e])[..|events|] == events;
  }

  lemma ChainEdge(k: nat)
    requires k < 6
    ensures Edge(RollbackV1, RESTORE_CHAIN[k], RESTORE_CHAIN[k+1])
  {
    var kind := [DO_ACQUIRE_SCHOOL_LOCK, DO_LOAD_VERIFIED_MUTATIONS, DO_ASSESS_RESTORE_IMPACT, DO_ASSESS_RESTORE_IMPACT,
                 DO_WAIT_ROLLBACK_APPROVAL, DO_COMPILE_RESTORE_PLAN][k];
    assert HasTemplate(RollbackV1, RESTORE_CHAIN[k], kind, RESTORE_CHAIN[k+1]);
  }

  lemma {:induction false} MovesAlongChain(k: nat) returns (events: seq<Event>)
    requires k <= 4
    ensures After(events) == State(RESTORE_CHAIN[..k+1], [], {})
  {
    hide Edge;
    if k == 0 {
      events := [];
      assert RESTORE_CHAIN[..1] == [ROLLBACK_INTENT_CONFIRMED];
    } else {
      var before := MovesAlongChain(k - 1);
      ChainEdge(k - 1);
      AfterOneMore(before, EMove(RESTORE_CHAIN[k]));
      events := before + [EMove(RESTORE_CHAIN[k])];
      assert RESTORE_CHAIN[..k+1] == RESTORE_CHAIN[..k] + [RESTORE_CHAIN[k]];
    }
  }

  /** An approved restore can be reached. */
  lemma RestoreIsReachable() returns (events: seq<Event>)
    ensures After(events).h == RESTORE_CHAIN[..7]
  {
    hide Edge, After;
    var moved := MovesAlongChain(4);
    var asked := moved + [EEnterApproval(4, 0)];
    AfterOneMore(moved, EEnterApproval(4, 0));
    var waiting := asked + [EMove(WAIT_ROLLBACK_APPROVAL)];
    AfterOneMore(asked, EMove(WAIT_ROLLBACK_APPROVAL));
    ChainEdge(4);
    assert After(waiting) == State(RESTORE_CHAIN[..6], [Gate(ApprovalGate, 4, 0, Pending)], {});
    var approved := waiting + [EDecide(0, true)];
    AfterOneMore(waiting, EDecide(0, true));
    var checked := approved + [ECompile(5)];
    AfterOneMore(approved, ECompile(5));
    assert After(checked) == State(RESTORE_CHAIN[..6], [Gate(ApprovalGate, 4, 0, Approved)], {5}) by {
      assert Approvals([Gate(ApprovalGate, 4, 0, Approved)]) == [Gate(ApprovalGate, 4, 0, Approved)];
    }
    ChainEdge(5);
    events := checked + [EMove(COMPILE_RESTORE_PLAN)];
    AfterOneMore(checked, EMove(COMPILE_RESTORE_PLAN));
  }
}
