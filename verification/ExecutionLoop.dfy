/** The loop between the execute and verify nodes.

    Operations are numbered in the order of their identifiers.  A round dispatches a batch of
    ready operations; the outcome of each operation, should it be dispatched, is arbitrary.  The
    CSV handler blocks the dependents of an operation that did not succeed; the SQL handler
    leaves them pending. */
module ExecutionLoop {
  import opened Distinctness
  import opened GraphDefinition

  datatype Status = Pending | Succeeded | Failed | VerificationFailed | Blocked

  datatype Handler = Csv | Sql

  const MAX_BATCH := 50

  /** Operations by number: what each depends on, and where each stands. */
  type Dependencies = seq<seq<nat>>
  type Statuses = seq<Status>

  predicate SucceededAt(st: Statuses, d: nat) {
    d < |st| && st[d] == Succeeded
  }

  predicate IsReady(deps: Dependencies, st: Statuses, i: nat)
    requires |deps| == |st|
  {
    i < |st| && st[i] == Pending && forall d :: d in deps[i] ==> SucceededAt(st, d)
  }

  function ReadyBelow(deps: Dependencies, st: Statuses, n: nat): (r: seq<nat>)
    requires |deps| == |st| && n <= |st|
    ensures forall i: nat :: i in r <==> i < n && IsReady(deps, st, i)
    ensures Distinct(r) && |r| <= n
  {
    if n == 0 then []
    else ReadyBelow(deps, st, n - 1) + if IsReady(deps, st, n - 1) then [n - 1] else []
  }

  /** The first ready operations, at most fifty. */
  function Batch(deps: Dependencies, st: Statuses): (r: seq<nat>)
    requires |deps| == |st|
  {
    var ready := ReadyBelow(deps, st, |st|);
    if |ready| > MAX_BATCH then ready[..MAX_BATCH] else ready
  }

  function PendingBelow(st: Statuses, n: nat): (c: nat)
    requires n <= |st|
    ensures c <= n
    ensures c == 0 <==> forall i :: 0 <= i < n ==> st[i] != Pending
  {
    if n == 0 then 0 else PendingBelow(st, n - 1) + if st[n-1] == Pending then 1 else 0
  }

  function PendingCount(st: Statuses): nat {
    PendingBelow(st, |st|)
  }

  /** What the verify node does next.  It counts the pending operations of the whole run: those of
      the executed plan and `earlier` ones of older plans, which nothing executes any more. */
  function AfterVerify(earlier: nat, st: Statuses): ActionKind {
    if earlier + PendingCount(st) > 0 then DO_EXECUTE_REMAINING_INDEPENDENT else DO_GENERATE_TERMINAL_REPORT
  }

  /** The loop gets to the terminal report. */
  ghost predicate Finishes(h: Handler, deps: Dependencies, out: nat -> Status, earlier: nat) {
    exists rounds: nat :: AfterVerify(earlier, After(h, deps, out, Fresh(|deps|), rounds)) == DO_GENERATE_TERMINAL_REPORT
  }

  // ----- Blocking dependents -----

  /** Operation `i` depends on `start` through at most `k` operations that were pending. */
  ghost predicate Below(deps: Dependencies, st: Statuses, start: nat, i: nat, k: nat)
    requires |deps| == |st|
    decreases k
  {
    || i == start
    || (k > 0 && i < |st| && st[i] == Pending && exists d :: d in deps[i] && Below(deps, st, start, d, k - 1))
  }

  ghost predicate DependsOn(deps: Dependencies, st: Statuses, start: nat, i: nat)
    requires |deps| == |st|
  {
    exists k: nat :: Below(deps, st, start, i, k)
  }

  ghost function BlockDependents(deps: Dependencies, st: Statuses, start: nat): (r: Statuses)
    requires |deps| == |st|
    ensures |r| == |st|
  {
    seq(|st|, i requires 0 <= i < |st| =>
      if i != start && st[i] == Pending && DependsOn(deps, st, start, i) then Blocked else st[i])
  }

  /** A pending operation with a dependency below the start is itself below it. */
  lemma DependsOnStep(deps: Dependencies, st: Statuses, start: nat, i: nat, d: nat)
    requires |deps| == |st| && i < |st| && st[i] == Pending && d in deps[i]
    requires DependsOn(deps, st, start, d)
    ensures DependsOn(deps, st, start, i)
  {
    var k: nat :| Below(deps, st, start, d, k);
    assert Below(deps, st, start, i, k + 1);
  }

  /** A set that contains the start and every pending operation depending on a member contains
      everything below the start. */
  lemma {:induction false} ClosedSetCovers(deps: Dependencies, st: Statuses, start: nat, members: set<nat>,
                                           i: nat, k: nat)
    requires |deps| == |st| && start in members
    requires forall j, d :: 0 <= j < |st| && st[j] == Pending && d in deps[j] && d in members ==> j in members
    requires Below(deps, st, start, i, k)
    ensures i in members
    decreases k
  {
    if i != start {
      var d :| d in deps[i] && Below(deps, st, start, d, k - 1);
      ClosedSetCovers(deps, st, start, members, d, k - 1);
    }
  }

  // ----- Rounds -----

  /** The outcome of one dispatched operation, and what the handler does to its dependents. */
  ghost function Record(h: Handler, deps: Dependencies, st: Statuses, i: nat, outcome: Status): (r: Statuses)
    requires |deps| == |st| && i < |st|
    ensures |r| == |st|
  {
    var done := st[i := outcome];
    if h == Csv && outcome != Succeeded then BlockDependents(deps, done, i) else done
  }

  /** One operation of a batch, which is ready when its turn comes. */
  ghost function ExecuteOne(h: Handler, deps: Dependencies, out: nat -> Status, st: Statuses, i: nat): (r: Statuses)
    requires |deps| == |st|
    ensures |r| == |st|
  {
    if IsReady(deps, st, i) then Record(h, deps, st, i, out(i)) else st
  }

  ghost function ExecuteAll(h: Handler, deps: Dependencies, out: nat -> Status, st: Statuses, batch: seq<nat>): (r: Statuses)
    requires |deps| == |st|
    ensures |r| == |st|
  {
    if batch == [] then st
    else ExecuteOne(h, deps, out, ExecuteAll(h, deps, out, st, batch[..|batch|-1]), batch[|batch|-1])
  }

  ghost function Round(h: Handler, deps: Dependencies, out: nat -> Status, st: Statuses): (r: Statuses)
    requires |deps| == |st|
    ensures |r| == |st|
  {
    ExecuteAll(h, deps, out, st, Batch(deps, st))
  }

  ghost function After(h: Handler, deps: Dependencies, out: nat -> Status, st: Statuses, rounds: nat): (r: Statuses)
    requires |deps| == |st|
    ensures |r| == |st|
  {
    if rounds == 0 then st else Round(h, deps, out, After(h, deps, out, st, rounds - 1))
  }

  /** Every operation dispatched in the first rounds, in order. */
  ghost function Dispatched(h: Handler, deps: Dependencies, out: nat -> Status, st: Statuses, rounds: nat): seq<nat>
    requires |deps| == |st|
  {
    if rounds == 0 then []
    else Dispatched(h, deps, out, st, rounds - 1) + Batch(deps, After(h, deps, out, st, rounds - 1))
  }

  /** Every dispatched operation leaves `pending`. */
  ghost predicate Decisive(out: nat -> Status) {
    forall i :: out(i) != Pending
  }

  /** The batch is bounded, ready, free of repeats and of dependencies between its members. */
  lemma BatchIsIndependent(deps: Dependencies, st: Statuses)
    requires |deps| == |st|
    ensures var b := Batch(deps, st);
      && |b| <= MAX_BATCH && Distinct(b)
      && (forall i :: i in b ==> IsReady(deps, st, i))
      && (forall i, j :: i in b && j in b ==> i < |deps| && j !in deps[i])
      && (b == [] <==> forall i :: 0 <= i < |st| ==> !IsReady(deps, st, i))
  {
    var ready := ReadyBelow(deps, st, |st|);
    if exists i :: 0 <= i < |st| && IsReady(deps, st, i) {
      var i :| 0 <= i < |st| && IsReady(deps, st, i);
      assert i in ready;
    }
    if Batch(deps, st) != [] {
      assert Batch(deps, st)[0] in ready;
    }
    forall i, j | i in Batch(deps, st) && j in Batch(deps, st) ensures i < |deps| && j !in deps[i] {
      assert IsReady(deps, st, i) && IsReady(deps, st, j);
    }
  }

  /** What became of `st` in part of a round. */
  ghost predicate Effect(h: Handler, out: nat -> Status, st: Statuses, done: set<nat>, r: Statuses) {
    && |r| == |st|
    && (forall i :: 0 <= i < |st| && i in done ==> r[i] == out(i))
    && (forall i :: 0 <= i < |st| && i !in done ==> r[i] == st[i] || (h == Csv && st[i] == Pending && r[i] == Blocked))
  }

  lemma ReadyIsNotBelow(deps: Dependencies, st: Statuses, start: nat, i: nat)
    requires |deps| == |st| && IsReady(deps, st, i) && i != start && start < |st| && st[start] != Succeeded
    ensures !DependsOn(deps, st, start, i)
  {
    forall k: nat | Below(deps, st, start, i, k) ensures false {
      var d :| d in deps[i] && Below(deps, st, start, d, k - 1);
    }
  }

  lemma NoEffect(h: Handler, out: nat -> Status, st: Statuses)
    ensures Effect(h, out, st, {}, st)
  {
  }

  lemma {:induction false} ExecuteAllEffect(h: Handler, deps: Dependencies, out: nat -> Status, st: Statuses,
                                            batch: seq<nat>, rest: seq<nat>)
    requires |deps| == |st| && Decisive(out) && Distinct(batch + rest)
    requires forall i :: i in batch + rest ==> IsReady(deps, st, i)
    ensures var r := ExecuteAll(h, deps, out, st, batch);
      && Effect(h, out, st, ToSet(batch), r)
      && forall i :: i in rest ==> IsReady(deps, r, i)
  {
    hide ExecuteOne, Effect;
    if batch == [] {
      assert batch + rest == rest && ToSet(batch) == {};
      NoEffect(h, out, st);
    } else {
      var n := |batch| - 1;
      var i := batch[n];
      assert batch[..n] + ([i] + rest) == batch + rest;
      ExecuteAllEffect(h, deps, out, st, batch[..n], [i] + rest);
      var m := ExecuteAll(h, deps, out, st, batch[..n]);
      assert i in [i] + rest && IsReady(deps, m, i);
      assert ToSet(batch) == ToSet(batch[..n]) + {i};
      forall q | 0 <= q < n ensures batch[..n][q] != i {
        assert (batch + rest)[q] != (batch + rest)[n];
      }
      forall j | j in rest ensures j != i && IsReady(deps, m, j) {
        assert j in [i] + rest;
        var q :| 0 <= q < |rest| && rest[q] == j;
        assert (batch + rest)[n] != (batch + rest)[n + 1 + q];
      }
      ExecuteOneEffect(h, deps, out, st, ToSet(batch[..n]), m, i, rest);
    }
  }

  lemma ExecuteOneEffect(h: Handler, deps: Dependencies, out: nat -> Status, st: Statuses, done: set<nat>,
                         m: Statuses, i: nat, rest: seq<nat>)
    requires |deps| == |st| && Decisive(out) && Effect(h, out, st, done, m)
    requires IsReady(deps, m, i) && i !in done
    requires forall j :: j in rest ==> j != i && IsReady(deps, m, j)
    ensures var r := ExecuteOne(h, deps, out, m, i);
      && Effect(h, out, st, done + {i}, r)
      && forall j :: j in rest ==> IsReady(deps, r, j)
  {
    var set1 := m[i := out(i)];
    forall j | j in rest ensures IsReady(deps, set1, j) {
      assert IsReady(deps, m, j);
      forall d | d in deps[j] ensures SucceededAt(set1, d) {
        assert SucceededAt(m, d);
      }
    }
    if h == Csv && out(i) != Succeeded {
      var r := BlockDependents(deps, set1, i);
      forall j | j in rest ensures IsReady(deps, r, j) {
        ReadyIsNotBelow(deps, set1, i, j);
        forall d | d in deps[j] ensures SucceededAt(r, d) {
          assert SucceededAt(set1, d);
        }
      }
    }
  }

  lemma RoundEffect(h: Handler, deps: Dependencies, out: nat -> Status, st: Statuses)
    requires |deps| == |st| && Decisive(out)
    ensures Effect(h, out, st, ToSet(Batch(deps, st)), Round(h, deps, out, st))
  {
    BatchIsIndependent(deps, st);
    var b := Batch(deps, st);
    assert b + [] == b;
    ExecuteAllEffect(h, deps, out, st, b, []);
  }

  // ----- The dispatch order -----

  function Fresh(n: nat): (r: Statuses)
    ensures |r| == n && forall i :: 0 <= i < n ==> r[i] == Pending
  {
    seq(n, _ => Pending)
  }

  /** What was dispatched is what has its outcome; nothing else succeeds. */
  ghost predicate Tracks(out: nat -> Status, order: seq<nat>, st: Statuses) {
    && (forall i :: i in order ==> i < |st| && st[i] == out(i))
    && (forall i :: 0 <= i < |st| && st[i] == Succeeded ==> i in order)
  }

  /** Every dependency of a dispatched operation was dispatched earlier and succeeded. */
  ghost predicate Extends(deps: Dependencies, out: nat -> Status, order: seq<nat>) {
    forall p, d :: 0 <= p < |order| && order[p] < |deps| && d in deps[order[p]] ==>
      out(d) == Succeeded && d in order[..p]
  }

  lemma RoundKeepsOrder(h: Handler, deps: Dependencies, out: nat -> Status, order: seq<nat>, st: Statuses)
    requires |deps| == |st| && Decisive(out) && Tracks(out, order, st) && Extends(deps, out, order) && Distinct(order)
    ensures var b := Batch(deps, st);
      Tracks(out, order + b, Round(h, deps, out, st)) && Extends(deps, out, order + b) && Distinct(order + b)
  {
    BatchIsIndependent(deps, st);
    RoundEffect(h, deps, out, st);
    var b := Batch(deps, st);
    var all := order + b;
    forall p, d | 0 <= p < |all| && all[p] < |deps| && d in deps[all[p]]
      ensures out(d) == Succeeded && d in all[..p]
    {
      if p < |order| {
        assert all[..p] == order[..p];
      } else {
        assert all[p] in b && SucceededAt(st, d);
        assert order <= all[..p];
        var q :| 0 <= q < |order| && order[q] == d;
        assert all[..p][q] == d;
      }
    }
    forall p, q | 0 <= p < q < |all| ensures all[p] != all[q] {
      if p < |order| <= q {
        assert all[p] in order && all[q] in b;
      }
    }
  }

  lemma NothingDispatched(deps: Dependencies, out: nat -> Status)
    ensures Distinct<nat>([]) && Extends(deps, out, []) && Tracks(out, [], Fresh(|deps|))
  {
  }

  /** Over any number of rounds and whatever outcomes come back: no operation is dispatched
      twice, and each comes after all its dependencies, which have succeeded. */
  lemma {:induction false} DispatchIsLinearExtension(h: Handler, deps: Dependencies, out: nat -> Status, rounds: nat)
    requires Decisive(out)
    ensures var order := Dispatched(h, deps, out, Fresh(|deps|), rounds);
      && Distinct(order) && Extends(deps, out, order)
      && Tracks(out, order, After(h, deps, out, Fresh(|deps|), rounds))
  {
    NothingDispatched(deps, out);
    hide Round, Batch, Extends, Tracks, Distinct;
    if rounds > 0 {
      DispatchIsLinearExtension(h, deps, out, rounds - 1);
      RoundKeepsOrder(h, deps, out, Dispatched(h, deps, out, Fresh(|deps|), rounds - 1),
                      After(h, deps, out, Fresh(|deps|), rounds - 1));
    }
  }

  // ----- Progress -----

  /** Dependencies lie inside the plan and have no cycle. */
  ghost predicate Acyclic(deps: Dependencies) {
    exists rank :: IsRanking(deps, rank)
  }

  ghost predicate IsRanking(deps: Dependencies, rank: seq<nat>) {
    |rank| == |deps| && forall i: nat :: i < |deps| ==> forall d :: d in deps[i] ==> RanksLower(rank, d, i)
  }

  predicate RanksLower(rank: seq<nat>, d: nat, i: nat) {
    d < |rank| && i < |rank| && rank[d] < rank[i]
  }

  /** No pending operation depends on one that finished without success. */
  ghost predicate Unobstructed(deps: Dependencies, st: Statuses)
    requires |deps| == |st|
  {
    forall i: nat :: i < |st| && st[i] == Pending ==> forall d :: d in deps[i] ==> NotFailed(st, d)
  }

  predicate NotFailed(st: Statuses, d: nat) {
    d < |st| && (st[d] == Pending || st[d] == Succeeded)
  }

  lemma LowestPending(st: Statuses, rank: seq<nat>, n: nat) returns (i: nat)
    requires n <= |st| == |rank| && PendingBelow(st, n) > 0
    ensures i < n && st[i] == Pending && forall j :: 0 <= j < n && st[j] == Pending ==> rank[i] <= rank[j]
  {
    if PendingBelow(st, n - 1) == 0 {
      i := n - 1;
    } else {
      i := LowestPending(st, rank, n - 1);
      if st[n-1] == Pending && rank[n-1] < rank[i] {
        i := n - 1;
      }
    }
  }

  /** Some operation is ready whenever any is pending. */
  lemma SomeReady(deps: Dependencies, st: Statuses)
    requires |deps| == |st| && Acyclic(deps) && Unobstructed(deps, st) && PendingCount(st) > 0
    ensures Batch(deps, st) != []
  {
    var rank :| IsRanking(deps, rank);
    var i := LowestPending(st, rank, |st|);
    forall d | d in deps[i] ensures SucceededAt(st, d) {
      assert RanksLower(rank, d, i) && NotFailed(st, d);
    }
    assert IsReady(deps, st, i);
    BatchIsIndependent(deps, st);
  }

  lemma CsvStepUnobstructed(deps: Dependencies, out: nat -> Status, st: Statuses, i: nat)
    requires |deps| == |st| && Decisive(out) && Unobstructed(deps, st)
    ensures Unobstructed(deps, ExecuteOne(Csv, deps, out, st, i))
  {
    if IsReady(deps, st, i) && out(i) != Succeeded {
      var done := st[i := out(i)];
      var r := BlockDependents(deps, done, i);
      forall j: nat, d | j < |r| && r[j] == Pending && d in deps[j] ensures NotFailed(r, d) {
        assert NotFailed(st, d);
        if d == i || r[d] != done[d] {
          assert Below(deps, done, i, i, 0);
          DependsOnStep(deps, done, i, j, d);
        }
      }
    }
  }

  lemma {:induction false} CsvBatchUnobstructed(deps: Dependencies, out: nat -> Status, st: Statuses, batch: seq<nat>)
    requires |deps| == |st| && Decisive(out) && Unobstructed(deps, st)
    ensures Unobstructed(deps, ExecuteAll(Csv, deps, out, st, batch))
  {
    if batch != [] {
      var n := |batch| - 1;
      CsvBatchUnobstructed(deps, out, st, batch[..n]);
      CsvStepUnobstructed(deps, out, ExecuteAll(Csv, deps, out, st, batch[..n]), batch[n]);
    }
  }

  lemma {:induction false} PendingFalls(a: Statuses, b: Statuses, n: nat)
    requires n <= |a| == |b|
    requires forall i :: 0 <= i < n && b[i] == Pending ==> a[i] == Pending
    ensures PendingBelow(b, n) <= PendingBelow(a, n)
    ensures (exists i :: 0 <= i < n && a[i] == Pending && b[i] != Pending) ==> PendingBelow(b, n) < PendingBelow(a, n)
  {
    if n > 0 {
      PendingFalls(a, b, n - 1);
    }
  }

  /** A round with a non-empty batch leaves fewer operations pending. */
  lemma RoundMakesProgress(h: Handler, deps: Dependencies, out: nat -> Status, st: Statuses)
    requires |deps| == |st| && Decisive(out) && Batch(deps, st) != []
    ensures PendingCount(Round(h, deps, out, st)) < PendingCount(st)
  {
    BatchIsIndependent(deps, st);
    RoundEffect(h, deps, out, st);
    var i := Batch(deps, st)[0];
    assert i in Batch(deps, st) && i in ToSet(Batch(deps, st));
    PendingFalls(st, Round(h, deps, out, st), |st|);
  }

  /** With the CSV handler nothing of the executed plan is pending after as many rounds as there
      were pending operations, whatever the outcomes; the terminal report is then reached unless
      older plans of the run have pending operations. */
  lemma {:induction false} CsvLoopFinishes(deps: Dependencies, out: nat -> Status, st: Statuses, rounds: nat)
    requires |deps| == |st| && Decisive(out) && Acyclic(deps) && Unobstructed(deps, st)
    ensures var r := After(Csv, deps, out, st, rounds);
      && Unobstructed(deps, r)
      && (PendingCount(r) + rounds <= PendingCount(st) || PendingCount(r) == 0)
    ensures rounds >= PendingCount(st) ==> forall earlier: nat ::
      AfterVerify(earlier, After(Csv, deps, out, st, rounds)) == DO_GENERATE_TERMINAL_REPORT <==> earlier == 0
  {
    hide Round, Acyclic, Unobstructed, PendingCount;
    if rounds > 0 {
      CsvLoopFinishes(deps, out, st, rounds - 1);
      CsvRoundAdvances(deps, out, After(Csv, deps, out, st, rounds - 1));
    }
  }

  lemma CsvRoundAdvances(deps: Dependencies, out: nat -> Status, st: Statuses)
    requires |deps| == |st| && Decisive(out) && Acyclic(deps) && Unobstructed(deps, st)
    ensures Unobstructed(deps, Round(Csv, deps, out, st))
    ensures PendingCount(Round(Csv, deps, out, st)) < PendingCount(st) || PendingCount(Round(Csv, deps, out, st)) == 0
  {
    hide ExecuteAll, ReadyBelow, Acyclic, Unobstructed, PendingCount;
    CsvBatchUnobstructed(deps, out, st, Batch(deps, st));
    if PendingCount(st) > 0 {
      SomeReady(deps, st);
      RoundMakesProgress(Csv, deps, out, st);
    } else {
      NoPendingStays(Csv, deps, out, st);
    }
  }

  /** With the CSV handler the loop reaches the terminal report if and only if no older plan of the
      run has a pending operation. */
  lemma {:induction false} CsvLoopFinishesIff(deps: Dependencies, out: nat -> Status, earlier: nat)
    requires Decisive(out) && Acyclic(deps)
    ensures Finishes(Csv, deps, out, earlier) <==> earlier == 0
  {
    hide After;
    var st := Fresh(|deps|);
    FreshIsUnobstructed(deps);
    CsvLoopFinishes(deps, out, st, PendingCount(st));
    assert AfterVerify(earlier, After(Csv, deps, out, st, PendingCount(st))) == DO_GENERATE_TERMINAL_REPORT <==> earlier == 0;
  }

  /** Without a ready operation the two nodes repeat with unchanged statuses. */
  lemma {:induction false} StuckForever(h: Handler, deps: Dependencies, out: nat -> Status, st: Statuses, rounds: nat)
    requires |deps| == |st| && Batch(deps, st) == []
    ensures After(h, deps, out, st, rounds) == st
  {
    if rounds > 0 {
      StuckForever(h, deps, out, st, rounds - 1);
    }
  }

  // ----- Independent operations -----

  ghost predicate Independent(deps: Dependencies) {
    forall i :: 0 <= i < |deps| ==> deps[i] == []
  }

  lemma {:induction false} IndependentExecution(h: Handler, deps: Dependencies, out: nat -> Status, st: Statuses,
                                                batch: seq<nat>)
    requires |deps| == |st| && Independent(deps)
    ensures ExecuteAll(h, deps, out, st, batch) == ExecuteAll(Sql, deps, out, st, batch)
  {
    if batch != [] {
      var n := |batch| - 1;
      IndependentExecution(h, deps, out, st, batch[..n]);
      var m := ExecuteAll(h, deps, out, st, batch[..n]);
      if IsReady(deps, m, batch[n]) {
        var done := m[batch[n] := out(batch[n])];
        assert BlockDependents(deps, done, batch[n]) == done;
      }
    }
  }

  function PendingSet(st: Statuses, n: nat): (r: set<nat>)
    requires n <= |st|
    ensures forall i: nat :: i in r <==> i < n && st[i] == Pending
  {
    set i: nat | i < n && st[i] == Pending
  }

  lemma {:induction false} PendingSetSize(st: Statuses, n: nat)
    requires n <= |st|
    ensures |PendingSet(st, n)| == PendingBelow(st, n)
  {
    if n > 0 {
      PendingSetSize(st, n - 1);
      assert PendingSet(st, n) == PendingSet(st, n - 1) + if st[n-1] == Pending then {n - 1} else {};
    }
  }

  /** Without dependencies a round takes exactly the next fifty operations. */
  lemma IndependentRound(h: Handler, deps: Dependencies, out: nat -> Status, st: Statuses)
    requires |deps| == |st| && Decisive(out) && Independent(deps)
    ensures PendingCount(Round(h, deps, out, st)) ==
      if PendingCount(st) <= MAX_BATCH then 0 else PendingCount(st) - MAX_BATCH
  {
    var b, n := Batch(deps, st), |st|;
    BatchIsIndependent(deps, st);
    IndependentExecution(h, deps, out, st, b);
    RoundEffect(Sql, deps, out, st);
    var r := Round(h, deps, out, st);
    var ready := ReadyBelow(deps, st, n);
    assert ToSet(ready) == PendingSet(st, n);
    assert PendingSet(r, n) == PendingSet(st, n) - ToSet(b);
    assert ToSet(b) <= PendingSet(st, n);
    PendingSetSize(st, n);
    PendingSetSize(r, n);
    CountsDistinct(ready);
    CountsDistinct(b);
  }

  /** How many operations so many full batches hold. */
  function Covered(rounds: nat): nat {
    50 * rounds
  }

  /** Without dependencies, and without pending operations of older plans, the loop reaches the
      terminal report after exactly as many rounds as it takes to cover the plan in steps of fifty,
      and not before. */
  lemma IndependentLoopIsExact(h: Handler, deps: Dependencies, out: nat -> Status, earlier: nat, rounds: nat)
    requires Decisive(out) && Independent(deps)
    ensures AfterVerify(earlier, After(h, deps, out, Fresh(|deps|), rounds)) == DO_GENERATE_TERMINAL_REPORT <==>
      earlier == 0 && rounds >= (|deps| + 49) / 50
  {
    hide After, Independent, Fresh, PendingCount;
    IndependentLoop(h, deps, out, rounds);
  }

  lemma {:induction false} IndependentLoop(h: Handler, deps: Dependencies, out: nat -> Status, rounds: nat)
    requires Decisive(out) && Independent(deps)
    ensures PendingCount(After(h, deps, out, Fresh(|deps|), rounds)) ==
      if |deps| <= Covered(rounds) then 0 else |deps| - Covered(rounds)
  {
    NothingDone(h, deps, out);
    hide After, Fresh, PendingCount, Independent, Decisive;
    if rounds > 0 {
      IndependentLoop(h, deps, out, rounds - 1);
      AfterOneMore(h, deps, out, Fresh(|deps|), rounds - 1);
    }
  }

  lemma NothingDone(h: Handler, deps: Dependencies, out: nat -> Status)
    ensures PendingCount(After(h, deps, out, Fresh(|deps|), 0)) == |deps|
  {
    AllPending(Fresh(|deps|), |deps|);
  }

  lemma AfterOneMore(h: Handler, deps: Dependencies, out: nat -> Status, st: Statuses, rounds: nat)
    requires |deps| == |st| && Decisive(out) && Independent(deps)
    ensures var a, b := PendingCount(After(h, deps, out, st, rounds)), PendingCount(After(h, deps, out, st, rounds + 1));
      b == if a <= 50 then 0 else a - 50
  {
    IndependentRound(h, deps, out, After(h, deps, out, st, rounds));
  }

  lemma {:induction false} AllPending(st: Statuses, n: nat)
    requires n <= |st| && forall i :: 0 <= i < |st| ==> st[i] == Pending
    ensures PendingBelow(st, n) == n
  {
    if n > 0 {
      AllPending(st, n - 1);
    }
  }

  // ----- The SQL handler -----

  /** Every operation that another depends on succeeds. */
  ghost predicate DependenciesSucceed(deps: Dependencies, out: nat -> Status) {
    forall i: nat :: i < |deps| ==> forall d :: d in deps[i] ==> out(d) == Succeeded
  }

  lemma {:induction false} SqlBatchUnobstructed(deps: Dependencies, out: nat -> Status, st: Statuses, batch: seq<nat>)
    requires |deps| == |st| && Decisive(out) && Unobstructed(deps, st) && DependenciesSucceed(deps, out)
    ensures Unobstructed(deps, ExecuteAll(Sql, deps, out, st, batch))
  {
    if batch != [] {
      var n := |batch| - 1;
      SqlBatchUnobstructed(deps, out, st, batch[..n]);
      var m := ExecuteAll(Sql, deps, out, st, batch[..n]);
      var r := ExecuteOne(Sql, deps, out, m, batch[n]);
      forall j: nat, d | j < |r| && r[j] == Pending && d in deps[j] ensures NotFailed(r, d) {
        assert NotFailed(m, d);
      }
    }
  }

  lemma {:induction false} SqlLoopAdvances(deps: Dependencies, out: nat -> Status, st: Statuses, rounds: nat)
    requires |deps| == |st| && Decisive(out) && Acyclic(deps) && Unobstructed(deps, st)
    requires DependenciesSucceed(deps, out)
    ensures var r := After(Sql, deps, out, st, rounds);
      && Unobstructed(deps, r)
      && (PendingCount(r) + rounds <= PendingCount(st) || PendingCount(r) == 0)
  {
    hide Round, Acyclic, Unobstructed, PendingCount, DependenciesSucceed;
    if rounds > 0 {
      SqlLoopAdvances(deps, out, st, rounds - 1);
      SqlRoundAdvances(deps, out, After(Sql, deps, out, st, rounds - 1));
    }
  }

  lemma SqlRoundAdvances(deps: Dependencies, out: nat -> Status, st: Statuses)
    requires |deps| == |st| && Decisive(out) && Acyclic(deps) && Unobstructed(deps, st)
    requires DependenciesSucceed(deps, out)
    ensures Unobstructed(deps, Round(Sql, deps, out, st))
    ensures PendingCount(Round(Sql, deps, out, st)) < PendingCount(st) || PendingCount(Round(Sql, deps, out, st)) == 0
  {
    hide ExecuteAll, ReadyBelow, Acyclic, Unobstructed, PendingCount, DependenciesSucceed;
    SqlBatchUnobstructed(deps, out, st, Batch(deps, st));
    if PendingCount(st) > 0 {
      SomeReady(deps, st);
      RoundMakesProgress(Sql, deps, out, st);
    } else {
      NoPendingStays(Sql, deps, out, st);
    }
  }

  lemma NoPendingStays(h: Handler, deps: Dependencies, out: nat -> Status, st: Statuses)
    requires |deps| == |st| && PendingCount(st) == 0
    ensures Round(h, deps, out, st) == st
  {
    BatchIsIndependent(deps, st);
  }

  /** With the SQL handler nothing leaves `pending` except by dispatch. */
  lemma {:induction false} SqlFinishedWasDispatched(deps: Dependencies, out: nat -> Status, rounds: nat)
    requires Decisive(out)
    ensures forall i: nat :: i < |deps| && After(Sql, deps, out, Fresh(|deps|), rounds)[i] != Pending ==>
      i in Dispatched(Sql, deps, out, Fresh(|deps|), rounds)
  {
    if rounds > 0 {
      hide Round, Batch;
      SqlFinishedWasDispatched(deps, out, rounds - 1);
      var m := After(Sql, deps, out, Fresh(|deps|), rounds - 1);
      RoundEffect(Sql, deps, out, m);
      forall i: nat | i < |deps| && Round(Sql, deps, out, m)[i] != Pending
        ensures i in Dispatched(Sql, deps, out, Fresh(|deps|), rounds)
      {
        assert i in ToSet(Batch(deps, m)) || m[i] != Pending;
      }
    }
  }

  lemma SqlFinishedMeansSucceeded(deps: Dependencies, out: nat -> Status, rounds: nat)
    requires Decisive(out) && PendingCount(After(Sql, deps, out, Fresh(|deps|), rounds)) == 0
    ensures DependenciesSucceed(deps, out)
  {
    hide After, Dispatched;
    DispatchIsLinearExtension(Sql, deps, out, rounds);
    SqlFinishedWasDispatched(deps, out, rounds);
    var order := Dispatched(Sql, deps, out, Fresh(|deps|), rounds);
    forall i: nat, d | i < |deps| && d in deps[i] ensures out(d) == Succeeded {
      assert After(Sql, deps, out, Fresh(|deps|), rounds)[i] != Pending;
      var p :| 0 <= p < |order| && order[p] == i;
    }
  }

  /** With the SQL handler the loop reaches the terminal report if and only if no older plan of the
      run has a pending operation and every operation that another depends on succeeds; otherwise
      it repeats for ever with pending operations. */
  lemma {:induction false} SqlLoopFinishesIff(deps: Dependencies, out: nat -> Status, earlier: nat)
    requires Decisive(out) && Acyclic(deps)
    ensures Finishes(Sql, deps, out, earlier) <==> earlier == 0 && DependenciesSucceed(deps, out)
  {
    hide After, DependenciesSucceed;
    var st := Fresh(|deps|);
    if DependenciesSucceed(deps, out) {
      FreshIsUnobstructed(deps);
      SqlLoopAdvances(deps, out, st, PendingCount(st) + 1);
      assert earlier == 0 ==>
        AfterVerify(earlier, After(Sql, deps, out, st, PendingCount(st) + 1)) == DO_GENERATE_TERMINAL_REPORT;
    }
    forall rounds: nat | AfterVerify(earlier, After(Sql, deps, out, st, rounds)) == DO_GENERATE_TERMINAL_REPORT
      ensures DependenciesSucceed(deps, out)
    {
      SqlFinishedMeansSucceeded(deps, out, rounds);
    }
  }

  lemma FreshIsUnobstructed(deps: Dependencies)
    requires Acyclic(deps)
    ensures Unobstructed(deps, Fresh(|deps|))
  {
  }

  /** One failed verification with a dependent is enough: the plan is never finished. */
  lemma SqlLoopCanRepeatForever() returns (deps: Dependencies, out: nat -> Status)
    ensures Decisive(out) && Acyclic(deps)
    ensures forall rounds: nat ::
      AfterVerify(0, After(Sql, deps, out, Fresh(|deps|), rounds)) == DO_EXECUTE_REMAINING_INDEPENDENT
  {
    deps := [[], [0]];
    out := i => if i == 0 then VerificationFailed else Succeeded;
    assert IsRanking(deps, [0, 1]);
    assert 0 in deps[1] && out(0) != Succeeded;
    SqlLoopFinishesIff(deps, out, 0);
    forall rounds: nat ensures
      AfterVerify(0, After(Sql, deps, out, Fresh(|deps|), rounds)) == DO_EXECUTE_REMAINING_INDEPENDENT
    {
      assert AfterVerify(0, After(Sql, deps, out, Fresh(|deps|), rounds)) != DO_GENERATE_TERMINAL_REPORT;
    }
  }

  // ----- The operation rows in place -----

  datatype Outcome = Recorded | Kept | BlockedNow | NotReadyError | MissingError

  class PlanRows {
    const deps: Dependencies
    var statuses: Statuses

    constructor (deps: Dependencies)
      ensures this.deps == deps && statuses == Fresh(|deps|)
    {
      this.deps := deps;
      statuses := Fresh(|deps|);
    }

    /** Marks as blocked what depends on a failed operation, sweeping over the pending operations
        until a sweep changes nothing. */
    method BlockDependentsOf(start: nat)
      requires |deps| == |statuses| && start < |statuses| && statuses[start] != Pending
      modifies this`statuses
      ensures statuses == BlockDependents(deps, old(statuses), start)
    {
      ghost var before := statuses;
      var pending := PendingSet(statuses, |statuses|);
      var blocked: set<nat> := {start};
      var changed := true;
      assert Below(deps, before, start, start, 0);
      while changed
        invariant start in blocked && blocked <= pending + {start}
        invariant forall i :: i in blocked ==> DependsOn(deps, before, start, i)
        invariant |statuses| == |before|
        invariant forall i :: 0 <= i < |before| ==>
          statuses[i] == if i != start && i in blocked then Blocked else before[i]
        invariant !changed ==> forall j, d :: j in pending && d in deps[j] && d in blocked ==> j in blocked
        decreases pending - blocked, changed
      {
        changed := false;
        ghost var sweep := blocked;
        for k := 0 to |statuses|
          invariant start in blocked && sweep <= blocked <= pending + {start}
          invariant changed <==> blocked != sweep
          invariant forall i :: i in blocked ==> DependsOn(deps, before, start, i)
          invariant |statuses| == |before|
          invariant forall i :: 0 <= i < |before| ==>
            statuses[i] == if i != start && i in blocked then Blocked else before[i]
          invariant !changed ==>
            forall j, d :: j in pending && j < k && d in deps[j] && d in blocked ==> j in blocked
        {
          if k in pending && k !in blocked && exists d :: d in deps[k] && d in blocked {
            ghost var d :| d in deps[k] && d in blocked;
            DependsOnStep(deps, before, start, k, d);
            statuses := statuses[k := Blocked];
            blocked := blocked + {k};
            changed := true;
          }
        }
        assert changed ==> exists k :: k in blocked - sweep && k in pending;
      }
      forall i: nat, k: nat | Below(deps, before, start, i, k) ensures i in blocked {
        ClosedSetCovers(deps, before, start, blocked, i, k);
      }
      assert forall i: nat :: i < |before| && i in blocked && i != start ==> before[i] == Pending;
    }

    /** Executes one operation with the outcome the target reported. */
    method Execute(h: Handler, i: nat, outcome: Status) returns (r: Outcome)
      requires |deps| == |statuses| && outcome != Pending
      modifies this`statuses
      ensures r == Recorded <==> IsReady(deps, old(statuses), i)
      ensures r == Recorded ==> statuses == Record(h, deps, old(statuses), i, outcome)
      ensures r == BlockedNow ==> i < |old(statuses)| && statuses == old(statuses)[i := Blocked]
      ensures r == BlockedNow ==> exists d :: d in deps[i] && d < |statuses| && old(statuses)[d] != Succeeded
      ensures r != Recorded && r != BlockedNow ==> statuses == old(statuses)
    {
      if i >= |statuses| {
        return MissingError;
      }
      if statuses[i] != Pending {
        return Kept;
      }
      if exists d :: d in deps[i] && d >= |statuses| {
        return MissingError;
      }
      if exists d :: d in deps[i] && statuses[d] != Succeeded {
        if h == Csv && exists d :: d in deps[i] && statuses[d] == Pending {
          return NotReadyError;
        }
        statuses := statuses[i := Blocked];
        return BlockedNow;
      }
      assert IsReady(deps, statuses, i);
      statuses := statuses[i := outcome];
      if h == Csv && outcome != Succeeded {
        BlockDependentsOf(i);
      }
      return Recorded;
    }
  }
}
