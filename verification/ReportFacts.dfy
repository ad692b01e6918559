/** Mutation facts of a report and the judgements made from them. */
module ReportFacts {
  import opened Wrappers

  datatype Status =
    | Succeeded | Failed | Blocked | Rejected | Skipped | ConflictSkipped | AlreadyRestored

  datatype Verification = Verification(valid: Option<bool>, noWrite: Option<bool>)

  datatype Mutation = Mutation(id: nat, status: Status, verification: Option<Verification>)

  datatype TerminalState = Completed | CompletedWithConflicts | AbnormalInput | Terminated

  predicate Verified(m: Mutation) {
    m.status == Succeeded && m.verification.Some? && m.verification.value.valid == Some(true)
  }

  /** A report counts as fully successful when it completed with at least one mutation and every
      mutation succeeded and was verified. */
  predicate FullyVerified(terminal: TerminalState, mutations: Option<seq<Mutation>>) {
    terminal == Completed && mutations.Some? && mutations.value != [] &&
    forall m :: m in mutations.value ==> Verified(m)
  }

  predicate SkippedWithoutWrite(m: Mutation) {
    m.status == ConflictSkipped && m.verification.Some? && m.verification.value.noWrite == Some(true)
  }

  /** A rollback may be retried when it wrote nothing because every mutation was in conflict. */
  predicate Retryable(terminal: TerminalState, mutations: Option<seq<Mutation>>) {
    terminal == CompletedWithConflicts && mutations.Some? && mutations.value != [] &&
    forall m :: m in mutations.value ==> SkippedWithoutWrite(m)
  }

  // ----- Facts compiled for a report -----

  function SuccessfulOf(mutations: seq<Mutation>): (r: seq<Mutation>) {
    if mutations == [] then []
    else
      var last := mutations[|mutations|-1];
      SuccessfulOf(mutations[..|mutations|-1]) + if Verified(last) then [last] else []
  }

  function CountOf(mutations: seq<Mutation>, status: Status): nat {
    if mutations == [] then 0
    else CountOf(mutations[..|mutations|-1], status) + if mutations[|mutations|-1].status == status then 1 else 0
  }

  function IdsOf(mutations: seq<Mutation>): (r: seq<nat>)
    ensures |r| == |mutations|
  {
    seq(|mutations|, i requires 0 <= i < |mutations| => mutations[i].id)
  }

  datatype Compiled = Compiled(
    summary: map<Status, nat>, eligible: bool, abnormal: bool, successfulIds: seq<nat>, successful: seq<Mutation>)

  /** What a report stores beside the mutations themselves: a count per status, whether a rollback
      is possible, and the mutations that can be rolled back. */
  method CompileFacts(terminal: TerminalState, mutations: Option<seq<Mutation>>) returns (r: Compiled)
    ensures var all := if mutations.Some? then mutations.value else [];
      && (forall s :: (s in r.summary ==> r.summary[s] == CountOf(all, s)) && (s !in r.summary ==> CountOf(all, s) == 0))
      && {Succeeded, Failed, Blocked, Rejected, Skipped} <= r.summary.Keys
      && r.successful == SuccessfulOf(all) && r.successfulIds == IdsOf(r.successful)
      && r.eligible == FullyVerified(terminal, mutations)
      && r.abnormal == (terminal == AbnormalInput)
  {
    var all := if mutations.Some? then mutations.value else [];
    var counts := map[Succeeded := 0, Failed := 0, Blocked := 0, Rejected := 0, Skipped := 0];
    var successful: seq<Mutation> := [];
    for i := 0 to |all|
      invariant {Succeeded, Failed, Blocked, Rejected, Skipped} <= counts.Keys
      invariant forall s :: (s in counts ==> counts[s] == CountOf(all[..i], s)) && (s !in counts ==> CountOf(all[..i], s) == 0)
      invariant successful == SuccessfulOf(all[..i])
    {
      assert all[..i+1][..i] == all[..i];
      var status := all[i].status;
      counts := counts[status := (if status in counts then counts[status] else 0) + 1];
      if Verified(all[i]) {
        successful := successful + [all[i]];
      }
    }
    assert all[..|all|] == all;
    return Compiled(counts, FullyVerified(terminal, mutations), terminal == AbnormalInput, IdsOf(successful), successful);
  }

  lemma {:induction false} CountIsZeroIff(mutations: seq<Mutation>, status: Status)
    ensures CountOf(mutations, status) == 0 <==> forall m :: m in mutations ==> m.status != status
  {
    if mutations != [] {
      var front, last := mutations[..|mutations|-1], mutations[|mutations|-1];
      CountIsZeroIff(front, status);
      assert mutations == front + [last];
    }
  }

  /** Every mutation is counted under exactly one status. */
  lemma {:induction false} CountsAddUp(mutations: seq<Mutation>)
    ensures CountOf(mutations, Succeeded) + CountOf(mutations, Failed) + CountOf(mutations, Blocked) +
      CountOf(mutations, Rejected) + CountOf(mutations, Skipped) + CountOf(mutations, ConflictSkipped) +
      CountOf(mutations, AlreadyRestored) == |mutations|
  {
    if mutations != [] {
      CountsAddUp(mutations[..|mutations|-1]);
    }
  }

  /** The mutations that can be rolled back are those that succeeded and were verified as valid. */
  lemma {:induction false} SuccessfulAre(mutations: seq<Mutation>, m: Mutation)
    ensures m in SuccessfulOf(mutations) <==>
      m in mutations && m.status == Succeeded && m.verification.Some? && m.verification.value.valid == Some(true)
  {
    if mutations != [] {
      var front, last := mutations[..|mutations|-1], mutations[|mutations|-1];
      SuccessfulAre(front, m);
      assert mutations == front + [last];
    }
  }

  /** When every mutation is verified, all of them can be rolled back, in order. */
  lemma {:induction false} AllSuccessful(mutations: seq<Mutation>)
    requires forall m :: m in mutations ==> Verified(m)
    ensures SuccessfulOf(mutations) == mutations
  {
    if mutations != [] {
      AllSuccessful(mutations[..|mutations|-1]);
      assert mutations == mutations[..|mutations|-1] + [mutations[|mutations|-1]];
    }
  }

  /** A task whose report allows a rollback cannot be deleted: deletion needs a report without a
      successful mutation. */
  lemma EligibleIsNotDeletable(terminal: TerminalState, mutations: Option<seq<Mutation>>)
    requires FullyVerified(terminal, mutations)
    ensures IdsOf(SuccessfulOf(mutations.value)) != []
  {
  }

  predicate Restored(m: Mutation) {
    m.status == Succeeded || m.status == AlreadyRestored
  }

  /** The terminal state of a rollback. */
  function RollbackTerminal(mutations: Option<seq<Mutation>>): TerminalState {
    if mutations.Some? && mutations.value != [] && forall m :: m in mutations.value ==> Restored(m)
    then Completed else CompletedWithConflicts
  }

  /** A rollback counts as completed exactly when it has mutations and each of them restored the
      target or found it restored already. */
  lemma CompletedRollbackRestoredAll(mutations: seq<Mutation>)
    ensures RollbackTerminal(None) == CompletedWithConflicts
    ensures RollbackTerminal(Some(mutations)) == Completed <==>
      |mutations| > 0 && CountOf(mutations, Failed) + CountOf(mutations, Blocked) + CountOf(mutations, Rejected) +
        CountOf(mutations, Skipped) + CountOf(mutations, ConflictSkipped) == 0
    ensures RollbackTerminal(Some(mutations)) == Completed || RollbackTerminal(Some(mutations)) == CompletedWithConflicts
  {
    CountIsZeroIff(mutations, Failed);
    CountIsZeroIff(mutations, Blocked);
    CountIsZeroIff(mutations, Rejected);
    CountIsZeroIff(mutations, Skipped);
    CountIsZeroIff(mutations, ConflictSkipped);
  }

  /** A rollback that may be retried is one whose terminal state records conflicts, never one that
      counts as completed. */
  lemma RetryableIsNotCompleted(mutations: Option<seq<Mutation>>)
    requires Retryable(CompletedWithConflicts, mutations)
    ensures RollbackTerminal(mutations) == CompletedWithConflicts
  {
    assert mutations.value[0] in mutations.value;
  }
}
