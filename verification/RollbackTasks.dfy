/** Creation of rollback tasks for a synchronisation and a target version.

    A first request creates attempt 1; a repeated request finds the newest attempt again, and
    creates the next one only when the newest ended without writing anything because every
    mutation was in conflict. */
module RollbackTasks {
  import opened ReportFacts
  import opened RollbackCycles
  import opened Wrappers

  /** A compensating operation: the mutation it undoes and the version it restores. */
  datatype Compensation = Compensation(mutation: Mutation, compensationFor: nat, version: nat, highRisk: bool)

  datatype RunState = Pending | Active | Finished | Ended

  /** `terminal` says that the run is in its last phase; `Finished` that it completed. */
  datatype Run = Run(terminal: bool, state: RunState)

  datatype Attempt = Attempt(
    id: nat, source: nat, version: nat, number: nat, retryOf: Option<nat>, generation: int,
    operations: seq<Compensation>, run: Run)

  /** `databases` are the sources whose target is a database. */
  datatype Desk = Desk(book: Book, attempts: seq<Attempt>, databases: set<nat>)

  predicate For(t: Attempt, source: nat, version: nat) {
    t.source == source && t.version == version
  }

  /** The newest attempt for a source and version. */
  function Newest(attempts: seq<Attempt>, source: nat, version: nat): (r: Option<Attempt>)
    ensures r.Some? ==> r.value in attempts && For(r.value, source, version)
  {
    if attempts == [] then None
    else if For(attempts[|attempts|-1], source, version) then Some(attempts[|attempts|-1])
    else Newest(attempts[..|attempts|-1], source, version)
  }

  /** The idempotency key of an attempt stands for its source, version and number. */
  function FindKey(attempts: seq<Attempt>, source: nat, version: nat, number: nat): (r: Option<Attempt>)
    ensures r.Some? ==> r.value in attempts && For(r.value, source, version) && r.value.number == number
    ensures r.None? ==> forall t :: t in attempts && For(t, source, version) ==> t.number != number
  {
    if attempts == [] then None
    else if For(attempts[0], source, version) && attempts[0].number == number then Some(attempts[0])
    else FindKey(attempts[1..], source, version, number)
  }

  /** An attempt that ended without a write. */
  predicate EndedUnwritten(b: Book, t: Attempt) {
    var r := FindReport(b.timeline, t.id);
    t.run == Run(true, Finished) && r.Some? && Retryable(r.value.terminal, r.value.mutations)
  }

  function Compensate(mutations: seq<Mutation>, version: nat): (r: seq<Compensation>)
    ensures |r| == |mutations|
  {
    seq(|mutations|, i requires 0 <= i < |mutations| => Compensation(mutations[i], mutations[i].id, version, true))
  }

  /** A request either returns an existing attempt and changes nothing, or adds one attempt. */
  function Create(d: Desk, id: nat, sourceId: nat, version: nat): Result<(Desk, Attempt), Refusal> {
    CreateWith(d, id, sourceId, version, KeyBlocked(d.book, SourceKey(d.book, sourceId)))
  }

  /** A request with both questions about the cycle already answered. */
  function CreateWith(d: Desk, id: nat, sourceId: nat, version: nat, blocked: bool): Result<(Desk, Attempt), Refusal> {
    var source := FindTask(d.book.timeline, sourceId);
    if source.None? then Err(UnknownTask)
    else
      var available := Available(d.book, source.value, None, blocked);
      if available.Err? then Err(available.error)
      else if !Eligible(d.book, source.value) then Err(NotEligible)
      else
        var existing := Newest(d.attempts, sourceId, version);
        if existing.None? then CreateNumber(d, id, source.value, version, 1, None, available.value)
        else
          var still := Available(d.book, source.value, Some(existing.value.generation), blocked);
          if still.Err? then Err(still.error)
          else if !(sourceId in d.databases && EndedUnwritten(d.book, existing.value)) then Ok((d, existing.value))
          else CreateNumber(d, id, source.value, version, existing.value.number + 1, Some(existing.value.id), available.value)
  }

  function CreateNumber(d: Desk, id: nat, source: Task, version: nat, number: nat, retryOf: Option<nat>,
                        generation: int): Result<(Desk, Attempt), Refusal>
  {
    var duplicate := FindKey(d.attempts, source.id, version, number);
    var report := FindReport(d.book.timeline, source.id);
    if duplicate.Some? then Ok((d, duplicate.value))
    else if d.book.lock.Some? then Err(Locked)
    else if report.None? || report.value.mutations.None? || FindTask(d.book.timeline, id).Some? then Err(NotEligible)
    else
      var t := Attempt(id, source.id, version, number, retryOf, generation,
                       Compensate(SuccessfulOf(report.value.mutations.value), version), Run(false, Pending));
      var task := Task(id, Rollback, source.key, source.id, Some(generation));
      Ok((d.(book := Append(d.book, Created(task)), attempts := d.attempts + [t]), t))
  }

  // ----- Histories -----

  datatype Event =
    | ECreate(id: nat, source: nat, version: nat)
    | ERun(id: nat, run: Run)
    | EBook(event: RollbackCycles.Event)

  /** Runs move until they have finished. */
  function Advance(attempts: seq<Attempt>, id: nat, run: Run): (r: seq<Attempt>)
    ensures |r| == |attempts|
  {
    seq(|attempts|, i requires 0 <= i < |attempts| =>
      if attempts[i].id == id && attempts[i].run != Run(true, Finished) then attempts[i].(run := run) else attempts[i])
  }

  /** Everything else that happens in the tenant; previews come only from `ECreate`. */
  function Apply(d: Desk, e: Event): Desk {
    match e
    case ECreate(id, source, version) =>
      var r := Create(d, id, source, version);
      if r.Ok? then r.value.0 else d
    case ERun(id, run) => d.(attempts := Advance(d.attempts, id, run))
    case EBook(event) => if event.EPreview? then d else d.(book := RollbackCycles.Apply(d.book, event))
  }

  function After(d: Desk, events: seq<Event>): Desk {
    if events == [] then d else Apply(After(d, events[..|events|-1]), events[|events|-1])
  }

  // ----- The retry chain -----

  /** The attempts for a source and version, oldest first. */
  function Chain(attempts: seq<Attempt>, source: nat, version: nat): (r: seq<Attempt>)
    ensures forall t :: t in r <==> t in attempts && For(t, source, version)
  {
    if attempts == [] then []
    else
      var last := attempts[|attempts|-1];
      Chain(attempts[..|attempts|-1], source, version) + if For(last, source, version) then [last] else []
  }

  ghost predicate Numbered(chain: seq<Attempt>) {
    forall k :: 0 <= k < |chain| ==> chain[k].number == k + 1 && chain[k].retryOf == IdBefore(chain, k)
  }

  function IdBefore(chain: seq<Attempt>, k: nat): Option<nat>
    requires k <= |chain|
  {
    if k == 0 then None else Some(chain[k-1].id)
  }

  /** Attempts are numbered without gaps, each names its predecessor, and all but the newest ended
      without a write on a database target. */
  ghost predicate ChainHolds(d: Desk, source: nat, version: nat) {
    var chain := Chain(d.attempts, source, version);
    && Numbered(chain)
    && AllEnded(d.book, d.databases, source, chain)
  }

  ghost predicate AllEnded(b: Book, databases: set<nat>, source: nat, chain: seq<Attempt>) {
    (|chain| > 1 ==> source in databases) && forall k :: 0 <= k < |chain| - 1 ==> EndedUnwritten(b, chain[k])
  }

  lemma {:induction false} NewestEndsChain(attempts: seq<Attempt>, source: nat, version: nat)
    ensures var chain, n := Chain(attempts, source, version), Newest(attempts, source, version);
      if n.None? then chain == [] else |chain| > 0 && n.value == chain[|chain|-1]
  {
    if attempts != [] {
      NewestEndsChain(attempts[..|attempts|-1], source, version);
    }
  }

  /** The duplicate check by idempotency key never finds anything: the next number is unused. */
  lemma NextNumberIsUnused(d: Desk, source: nat, version: nat)
    requires ChainHolds(d, source, version)
    ensures var n := Newest(d.attempts, source, version);
      FindKey(d.attempts, source, version, if n.None? then 1 else n.value.number + 1).None?
  {
    NewestEndsChain(d.attempts, source, version);
    var chain := Chain(d.attempts, source, version);
    forall t | t in d.attempts && For(t, source, version) ensures t.number <= |chain| {
      NumberedUpTo(chain, t);
    }
    assert Numbered(chain);
    hide AllEnded, Newest, FindKey, Chain;
  }

  lemma NumberedUpTo(chain: seq<Attempt>, t: Attempt)
    requires Numbered(chain) && t in chain
    ensures 1 <= t.number <= |chain|
  {
    var k :| 0 <= k < |chain| && chain[k] == t;
  }

  /** Reports and finished runs are final, so an ended attempt stays ended when rows are added. */
  lemma EndedStays(b: Book, e: Entry, t: Attempt)
    requires EndedUnwritten(b, t)
    ensures EndedUnwritten(Append(b, e), t)
  {
    FindAppended(b.timeline, e, t.id);
  }

  lemma BookEventKeepsChain(d: Desk, event: RollbackCycles.Event, source: nat, version: nat)
    requires ChainHolds(d, source, version)
    ensures ChainHolds(d.(book := RollbackCycles.Apply(d.book, event)), source, version)
  {
    hide RollbackCycles.Apply, CyclesAfter, Retryable;
    var row := EventWrites(d.book, event);
    var chain := Chain(d.attempts, source, version);
    var c := RollbackCycles.Apply(d.book, event);
    assert AllEnded(c, d.databases, source, chain) by {
      forall k | 0 <= k < |chain| - 1 ensures EndedUnwritten(c, chain[k]) {
        assert EndedUnwritten(d.book, chain[k]);
        if row.Some? {
          EndedStays(d.book, row.value, chain[k]);
        }
      }
    }
  }

  lemma {:induction false} ChainAdvances(attempts: seq<Attempt>, id: nat, run: Run, source: nat, version: nat)
    ensures var c, r := Chain(attempts, source, version), Chain(Advance(attempts, id, run), source, version);
      && |c| == |r|
      && forall k :: 0 <= k < |c| ==>
           r[k] == c[k] || (r[k] == c[k].(run := run) && c[k].run != Run(true, Finished))
  {
    if attempts != [] {
      ChainAdvances(attempts[..|attempts|-1], id, run, source, version);
      assert Advance(attempts, id, run)[..|attempts|-1] == Advance(attempts[..|attempts|-1], id, run);
    }
  }

  lemma RunEventKeepsChain(d: Desk, id: nat, run: Run, source: nat, version: nat)
    requires ChainHolds(d, source, version)
    ensures ChainHolds(d.(attempts := Advance(d.attempts, id, run)), source, version)
  {
    ChainAdvances(d.attempts, id, run, source, version);
    var c, r := Chain(d.attempts, source, version), Chain(Advance(d.attempts, id, run), source, version);
    hide Advance, Retryable, Chain;
    assert Numbered(r) by {
      forall k | 0 <= k < |r| ensures r[k].number == k + 1 && r[k].retryOf == IdBefore(r, k) {
        assert c[k].number == k + 1 && c[k].retryOf == IdBefore(c, k);
      }
    }
    assert AllEnded(d.book, d.databases, source, r) by {
      forall k | 0 <= k < |r| - 1 ensures EndedUnwritten(d.book, r[k]) {
        assert EndedUnwritten(d.book, c[k]);
      }
    }
  }

  /** What an accepted request adds. */
  lemma {:induction false} CreateAdds(d: Desk, id: nat, sourceId: nat, version: nat)
    requires Create(d, id, sourceId, version).Ok? && ChainHolds(d, sourceId, version)
    ensures var (c, t) := Create(d, id, sourceId, version).value;
      var n := Newest(d.attempts, sourceId, version);
      || (c == d && n == Some(t) && !(sourceId in d.databases && EndedUnwritten(d.book, t)))
      || (c.attempts == d.attempts + [t] && c.databases == d.databases && For(t, sourceId, version)
          && (n.Some? ==> sourceId in d.databases && EndedUnwritten(d.book, n.value))
          && t.number == (if n.None? then 1 else n.value.number + 1)
          && t.retryOf == (if n.None? then None else Some(n.value.id))
          && (exists e :: c.book == Append(d.book, e)))
  {
    hide Available, Eligible, EndedUnwritten, Chain, ChainHolds, Append, FindKey, FindTask, FindReport, Newest;
    NextNumberIsUnused(d, sourceId, version);
  }

  lemma EndedMoves(b: Book, e: Entry, databases: set<nat>, source: nat, chain: seq<Attempt>)
    requires AllEnded(b, databases, source, chain)
    ensures AllEnded(Append(b, e), databases, source, chain)
  {
    hide EndedUnwritten;
    forall k | 0 <= k < |chain| - 1 ensures EndedUnwritten(Append(b, e), chain[k]) {
      assert EndedUnwritten(b, chain[k]);
      EndedStays(b, e, chain[k]);
    }
  }

  lemma {:induction false} LongerChain(b: Book, databases: set<nat>, source: nat, chain: seq<Attempt>, t: Attempt)
    requires Numbered(chain) && AllEnded(b, databases, source, chain)
    requires chain == [] ==> t.number == 1 && t.retryOf.None?
    requires chain != [] ==> var last := chain[|chain|-1];
      t.number == last.number + 1 && t.retryOf == Some(last.id) && source in databases && EndedUnwritten(b, last)
    ensures Numbered(chain + [t]) && AllEnded(b, databases, source, chain + [t])
  {
    hide EndedUnwritten;
    LongerNumbered(chain, t);
  }

  lemma LongerNumbered(chain: seq<Attempt>, t: Attempt)
    requires Numbered(chain)
    requires chain == [] ==> t.number == 1 && t.retryOf.None?
    requires chain != [] ==> t.number == chain[|chain|-1].number + 1 && t.retryOf == Some(chain[|chain|-1].id)
    ensures Numbered(chain + [t])
  {
    var longer := chain + [t];
    forall k | 0 <= k < |longer| ensures longer[k].number == k + 1 && longer[k].retryOf == IdBefore(longer, k) {
      assert k < |chain| ==> longer[k] == chain[k] && IdBefore(longer, k) == IdBefore(chain, k);
    }
  }

  lemma AddKeepsChain(d: Desk, c: Desk, t: Attempt, e: Entry, source: nat, other: nat)
    requires ChainHolds(d, source, other)
    requires c == d.(attempts := d.attempts + [t], book := Append(d.book, e))
    requires For(t, source, other) ==> var n := Newest(d.attempts, source, other);
      && (n.Some? ==> source in d.databases && EndedUnwritten(d.book, n.value))
      && t.number == (if n.None? then 1 else n.value.number + 1)
      && t.retryOf == (if n.None? then None else Some(n.value.id))
    ensures ChainHolds(c, source, other)
  {
    hide Append, EndedUnwritten, Numbered, AllEnded;
    assert c.attempts[..|d.attempts|] == d.attempts;
    var chain := Chain(d.attempts, source, other);
    if For(t, source, other) {
      NewestEndsChain(d.attempts, source, other);
      LongerChain(d.book, d.databases, source, chain, t);
      EndedMoves(d.book, e, d.databases, source, chain + [t]);
    } else {
      EndedMoves(d.book, e, d.databases, source, chain);
      assert Chain(c.attempts, source, other) == chain;
    }
  }

  lemma {:induction false} CreateKeepsChain(d: Desk, id: nat, sourceId: nat, version: nat, source: nat, other: nat)
    requires Create(d, id, sourceId, version).Ok?
    requires ChainHolds(d, sourceId, version) && ChainHolds(d, source, other)
    ensures ChainHolds(Create(d, id, sourceId, version).value.0, source, other)
  {
    CreateAdds(d, id, sourceId, version);
    hide Create, ChainHolds, EndedUnwritten, Append;
    var (c, t) := Create(d, id, sourceId, version).value;
    if c != d {
      var e :| c.book == Append(d.book, e);
      AddKeepsChain(d, c, t, e, source, other);
    }
  }

  lemma ApplyKeepsChain(d: Desk, e: Event, source: nat, version: nat)
    requires ChainHolds(d, source, version)
    requires e.ECreate? ==> ChainHolds(d, e.source, e.version)
    ensures ChainHolds(Apply(d, e), source, version)
  {
    hide Create, ChainHolds, Advance, RollbackCycles.Apply;
    match e
    case ECreate(id, s, v) =>
      if Create(d, id, s, v).Ok? {
        CreateKeepsChain(d, id, s, v, source, version);
      }
    case ERun(id, run) => RunEventKeepsChain(d, id, run, source, version);
    case EBook(event) => BookEventKeepsChain(d, event, source, version);
  }

  /** After any history of requests, confirmations, runs, reports and syncs: the attempts for each
      source and version are numbered 1 to n without gaps, each retry names its predecessor, and
      every attempt but the newest ended with all mutations skipped without a write. */
  lemma {:induction false} RetryChainHolds(d: Desk, events: seq<Event>, source: nat, version: nat)
    requires d.attempts == []
    ensures ChainHolds(After(d, events), source, version)
  {
    if events != [] {
      var front, e := events[..|events|-1], events[|events|-1];
      RetryChainHolds(d, front, source, version);
      if e.ECreate? {
        RetryChainHolds(d, front, e.source, e.version);
      }
      ApplyKeepsChain(After(d, front), e, source, version);
    }
  }

  // ----- What events and requests may change -----

  /** A run event moves the named attempts that have not finished and nothing else; what else happens
      in the tenant, other than a preview, happens to the book. */
  lemma EventsMove(d: Desk, id: nat, run: Run, event: RollbackCycles.Event, i: nat)
    requires i < |d.attempts|
    ensures var c := Apply(d, ERun(id, run));
      && c.book == d.book && c.databases == d.databases && |c.attempts| == |d.attempts|
      && c.attempts[i] == if d.attempts[i].id == id && d.attempts[i].run != Run(true, Finished)
                          then d.attempts[i].(run := run) else d.attempts[i]
    ensures Apply(d, EBook(event)) == if event.EPreview? then d else d.(book := RollbackCycles.Apply(d.book, event))
  {
  }

  /** While the school lock is held no attempt is added, and only then is the lock the reason. */
  lemma LockRefusesAttempts(d: Desk, id: nat, sourceId: nat, version: nat)
    ensures d.book.lock.Some? && Create(d, id, sourceId, version).Ok? ==> Create(d, id, sourceId, version).value.0 == d
    ensures Create(d, id, sourceId, version) == Err(Locked) ==> d.book.lock.Some?
  {
    hide Eligible, Newest, FindKey, Append, EndedUnwritten, FindReport, FindTask, IdentityOf, LatestSync, IsBlocked;
  }

  // ----- What the reports of a chain say -----

  /** Every mutation of the attempt's report was skipped as a conflict without a write. */
  ghost predicate WroteNothing(b: Book, t: Attempt) {
    var r := FindReport(b.timeline, t.id);
    && r.Some? && r.value.terminal == CompletedWithConflicts && r.value.mutations.Some?
    && r.value.mutations.value != []
    && forall m :: m in r.value.mutations.value ==>
         m.status == ConflictSkipped && m.verification.Some? && m.verification.value.noWrite == Some(true)
  }

  /** The report holds a mutation that was not skipped as a conflict without a write. */
  ghost predicate MayHaveWritten(b: Book, id: nat) {
    var r := FindReport(b.timeline, id);
    && r.Some? && r.value.mutations.Some?
    && exists m :: m in r.value.mutations.value &&
         !(m.status == ConflictSkipped && m.verification.Some? && m.verification.value.noWrite == Some(true))
  }

  lemma {:induction false} ChainPosition(attempts: seq<Attempt>, source: nat, version: nat, i: nat) returns (k: nat)
    requires i < |attempts| && For(attempts[i], source, version)
    ensures k < |Chain(attempts, source, version)| && Chain(attempts, source, version)[k] == attempts[i]
    ensures k == |Chain(attempts[..i], source, version)|
  {
    var n := |attempts| - 1;
    if i == n {
      k := |Chain(attempts[..n], source, version)|;
    } else {
      k := ChainPosition(attempts[..n], source, version, i);
      assert attempts[..n][..i] == attempts[..i];
    }
  }

  lemma {:induction false} ChainPrefix(attempts: seq<Attempt>, source: nat, version: nat, i: nat, j: nat)
    requires i < j <= |attempts| && For(attempts[i], source, version)
    ensures |Chain(attempts[..i], source, version)| < |Chain(attempts[..j], source, version)|
  {
    assert attempts[..j][..j-1] == attempts[..j-1];
    if i + 1 < j {
      ChainPrefix(attempts, source, version, i, j - 1);
    }
  }

  /** After any history, of two attempts for one source and version the earlier one finished on a
      database target, with every mutation of its report skipped as a conflict without a write; and
      the later one has the higher number. */
  lemma {:induction false} EarlierAttemptsWroteNothing(d: Desk, events: seq<Event>, source: nat, version: nat, i: nat, j: nat)
    requires d.attempts == [] && i < j < |After(d, events).attempts|
    requires For(After(d, events).attempts[i], source, version) && For(After(d, events).attempts[j], source, version)
    ensures var c := After(d, events);
      && source in c.databases && c.attempts[i].run == Run(true, Finished) && WroteNothing(c.book, c.attempts[i])
      && c.attempts[i].number < c.attempts[j].number
  {
    RetryChainHolds(d, events, source, version);
    var c := After(d, events);
    hide After, Chain;
    var k := ChainPosition(c.attempts, source, version, i);
    var l := ChainPosition(c.attempts, source, version, j);
    ChainPrefix(c.attempts, source, version, i, j);
    assert EndedUnwritten(c.book, Chain(c.attempts, source, version)[k]);
  }

  /** The newest attempt is this one, and its report may hold a write. */
  ghost predicate Settled(d: Desk, source: nat, version: nat, id: nat) {
    Newest(d.attempts, source, version).Some? && Newest(d.attempts, source, version).value.id == id &&
    MayHaveWritten(d.book, id)
  }

  lemma SettledIsReturned(d: Desk, source: nat, version: nat, settled: nat, id: nat)
    requires Settled(d, source, version, settled)
    ensures Create(d, id, source, version).Ok? ==>
      Create(d, id, source, version) == Ok((d, Newest(d.attempts, source, version).value))
  {
    hide Available, Eligible, Newest, FindKey, FindReport, CreateNumber;
  }

  lemma WrittenStays(b: Book, e: Entry, id: nat)
    requires MayHaveWritten(b, id)
    ensures MayHaveWritten(Append(b, e), id)
  {
    FindAppended(b.timeline, e, id);
  }

  lemma {:induction false} NewestAdvances(attempts: seq<Attempt>, id: nat, run: Run, source: nat, version: nat)
    ensures var a, b := Newest(attempts, source, version), Newest(Advance(attempts, id, run), source, version);
      (a.Some? <==> b.Some?) && (a.Some? ==> a.value.id == b.value.id)
  {
    if attempts != [] {
      NewestAdvances(attempts[..|attempts|-1], id, run, source, version);
      assert Advance(attempts, id, run)[..|attempts|-1] == Advance(attempts[..|attempts|-1], id, run);
    }
  }

  lemma ApplyStaysSettled(d: Desk, e: Event, source: nat, version: nat, settled: nat)
    requires Settled(d, source, version, settled)
    ensures Settled(Apply(d, e), source, version, settled)
  {
    hide Create, MayHaveWritten, Newest, Advance, RollbackCycles.Apply, Append;
    match e
    case ECreate(id, s, v) =>
      if Create(d, id, s, v).Ok? {
        if s == source && v == version {
          SettledIsReturned(d, source, version, settled, id);
        } else {
          OtherCreateStaysSettled(d, id, s, v, source, version, settled);
        }
      }
    case ERun(id, run) => NewestAdvances(d.attempts, id, run, source, version);
    case EBook(event) =>
      var row := EventWrites(d.book, event);
      if row.Some? {
        WrittenStays(d.book, row.value, settled);
        SameTimeline(Append(d.book, row.value), RollbackCycles.Apply(d.book, event), settled);
      } else {
        SameTimeline(d.book, RollbackCycles.Apply(d.book, event), settled);
      }
  }

  lemma SameTimeline(a: Book, b: Book, id: nat)
    requires MayHaveWritten(a, id) && a.timeline == b.timeline
    ensures MayHaveWritten(b, id)
  {
  }

  lemma OtherCreateStaysSettled(d: Desk, id: nat, s: nat, v: nat, source: nat, version: nat, settled: nat)
    requires Settled(d, source, version, settled) && Create(d, id, s, v).Ok? && (s != source || v != version)
    ensures Settled(Create(d, id, s, v).value.0, source, version, settled)
  {
    var c := Create(d, id, s, v).value.0;
    OtherCreateAdds(d, id, s, v);
    hide Create, MayHaveWritten, Append;
    if c != d {
      var t, e :| !For(t, source, version) && c.attempts == d.attempts + [t] && c.book == Append(d.book, e);
      WrittenStays(d.book, e, settled);
      assert c.attempts[..|d.attempts|] == d.attempts;
    }
  }

  lemma OtherCreateAdds(d: Desk, id: nat, s: nat, v: nat)
    requires Create(d, id, s, v).Ok?
    ensures var c := Create(d, id, s, v).value.0;
      c == d || exists t: Attempt, e: Entry :: For(t, s, v) && c.attempts == d.attempts + [t] && c.book == Append(d.book, e)
  {
    hide Available, Eligible, EndedUnwritten, Append, FindKey, FindReport, Newest;
  }

  /** Once the newest attempt has reported any mutation that may have written, it is what every later
      accepted request returns, whatever happens in between, and the request changes nothing. */
  lemma {:induction false} WrittenAttemptIsReturned(d: Desk, events: seq<Event>, source: nat, version: nat, settled: nat, id: nat)
    requires Settled(d, source, version, settled)
    ensures var c := After(d, events);
      && Settled(c, source, version, settled)
      && (Create(c, id, source, version).Ok? ==>
            Create(c, id, source, version).value.0 == c && Create(c, id, source, version).value.1.id == settled)
  {
    if events == [] {
      SettledIsReturned(d, source, version, settled, id);
    } else {
      var n := |events| - 1;
      WrittenAttemptIsReturned(d, events[..n], source, version, settled, id);
      hide Apply, Settled, Create;
      ApplyStaysSettled(After(d, events[..n]), events[n], source, version, settled);
      SettledIsReturned(After(d, events), source, version, settled, id);
    }
  }

  // ----- The cached record against the scan -----

  lemma {:induction false} CreateWrites(d: Desk, id: nat, sourceId: nat, version: nat, blocked: bool)
    requires CreateWith(d, id, sourceId, version, blocked).Ok?
    ensures var c := CreateWith(d, id, sourceId, version, blocked).value.0;
      c.book == d.book || exists t: Task :: MayAppend(d.book.timeline, Created(t)) && c.book == Append(d.book, Created(t))
  {
    hide Append, Available, Eligible, EndedUnwritten, Newest, FindKey;
  }

  lemma {:induction false} DeskAgrees(d: Desk, events: seq<Event>)
    requires Agrees(d.book)
    ensures Agrees(After(d, events).book)
  {
    if events != [] {
      var m, e := After(d, events[..|events|-1]), events[|events|-1];
      DeskAgrees(d, events[..|events|-1]);
      hide CreateWith, Append, Agrees, RollbackCycles.Apply, MayAppend;
      if e.EBook? {
        ApplyAgrees(m.book, e.event);
      } else if e.ECreate? && Create(m, e.id, e.source, e.version).Ok? {
        CreateWrites(m, e.id, e.source, e.version, KeyBlocked(m.book, SourceKey(m.book, e.source)));
        var c := Create(m, e.id, e.source, e.version).value.0;
        if c.book != m.book {
          var t: Task :| MayAppend(m.book.timeline, Created(t)) && c.book == Append(m.book, Created(t));
          AppendAgrees(m.book, Created(t));
        }
      }
    }
  }

  /** After any history, a request is accepted, with the same result, exactly when it would be
      if both its questions were answered by the scan alone. */
  lemma {:induction false} CreateMatchesScan(d: Desk, events: seq<Event>, id: nat, sourceId: nat, version: nat)
    requires Agrees(d.book)
    ensures var c := After(d, events);
      var byScan := CreateWith(c, id, sourceId, version, KeyScan(c.book, SourceKey(c.book, sourceId)));
      && (Create(c, id, sourceId, version).Ok? <==> byScan.Ok?)
      && (byScan.Ok? ==> Create(c, id, sourceId, version) == byScan)
  {
    DeskAgrees(d, events);
    var c := After(d, events);
    hide After, Agrees, Eligible, CreateNumber, EndedUnwritten, Available, KeyBlocked, KeyScan;
    var source := FindTask(c.book.timeline, sourceId);
    if source.Some? && Eligible(c.book, source.value) {
      EligibleSourceIsScanned(c.book, source.value, None);
      var existing := Newest(c.attempts, sourceId, version);
      if existing.Some? {
        EligibleSourceIsScanned(c.book, source.value, Some(existing.value.generation));
      }
    }
  }

  // ----- Repeated requests and compensation -----

  /** A preview row changes no answer about the availability of a sync. */
  lemma PreviewKeepsAnswers(b: Book, preview: Task, t: Task, expected: Option<int>)
    requires preview.kind == Rollback && t.kind == Sync
    ensures var c := Append(b, Created(preview));
      EnsureAvailable(c, t, expected) == EnsureAvailable(b, t, expected)
  {
  }

  lemma PreviewKeepsEligible(b: Book, preview: Task, t: Task)
    requires Eligible(b, t)
    ensures Eligible(Append(b, Created(preview)), t)
  {
    FindAppended(b.timeline, Created(preview), t.id);
  }

  /** A first or retried attempt, once created, is what the next request finds. */
  lemma {:induction false} CreatedIsFoundAgain(d: Desk, id: nat, again: nat, sourceId: nat, version: nat)
    requires ChainHolds(d, sourceId, version) && Create(d, id, sourceId, version).Ok?
    requires Create(d, id, sourceId, version).value.0 != d
    ensures var (c, t) := Create(d, id, sourceId, version).value;
      Create(c, again, sourceId, version) == Ok((c, t))
  {
    NextNumberIsUnused(d, sourceId, version);
    var (c, t) := Create(d, id, sourceId, version).value;
    var source := FindTask(d.book.timeline, sourceId).value;
    var task := Task(id, Rollback, source.key, source.id, Some(t.generation));
    hide EnsureAvailable, Eligible, Append, CreateNumber, EndedUnwritten, ChainHolds;
    CreateRow(d, id, sourceId, version);
    PreviewKeepsEligible(d.book, task, source);
    PreviewKeepsAnswers(d.book, task, source, None);
    PreviewKeepsAnswers(d.book, task, source, Some(t.generation));
    SameGeneration(d.book, source);
    FindKept(d.book, task, sourceId);
    NotEndedYet(c.book, t);
    NewestAdded(d.attempts, t, sourceId, version);
  }

  /** The rows an accepted request writes when it does not return an existing attempt. */
  lemma CreateRow(d: Desk, id: nat, sourceId: nat, version: nat)
    requires ChainHolds(d, sourceId, version) && Create(d, id, sourceId, version).Ok?
    requires Create(d, id, sourceId, version).value.0 != d
    ensures var (c, t) := Create(d, id, sourceId, version).value;
      var source := FindTask(d.book.timeline, sourceId);
      && source.Some? && source.value.kind == Sync && Eligible(d.book, source.value)
      && EnsureAvailable(d.book, source.value, None) == Ok(t.generation)
      && c == d.(book := Append(d.book, Created(Task(id, Rollback, source.value.key, sourceId, Some(t.generation)))),
                 attempts := d.attempts + [t])
      && t.run == Run(false, Pending) && For(t, sourceId, version)
      && t.operations == Compensate(SourceMutations(d.book, sourceId), version)
  {
    NextNumberIsUnused(d, sourceId, version);
    hide EnsureAvailable, Append, EndedUnwritten, ChainHolds, Compensate, SuccessfulOf;
  }

  /** The verified mutations of a task's report. */
  function SourceMutations(b: Book, sourceId: nat): seq<Mutation> {
    var r := FindReport(b.timeline, sourceId);
    if r.Some? && r.value.mutations.Some? then SuccessfulOf(r.value.mutations.value) else []
  }

  lemma SameGeneration(b: Book, t: Task)
    requires EnsureAvailable(b, t, None).Ok?
    ensures EnsureAvailable(b, t, Some(EnsureAvailable(b, t, None).value)) == EnsureAvailable(b, t, None)
  {
  }

  lemma FindKept(b: Book, preview: Task, id: nat)
    requires FindTask(b.timeline, id).Some?
    ensures FindTask(Append(b, Created(preview)).timeline, id) == FindTask(b.timeline, id)
  {
    FindAppended(b.timeline, Created(preview), id);
  }

  lemma NotEndedYet(b: Book, t: Attempt)
    requires t.run == Run(false, Pending)
    ensures !EndedUnwritten(b, t)
  {
  }

  lemma NewestAdded(attempts: seq<Attempt>, t: Attempt, source: nat, version: nat)
    requires For(t, source, version)
    ensures Newest(attempts + [t], source, version) == Some(t)
  {
  }

  /** Repeating a request in the state it left returns the same attempt and changes nothing. */
  lemma {:induction false} RepeatReturnsSame(d: Desk, events: seq<Event>, id: nat, again: nat, sourceId: nat, version: nat)
    requires d.attempts == [] && Create(After(d, events), id, sourceId, version).Ok?
    ensures var (c, t) := Create(After(d, events), id, sourceId, version).value;
      Create(c, again, sourceId, version) == Ok((c, t))
  {
    RetryChainHolds(d, events, sourceId, version);
    var b := After(d, events);
    if Create(b, id, sourceId, version).value.0 != b {
      CreatedIsFoundAgain(b, id, again, sourceId, version);
    } else {
      ExistingIsFoundAgain(b, id, again, sourceId, version);
    }
  }

  lemma {:induction false} ExistingIsFoundAgain(d: Desk, id: nat, again: nat, sourceId: nat, version: nat)
    requires ChainHolds(d, sourceId, version) && Create(d, id, sourceId, version).Ok?
    requires Create(d, id, sourceId, version).value.0 == d
    ensures Create(d, again, sourceId, version) == Create(d, id, sourceId, version)
  {
    NextNumberIsUnused(d, sourceId, version);
    var source := FindTask(d.book.timeline, sourceId).value;
    var n := Newest(d.attempts, sourceId, version);
    hide EnsureAvailable, Eligible, Append, EndedUnwritten, ChainHolds, Newest, FindKey, CreateNumber;
    forall number: nat, retryOf, generation |
      FindKey(d.attempts, source.id, version, number).None? &&
      CreateNumber(d, id, source, version, number, retryOf, generation).Ok?
      ensures CreateNumber(d, id, source, version, number, retryOf, generation).value.0 != d
    {
      UnusedNumberAdds(d, id, source, version, number, retryOf, generation);
    }
  }

  lemma UnusedNumberAdds(d: Desk, id: nat, source: Task, version: nat, number: nat, retryOf: Option<nat>, generation: int)
    requires FindKey(d.attempts, source.id, version, number).None?
    requires CreateNumber(d, id, source, version, number, retryOf, generation).Ok?
    ensures CreateNumber(d, id, source, version, number, retryOf, generation).value.0 != d
  {
  }

  /** What makes a task one that can be rolled back: a sync that completed with at least one mutation,
      every one of which succeeded and was verified as valid. */
  ghost predicate CanBeRolledBack(b: Book, t: Task) {
    var r := FindReport(b.timeline, t.id);
    && t.kind == Sync && r.Some? && r.value.terminal == Completed && r.value.mutations.Some?
    && |r.value.mutations.value| > 0
    && forall m :: m in r.value.mutations.value ==>
         m.status == Succeeded && m.verification.Some? && m.verification.value.valid == Some(true)
  }

  /** A request is accepted only for such a task, and refused as not eligible only for another. */
  lemma EligibilityIsExact(d: Desk, id: nat, sourceId: nat, version: nat)
    ensures var source := FindTask(d.book.timeline, sourceId);
      && (Create(d, id, sourceId, version).Ok? ==> source.Some? && CanBeRolledBack(d.book, source.value))
      && (Create(d, id, sourceId, version) == Err(NotEligible) && FindTask(d.book.timeline, id).None? ==>
            source.Some? && !CanBeRolledBack(d.book, source.value))
  {
    hide Newest, FindKey, Append, EndedUnwritten, FindReport, FindTask, IdentityOf, LatestSync, IsBlocked;
  }

  lemma CompensatesEach(mutations: seq<Mutation>, version: nat)
    ensures forall i :: 0 <= i < |mutations| ==>
      Compensate(mutations, version)[i] == Compensation(mutations[i], mutations[i].id, version, true)
  {
  }

  /** A created attempt compensates exactly the mutations of the source, one operation each and
      in order. */
  lemma CompensatesEveryMutation(d: Desk, events: seq<Event>, id: nat, sourceId: nat, version: nat)
    requires d.attempts == [] && Create(After(d, events), id, sourceId, version).Ok?
    requires Create(After(d, events), id, sourceId, version).value.0 != After(d, events)
    ensures var b, t := After(d, events).book, Create(After(d, events), id, sourceId, version).value.1;
      var report := FindReport(b.timeline, sourceId);
      && report.Some? && report.value.mutations.Some?
      && |t.operations| == |report.value.mutations.value|
      && (forall i :: 0 <= i < |t.operations| ==>
            var m := report.value.mutations.value[i];
            && t.operations[i] == Compensation(m, m.id, version, true)
            && m.status == Succeeded && m.verification.Some? && m.verification.value.valid == Some(true))
      && report.value.terminal == Completed && |t.operations| > 0
  {
    hide After, Create, ChainHolds, EnsureAvailable, Append, Compensate, SuccessfulOf, FindReport, FindTask;
    RetryChainHolds(d, events, sourceId, version);
    var c := After(d, events);
    CreateRow(c, id, sourceId, version);
    var report := FindReport(c.book.timeline, sourceId).value;
    AllSuccessful(report.mutations.value);
    CompensatesEach(report.mutations.value, version);
    forall m | m in report.mutations.value ensures Verified(m) {
    }
    assert forall i :: 0 <= i < |report.mutations.value| ==> report.mutations.value[i] in report.mutations.value;
  }

  // ----- The service in place -----

  class RollbackDesk {
    const book: RollbackBook
    const databases: set<nat>
    var attempts: seq<Attempt>

    constructor (book: RollbackBook, databases: set<nat>)
      ensures this.book == book && this.databases == databases && attempts == []
    {
      this.book := book;
      this.databases := databases;
      attempts := [];
    }

    function View(): Desk
      reads this, book
    {
      Desk(book.View(), attempts, databases)
    }

    method AddAttempt(id: nat, source: Task, version: nat, number: nat, retryOf: Option<nat>, generation: int)
        returns (r: Result<Attempt, Refusal>)
      modifies this`attempts, book`timeline, book`cycles
      ensures match CreateNumber(old(View()), id, source, version, number, retryOf, generation)
        case Ok((d, t)) => View() == d && r == Ok(t)
        case Err(e) => View() == old(View()) && r == Err(e)
    {
      var duplicate := FindKey(attempts, source.id, version, number);
      if duplicate.Some? {
        return Ok(duplicate.value);
      }
      if book.lock.Some? {
        return Err(Locked);
      }
      var report := FindReport(book.timeline, source.id);
      if report.None? || report.value.mutations.None? || FindTask(book.timeline, id).Some? {
        return Err(NotEligible);
      }
      var evidence := SuccessfulOf(report.value.mutations.value);
      var t := Attempt(id, source.id, version, number, retryOf, generation, Compensate(evidence, version), Run(false, Pending));
      attempts := attempts + [t];
      book.timeline := book.timeline + [Created(Task(id, Rollback, source.key, source.id, Some(generation)))];
      return Ok(t);
    }

    method CreateRollbackTask(id: nat, sourceId: nat, version: nat) returns (r: Result<Attempt, Refusal>)
      modifies this`attempts, book`timeline, book`cycles
      ensures match Create(old(View()), id, sourceId, version)
        case Ok((d, t)) => View() == d && r == Ok(t)
        case Err(e) => View() == old(View()) && r == Err(e)
    {
      hide CreateNumber, Available, Append;
      var source := FindTask(book.timeline, sourceId);
      if source.None? {
        return Err(UnknownTask);
      }
      var available := book.Ensure(source.value, None);
      if available.Err? {
        return Err(available.error);
      }
      if !Eligible(book.View(), source.value) {
        return Err(NotEligible);
      }
      var existing := Newest(attempts, sourceId, version);
      var number, retryOf := 1, None;
      if existing.Some? {
        var still := book.Ensure(source.value, Some(existing.value.generation));
        if still.Err? {
          return Err(still.error);
        }
        if sourceId !in databases || !EndedUnwritten(book.View(), existing.value) {
          return Ok(existing.value);
        }
        number, retryOf := existing.value.number + 1, Some(existing.value.id);
      }
      r := AddAttempt(id, source.value, version, number, retryOf, available.value);
    }
  }
}
