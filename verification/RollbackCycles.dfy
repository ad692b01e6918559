/** Rollback cycles of a tenant's target data sources.

    The timeline holds the tasks and the reports of one tenant in order of creation.  For each
    data source a cached cycle record says whether the current cycle was already rolled back;
    the same question can be answered by a scan of the whole timeline. */
module RollbackCycles {
  import opened ReportFacts
  import opened Wrappers

  datatype TaskKind = Sync | Rollback

  /** `key` identifies the target data source, when the target has a usable reference; `source`
      is the task a rollback undoes; `frozen` is the generation its preview recorded. */
  datatype Task = Task(id: nat, kind: TaskKind, key: Option<nat>, source: nat, frozen: Option<int>)

  datatype Entry =
    | Created(task: Task)
    | Reported(task: Task, terminal: TerminalState, mutations: Option<seq<Mutation>>)

  datatype Cycle = Cycle(generation: int, latestSync: nat, completed: Option<nat>)

  datatype Refusal = TooOld | CycleChanged | AlreadyPerformed | UnknownTask | NotEligible | Locked | NotPending

  // ----- What the timeline says -----

  predicate StartsSync(e: Entry, key: nat) {
    e.Created? && e.task.kind == Sync && e.task.key == Some(key)
  }

  predicate CompletesRollback(e: Entry, key: nat) {
    e.Reported? && e.task.kind == Rollback && e.task.key == Some(key) && e.terminal == Completed
  }

  predicate SyncsFully(e: Entry, key: nat) {
    e.Reported? && e.task.kind == Sync && e.task.key == Some(key) && FullyVerified(e.terminal, e.mutations)
  }

  /** The newest report that either completes a rollback or syncs fully decides. */
  function Scan(timeline: seq<Entry>, key: nat): bool {
    if timeline == [] then false
    else
      var last := timeline[|timeline|-1];
      if CompletesRollback(last, key) then true
      else if SyncsFully(last, key) then false
      else Scan(timeline[..|timeline|-1], key)
  }

  /** The rollbacks completed since the last sync start or fully successful sync. */
  function Completers(timeline: seq<Entry>, key: nat): set<nat> {
    if timeline == [] then {}
    else
      var last := timeline[|timeline|-1];
      if StartsSync(last, key) || SyncsFully(last, key) then {}
      else
        Completers(timeline[..|timeline|-1], key) + if CompletesRollback(last, key) then {last.task.id} else {}
  }

  function LatestSync(timeline: seq<Entry>, key: nat): Option<nat> {
    if timeline == [] then None
    else if StartsSync(timeline[|timeline|-1], key) then Some(timeline[|timeline|-1].task.id)
    else LatestSync(timeline[..|timeline|-1], key)
  }

  function FindTask(timeline: seq<Entry>, id: nat): (r: Option<Task>)
    ensures r.Some? ==> Created(r.value) in timeline && r.value.id == id
    ensures r.None? ==> forall e :: e in timeline && e.Created? ==> e.task.id != id
  {
    if timeline == [] then None
    else if timeline[0].Created? && timeline[0].task.id == id then Some(timeline[0].task)
    else FindTask(timeline[1..], id)
  }

  function FindReport(timeline: seq<Entry>, id: nat): (r: Option<Entry>)
    ensures r.Some? ==> r.value in timeline && r.value.Reported? && r.value.task.id == id
    ensures r.None? ==> forall e :: e in timeline && e.Reported? ==> e.task.id != id
  {
    if timeline == [] then None
    else if timeline[0].Reported? && timeline[0].task.id == id then Some(timeline[0])
    else FindReport(timeline[1..], id)
  }

  // ----- The book and its transactions -----

  datatype Book = Book(timeline: seq<Entry>, cycles: map<nat, Cycle>, lock: Option<nat>, confirmed: set<nat>)

  /** The cached answer where a cycle record exists, the scan where none does. */
  function IsBlocked(b: Book, key: nat): bool {
    if key in b.cycles then b.cycles[key].completed.Some? else Scan(b.timeline, key)
  }

  function Generation(b: Book, key: nat): int {
    if key in b.cycles then b.cycles[key].generation else 0
  }

  function SourceOf(t: Task): nat {
    if t.kind == Rollback then t.source else t.id
  }

  /** A rollback without a usable target falls back on the target of its source. */
  function IdentityOf(b: Book, t: Task): Option<nat> {
    if t.kind == Rollback && t.key.None? then
      var source := FindTask(b.timeline, t.source);
      if source.Some? then source.value.key else None
    else t.key
  }

  function Available(b: Book, t: Task, expected: Option<int>, blocked: bool): Result<int, Refusal> {
    var key := IdentityOf(b, t);
    if key.None? then Ok(0)
    else
      var latest := LatestSync(b.timeline, key.value);
      if latest.Some? && latest.value != SourceOf(t) then Err(TooOld)
      else if expected.Some? && Generation(b, key.value) != expected.value then Err(CycleChanged)
      else if blocked then Err(AlreadyPerformed)
      else Ok(Generation(b, key.value))
  }

  function KeyBlocked(b: Book, key: Option<nat>): bool {
    key.Some? && IsBlocked(b, key.value)
  }

  function EnsureAvailable(b: Book, t: Task, expected: Option<int>): Result<int, Refusal> {
    Available(b, t, expected, KeyBlocked(b, IdentityOf(b, t)))
  }

  /** The reason shown beside a task in the history list. */
  function BlockedReason(b: Book, t: Task): Option<Refusal> {
    if t.key.None? || t.kind == Rollback then None
    else
      var latest := LatestSync(b.timeline, t.key.value);
      if latest.Some? && latest.value != t.id then Some(TooOld)
      else if IsBlocked(b, t.key.value) then Some(AlreadyPerformed)
      else None
  }

  function SyncStarted(cycles: map<nat, Cycle>, t: Task): map<nat, Cycle> {
    if t.kind != Sync || t.key.None? || t.key.value !in cycles then cycles
    else
      var c := cycles[t.key.value];
      cycles[t.key.value := c.(generation := c.generation + 1, completed := None)]
  }

  function FullySynced(cycles: map<nat, Cycle>, t: Task): map<nat, Cycle> {
    if t.key.None? then cycles
    else if t.key.value !in cycles then cycles[t.key.value := Cycle(1, t.id, None)]
    else cycles[t.key.value := cycles[t.key.value].(latestSync := t.id, completed := None)]
  }

  function RollbackCompleted(cycles: map<nat, Cycle>, t: Task): map<nat, Cycle> {
    if t.key.None? then cycles
    else if t.key.value !in cycles then cycles[t.key.value := Cycle(1, t.source, Some(t.id))]
    else if cycles[t.key.value].completed.Some? then cycles
    else cycles[t.key.value := cycles[t.key.value].(completed := Some(t.id))]
  }

  /** The cycle records after one more row. */
  function CyclesAfter(cycles: map<nat, Cycle>, e: Entry): map<nat, Cycle> {
    match e
    case Created(t) => SyncStarted(cycles, t)
    case Reported(t, terminal, mutations) =>
      if t.kind == Sync && FullyVerified(terminal, mutations) then FullySynced(cycles, t)
      else if t.kind == Rollback && terminal == Completed then RollbackCompleted(cycles, t)
      else cycles
  }

  function Append(b: Book, e: Entry): Book {
    b.(timeline := b.timeline + [e], cycles := CyclesAfter(b.cycles, e))
  }

  /** A new synchronisation: refused while the school lock is held, which it then takes. */
  function StartSync(b: Book, id: nat, key: Option<nat>): Result<Book, Refusal> {
    var t := Task(id, Sync, key, id, None);
    if b.lock.Some? || FindTask(b.timeline, id).Some? then Err(Locked)
    else Ok(Append(b, Created(t)).(lock := Some(id)))
  }

  predicate Eligible(b: Book, source: Task) {
    var r := FindReport(b.timeline, source.id);
    r.Some? && source.kind == Sync && FullyVerified(r.value.terminal, r.value.mutations)
  }

  /** A rollback preview of `sourceId`, with the cycle question already answered. */
  function PreviewWith(b: Book, id: nat, sourceId: nat, blocked: bool): Result<Book, Refusal> {
    var source := FindTask(b.timeline, sourceId);
    if source.None? || FindTask(b.timeline, id).Some? then Err(UnknownTask)
    else
      var generation := Available(b, source.value, None, blocked);
      if generation.Err? then Err(generation.error)
      else if !Eligible(b, source.value) then Err(NotEligible)
      else if b.lock.Some? then Err(Locked)
      else
        var t := Task(id, Rollback, source.value.key, sourceId, Some(generation.value));
        Ok(Append(b, Created(t)))
  }

  function SourceKey(b: Book, sourceId: nat): Option<nat> {
    var source := FindTask(b.timeline, sourceId);
    if source.Some? then IdentityOf(b, source.value) else None
  }

  function Preview(b: Book, id: nat, sourceId: nat): Result<Book, Refusal> {
    PreviewWith(b, id, sourceId, KeyBlocked(b, SourceKey(b, sourceId)))
  }

  /** The confirmation of a previewed rollback, gated by the frozen generation and the lock. */
  function Confirm(b: Book, id: nat): Result<Book, Refusal> {
    var t := FindTask(b.timeline, id);
    if t.None? || t.value.kind != Rollback then Err(UnknownTask)
    else if id in b.confirmed then Err(NotPending)
    else
      var available := EnsureAvailable(b, t.value, t.value.frozen);
      if available.Err? then Err(available.error)
      else if t.value.frozen.None? then Err(CycleChanged)
      else if b.lock.Some? then Err(Locked)
      else Ok(b.(lock := Some(id), confirmed := b.confirmed + {id}))
  }

  /** A report; a task that already has one keeps it. */
  function Report(b: Book, id: nat, terminal: TerminalState, mutations: Option<seq<Mutation>>): Book {
    var t := FindTask(b.timeline, id);
    if t.None? || FindReport(b.timeline, id).Some? then b
    else Append(b, Reported(t.value, terminal, mutations))
  }

  // ----- Histories -----

  datatype Event =
    | EStartSync(id: nat, key: Option<nat>)
    | EPreview(id: nat, source: nat)
    | EConfirm(id: nat)
    | EReport(id: nat, terminal: TerminalState, mutations: Option<seq<Mutation>>)
    | EUnlock

  function Adopt(b: Book, r: Result<Book, Refusal>): Book {
    if r.Ok? then r.value else b
  }

  function Apply(b: Book, e: Event): Book {
    match e
    case EStartSync(id, key) => Adopt(b, StartSync(b, id, key))
    case EPreview(id, source) => Adopt(b, Preview(b, id, source))
    case EConfirm(id) => Adopt(b, Confirm(b, id))
    case EReport(id, terminal, mutations) => Report(b, id, terminal, mutations)
    case EUnlock => b.(lock := None)
  }

  function After(b: Book, events: seq<Event>): Book {
    if events == [] then b else Apply(After(b, events[..|events|-1]), events[|events|-1])
  }

  /** Identifiers are unique and every report comes after the creation of its task. */
  ghost predicate Orderly(timeline: seq<Entry>) {
    && (forall i, j :: 0 <= i < j < |timeline| && timeline[i].Created? && timeline[j].Created? ==>
          timeline[i].task.id != timeline[j].task.id)
    && (forall j :: 0 <= j < |timeline| && timeline[j].Reported? ==>
          exists i :: 0 <= i < j && timeline[i] == Created(timeline[j].task))
  }

  /** Any earlier history, before cycle records were kept. */
  ghost predicate Initial(b: Book) {
    Orderly(b.timeline) && b.cycles == map[] && b.lock.None?
  }

  /** The cached record names a rollback that used up the current cycle, if there is one. */
  ghost predicate Agrees(b: Book) {
    Orderly(b.timeline) && forall k :: k in b.cycles ==> Names(b.cycles[k].completed, Completers(b.timeline, k))
  }

  predicate Names(completed: Option<nat>, ids: set<nat>) {
    if completed.Some? then completed.value in ids else ids == {}
  }

  lemma AppendCreated(timeline: seq<Entry>, t: Task)
    requires Orderly(timeline) && FindTask(timeline, t.id).None?
    ensures Orderly(timeline + [Created(t)])
  {
    forall i | 0 <= i < |timeline| && timeline[i].Created? ensures timeline[i].task.id != t.id {
      assert timeline[i] in timeline;
    }
    forall j | 0 <= j < |timeline| && timeline[j].Reported?
      ensures exists i :: 0 <= i < j && (timeline + [Created(t)])[i] == Created(timeline[j].task)
    {
      var i :| 0 <= i < j && timeline[i] == Created(timeline[j].task);
      assert (timeline + [Created(t)])[i] == Created(timeline[j].task);
    }
  }

  lemma AppendReport(timeline: seq<Entry>, e: Entry)
    requires Orderly(timeline) && e.Reported? && Created(e.task) in timeline
    ensures Orderly(timeline + [e])
  {
    var grown := timeline + [e];
    forall j | 0 <= j < |grown| && grown[j].Reported?
      ensures exists i :: 0 <= i < j && grown[i] == Created(grown[j].task)
    {
      if j < |timeline| {
        var i :| 0 <= i < j && timeline[i] == Created(timeline[j].task);
        assert grown[i] == Created(grown[j].task);
      } else {
        var i :| 0 <= i < |timeline| && timeline[i] == Created(e.task);
        assert grown[i] == Created(grown[j].task);
      }
    }
  }

  /** A row that may be added: a task under a new identifier, or a report of a task that exists. */
  ghost predicate MayAppend(timeline: seq<Entry>, e: Entry) {
    if e.Created? then FindTask(timeline, e.task.id).None? else Created(e.task) in timeline
  }

  /** What an event writes: nothing, or one row and what follows from it. */
  lemma EventWrites(b: Book, e: Event) returns (row: Option<Entry>)
    ensures var c := Apply(b, e);
      match row
      case None => c.timeline == b.timeline && c.cycles == b.cycles
      case Some(r) => (
        MayAppend(b.timeline, r) &&
        c.timeline == Append(b, r).timeline && c.cycles == Append(b, r).cycles)
  {
    hide CyclesAfter, Available, Eligible;
    var c := Apply(b, e);
    row := if |c.timeline| > |b.timeline| then Some(c.timeline[|b.timeline|]) else None;
  }

  lemma AppendAgrees(b: Book, e: Entry)
    requires Agrees(b) && MayAppend(b.timeline, e)
    ensures Agrees(Append(b, e)) && b.cycles.Keys <= Append(b, e).cycles.Keys
  {
    hide FullyVerified, Orderly;
    if e.Created? {
      AppendCreated(b.timeline, e.task);
    } else {
      AppendReport(b.timeline, e);
    }
    forall k | k in Append(b, e).cycles ensures Names(Append(b, e).cycles[k].completed, Completers(b.timeline + [e], k)) {
      AppendNames(b, e, k);
    }
  }

  lemma AppendNames(b: Book, e: Entry, key: nat)
    requires key in b.cycles ==> Names(b.cycles[key].completed, Completers(b.timeline, key))
    requires key in Append(b, e).cycles
    ensures Names(Append(b, e).cycles[key].completed, Completers(b.timeline + [e], key))
  {
    hide FullyVerified;
    assert (b.timeline + [e])[..|b.timeline|] == b.timeline;
  }

  lemma {:induction false} ApplyAgrees(b: Book, e: Event)
    requires Agrees(b)
    ensures Agrees(Apply(b, e)) && b.timeline <= Apply(b, e).timeline
    ensures b.cycles.Keys <= Apply(b, e).cycles.Keys
  {
    hide Apply, CyclesAfter;
    var row := EventWrites(b, e);
    if row.Some? {
      AppendAgrees(b, row.value);
    }
  }

  lemma {:induction false} AfterAgrees(b: Book, events: seq<Event>)
    requires Agrees(b)
    ensures Agrees(After(b, events)) && b.timeline <= After(b, events).timeline
    ensures b.cycles.Keys <= After(b, events).cycles.Keys
  {
    if events != [] {
      AfterAgrees(b, events[..|events|-1]);
      ApplyAgrees(After(b, events[..|events|-1]), events[|events|-1]);
    }
  }

  // ----- The cached record against the scan -----

  /** Position `i` starts a sync after which the data source was neither rolled back nor synced. */
  ghost predicate FreshStart(timeline: seq<Entry>, key: nat, i: nat) {
    i < |timeline| && StartsSync(timeline[i], key) &&
    forall j :: i < j < |timeline| ==> !CompletesRollback(timeline[j], key) && !SyncsFully(timeline[j], key)
  }

  lemma {:induction false} ScanDiffers(timeline: seq<Entry>, key: nat) returns (i: nat)
    requires Scan(timeline, key) && Completers(timeline, key) == {}
    ensures FreshStart(timeline, key, i)
  {
    var n := |timeline| - 1;
    if StartsSync(timeline[n], key) {
      i := n;
    } else {
      i := ScanDiffers(timeline[..n], key);
      assert forall j :: i < j < n ==> timeline[j] == timeline[..n][j];
    }
  }

  lemma {:induction false} UsedCycleIsScanned(timeline: seq<Entry>, key: nat)
    requires Completers(timeline, key) != {}
    ensures Scan(timeline, key)
  {
    if !CompletesRollback(timeline[|timeline|-1], key) {
      UsedCycleIsScanned(timeline[..|timeline|-1], key);
    }
  }

  /** After any history: a set record implies that the scan blocks, and where a clear record and
      the scan disagree, a sync was started after the last completed rollback. */
  lemma {:induction false} RecordAgreesWithScan(b: Book, events: seq<Event>, key: nat)
    requires Initial(b) && key in After(b, events).cycles
    ensures var c := After(b, events);
      && (c.cycles[key].completed.Some? ==> Scan(c.timeline, key))
      && (c.cycles[key].completed.None? && Scan(c.timeline, key) ==>
            exists i :: FreshStart(c.timeline, key, i))
  {
    AfterAgrees(b, events);
    var c := After(b, events);
    if c.cycles[key].completed.Some? {
      UsedCycleIsScanned(c.timeline, key);
    } else if Scan(c.timeline, key) {
      var i := ScanDiffers(c.timeline, key);
    }
  }

  lemma {:induction false} LatestSyncIsLast(timeline: seq<Entry>, key: nat, i: nat) returns (m: nat)
    requires i < |timeline| && StartsSync(timeline[i], key)
    ensures i <= m < |timeline| && StartsSync(timeline[m], key)
    ensures LatestSync(timeline, key) == Some(timeline[m].task.id)
  {
    var n := |timeline| - 1;
    if StartsSync(timeline[n], key) {
      m := n;
    } else {
      m := LatestSyncIsLast(timeline[..n], key, i);
    }
  }

  /** The latest sync is the sync task of the data source that was created last. */
  lemma {:induction false} LatestSyncIff(timeline: seq<Entry>, key: nat, id: nat)
    ensures LatestSync(timeline, key) == Some(id) <==> exists i: nat :: IsLatestSync(timeline, key, i) && timeline[i].task.id == id
    ensures LatestSync(timeline, key).None? <==>
      forall i :: 0 <= i < |timeline| ==> !(timeline[i].Created? && timeline[i].task.kind == Sync && timeline[i].task.key == Some(key))
  {
    if timeline != [] {
      var n := |timeline| - 1;
      LatestSyncIff(timeline[..n], key, id);
      if StartsSync(timeline[n], key) {
        assert IsLatestSync(timeline, key, n);
      } else {
        forall i: nat ensures IsLatestSync(timeline, key, i) <==> IsLatestSync(timeline[..n], key, i) {
        }
        assert forall i :: 0 <= i < n ==> timeline[..n][i] == timeline[i];
      }
    }
  }

  ghost predicate IsLatestSync(timeline: seq<Entry>, key: nat, i: nat) {
    && i < |timeline| && timeline[i].Created? && timeline[i].task.kind == Sync && timeline[i].task.key == Some(key)
    && forall j :: i < j < |timeline| && timeline[j].Created? && timeline[j].task.kind == Sync ==> timeline[j].task.key != Some(key)
  }

  /** Report `i` completed a rollback of the data source, and no sync of it reported full success since. */
  ghost predicate LeavesRolledBack(timeline: seq<Entry>, key: nat, i: nat) {
    && i < |timeline| && timeline[i].Reported? && timeline[i].task.kind == Rollback && timeline[i].task.key == Some(key)
    && timeline[i].terminal == Completed
    && forall j :: i < j < |timeline| && timeline[j].Reported? && timeline[j].task.kind == Sync && timeline[j].task.key == Some(key) ==>
         !(timeline[j].terminal == Completed && timeline[j].mutations.Some? && |timeline[j].mutations.value| > 0 &&
           forall m :: m in timeline[j].mutations.value ==>
             m.status == Succeeded && m.verification.Some? && m.verification.value.valid == Some(true))
  }

  /** The scan blocks exactly when a completed rollback was not followed by a fully successful sync. */
  lemma {:induction false} ScanBlocksIff(timeline: seq<Entry>, key: nat)
    ensures Scan(timeline, key) <==> exists i: nat :: LeavesRolledBack(timeline, key, i)
  {
    if timeline != [] {
      var n := |timeline| - 1;
      ScanBlocksIff(timeline[..n], key);
      if CompletesRollback(timeline[n], key) {
        assert LeavesRolledBack(timeline, key, n);
      } else if SyncsFully(timeline[n], key) {
        assert forall i: nat :: !LeavesRolledBack(timeline, key, i);
      } else {
        forall i: nat ensures LeavesRolledBack(timeline, key, i) <==> LeavesRolledBack(timeline[..n], key, i) {
        }
      }
    }
  }

  /** For a source whose own report is fully successful and which is the latest sync of its data
      source, the cached record and the scan give the same answer. */
  lemma EligibleSourceSeesTheScan(b: Book, source: Task, key: nat)
    requires Agrees(b) && Created(source) in b.timeline && source.key == Some(key)
    requires Eligible(b, source) && LatestSync(b.timeline, key) == Some(source.id)
    ensures IsBlocked(b, key) == Scan(b.timeline, key)
  {
    if key in b.cycles {
      if Completers(b.timeline, key) != {} {
        UsedCycleIsScanned(b.timeline, key);
      } else if Scan(b.timeline, key) {
        var i := ScanDiffers(b.timeline, key);
        var m := LatestSyncIsLast(b.timeline, key, i);
        assert false;
      }
    }
  }

  function KeyScan(b: Book, key: Option<nat>): bool {
    key.Some? && Scan(b.timeline, key.value)
  }

  /** For such a source every availability question has the same answer by the scan alone. */
  lemma EligibleSourceIsScanned(b: Book, source: Task, expected: Option<int>)
    requires Agrees(b) && FindTask(b.timeline, source.id) == Some(source) && Eligible(b, source)
    ensures var key := IdentityOf(b, source);
      Available(b, source, expected, KeyBlocked(b, key)) == Available(b, source, expected, KeyScan(b, key))
  {
    if source.key.Some? {
      var i :| 0 <= i < |b.timeline| && b.timeline[i] == Created(source);
      var m := LatestSyncIsLast(b.timeline, source.key.value, i);
      if LatestSync(b.timeline, source.key.value) == Some(source.id) {
        EligibleSourceSeesTheScan(b, source, source.key.value);
      }
    }
  }

  /** The history list shows no reason exactly for the syncs a rollback preview would not refuse. */
  lemma ReasonMatchesAvailability(b: Book, t: Task)
    requires t.kind == Sync
    ensures match EnsureAvailable(b, t, None)
      case Ok(_) => BlockedReason(b, t).None?
      case Err(refusal) => BlockedReason(b, t) == Some(refusal)
  {
  }

  // ----- Generations -----

  function Starts(timeline: seq<Entry>, key: nat): nat {
    if timeline == [] then 0
    else Starts(timeline[..|timeline|-1], key) + if StartsSync(timeline[|timeline|-1], key) then 1 else 0
  }

  /** Once a record exists its generation counts the sync starts of its data source. */
  lemma {:induction false} GenerationCountsStarts(b: Book, events: seq<Event>, key: nat)
    requires Agrees(b) && key in b.cycles
    ensures key in After(b, events).cycles
    ensures Generation(After(b, events), key) - Generation(b, key) ==
      Starts(After(b, events).timeline, key) - Starts(b.timeline, key)
  {
    if events != [] {
      var m := After(b, events[..|events|-1]);
      var e := events[|events|-1];
      hide Apply, Agrees;
      GenerationCountsStarts(b, events[..|events|-1], key);
      AfterAgrees(b, events[..|events|-1]);
      var row := EventWrites(m, e);
      if row.Some? {
        AppendCounts(m, row.value, key);
      }
    }
  }

  lemma AppendCounts(b: Book, e: Entry, key: nat)
    requires key in b.cycles
    ensures var c := Append(b, e);
      key in c.cycles &&
      Generation(c, key) - Generation(b, key) == Starts(c.timeline, key) - Starts(b.timeline, key)
  {
  }

  lemma {:induction false} LatestSyncMoves(timeline: seq<Entry>, more: seq<Entry>, key: nat)
    ensures Starts(timeline + more, key) >= Starts(timeline, key)
    ensures Starts(timeline + more, key) == Starts(timeline, key) ==>
      LatestSync(timeline + more, key) == LatestSync(timeline, key)
    ensures Starts(timeline + more, key) > Starts(timeline, key) ==>
      exists i :: |timeline| <= i < |timeline + more| && StartsSync((timeline + more)[i], key) &&
        LatestSync(timeline + more, key) == Some((timeline + more)[i].task.id)
  {
    if more == [] {
      assert timeline + more == timeline;
    } else {
      var front, last := more[..|more|-1], more[|more|-1];
      LatestSyncMoves(timeline, front, key);
      var all := timeline + more;
      assert all == timeline + front + [last];
      LatestSyncAppended(timeline + front, last, key);
      StartsAppended(timeline + front, last, key);
      hide LatestSync, Starts, StartsSync;
      assert all[|all|-1] == last;
      assert forall i :: 0 <= i < |timeline + front| ==> all[i] == (timeline + front)[i];
    }
  }

  lemma StartsAppended(timeline: seq<Entry>, e: Entry, key: nat)
    ensures Starts(timeline + [e], key) == Starts(timeline, key) + if StartsSync(e, key) then 1 else 0
  {
  }

  /** A rollback frozen at some generation is available again only if no sync of its data source
      started in between; and if a cycle record existed when it was frozen, a changed generation
      is never the reason it is refused, because the staleness check comes first. */
  lemma FrozenGenerationHolds(b: Book, events: seq<Event>, t: Task, key: nat)
    requires Agrees(b) && t.key == Some(key) && EnsureAvailable(b, t, None).Ok?
    requires exists e :: e in b.timeline && StartsSync(e, key) && e.task.id == SourceOf(t)
    ensures var c := After(b, events);
      var again := EnsureAvailable(c, t, Some(EnsureAvailable(b, t, None).value));
      && (again.Ok? ==> Starts(c.timeline, key) == Starts(b.timeline, key))
      && (key in b.cycles ==> again != Err(CycleChanged))
  {
    hide Orderly, Starts, LatestSync, After, FindTask;
    AfterAgrees(b, events);
    var c := After(b, events);
    var more := c.timeline[|b.timeline|..];
    assert c.timeline == b.timeline + more;
    if Starts(b.timeline + more, key) > Starts(b.timeline, key) {
      NewStartIsNewer(b.timeline, more, key, SourceOf(t));
    } else {
      LatestSyncMoves(b.timeline, more, key);
    }
    if key in b.cycles {
      GenerationCountsStarts(b, events, key);
    }
  }

  /** After a new start, no earlier sync is the latest one. */
  lemma NewStartIsNewer(timeline: seq<Entry>, more: seq<Entry>, key: nat, id: nat)
    requires Orderly(timeline + more) && Starts(timeline + more, key) > Starts(timeline, key)
    requires exists e :: e in timeline && StartsSync(e, key) && e.task.id == id
    ensures LatestSync(timeline + more, key).Some? && LatestSync(timeline + more, key).value != id
  {
    hide Starts, LatestSync;
    LatestSyncMoves(timeline, more, key);
    var all := timeline + more;
    var first :| 0 <= first < |timeline| && StartsSync(timeline[first], key) && timeline[first].task.id == id;
    var i :| |timeline| <= i < |all| && StartsSync(all[i], key) && LatestSync(all, key) == Some(all[i].task.id);
    assert all[first] == timeline[first];
  }

  lemma AppendKeepsPositive(b: Book, e: Entry)
    requires forall k :: k in b.cycles ==> b.cycles[k].generation > 0
    ensures forall k :: k in Append(b, e).cycles ==> Append(b, e).cycles[k].generation > 0
  {
    hide FullyVerified;
  }

  lemma {:induction false} GenerationsArePositive(b: Book, events: seq<Event>)
    requires forall k :: k in b.cycles ==> b.cycles[k].generation > 0
    ensures forall k :: k in After(b, events).cycles ==> After(b, events).cycles[k].generation > 0
  {
    if events != [] {
      var m := After(b, events[..|events|-1]);
      GenerationsArePositive(b, events[..|events|-1]);
      hide Apply, CyclesAfter;
      var row := EventWrites(m, events[|events|-1]);
      if row.Some? {
        AppendKeepsPositive(m, row.value);
      }
    }
  }

  /** A rollback previewed before its data source had a cycle record is no longer available at the
      generation it froze once there is one. */
  lemma {:induction false} RecordEndsOlderPreviews(b: Book, events: seq<Event>, more: seq<Event>, t: Task, key: nat)
    requires Initial(b) && t.key == Some(key)
    requires key !in After(b, events).cycles && EnsureAvailable(After(b, events), t, None).Ok?
    requires key in After(b, events + more).cycles
    ensures EnsureAvailable(After(b, events + more), t, Some(EnsureAvailable(After(b, events), t, None).value)).Err?
  {
    GenerationsArePositive(b, events + more);
    hide After;
  }

  // ----- What starts and reports write -----

  /** A task without a usable target has no cycle: it is available at generation zero, always. */
  lemma NoTargetIsAvailable(b: Book, t: Task, expected: Option<int>)
    requires t.kind == Sync && t.key.None?
    ensures EnsureAvailable(b, t, expected) == Ok(0) && BlockedReason(b, t).None?
  {
  }

  /** A sync that starts opens the next generation of the record of its data source, if there is one,
      and touches no other record. */
  lemma StartOpensCycle(b: Book, id: nat, key: nat, k: nat)
    requires StartSync(b, id, Some(key)).Ok?
    ensures var c := Apply(b, EStartSync(id, Some(key)));
      && c.timeline == b.timeline + [Created(Task(id, Sync, Some(key), id, None))]
      && (k in c.cycles <==> k in b.cycles)
      && (k in b.cycles && k != key ==> c.cycles[k] == b.cycles[k])
      && (key in b.cycles ==> c.cycles[key] == Cycle(b.cycles[key].generation + 1, b.cycles[key].latestSync, None))
  {
  }

  /** What the first report of a task with target `key` makes of the records: a sync that completed with
      nothing but verified successes creates a record of generation one or clears it, and is named as
      the latest; a completed rollback creates one that names it or marks a clear one; nothing else, and
      no other record, changes. */
  lemma {:induction false} ReportWritesRecord(b: Book, t: Task, terminal: TerminalState, mutations: Option<seq<Mutation>>, key: nat, k: nat)
    requires FindTask(b.timeline, t.id) == Some(t) && FindReport(b.timeline, t.id).None? && t.key == Some(key)
    ensures var c := Apply(b, EReport(t.id, terminal, mutations));
      var clean := terminal == Completed && mutations.Some? && |mutations.value| > 0 && forall m :: m in mutations.value ==>
        m.status == Succeeded && m.verification.Some? && m.verification.value.valid == Some(true);
      && c.timeline == b.timeline + [Reported(t, terminal, mutations)] && c.lock == b.lock
      && (k != key ==> (k in c.cycles <==> k in b.cycles) && (k in b.cycles ==> c.cycles[k] == b.cycles[k]))
      && (t.kind == Sync && clean ==>
            key in c.cycles && c.cycles[key] == Cycle(if key in b.cycles then b.cycles[key].generation else 1, t.id, None))
      && (t.kind == Rollback && terminal == Completed && key !in b.cycles ==>
            key in c.cycles && c.cycles[key] == Cycle(1, t.source, Some(t.id)))
      && (t.kind == Rollback && terminal == Completed && key in b.cycles ==>
            key in c.cycles && c.cycles[key] ==
              b.cycles[key].(completed := if b.cycles[key].completed.None? then Some(t.id) else b.cycles[key].completed))
      && ((t.kind == Sync && !clean) || (t.kind == Rollback && terminal != Completed) ==> c.cycles == b.cycles)
  {
    hide FindTask, FindReport;
  }

  // ----- The school lock -----

  /** A held lock is given up only by its release, never taken over; a free one is taken by a sync
      that starts or a rollback that is confirmed, which is then its holder. */
  lemma LockMoves(b: Book, e: Event)
    ensures var c := Apply(b, e);
      && (b.lock.Some? ==> c.lock == if e.EUnlock? then None else b.lock)
      && (b.lock.None? && c.lock.Some? ==> (e.EStartSync? || e.EConfirm?) && c.lock == Some(e.id))
      && (e.EStartSync? && c != b ==> b.lock.None? && c.lock == Some(e.id))
      && (e.EConfirm? && c != b ==> b.lock.None? && c.lock == Some(e.id))
      && (e.EPreview? && c != b ==> b.lock.None?)
  {
    hide Available, Eligible, CyclesAfter;
  }

  /** While nobody releases it, a lock stays with its holder. */
  lemma {:induction false} HolderStays(b: Book, events: seq<Event>)
    requires b.lock.Some? && forall e :: e in events ==> !e.EUnlock?
    ensures After(b, events).lock == b.lock
  {
    if events != [] {
      var n := |events| - 1;
      HolderStays(b, events[..n]);
      assert events[n] in events;
      hide Apply;
      LockMoves(After(b, events[..n]), events[n]);
    }
  }

  // ----- At most one completed rollback per cycle -----

  /** Rollbacks report only while they hold the school lock. */
  ghost predicate Disciplined(b: Book, events: seq<Event>) {
    forall n :: 0 <= n < |events| && events[n].EReport? ==>
      var c := After(b, events[..n]);
      FindTask(c.timeline, events[n].id).Some? && FindTask(c.timeline, events[n].id).value.kind == Rollback ==>
        c.lock == Some(events[n].id)
  }

  /** A rollback that holds the lock and has not reported found, and still finds, its cycle unused. */
  ghost predicate HolderIsClear(b: Book) {
    b.lock.Some? ==>
      var t := FindTask(b.timeline, b.lock.value);
      t.Some? && (t.value.kind == Rollback && t.value.key.Some? && FindReport(b.timeline, t.value.id).None? ==>
        Completers(b.timeline, t.value.key.value) == {})
  }

  /** Every completed rollback from position `from` on found its cycle unused. */
  ghost predicate OncePerCycle(timeline: seq<Entry>, from: nat) {
    forall j, k :: from <= j < |timeline| && CompletesRollback(timeline[j], k) ==>
      Completers(timeline[..j], k) == {}
  }

  lemma FindAppended(timeline: seq<Entry>, e: Entry, id: nat)
    ensures FindTask(timeline, id).Some? ==> FindTask(timeline + [e], id) == FindTask(timeline, id)
    ensures FindReport(timeline, id).Some? ==> FindReport(timeline + [e], id) == FindReport(timeline, id)
    ensures FindTask(timeline, id).None? ==>
      FindTask(timeline + [e], id) == if e.Created? && e.task.id == id then Some(e.task) else None
    ensures FindReport(timeline, id).None? ==>
      FindReport(timeline + [e], id) == if e.Reported? && e.task.id == id then Some(e) else None
  {
    if timeline != [] {
      assert (timeline + [e])[1..] == timeline[1..] + [e];
      FindAppended(timeline[1..], e, id);
    }
  }

  lemma NotScannedNotUsed(timeline: seq<Entry>, key: nat)
    requires !Scan(timeline, key)
    ensures Completers(timeline, key) == {}
  {
  }

  lemma ConfirmIsClear(b: Book, id: nat)
    requires Agrees(b) && Confirm(b, id).Ok?
    ensures HolderIsClear(Confirm(b, id).value)
  {
    var t := FindTask(b.timeline, id).value;
    if t.key.Some? && t.key.value !in b.cycles {
      NotScannedNotUsed(b.timeline, t.key.value);
    }
  }

  lemma AppendKeepsClear(b: Book, e: Entry, cycles: map<nat, Cycle>)
    requires HolderIsClear(b)
    requires e.Reported? && e.task.kind == Rollback ==> b.lock == Some(e.task.id)
    ensures HolderIsClear(b.(timeline := b.timeline + [e], cycles := cycles))
  {
    if b.lock.Some? {
      FindAppended(b.timeline, e, b.lock.value);
      assert (b.timeline + [e])[..|b.timeline|] == b.timeline;
    }
  }

  lemma AppendKeepsOnce(timeline: seq<Entry>, e: Entry, from: nat)
    requires OncePerCycle(timeline, from)
    requires forall k :: CompletesRollback(e, k) ==> Completers(timeline, k) == {}
    ensures OncePerCycle(timeline + [e], from)
  {
    var grown := timeline + [e];
    forall j, k | from <= j < |grown| && CompletesRollback(grown[j], k) ensures Completers(grown[..j], k) == {} {
      if j < |timeline| {
        assert grown[..j] == timeline[..j] && CompletesRollback(timeline[j], k);
      } else {
        assert grown[..j] == timeline;
      }
    }
  }

  lemma ApplyKeepsOnce(b: Book, e: Event, from: nat)
    requires Agrees(b) && HolderIsClear(b) && OncePerCycle(b.timeline, from)
    requires e.EReport? && FindTask(b.timeline, e.id).Some? && FindTask(b.timeline, e.id).value.kind == Rollback ==>
      b.lock == Some(e.id)
    ensures HolderIsClear(Apply(b, e)) && OncePerCycle(Apply(b, e).timeline, from)
  {
    var c := Apply(b, e);
    if e.EConfirm? && Confirm(b, e.id).Ok? {
      ConfirmIsClear(b, e.id);
    } else if c.timeline != b.timeline {
      var last := c.timeline[|c.timeline|-1];
      assert c.timeline == b.timeline + [last];
      AppendKeepsOnce(b.timeline, last, from);
      if e.EStartSync? {
        FindAppended(b.timeline, last, e.id);
      } else {
        AppendKeepsClear(b, last, c.cycles);
      }
    }
  }

  lemma {:induction false} AfterKeepsOnce(b: Book, events: seq<Event>)
    requires Initial(b) && Disciplined(b, events)
    ensures HolderIsClear(After(b, events)) && OncePerCycle(After(b, events).timeline, |b.timeline|)
  {
    if events != [] {
      var front := events[..|events|-1];
      forall n | 0 <= n < |front| ensures front[..n] == events[..n] {
      }
      AfterKeepsOnce(b, front);
      AfterAgrees(b, front);
      ApplyKeepsOnce(After(b, front), events[|events|-1], |b.timeline|);
    }
  }

  lemma {:induction false} UnusedSince(timeline: seq<Entry>, key: nat, i: nat) returns (m: nat)
    requires i < |timeline| && CompletesRollback(timeline[i], key) && Completers(timeline, key) == {}
    ensures i < m < |timeline| && (StartsSync(timeline[m], key) || SyncsFully(timeline[m], key))
  {
    var n := |timeline| - 1;
    if StartsSync(timeline[n], key) || SyncsFully(timeline[n], key) {
      m := n;
    } else {
      m := UnusedSince(timeline[..n], key, i);
    }
  }

  lemma {:induction false} OpenCompleter(timeline: seq<Entry>, key: nat) returns (i: nat)
    requires Completers(timeline, key) != {}
    ensures i < |timeline| && CompletesRollback(timeline[i], key)
    ensures forall m :: i < m < |timeline| ==> !StartsSync(timeline[m], key) && !SyncsFully(timeline[m], key)
  {
    var n := |timeline| - 1;
    if CompletesRollback(timeline[n], key) {
      i := n;
    } else {
      i := OpenCompleter(timeline[..n], key);
      assert forall m :: i < m < n ==> timeline[m] == timeline[..n][m];
    }
  }

  ghost predicate OpensCycle(timeline: seq<Entry>, key: nat, m: nat) {
    m < |timeline| && (StartsSync(timeline[m], key) || SyncsFully(timeline[m], key))
  }

  /** A sync start or a fully successful sync lies between any two completed rollbacks of one data
      source, the later of which is at position `from` or after. */
  ghost predicate Separated(timeline: seq<Entry>, from: nat) {
    forall i, j, k :: 0 <= i < j < |timeline| && from <= j && CompletesRollback(timeline[i], k) && CompletesRollback(timeline[j], k)
      ==> exists m :: i < m < j && OpensCycle(timeline, k, m)
  }

  lemma OpenIsNotSeparated(timeline: seq<Entry>, from: nat, j: nat, key: nat)
    requires from <= j < |timeline| && CompletesRollback(timeline[j], key) && Completers(timeline[..j], key) != {}
    ensures !Separated(timeline, from)
  {
    var i := OpenCompleter(timeline[..j], key);
    assert forall m :: i < m < j ==> timeline[m] == timeline[..j][m];
    assert forall m :: i < m < j ==> !OpensCycle(timeline, key, m);
  }

  lemma OnceIsSeparated(timeline: seq<Entry>, from: nat)
    ensures OncePerCycle(timeline, from) <==> Separated(timeline, from)
  {
    hide StartsSync, SyncsFully, CompletesRollback;
    if OncePerCycle(timeline, from) {
      forall i, j, k | 0 <= i < j < |timeline| && from <= j && CompletesRollback(timeline[i], k) && CompletesRollback(timeline[j], k)
        ensures exists m :: i < m < j && OpensCycle(timeline, k, m)
      {
        var m := UnusedSince(timeline[..j], k, i);
        assert OpensCycle(timeline, k, m);
      }
    }
    if Separated(timeline, from) {
      forall j, k | from <= j < |timeline| && CompletesRollback(timeline[j], k) ensures Completers(timeline[..j], k) == {} {
        if Completers(timeline[..j], k) != {} {
          OpenIsNotSeparated(timeline, from, j, k);
        }
      }
    }
  }

  /** The cycle was used up: by its record, or, while it has none, by the earlier reports. */
  predicate Used(b: Book, key: nat) {
    if key in b.cycles then b.cycles[key].completed.Some? else Completers(b.timeline, key) != {}
  }

  /** A rollback of a used cycle reports, for the first time, that it completed. */
  predicate Repeats(b: Book, e: Event) {
    e.EReport? && e.terminal == Completed && FindReport(b.timeline, e.id).None? &&
    var t := FindTask(b.timeline, e.id);
    t.Some? && t.value.kind == Rollback && t.value.key.Some? && Used(b, t.value.key.value)
  }

  ghost predicate NoneRepeats(b: Book, events: seq<Event>) {
    forall n :: 0 <= n < |events| ==> !Repeats(After(b, events[..n]), events[n])
  }

  lemma ApplyRepeats(b: Book, e: Event, from: nat)
    requires Agrees(b) && from <= |b.timeline|
    ensures OncePerCycle(Apply(b, e).timeline, from) <==> OncePerCycle(b.timeline, from) && !Repeats(b, e)
  {
    var grown := Apply(b, e).timeline;
    ApplyAgrees(b, e);
    if OncePerCycle(grown, from) {
      forall j, k | from <= j < |b.timeline| && CompletesRollback(b.timeline[j], k) ensures Completers(b.timeline[..j], k) == {} {
        assert grown[..j] == b.timeline[..j] && grown[j] == b.timeline[j];
      }
      if Repeats(b, e) {
        RepeatIsNotOnce(b, e, from);
      }
    } else if OncePerCycle(b.timeline, from) && !Repeats(b, e) {
      RowKeepsOnce(b, e, from);
    }
  }

  lemma RepeatIsNotOnce(b: Book, e: Event, from: nat)
    requires Agrees(b) && from <= |b.timeline| && Repeats(b, e)
    ensures !OncePerCycle(Apply(b, e).timeline, from)
  {
    hide Agrees;
    var t := FindTask(b.timeline, e.id).value;
    var grown := Apply(b, e).timeline;
    assert grown == b.timeline + [Reported(t, Completed, e.mutations)];
    assert grown[..|b.timeline|] == b.timeline && CompletesRollback(grown[|b.timeline|], t.key.value);
    assert Completers(b.timeline, t.key.value) != {} by {
      UsedIsCompleted(b, t.key.value);
    }
  }

  lemma UsedIsCompleted(b: Book, key: nat)
    requires Agrees(b)
    ensures Used(b, key) <==> Completers(b.timeline, key) != {}
  {
  }

  lemma RowKeepsOnce(b: Book, e: Event, from: nat)
    requires Agrees(b) && OncePerCycle(b.timeline, from) && !Repeats(b, e)
    ensures OncePerCycle(Apply(b, e).timeline, from)
  {
    hide Agrees, OncePerCycle, Used, CyclesAfter, Available, Eligible;
    var grown := Apply(b, e).timeline;
    if grown != b.timeline {
      var row := grown[|grown|-1];
      assert grown == b.timeline + [row];
      forall k | CompletesRollback(row, k) ensures Completers(b.timeline, k) == {} {
        UsedIsCompleted(b, k);
      }
      AppendKeepsOnce(b.timeline, row, from);
    }
  }

  lemma {:induction false} AfterRepeats(b: Book, events: seq<Event>)
    requires Agrees(b)
    ensures OncePerCycle(After(b, events).timeline, |b.timeline|) <==> NoneRepeats(b, events)
  {
    if events != [] {
      var front := events[..|events|-1];
      AfterRepeats(b, front);
      AfterAgrees(b, front);
      NoneRepeatsSplits(b, events);
      hide Apply, Repeats, Agrees, OncePerCycle, NoneRepeats;
      ApplyRepeats(After(b, front), events[|events|-1], |b.timeline|);
    }
  }

  lemma NoneRepeatsSplits(b: Book, events: seq<Event>)
    requires events != []
    ensures var front := events[..|events|-1];
      NoneRepeats(b, events) <==> NoneRepeats(b, front) && !Repeats(After(b, front), events[|events|-1])
  {
    hide Repeats, After;
    var front := events[..|events|-1];
    forall n | 0 <= n < |front| ensures front[..n] == events[..n] && front[n] == events[n] {
    }
    assert events[..|front|] == front;
  }

  /** A sync start or a fully successful sync lies between any two completed rollbacks of one data
      source if and only if no rollback reports its completion while its cycle is used up. */
  lemma OncePerCycleIff(b: Book, events: seq<Event>)
    requires Initial(b)
    ensures Separated(After(b, events).timeline, |b.timeline|) <==> NoneRepeats(b, events)
  {
    AfterRepeats(b, events);
    OnceIsSeparated(After(b, events).timeline, |b.timeline|);
  }

  /** Where the earlier history left no completed rollback without a record, the record alone decides. */
  lemma {:induction false} UsedIsRecorded(b: Book, events: seq<Event>, key: nat)
    requires key !in b.cycles ==> Completers(b.timeline, key) == {}
    ensures var c := After(b, events);
      && (key !in c.cycles ==> Completers(c.timeline, key) == {})
      && (Used(c, key) <==> key in c.cycles && c.cycles[key].completed.Some?)
  {
    if events != [] {
      var m := After(b, events[..|events|-1]);
      hide Apply;
      UsedIsRecorded(b, events[..|events|-1], key);
      var row := EventWrites(m, events[|events|-1]);
      if row.Some? {
        assert (m.timeline + [row.value])[..|m.timeline|] == m.timeline;
      }
    }
  }

  /** So a sync start or a fully successful sync lies between any two completed rollbacks of one
      data source when rollbacks report only while they hold the school lock. */
  lemma {:induction false} RollbackOncePerCycle(b: Book, events: seq<Event>)
    requires Initial(b) && Disciplined(b, events)
    ensures Separated(After(b, events).timeline, |b.timeline|) && NoneRepeats(b, events)
  {
    AfterKeepsOnce(b, events);
    AfterRepeats(b, events);
    OnceIsSeparated(After(b, events).timeline, |b.timeline|);
  }

  // ----- A history with two rollbacks of one cycle -----

  lemma {:induction false} AfterConcat(b: Book, xs: seq<Event>, ys: seq<Event>)
    ensures After(b, xs + ys) == After(After(b, xs), ys)
  {
    if ys == [] {
      assert xs + ys == xs;
    } else {
      assert (xs + ys)[..|xs + ys|-1] == xs + ys[..|ys|-1];
      AfterConcat(b, xs, ys[..|ys|-1]);
    }
  }

  function GoodRun(): Option<seq<Mutation>> {
    Some([Mutation(7, Succeeded, Some(Verification(Some(true), None)))])
  }

  /** A sync that reports in full, and its rollback previewed and confirmed. */
  function Round(sync: nat, rollback: nat): seq<Event> {
    [EStartSync(sync, Some(0)), EReport(sync, Completed, GoodRun()), EUnlock, EPreview(rollback, sync), EConfirm(rollback)]
  }

  function RoundRows(sync: nat, rollback: nat, generation: int): seq<Entry> {
    var t := Task(sync, Sync, Some(0), sync, None);
    [Created(t), Reported(t, Completed, GoodRun()), Created(Task(rollback, Rollback, Some(0), sync, Some(generation)))]
  }

  lemma RunStep(b: Book, events: seq<Event>, e: Event)
    ensures After(b, events + [e]) == Apply(After(b, events), e)
  {
    assert (events + [e])[..|events|] == events;
  }

  lemma SyncReports(b: Book, sync: nat) returns (c: Book)
    requires b.lock.None? && FindTask(b.timeline, sync).None? && FindReport(b.timeline, sync).None?
    ensures c == Apply(Apply(Apply(b, EStartSync(sync, Some(0))), EReport(sync, Completed, GoodRun())), EUnlock)
    ensures c.timeline == b.timeline + RoundRows(sync, 0, 0)[..2] && c.lock.None? && c.confirmed == b.confirmed
    ensures 0 in c.cycles && c.cycles[0].completed.None?
    ensures FindTask(c.timeline, sync) == Some(RoundRows(sync, 0, 0)[0].task)
    ensures FindReport(c.timeline, sync) == Some(RoundRows(sync, 0, 0)[1])
    ensures LatestSync(c.timeline, 0) == Some(sync)
  {
    hide FullyVerified, FindTask, FindReport, LatestSync;
    var started := SyncStarts(b, sync);
    var t := RoundRows(sync, 0, 0)[0].task;
    var row := RoundRows(sync, 0, 0)[1];
    c := Append(started, row).(lock := None);
    FindAppended(started.timeline, row, sync);
    LatestSyncAppended(started.timeline, row, 0);
    assert FullyVerified(Completed, GoodRun()) by {
      GoodRunIsVerified();
    }
    assert b.timeline + [Created(t)] + [row] == b.timeline + RoundRows(sync, 0, 0)[..2];
  }

  lemma GoodRunIsVerified()
    ensures FullyVerified(Completed, GoodRun())
  {
  }

  lemma LatestSyncAppended(timeline: seq<Entry>, e: Entry, key: nat)
    ensures LatestSync(timeline + [e], key) == if StartsSync(e, key) then Some(e.task.id) else LatestSync(timeline, key)
  {
  }

  lemma SyncStarts(b: Book, sync: nat) returns (c: Book)
    requires b.lock.None? && FindTask(b.timeline, sync).None? && FindReport(b.timeline, sync).None?
    ensures var t := RoundRows(sync, 0, 0)[0].task;
      && c == Apply(b, EStartSync(sync, Some(0))) == Append(b, Created(t)).(lock := Some(sync))
      && FindTask(c.timeline, sync) == Some(t) && FindReport(c.timeline, sync).None?
      && LatestSync(c.timeline, 0) == Some(sync)
  {
    var t := Task(sync, Sync, Some(0), sync, None);
    c := Append(b, Created(t)).(lock := Some(sync));
    FindAppended(b.timeline, Created(t), sync);
    LatestSyncAppended(b.timeline, Created(t), 0);
  }

  lemma RollbackConfirms(b: Book, sync: nat, rollback: nat) returns (c: Book)
    requires b.lock.None? && sync != rollback && rollback !in b.confirmed && FindTask(b.timeline, rollback).None?
    requires 0 in b.cycles && b.cycles[0].completed.None? && LatestSync(b.timeline, 0) == Some(sync)
    requires FindTask(b.timeline, sync) == Some(RoundRows(sync, 0, 0)[0].task)
    requires FindReport(b.timeline, sync) == Some(RoundRows(sync, 0, 0)[1])
    ensures c == Apply(Apply(b, EPreview(rollback, sync)), EConfirm(rollback))
    ensures c.timeline == b.timeline + [RoundRows(sync, rollback, b.cycles[0].generation)[2]]
    ensures c.cycles == b.cycles && c.lock == Some(rollback) && c.confirmed == b.confirmed + {rollback}
  {
    hide FullyVerified, FindTask, FindReport, LatestSync, Preview;
    var t := RoundRows(sync, rollback, b.cycles[0].generation)[2].task;
    var previewed := Append(b, Created(t));
    FindAppended(b.timeline, Created(t), rollback);
    LatestSyncAppended(b.timeline, Created(t), 0);
    assert Preview(b, rollback, sync) == Ok(previewed) by {
      PreviewAccepted(b, sync, rollback);
    }
    c := previewed.(lock := Some(rollback), confirmed := b.confirmed + {rollback});
  }

  lemma PreviewAccepted(b: Book, sync: nat, rollback: nat)
    requires b.lock.None? && FindTask(b.timeline, rollback).None?
    requires 0 in b.cycles && b.cycles[0].completed.None? && LatestSync(b.timeline, 0) == Some(sync)
    requires FindTask(b.timeline, sync) == Some(RoundRows(sync, 0, 0)[0].task)
    requires FindReport(b.timeline, sync) == Some(RoundRows(sync, 0, 0)[1])
    ensures Preview(b, rollback, sync) == Ok(Append(b, RoundRows(sync, rollback, b.cycles[0].generation)[2]))
  {
    hide FullyVerified, FindTask, FindReport, LatestSync, Append;
    GoodRunIsVerified();
  }

  lemma {:induction false} RoundConfirms(b: Book, sync: nat, rollback: nat)
    requires b.lock.None? && sync != rollback && rollback !in b.confirmed
    requires FindTask(b.timeline, sync).None? && FindTask(b.timeline, rollback).None? && FindReport(b.timeline, sync).None?
    ensures var c := After(b, Round(sync, rollback));
      && 0 in c.cycles && c.cycles[0].completed.None?
      && c.timeline == b.timeline + RoundRows(sync, rollback, c.cycles[0].generation)
      && c.lock == Some(rollback) && c.confirmed == b.confirmed + {rollback}
  {
    hide After, FindTask, FindReport, LatestSync, Apply;
    var events := Round(sync, rollback);
    var synced := SyncReports(b, sync);
    FindAppended(b.timeline, RoundRows(sync, 0, 0)[0], rollback);
    FindAppended(b.timeline + [RoundRows(sync, 0, 0)[0]], RoundRows(sync, 0, 0)[1], rollback);
    assert synced.timeline == b.timeline + [RoundRows(sync, 0, 0)[0]] + [RoundRows(sync, 0, 0)[1]];
    var c := RollbackConfirms(synced, sync, rollback);
    assert After(b, events) == c by {
      RoundSteps(b, events);
    }
  }

  lemma AfterNothing(b: Book)
    ensures After(b, []) == b
  {
  }

  lemma RoundSteps(b: Book, e: seq<Event>)
    requires |e| == 5
    ensures After(b, e) == Apply(Apply(Apply(Apply(Apply(b, e[0]), e[1]), e[2]), e[3]), e[4])
  {
    hide Apply, After;
    RunStep(b, e[..4], e[4]);
    RunStep(b, e[..3], e[3]);
    RunStep(b, e[..2], e[2]);
    RunStep(b, e[..1], e[1]);
    RunStep(b, [], e[0]);
    assert e[..4] + [e[4]] == e && e[..3] + [e[3]] == e[..4] && e[..2] + [e[2]] == e[..3] && e[..1] + [e[1]] == e[..2];
    assert [] + [e[0]] == e[..1];
    assert After(b, []) == b by {
      AfterNothing(b);
    }
  }

  /** Two rounds: the first rollback loses the lock before it reports, a second sync opens a new
      cycle, and in that cycle both rollbacks complete. */
  function LateHistory(): seq<Event> {
    BothRounds() + [EReport(4, Completed, None)] + [EReport(2, Completed, None)]
  }

  function BothRounds(): seq<Event> {
    Round(1, 2) + [EUnlock] + Round(3, 4)
  }

  const EMPTY_BOOK: Book := Book([], map[], None, {})

  /** Without the lock the property fails, from an empty book on: a rollback whose cycle is over
      reports late, after a rollback of the next cycle has completed. */
  lemma {:induction false} LateReportRepeatsRollback()
    ensures Initial(EMPTY_BOOK)
    ensures var t := After(EMPTY_BOOK, LateHistory()).timeline;
      |t| == 8 && CompletesRollback(t[6], 0) && CompletesRollback(t[7], 0)
    ensures !Disciplined(EMPTY_BOOK, LateHistory()) && !NoneRepeats(EMPTY_BOOK, LateHistory())
  {
    hide After, Round, RoundRows, Repeats, NoneRepeats, Disciplined;
    var b := LateRounds();
    var four := Report(b, 4, Completed, None);
    var end := Report(four, 2, Completed, None);
    RunStep(EMPTY_BOOK, BothRounds(), EReport(4, Completed, None));
    RunStep(EMPTY_BOOK, BothRounds() + [EReport(4, Completed, None)], EReport(2, Completed, None));
    assert end == After(EMPTY_BOOK, LateHistory());
    BothComplete(b);
    assert !Separated(end.timeline, 0);
    OncePerCycleIff(EMPTY_BOOK, LateHistory());
    if Disciplined(EMPTY_BOOK, LateHistory()) {
      RollbackOncePerCycle(EMPTY_BOOK, LateHistory());
    }
  }

  /** The book after both rounds. */
  lemma LateRounds() returns (b: Book)
    ensures b == After(EMPTY_BOOK, BothRounds())
    ensures exists g, h :: b.timeline == RoundRows(1, 2, g) + RoundRows(3, 4, h)
  {
    hide After, Round;
    RoundConfirms(EMPTY_BOOK, 1, 2);
    var one := After(EMPTY_BOOK, Round(1, 2));
    var two := one.(lock := None);
    RunStep(EMPTY_BOOK, Round(1, 2), EUnlock);
    AfterConcat(EMPTY_BOOK, Round(1, 2) + [EUnlock], Round(3, 4));
    RoundIsFresh(one.cycles[0].generation);
    assert two.timeline == RoundRows(1, 2, one.cycles[0].generation);
    RoundConfirms(two, 3, 4);
    b := After(two, Round(3, 4));
  }

  lemma RoundIsFresh(generation: int)
    ensures var t := RoundRows(1, 2, generation);
      FindTask(t, 3).None? && FindTask(t, 4).None? && FindReport(t, 3).None?
  {
    assert forall e :: e in RoundRows(1, 2, generation) ==> e.task.id == 1 || e.task.id == 2;
  }

  /** Neither rollback has reported, so both reports are written. */
  lemma BothComplete(b: Book)
    requires exists g, h :: b.timeline == RoundRows(1, 2, g) + RoundRows(3, 4, h)
    ensures var t := Report(Report(b, 4, Completed, None), 2, Completed, None).timeline;
      |t| == 8 && CompletesRollback(t[6], 0) && CompletesRollback(t[7], 0)
  {
    hide FindTask, FindReport, Report, RoundRows;
    var g, h :| b.timeline == RoundRows(1, 2, g) + RoundRows(3, 4, h);
    var two, four := RollbacksAreOpen(g, h);
    ReportAppends(b, 4, four);
    FindAppended(b.timeline, Reported(four, Completed, None), 2);
    ReportAppends(Report(b, 4, Completed, None), 2, two);
  }

  lemma ReportAppends(b: Book, id: nat, t: Task)
    requires FindTask(b.timeline, id) == Some(t) && FindReport(b.timeline, id).None?
    ensures Report(b, id, Completed, None).timeline == b.timeline + [Reported(t, Completed, None)]
  {
  }

  lemma RollbacksAreOpen(g: int, h: int) returns (two: Task, four: Task)
    ensures var t := RoundRows(1, 2, g) + RoundRows(3, 4, h);
      && |t| == 6 && FindTask(t, 2) == Some(two) && FindTask(t, 4) == Some(four)
      && FindReport(t, 2).None? && FindReport(t, 4).None?
    ensures two.kind == four.kind == Rollback && two.key == four.key == Some(0)
  {
    hide FindTask, FindReport;
    two, four := RoundRows(1, 2, g)[2].task, RoundRows(3, 4, h)[2].task;
    var t := RoundRows(1, 2, g) + RoundRows(3, 4, h);
    IsFound(t, 2);
    IsFound(t, 5);
    assert forall e :: e in t && e.Reported? ==> e.task.id == 1 || e.task.id == 3;
  }

  lemma {:induction false} IsFound(timeline: seq<Entry>, i: nat)
    requires i < |timeline| && timeline[i].Created?
    requires forall j :: 0 <= j < i && timeline[j].Created? ==> timeline[j].task.id != timeline[i].task.id
    ensures FindTask(timeline, timeline[i].task.id) == Some(timeline[i].task)
  {
    if i > 0 {
      IsFound(timeline[1..], i - 1);
    }
  }

  // ----- The service in place -----

  class RollbackBook {
    var timeline: seq<Entry>
    var cycles: map<nat, Cycle>
    var lock: Option<nat>
    var confirmed: set<nat>

    function View(): Book
      reads this
    {
      Book(timeline, cycles, lock, confirmed)
    }

    method LatestSyncTask(key: nat) returns (r: Option<nat>)
      ensures r == LatestSync(timeline, key)
    {
      assert timeline[..|timeline|] == timeline;
      for i := |timeline| downto 0
        invariant LatestSync(timeline, key) == LatestSync(timeline[..i], key)
      {
        assert timeline[..i+1][..i] == timeline[..i];
        if StartsSync(timeline[i], key) {
          return Some(timeline[i].task.id);
        }
      }
      return None;
    }

    method HistoricalBlocked(key: nat) returns (blocked: bool)
      ensures blocked == Scan(timeline, key)
    {
      assert timeline[..|timeline|] == timeline;
      for i := |timeline| downto 0
        invariant Scan(timeline, key) == Scan(timeline[..i], key)
      {
        assert timeline[..i+1][..i] == timeline[..i];
        if CompletesRollback(timeline[i], key) {
          return true;
        }
        if SyncsFully(timeline[i], key) {
          return false;
        }
      }
      return false;
    }

    method Blocked(key: nat) returns (blocked: bool)
      ensures blocked == IsBlocked(View(), key)
    {
      if key in cycles {
        return cycles[key].completed.Some?;
      }
      blocked := HistoricalBlocked(key);
    }

    method Reason(t: Task) returns (r: Option<Refusal>)
      ensures r == BlockedReason(View(), t)
    {
      if t.key.None? || t.kind == Rollback {
        return None;
      }
      var latest := LatestSyncTask(t.key.value);
      if latest.Some? && latest.value != t.id {
        return Some(TooOld);
      }
      var blocked := Blocked(t.key.value);
      return if blocked then Some(AlreadyPerformed) else None;
    }

    method Ensure(t: Task, expected: Option<int>) returns (r: Result<int, Refusal>)
      ensures r == EnsureAvailable(View(), t, expected)
    {
      var key, sourceId := t.key, t.id;
      if t.kind == Rollback {
        sourceId := t.source;
        if key.None? {
          var source := FindTask(timeline, sourceId);
          if source.Some? {
            key := source.value.key;
          }
        }
      }
      if key.None? {
        return Ok(0);
      }
      var latest := LatestSyncTask(key.value);
      if latest.Some? && latest.value != sourceId {
        return Err(TooOld);
      }
      var generation := if key.value in cycles then cycles[key.value].generation else 0;
      if expected.Some? && generation != expected.value {
        return Err(CycleChanged);
      }
      var blocked := Blocked(key.value);
      if blocked {
        return Err(AlreadyPerformed);
      }
      return Ok(generation);
    }

    method RecordSyncStarted(t: Task)
      modifies this`cycles
      ensures cycles == SyncStarted(old(cycles), t)
    {
      if t.kind == Sync && t.key.Some? && t.key.value in cycles {
        var cycle := cycles[t.key.value];
        cycles := cycles[t.key.value := Cycle(cycle.generation + 1, cycle.latestSync, None)];
      }
    }

    method RecordFullySuccessfulSync(t: Task)
      modifies this`cycles
      ensures cycles == FullySynced(old(cycles), t)
    {
      if t.key.Some? {
        var generation := if t.key.value in cycles then cycles[t.key.value].generation else 1;
        cycles := cycles[t.key.value := Cycle(generation, t.id, None)];
      }
    }

    method RecordCompletedRollback(t: Task)
      modifies this`cycles
      ensures cycles == RollbackCompleted(old(cycles), t)
    {
      if t.key.None? {
        return;
      }
      if t.key.value !in cycles {
        cycles := cycles[t.key.value := Cycle(1, t.source, Some(t.id))];
      } else if cycles[t.key.value].completed.None? {
        cycles := cycles[t.key.value := cycles[t.key.value].(completed := Some(t.id))];
      }
    }

    method CreateSync(id: nat, key: Option<nat>) returns (r: Result<Task, Refusal>)
      modifies this`timeline, this`cycles, this`lock
      ensures match StartSync(old(View()), id, key)
        case Ok(b) => View() == b && r.Ok? && r.value.id == id
        case Err(e) => View() == old(View()) && r == Err(e)
    {
      if lock.Some? || FindTask(timeline, id).Some? {
        return Err(Locked);
      }
      var t := Task(id, Sync, key, id, None);
      timeline := timeline + [Created(t)];
      RecordSyncStarted(t);
      lock := Some(id);
      return Ok(t);
    }

    method ConfirmRollback(id: nat) returns (r: Result<Task, Refusal>)
      modifies this`lock, this`confirmed
      ensures match Confirm(old(View()), id)
        case Ok(b) => View() == b && r.Ok? && r.value.id == id
        case Err(e) => View() == old(View()) && r == Err(e)
    {
      var t := FindTask(timeline, id);
      if t.None? || t.value.kind != Rollback {
        return Err(UnknownTask);
      }
      if id in confirmed {
        return Err(NotPending);
      }
      var available := Ensure(t.value, t.value.frozen);
      if available.Err? {
        return Err(available.error);
      }
      if t.value.frozen.None? {
        return Err(CycleChanged);
      }
      if lock.Some? {
        return Err(Locked);
      }
      lock := Some(id);
      confirmed := confirmed + {id};
      return Ok(t.value);
    }

    method GenerateReport(id: nat, terminal: TerminalState, mutations: Option<seq<Mutation>>)
        returns (r: Result<Entry, Refusal>)
      modifies this`timeline, this`cycles
      ensures View() == Report(old(View()), id, terminal, mutations)
      ensures r == if FindTask(old(timeline), id).None? then Err(UnknownTask)
                   else Ok(FindReport(timeline, id).value)
    {
      var t := FindTask(timeline, id);
      if t.None? {
        return Err(UnknownTask);
      }
      var existing := FindReport(timeline, id);
      if existing.Some? {
        return Ok(existing.value);
      }
      var report := Reported(t.value, terminal, mutations);
      FindAppended(timeline, report, id);
      timeline := timeline + [report];
      if t.value.kind == Sync && FullyVerified(terminal, mutations) {
        RecordFullySuccessfulSync(t.value);
      } else if t.value.kind == Rollback && terminal == Completed {
        RecordCompletedRollback(t.value);
      }
      return Ok(report);
    }
  }
}
