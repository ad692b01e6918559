/** The durable attempts of one sub-agent invocation.

    A runner first looks for a completed attempt to replay.  Otherwise it marks attempts left
    running by an earlier runner as interrupted, records the next attempt and commits; it then
    runs the model, finalises the attempt and, after a failure, records the one after.  Several
    runners may be at it at once, and any of them may crash between its commits. */
module Invocations {
  import opened Wrappers

  datatype Status = Running | Completed | Failed

  /** One attempt under the invocation's key, which leaves out the input.  `feedback` is the repair
      feedback in its provenance. */
  datatype Record = Record(
    attempt: nat, input: nat, status: Status, output: nat, errorCode: Option<nat>, feedback: Option<nat>)

  const INTERRUPTED: nat := 0

  datatype Fault = StaleCursor | FactConflict | NotFound

  function Interrupted(r: Record, input: nat): Record {
    if r.input == input && r.status == Running then r.(status := Failed, errorCode := Some(INTERRUPTED)) else r
  }

  function Interrupt(records: seq<Record>, input: nat): (r: seq<Record>)
    ensures |r| == |records|
  {
    seq(|records|, i requires 0 <= i < |records| => Interrupted(records[i], input))
  }

  function NextAttempt(records: seq<Record>, input: nat): (n: nat)
    ensures forall r :: r in records && r.input == input ==> r.attempt < n
    ensures n > 0
  {
    if records == [] then 1
    else
      var last := records[|records|-1];
      var before := NextAttempt(records[..|records|-1], input);
      assert forall r :: r in records ==> r in records[..|records|-1] || r == last;
      if last.input == input && last.attempt >= before then last.attempt + 1 else before
  }

  /** The newest repair feedback of the attempts on an input. */
  function LatestFeedback(records: seq<Record>, input: nat): (f: Option<nat>)
    ensures f.None? ==> forall r :: r in records && r.input == input ==> r.feedback.None?
  {
    if records == [] then None
    else
      var last := records[|records|-1];
      assert forall r :: r in records ==> r in records[..|records|-1] || r == last;
      if last.input == input && last.feedback.Some? then last.feedback
      else LatestFeedback(records[..|records|-1], input)
  }

  function Find(records: seq<Record>, attempt: nat): (i: Option<nat>)
    ensures i.Some? ==> i.value < |records| && records[i.value].attempt == attempt
    ensures i.None? ==> forall r :: r in records ==> r.attempt != attempt
  {
    if records == [] then None
    else if records[|records|-1].attempt == attempt then Some(|records| - 1)
    else
      assert forall r :: r in records ==> r in records[..|records|-1] || r == records[|records|-1];
      Find(records[..|records|-1], attempt)
  }

  /** The newest completed attempt on an input. */
  function FindCompleted(records: seq<Record>, input: nat): (i: Option<nat>)
    ensures i.Some? ==> i.value < |records| && records[i.value].status == Completed && records[i.value].input == input
    ensures i.None? ==> forall r :: r in records && r.input == input ==> r.status != Completed
  {
    if records == [] then None
    else if records[|records|-1].status == Completed && records[|records|-1].input == input then Some(|records| - 1)
    else
      assert forall r :: r in records ==> r in records[..|records|-1] || r == records[|records|-1];
      FindCompleted(records[..|records|-1], input)
  }

  datatype Store = Store(records: seq<Record>, retries: nat)

  /** What a runner records; `content` stands for evidence, skill and schema. */
  datatype Request = Request(input: nat, feedback: Option<nat>)

  /** Records an attempt, or finds it again when it was recorded with the same content and is
      still running.  `same` says that the rest of the content agrees. */
  function RecordAttempt(s: Store, attempt: nat, q: Request, atCursor: bool, same: bool): Result<Store, Fault> {
    if !atCursor then Err(StaleCursor)
    else
      var existing := Find(s.records, attempt);
      if existing.Some? then
        var r := s.records[existing.value];
        if r.status != Running || Request(r.input, r.feedback) != q || !same then Err(FactConflict) else Ok(s)
      else
        Ok(Store(s.records + [Record(attempt, q.input, Running, 0, None, q.feedback)],
                 s.retries + if attempt > 1 then 1 else 0))
  }

  /** How an attempt ended: with an output, or with an error and perhaps feedback for a repair. */
  datatype Ending = Output(output: nat) | Error(code: nat, feedback: Option<nat>)

  function Ended(r: Record, e: Ending): Record {
    match e
    case Output(output) => r.(status := Completed, output := output, feedback := None)
    case Error(code, feedback) => r.(status := Failed, errorCode := Some(code), feedback := feedback)
  }

  function Finalize(s: Store, attempt: nat, e: Ending): Result<Store, Fault> {
    var i := Find(s.records, attempt);
    if i.None? then Err(NotFound)
    else if s.records[i.value].status != Running then Err(FactConflict)
    else Ok(s.(records := s.records[i.value := Ended(s.records[i.value], e)]))
  }

  // ----- Runners -----

  /** A runner holds an attempt while the model runs, and is between attempts after a failure. */
  datatype Runner =
    | Idle | Holding(attempt: nat, input: nat) | Between(attempt: nat, request: Request) | Finished(output: nat)

  datatype State = State(store: Store, runners: map<nat, Runner>)

  datatype Event =
    | EResume(p: nat, input: nat, atCursor: bool, validator: nat -> Option<nat>)
    | ENext(p: nat, atCursor: bool, same: bool)
    | EFinalize(p: nat, ending: Ending)
    | ECrash(p: nat)

  function RunnerOf(s: State, p: nat): Runner {
    if p in s.runners then s.runners[p] else Idle
  }

  function Become(s: State, p: nat, r: Runner): State {
    s.(runners := s.runners[p := r])
  }

  datatype Resumption = Replay(output: nat) | Exhausted(store: Store) | Started(store: Store, attempt: nat) | Refused(fault: Fault)

  /** What a runner finds when it takes up an input: a completed attempt to replay, no attempt left,
      the next attempt, or a refusal that leaves the rows as they were.  `limit` is the number of
      attempts allowed in all. */
  function Resume(limit: nat, s: Store, input: nat, atCursor: bool): Resumption {
    var done := FindCompleted(s.records, input);
    if done.Some? then Replay(s.records[done.value].output)
    else
      var cleaned := s.(records := Interrupt(s.records, input));
      var next := NextAttempt(s.records, input);
      if next > limit then Exhausted(cleaned)
      else
        var r := RecordAttempt(cleaned, next, Request(input, LatestFeedback(s.records, input)), atCursor, true);
        if r.Err? then Refused(r.error) else Started(r.value, next)
  }

  /** A replayed output passes through the caller's validator, which may change or refuse it. */
  function Step(limit: nat, s: State, e: Event): State {
    match e
    case EResume(p, input, atCursor, validator) =>
      if RunnerOf(s, p) != Idle then s
      else (
        match Resume(limit, s.store, input, atCursor)
        case Replay(output) => if validator(output).None? then s else Become(s, p, Finished(validator(output).value))
        case Exhausted(store) => s.(store := store)
        case Started(store, attempt) => Become(s.(store := store), p, Holding(attempt, input))
        case Refused(_) => s)
    case ENext(p, atCursor, same) =>
      var runner := RunnerOf(s, p);
      if !runner.Between? then s
      else if runner.attempt + 1 > limit then Become(s, p, Idle)
      else
        var r := RecordAttempt(s.store, runner.attempt + 1, runner.request, atCursor, same);
        if r.Err? then Become(s, p, Idle)
        else Become(s.(store := r.value), p, Holding(runner.attempt + 1, runner.request.input))
    case EFinalize(p, ending) =>
      var runner := RunnerOf(s, p);
      if !runner.Holding? then s
      else
        var r := Finalize(s.store, runner.attempt, ending);
        if r.Err? then Become(s, p, Idle)
        else Become(s.(store := r.value), p,
          match ending
          case Output(output) => Finished(output)
          case Error(_, feedback) => Between(runner.attempt, Request(runner.input, feedback)))
    case ECrash(p) => Become(s, p, Idle)
  }

  function After(limit: nat, s: State, events: seq<Event>): State {
    if events == [] then s else Step(limit, After(limit, s, events[..|events|-1]), events[|events|-1])
  }

  const START: State := State(Store([], 0), map[])

  // ----- What every interleaving keeps -----

  /** Attempts are numbered from one without gaps, all on one input, and only the newest may be
      running or completed. */
  ghost predicate Ordered(records: seq<Record>) {
    && (forall i :: 0 <= i < |records| ==> records[i].attempt == i + 1)
    && (forall i :: 0 <= i < |records| ==> records[i].input == records[0].input)
    && (forall i :: 0 <= i < |records| - 1 ==> records[i].status == Failed)
  }

  predicate RunnerHolds(records: seq<Record>, r: Runner) {
    match r
    case Holding(a, input) => 1 <= a <= |records| && records[a-1].input == input
    case Between(a, q) => 1 <= a <= |records| && records[a-1].input == q.input && records[a-1].status == Failed
    case _ => true
  }

  /** The part of the invariant about the records alone. */
  ghost predicate StoreInv(limit: nat, s: Store) {
    && Ordered(s.records) && |s.records| <= limit
    && s.retries == (if s.records == [] then 0 else |s.records| - 1)
  }

  ghost predicate Inv(limit: nat, s: State) {
    && StoreInv(limit, s.store)
    && forall p :: p in s.runners ==> RunnerHolds(s.store.records, s.runners[p])
  }

  lemma {:induction false} NextIsLength(records: seq<Record>, input: nat)
    requires Ordered(records)
    ensures NextAttempt(records, input) ==
      if records != [] && records[0].input == input then |records| + 1 else 1
  {
    if records != [] {
      NextIsLength(records[..|records|-1], input);
    }
  }

  lemma {:induction false} FindIsIndex(records: seq<Record>, attempt: nat)
    requires forall i :: 0 <= i < |records| ==> records[i].attempt == i + 1
    ensures Find(records, attempt) == if 1 <= attempt <= |records| then Some(attempt - 1) else None
  {
    if records != [] {
      FindIsIndex(records[..|records|-1], attempt);
    }
  }

  /** How the records may change: some end, and at most one is added. */
  ghost predicate Evolves(a: seq<Record>, b: seq<Record>) {
    && |a| <= |b|
    && (forall i :: 0 <= i < |a| ==> b[i].input == a[i].input)
    && (forall i :: 0 <= i < |a| && a[i].status != Running ==> b[i] == a[i])
  }

  lemma InterruptEvolves(records: seq<Record>, input: nat)
    requires Ordered(records)
    ensures Ordered(Interrupt(records, input)) && Evolves(records, Interrupt(records, input))
    ensures records != [] && records[0].input == input && FindCompleted(records, input).None? ==>
      forall i :: 0 <= i < |records| ==> Interrupt(records, input)[i].status == Failed
  {
    assert forall i :: 0 <= i < |records| ==> records[i] in records;
  }

  lemma RunnersSurvive(a: seq<Record>, b: seq<Record>, r: Runner)
    requires RunnerHolds(a, r) && Evolves(a, b)
    ensures RunnerHolds(b, r)
  {
  }

  lemma StepKeeps(limit: nat, s: State, e: Event)
    requires Inv(limit, s)
    ensures Inv(limit, Step(limit, s, e)) && Evolves(s.store.records, Step(limit, s, e).store.records)
  {
    var a, b := s.store.records, Step(limit, s, e).store.records;
    RecordsKeep(limit, s, e);
    hide Step;
    forall q | q in Step(limit, s, e).runners ensures RunnerHolds(b, Step(limit, s, e).runners[q]) {
      OthersKeep(limit, s, e, q);
      if q != e.p && q in s.runners {
        RunnersSurvive(a, b, s.runners[q]);
      }
    }
  }

  lemma OthersKeep(limit: nat, s: State, e: Event, q: nat)
    ensures q != e.p && q in Step(limit, s, e).runners ==>
      q in s.runners && Step(limit, s, e).runners[q] == s.runners[q]
  {
  }

  /** A new attempt may follow when all earlier ones have failed. */
  lemma RecordKeeps(limit: nat, s: Store, attempt: nat, q: Request, atCursor: bool, same: bool)
    requires StoreInv(limit, s) && 1 <= attempt <= limit && attempt <= |s.records| + 1
    requires attempt == |s.records| + 1 && s.records != [] ==>
      s.records[|s.records|-1].status == Failed && s.records[0].input == q.input
    requires RecordAttempt(s, attempt, q, atCursor, same).Ok?
    ensures var t := RecordAttempt(s, attempt, q, atCursor, same).value;
      StoreInv(limit, t) && Evolves(s.records, t.records) && RunnerHolds(t.records, Holding(attempt, q.input))
  {
    FindIsIndex(s.records, attempt);
  }

  lemma FinalizeKeeps(limit: nat, s: Store, attempt: nat, e: Ending)
    requires StoreInv(limit, s) && 1 <= attempt <= |s.records| && Finalize(s, attempt, e).Ok?
    ensures var t := Finalize(s, attempt, e).value;
      && StoreInv(limit, t) && Evolves(s.records, t.records) && attempt <= |t.records|
      && (e.Error? ==> t.records[attempt-1].status == Failed)
  {
    FindIsIndex(s.records, attempt);
  }

  lemma EvolvesTrans(a: seq<Record>, b: seq<Record>, c: seq<Record>)
    requires Evolves(a, b) && Evolves(b, c)
    ensures Evolves(a, c)
  {
  }

  /** A resumption on an input other than that of the stored attempts starts over at the first
      attempt and is refused there; on the same input it goes on after the newest. */
  lemma ResumeKeeps(limit: nat, s: Store, input: nat, atCursor: bool)
    requires StoreInv(limit, s)
    ensures match Resume(limit, s, input, atCursor)
      case Exhausted(t) => StoreInv(limit, t) && Evolves(s.records, t.records)
      case Started(t, attempt) =>
        StoreInv(limit, t) && Evolves(s.records, t.records) && RunnerHolds(t.records, Holding(attempt, input))
      case _ => true
    ensures Resume(limit, s, input, atCursor) == Refused(FactConflict) <==>
      atCursor && limit > 0 && s.records != [] && s.records[0].input != input
  {
    var cleaned := s.(records := Interrupt(s.records, input));
    var next, q := NextAttempt(s.records, input), Request(input, LatestFeedback(s.records, input));
    InterruptEvolves(s.records, input);
    NextIsLength(s.records, input);
    FindIsIndex(cleaned.records, next);
    assert s.records != [] && s.records[0].input != input ==> FindCompleted(s.records, input).None?;
    if FindCompleted(s.records, input).None? && next <= limit && RecordAttempt(cleaned, next, q, atCursor, true).Ok? {
      RecordKeeps(limit, cleaned, next, q, atCursor, true);
      EvolvesTrans(s.records, cleaned.records, RecordAttempt(cleaned, next, q, atCursor, true).value.records);
    }
    hide Evolves, LatestFeedback;
  }

  lemma ResumeEventKeeps(limit: nat, s: State, p: nat, input: nat, atCursor: bool, validator: nat -> Option<nat>)
    requires Inv(limit, s)
    ensures var t := Step(limit, s, EResume(p, input, atCursor, validator));
      StoreInv(limit, t.store) && Evolves(s.store.records, t.store.records) && RunnerHolds(t.store.records, RunnerOf(t, p))
  {
    assert RunnerHolds(s.store.records, RunnerOf(s, p));
    assert Evolves(s.store.records, s.store.records);
    ResumeKeeps(limit, s.store, input, atCursor);
    hide Resume, Ordered, Evolves;
  }

  lemma NextKeeps(limit: nat, s: State, p: nat, atCursor: bool, same: bool)
    requires Inv(limit, s)
    ensures var t := Step(limit, s, ENext(p, atCursor, same));
      StoreInv(limit, t.store) && Evolves(s.store.records, t.store.records) && RunnerHolds(t.store.records, RunnerOf(t, p))
  {
    assert Evolves(s.store.records, s.store.records);
    hide RecordAttempt, Ordered, Evolves;
    var runner := RunnerOf(s, p);
    assert RunnerHolds(s.store.records, runner);
    if runner.Between? && runner.attempt + 1 <= limit && RecordAttempt(s.store, runner.attempt + 1, runner.request, atCursor, same).Ok? {
      RecordKeeps(limit, s.store, runner.attempt + 1, runner.request, atCursor, same);
    }
  }

  lemma FinalizeEventKeeps(limit: nat, s: State, p: nat, e: Ending)
    requires Inv(limit, s)
    ensures var t := Step(limit, s, EFinalize(p, e));
      StoreInv(limit, t.store) && Evolves(s.store.records, t.store.records) && RunnerHolds(t.store.records, RunnerOf(t, p))
  {
    var runner := RunnerOf(s, p);
    assert RunnerHolds(s.store.records, runner);
    assert Evolves(s.store.records, s.store.records);
    if runner.Holding? && Finalize(s.store, runner.attempt, e).Ok? {
      FinalizeKeeps(limit, s.store, runner.attempt, e);
    }
    hide Finalize, Ordered;
  }

  lemma {:induction false} RecordsKeep(limit: nat, s: State, e: Event)
    requires Inv(limit, s)
    ensures var t := Step(limit, s, e);
      StoreInv(limit, t.store) && Evolves(s.store.records, t.store.records) && RunnerHolds(t.store.records, RunnerOf(t, e.p))
  {
    match e
    case EResume(p, input, atCursor, validator) => ResumeEventKeeps(limit, s, p, input, atCursor, validator);
    case ENext(p, atCursor, same) => NextKeeps(limit, s, p, atCursor, same);
    case EFinalize(p, ending) => FinalizeEventKeeps(limit, s, p, ending);
    case ECrash(p) =>
  }

  lemma {:induction false} AfterKeeps(limit: nat, s: State, events: seq<Event>)
    requires Inv(limit, s)
    ensures Inv(limit, After(limit, s, events)) && Evolves(s.store.records, After(limit, s, events).store.records)
  {
    if events != [] {
      AfterKeeps(limit, s, events[..|events|-1]);
      StepKeeps(limit, After(limit, s, events[..|events|-1]), events[|events|-1]);
    }
  }

  /** Over any interleaving of runners, crashes and resumptions there are never more attempts than
      allowed; they are numbered from one without gaps, all but the newest have failed, so at most
      one runs or is completed, and the retry count is the number of attempts after the first. */
  lemma {:induction false} AttemptsAreBounded(limit: nat, events: seq<Event>)
    ensures var s := After(limit, START, events).store;
      && |s.records| <= limit
      && (forall i :: 0 <= i < |s.records| ==> s.records[i].attempt == i + 1)
      && (forall i :: 0 <= i < |s.records| - 1 ==> s.records[i].status == Failed)
      && s.retries == (if s.records == [] then 0 else |s.records| - 1)
  {
    AfterKeeps(limit, START, events);
  }

  /** Over any interleaving: a resumption conflicts with a stored attempt exactly when an attempt
      was stored for another input, because the key of an attempt leaves out the input. */
  lemma {:induction false} ResumeConflictsIff(limit: nat, events: seq<Event>, input: nat, atCursor: bool)
    ensures var s := After(limit, START, events).store;
      Resume(limit, s, input, atCursor) == Refused(FactConflict) <==>
        atCursor && limit > 0 && exists r :: r in s.records && r.input != input
  {
    AfterKeeps(limit, START, events);
    var s := After(limit, START, events).store;
    hide After, Resume;
    ResumeKeeps(limit, s, input, atCursor);
    if s.records != [] {
      assert s.records[0] in s.records;
    }
  }

  ghost predicate IsDone(records: seq<Record>) {
    records != [] && records[|records|-1].status == Completed
  }

  lemma DoneStays(limit: nat, s: State, e: Event)
    requires Inv(limit, s) && IsDone(s.store.records)
    ensures Step(limit, s, e).store == s.store
  {
    var records := s.store.records;
    assert RunnerHolds(records, RunnerOf(s, e.p));
    match e
    case EResume(p, input, atCursor, _) => DoneIsReplayed(limit, s.store, input, atCursor);
    case ENext(p, _, _) =>
      if RunnerOf(s, p).Between? {
        FindIsIndex(records, RunnerOf(s, p).attempt + 1);
      }
    case EFinalize(p, _) =>
      if RunnerOf(s, p).Holding? {
        FindIsIndex(records, RunnerOf(s, p).attempt);
      }
    case _ =>
  }

  /** A completed attempt is replayed on its input; on any other input there is no fresh start. */
  lemma DoneIsReplayed(limit: nat, s: Store, input: nat, atCursor: bool)
    requires StoreInv(limit, s) && IsDone(s.records)
    ensures var r, done := Resume(limit, s, input, atCursor), s.records[|s.records|-1];
      if done.input == input then r == Replay(done.output)
      else r == Refused(if atCursor then FactConflict else StaleCursor)
  {
    var records := s.records;
    assert records[|records|-1] in records;
    if records[0].input != input {
      NextIsLength(records, input);
      FindIsIndex(Interrupt(records, input), 1);
      assert forall r :: r in records ==> r.input != input;
    }
  }

  lemma {:induction false} DoneStaysAfter(limit: nat, s: State, events: seq<Event>)
    requires Inv(limit, s) && IsDone(s.store.records)
    ensures After(limit, s, events).store == s.store
  {
    if events != [] {
      DoneStaysAfter(limit, s, events[..|events|-1]);
      AfterKeeps(limit, s, events[..|events|-1]);
      DoneStays(limit, After(limit, s, events[..|events|-1]), events[|events|-1]);
    }
  }

  /** Once an attempt has completed, nothing is recorded or changed any more; every runner that
      resumes on its input is given what its validator makes of the output, or fails if it refuses;
      and one that resumes on another input is refused. */
  lemma {:induction false} CompletedIsReplayed(limit: nat, events: seq<Event>, more: seq<Event>, p: nat, input: nat,
                                               atCursor: bool, validator: nat -> Option<nat>)
    requires IsDone(After(limit, START, events).store.records)
    ensures var s := After(limit, START, events);
      var t, done := After(limit, s, more), s.store.records[|s.store.records|-1];
      && t.store == s.store
      && Resume(limit, t.store, input, atCursor) ==
           (if done.input == input then Replay(done.output) else Refused(if atCursor then FactConflict else StaleCursor))
      && (RunnerOf(t, p) == Idle ==>
            RunnerOf(Step(limit, t, EResume(p, input, atCursor, validator)), p) ==
              if done.input == input && validator(done.output).Some? then Finished(validator(done.output).value) else Idle)
  {
    AfterKeeps(limit, START, events);
    var s := After(limit, START, events);
    DoneStaysAfter(limit, s, more);
    hide After, Resume;
    DoneIsReplayed(limit, s.store, input, atCursor);
  }

  // ----- What the end of an attempt means for later resumptions -----

  lemma {:induction false} AfterJoins(limit: nat, s: State, first: seq<Event>, more: seq<Event>)
    ensures After(limit, s, first + more) == After(limit, After(limit, s, first), more)
  {
    hide Step;
    if more == [] {
      assert first + more == first;
    } else {
      var n := |more| - 1;
      AfterJoins(limit, s, first, more[..n]);
      assert (first + more)[..|first + more|-1] == first + more[..n];
    }
  }

  lemma AfterOneMore(limit: nat, s: State, events: seq<Event>, e: Event)
    ensures After(limit, s, events + [e]) == Step(limit, After(limit, s, events), e)
  {
    assert (events + [e])[..|events|] == events;
  }

  /** Runner `p` holds an attempt that is still running. */
  ghost predicate Runs(s: State, p: nat) {
    RunnerOf(s, p).Holding? &&
    exists r :: r in s.store.records && r.attempt == RunnerOf(s, p).attempt && r.status == Running
  }

  /** The attempt a runner ends is the newest one; it is the only record that changes. */
  lemma FinalizeEnds(limit: nat, s: State, p: nat, e: Ending)
    requires Inv(limit, s) && Runs(s, p)
    ensures var t, n := Step(limit, s, EFinalize(p, e)), |s.store.records|;
      && n > 0 && RunnerOf(s, p).attempt == n && s.store.records[n-1].input == RunnerOf(s, p).input
      && |t.store.records| == n && t.store.records[..n-1] == s.store.records[..n-1]
      && t.store.records[n-1] == Ended(s.store.records[n-1], e)
  {
    var records, a := s.store.records, RunnerOf(s, p).attempt;
    assert RunnerHolds(records, RunnerOf(s, p));
    var i :| 0 <= i < |records| && records[i].attempt == a && records[i].status == Running;
    assert i == |records| - 1;
    FindIsIndex(records, a);
  }

  /** When a runner ends its running attempt with an output, it has that output, and every later
      resumption on that input replays it, whatever happens in between. */
  lemma {:induction false} OutputIsReplayed(limit: nat, events: seq<Event>, p: nat, output: nat, more: seq<Event>, atCursor: bool)
    requires Runs(After(limit, START, events), p)
    ensures var s := After(limit, START, events);
      var t := After(limit, START, events + [EFinalize(p, Output(output))] + more);
      && Resume(limit, t.store, RunnerOf(s, p).input, atCursor) == Replay(output)
      && RunnerOf(After(limit, START, events + [EFinalize(p, Output(output))]), p) == Finished(output)
  {
    AfterKeeps(limit, START, events);
    var s := After(limit, START, events);
    FinalizeEnds(limit, s, p, Output(output));
    FindIsIndex(s.store.records, RunnerOf(s, p).attempt);
    var first := events + [EFinalize(p, Output(output))];
    AfterOneMore(limit, START, events, EFinalize(p, Output(output)));
    AfterKeeps(limit, START, first);
    AfterJoins(limit, START, first, more);
    hide Step, Resume;
    DoneStaysAfter(limit, After(limit, START, first), more);
    DoneIsReplayed(limit, After(limit, START, first).store, RunnerOf(s, p).input, atCursor);
  }

  lemma {:induction false} CodeIsListed(records: seq<Record>, input: nat, i: nat, c: nat)
    requires i < |records| && HasCode(records[i], input, c)
    ensures c in Codes(records, input)
  {
    CodesAreExact(records, input, c);
    assert records[i] in records;
  }

  /** When a runner ends its running attempt with an error, every later resumption on that input lists
      the code; and the next one, if an attempt is left, records the next attempt with the feedback of
      this error. */
  lemma {:induction false} ErrorIsCarried(limit: nat, events: seq<Event>, p: nat, code: nat, feedback: Option<nat>, more: seq<Event>)
    requires Runs(After(limit, START, events), p)
    ensures var s := After(limit, START, events);
      var t := After(limit, START, events + [EFinalize(p, Error(code, feedback))]);
      var u := After(limit, START, events + [EFinalize(p, Error(code, feedback))] + more);
      var input, n := RunnerOf(s, p).input, |s.store.records|;
      && code in Codes(u.store.records, input)
      && (feedback.Some? && n < limit ==>
            var r := Resume(limit, t.store, input, true);
            && r.Started? && r.attempt == n + 1 && |r.store.records| == n + 1
            && r.store.records[n] == Record(n + 1, input, Running, 0, None, feedback))
  {
    var e := EFinalize(p, Error(code, feedback));
    AfterKeeps(limit, START, events);
    var s := After(limit, START, events);
    FinalizeEnds(limit, s, p, Error(code, feedback));
    AfterOneMore(limit, START, events, e);
    AfterKeeps(limit, START, events + [e]);
    AfterJoins(limit, START, events + [e], more);
    var t := After(limit, START, events + [e]);
    AfterKeeps(limit, t, more);
    var n := |s.store.records|;
    hide Step, Resume, After;
    CodeIsListed(After(limit, t, more).store.records, RunnerOf(s, p).input, n - 1, code);
    if feedback.Some? && n < limit {
      ResumeAfterFailure(limit, t.store, RunnerOf(s, p).input, feedback);
    }
  }

  lemma ResumeAfterFailure(limit: nat, s: Store, input: nat, feedback: Option<nat>)
    requires StoreInv(limit, s) && s.records != [] && |s.records| < limit && feedback.Some?
    requires var last := s.records[|s.records|-1]; last.status == Failed && last.input == input && last.feedback == feedback
    ensures var r, n := Resume(limit, s, input, true), |s.records|;
      && r.Started? && r.attempt == n + 1 && |r.store.records| == n + 1
      && r.store.records[n] == Record(n + 1, input, Running, 0, None, feedback)
  {
    var records := s.records;
    assert forall i :: 0 <= i < |records| ==> records[i].status == Failed;
    assert FindCompleted(records, input).None?;
    NextIsLength(records, input);
    assert forall i :: 0 <= i < |records| ==> Interrupted(records[i], input) == records[i];
    assert Interrupt(records, input) == records;
    FindIsIndex(records, |records| + 1);
  }

  /** A resumption ends what an earlier runner left running on its input, as interrupted, and lists
      that code; it starts the attempt after it if one is left, and it leaves other records alone. */
  lemma {:induction false} ResumptionInterrupts(limit: nat, events: seq<Event>, input: nat)
    requires var records := After(limit, START, events).store.records;
      records != [] && records[|records|-1].status == Running && records[|records|-1].input == input
    ensures var s := After(limit, START, events).store;
      INTERRUPTED in Codes(s.records, input) && InterruptsNewest(limit, s, Resume(limit, s, input, true))
  {
    AfterKeeps(limit, START, events);
    var s := After(limit, START, events).store;
    hide After;
    CodeIsListed(s.records, input, |s.records| - 1, INTERRUPTED);
    ResumeInterrupts(limit, s, input);
  }

  /** The newest attempt ends as interrupted, and the next one starts if the limit leaves one. */
  ghost predicate InterruptsNewest(limit: nat, s: Store, r: Resumption)
    requires s.records != []
  {
    var n := |s.records|;
    var cleaned := s.records[..n-1] + [s.records[n-1].(status := Failed, errorCode := Some(INTERRUPTED))];
    if n < limit then
      r.Started? && r.attempt == n + 1 && |r.store.records| == n + 1 && r.store.records[..n] == cleaned &&
      r.store.records[n].status == Running
    else r == Exhausted(s.(records := cleaned))
  }

  lemma ResumeInterrupts(limit: nat, s: Store, input: nat)
    requires StoreInv(limit, s) && s.records != []
    requires var last := s.records[|s.records|-1]; last.status == Running && last.input == input
    ensures InterruptsNewest(limit, s, Resume(limit, s, input, true))
  {
    var records, n := s.records, |s.records|;
    var cleaned := records[..n-1] + [records[n-1].(status := Failed, errorCode := Some(INTERRUPTED))];
    assert Interrupt(records, input) == cleaned;
    NextIsLength(records, input);
    FindIsIndex(cleaned, n + 1);
    assert FindCompleted(records, input).None?;
    hide Interrupt, NextAttempt, FindCompleted, Find, LatestFeedback, Ordered;
  }

  /** An attempt is finalised only while it runs; recording it again finds it only while it runs with
      the same content. */
  lemma AttemptsAreFinal(s: Store, attempt: nat, q: Request, e: Ending, atCursor: bool, same: bool)
    requires forall i, j :: 0 <= i < j < |s.records| ==> s.records[i].attempt != s.records[j].attempt
    ensures Finalize(s, attempt, e).Ok? <==> exists r :: r in s.records && r.attempt == attempt && r.status == Running
    ensures Finalize(s, attempt, e) == Err(NotFound) <==> forall r :: r in s.records ==> r.attempt != attempt
    ensures Finalize(s, attempt, e).Err? ==> Finalize(s, attempt, e).error != StaleCursor
    ensures (exists r :: r in s.records && r.attempt == attempt) ==>
      RecordAttempt(s, attempt, q, atCursor, same) ==
        if !atCursor then Err(StaleCursor)
        else if same && exists r :: r in s.records && r.attempt == attempt && r.status == Running && r.input == q.input && r.feedback == q.feedback
        then Ok(s) else Err(FactConflict)
  {
    var i := Find(s.records, attempt);
    if i.Some? {
      assert forall r :: r in s.records && r.attempt == attempt ==> r == s.records[i.value];
      assert s.records[i.value] in s.records;
    }
  }

  /** The runner itself goes on with the feedback of its own failure. */
  lemma {:induction false} RunnerRepairs(limit: nat, events: seq<Event>, p: nat, code: nat, feedback: Option<nat>, same: bool)
    requires Runs(After(limit, START, events), p) && |After(limit, START, events).store.records| < limit
    ensures var s := After(limit, START, events);
      var u := After(limit, START, events + [EFinalize(p, Error(code, feedback))] + [ENext(p, true, same)]);
      var n := |s.store.records|;
      && |u.store.records| == n + 1 && RunnerOf(u, p) == Holding(n + 1, RunnerOf(s, p).input)
      && u.store.records[n] == Record(n + 1, RunnerOf(s, p).input, Running, 0, None, feedback)
  {
    hide Step, After;
    var e := EFinalize(p, Error(code, feedback));
    AfterKeeps(limit, START, events);
    var s := After(limit, START, events);
    FinalizeEnds(limit, s, p, Error(code, feedback));
    FailureIsBetween(limit, s, p, code, feedback);
    AfterOneMore(limit, START, events, e);
    AfterOneMore(limit, START, events + [e], ENext(p, true, same));
    AfterKeeps(limit, START, events + [e]);
    NextStarts(limit, After(limit, START, events + [e]), p, same);
  }

  lemma FailureIsBetween(limit: nat, s: State, p: nat, code: nat, feedback: Option<nat>)
    requires Inv(limit, s) && Runs(s, p)
    ensures RunnerOf(Step(limit, s, EFinalize(p, Error(code, feedback))), p) ==
      Between(RunnerOf(s, p).attempt, Request(RunnerOf(s, p).input, feedback))
  {
    FinalizeEnds(limit, s, p, Error(code, feedback));
    FindIsIndex(s.store.records, RunnerOf(s, p).attempt);
  }

  lemma NextStarts(limit: nat, s: State, p: nat, same: bool)
    requires Inv(limit, s) && RunnerOf(s, p).Between? && RunnerOf(s, p).attempt == |s.store.records| < limit
    ensures var u, n, q := Step(limit, s, ENext(p, true, same)), |s.store.records|, RunnerOf(s, p).request;
      && |u.store.records| == n + 1 && RunnerOf(u, p) == Holding(n + 1, q.input)
      && u.store.records[n] == Record(n + 1, q.input, Running, 0, None, q.feedback)
  {
    FindIsIndex(s.store.records, |s.store.records| + 1);
  }

  // ----- The rows in place -----

  class InvocationRows {
    var records: seq<Record>
    var retries: nat

    function View(): Store
      reads this
    {
      Store(records, retries)
    }

    method RecordInvocation(attempt: nat, q: Request, atCursor: bool, same: bool) returns (r: Result<(), Fault>)
      modifies this
      ensures match RecordAttempt(old(View()), attempt, q, atCursor, same)
        case Ok(s) => View() == s && r == Ok(())
        case Err(e) => View() == old(View()) && r == Err(e)
    {
      if !atCursor {
        return Err(StaleCursor);
      }
      var existing := Find(records, attempt);
      if existing.Some? {
        var record := records[existing.value];
        if record.status != Running || record.input != q.input || record.feedback != q.feedback || !same {
          return Err(FactConflict);
        }
        return Ok(());
      }
      if attempt > 1 {
        retries := retries + 1;
      }
      records := records + [Record(attempt, q.input, Running, 0, None, q.feedback)];
      return Ok(());
    }

    method FinalizeInvocation(attempt: nat, ending: Ending) returns (r: Result<(), Fault>)
      modifies this`records
      ensures match Finalize(old(View()), attempt, ending)
        case Ok(s) => View() == s && r == Ok(())
        case Err(e) => View() == old(View()) && r == Err(e)
    {
      var i := Find(records, attempt);
      if i.None? {
        return Err(NotFound);
      }
      if records[i.value].status != Running {
        return Err(FactConflict);
      }
      records := records[i.value := Ended(records[i.value], ending)];
      return Ok(());
    }

    /** Marks what an earlier runner left running on this input as interrupted, and collects the
        newest repair feedback and the error codes seen. */
    method PrepareResume(input: nat) returns (next: nat, feedback: Option<nat>, codes: seq<nat>)
      modifies this`records
      ensures records == Interrupt(old(records), input) && next == NextAttempt(old(records), input)
      ensures feedback == LatestFeedback(old(records), input) && codes == Codes(old(records), input)
    {
      hide NextAttempt, Codes, LatestFeedback, Interrupt, WithCode;
      next, feedback, codes := 1, None, [];
      ghost var before := records;
      NothingPrepared(input);
      for k := 0 to |records|
        invariant records == Interrupt(before[..k], input) + before[k..]
        invariant next == NextAttempt(before[..k], input) && codes == Codes(before[..k], input)
        invariant feedback == LatestFeedback(before[..k], input)
      {
        var record := records[k];
        assert record == before[k];
        PrepareStep(before, k, input);
        if record.input == input {
          if record.feedback.Some? {
            feedback := record.feedback;
          }
          codes := WithCode(codes, record.errorCode);
          if record.attempt >= next {
            next := record.attempt + 1;
          }
          if record.status == Running {
            records := records[k := record.(status := Failed, errorCode := Some(INTERRUPTED))];
            codes := WithCode(codes, Some(INTERRUPTED));
          }
        }
        ReplaceAt(Interrupt(before[..k], input), before, k, record, Interrupted(record, input));
      }
      assert before[..|before|] == before;
    }
  }

  lemma ReplaceAt(front: seq<Record>, records: seq<Record>, k: nat, a: Record, b: Record)
    requires k < |records| && records[k] == a && |front| == k
    ensures (front + records[k..])[k := b] == front + [b] + records[k+1..]
    ensures a == b ==> front + records[k..] == front + [b] + records[k+1..]
  {
  }

  lemma NothingPrepared(input: nat)
    ensures NextAttempt([], input) == 1 && LatestFeedback([], input).None? && Codes([], input) == []
    ensures Interrupt([], input) == []
  {
  }

  lemma PrepareStep(records: seq<Record>, k: nat, input: nat)
    requires k < |records|
    ensures var front, more, r := records[..k], records[..k+1], records[k];
      && NextAttempt(more, input) ==
           (if r.input == input && r.attempt >= NextAttempt(front, input) then r.attempt + 1 else NextAttempt(front, input))
      && LatestFeedback(more, input) ==
           (if r.input == input && r.feedback.Some? then r.feedback else LatestFeedback(front, input))
      && Codes(more, input) == CodesWith(Codes(front, input), r, input)
      && Interrupt(more, input) == Interrupt(front, input) + [Interrupted(r, input)]
  {
    assert records[..k+1][..k] == records[..k];
  }

  function WithCode(codes: seq<nat>, c: Option<nat>): seq<nat> {
    if c.Some? && c.value !in codes then codes + [c.value] else codes
  }

  /** The error codes of the attempts on an input; an attempt left running counts as interrupted. */
  function Codes(records: seq<Record>, input: nat): seq<nat> {
    if records == [] then []
    else CodesWith(Codes(records[..|records|-1], input), records[|records|-1], input)
  }

  function CodesWith(codes: seq<nat>, r: Record, input: nat): seq<nat> {
    if r.input != input then codes
    else
      var own := WithCode(codes, r.errorCode);
      if r.status == Running then WithCode(own, Some(INTERRUPTED)) else own
  }

  predicate HasCode(r: Record, input: nat, c: nat) {
    r.input == input && (r.errorCode == Some(c) || (r.status == Running && c == INTERRUPTED))
  }

  /** Each code is listed once, and exactly the codes of some attempt on the input are listed. */
  lemma {:induction false} CodesAreExact(records: seq<Record>, input: nat, c: nat)
    ensures forall i, j :: 0 <= i < j < |Codes(records, input)| ==> Codes(records, input)[i] != Codes(records, input)[j]
    ensures c in Codes(records, input) <==> exists r :: r in records && HasCode(r, input, c)
  {
    if records != [] {
      var front, last := records[..|records|-1], records[|records|-1];
      CodesAreExact(front, input, c);
      assert last in records;
      if c in Codes(front, input) {
        var r :| r in front && HasCode(r, input, c);
        assert r in records;
      } else if c in Codes(records, input) {
        assert HasCode(last, input, c);
      }
      forall r | r in records && HasCode(r, input, c) ensures c in Codes(records, input) {
        assert r in front || r == last;
      }
    }
  }
}
