/** The durable outbox behind deleted media: row deletes, shared keys, storage failures, crashes and retries. */
module Outbox {
  type RowId = nat
  type JobId = nat
  type Time = nat

  datatype Error = NoError | StillReferenced | StorageError

  datatype Job = Job(key: string, attempts: nat, retryAt: Time, lastAttempt: Time, error: Error)

  /** `refs` gives each row its file fields in field order, "" where a field is empty. */
  datatype State = State(refs: map<RowId, seq<string>>, stored: set<string>, jobs: map<JobId, Job>, next: JobId)

  // ---------------------------------------------------------------- the retry delay

  const MINUTE: nat := 60

  function Doubled(times: nat): (r: nat)
    ensures r >= 5
  {
    if times == 0 then 5 else 2 * Doubled(times - 1)
  }

  function Smaller(a: int, b: int): int {
    if a < b then a else b
  }

  /** Minutes until the next attempt, after `attempts` of them. */
  function Delay(attempts: int): int
    requires attempts >= 1
  {
    Smaller(60 * 24, Doubled(Smaller(attempts - 1, 9)))
  }

  lemma {:induction false} DoublingIsMonotone(a: nat, b: nat)
    requires a <= b
    ensures Doubled(a) <= Doubled(b)
  {
    if a < b {
      DoublingIsMonotone(a, b - 1);
    }
  }

  lemma DelayNeverShrinks(attempts: int, more: int)
    requires 1 <= attempts <= more
    ensures 5 <= Delay(attempts) <= Delay(more) <= 1440
  {
    DoublingIsMonotone(Smaller(attempts - 1, 9), Smaller(more - 1, 9));
  }

  /** Five minutes after the first attempt, then twice as long each time up to the ninth. */
  lemma DelayDoubles(attempts: int)
    requires 1 <= attempts < 9
    ensures Delay(1) == 5 && Delay(attempts + 1) == 2 * Delay(attempts)
  {
    assert Doubled(8) == 1280 by {
      assert Doubled(4) == 80;
    }
    DoublingIsMonotone(attempts, 8);
  }

  lemma DelayIsFullExactlyFromTheTenthAttempt(attempts: int)
    requires attempts >= 1
    ensures Delay(attempts) == 1440 <==> attempts >= 10
  {
    assert Doubled(8) == 2 * 2 * 2 * 2 * 2 * 2 * 2 * 2 * 5 by {
      assert Doubled(4) == 80;
    }
    if attempts < 10 {
      DoublingIsMonotone(attempts - 1, 8);
    }
  }

  // ---------------------------------------------------------------- events

  predicate IsReferenced(s: State, key: string) {
    exists row | row in s.refs :: key in s.refs[row]
  }

  predicate IsPending(s: State, key: string) {
    exists id | id in s.jobs :: s.jobs[id].key == key
  }

  datatype Outcome = Deleted | Failed | CrashedAfterDelete

  /**
   * A row is created over stored files; a row is deleted in one transaction with its queue rows;
   * a worker attempts one due job, storage answering with an outcome.
   */
  datatype Event =
    | Create(row: RowId, files: seq<string>)
    | Remove(row: RowId, at: Time)
    | Attempt(job: JobId, at: Time, outcome: Outcome)

  function Queue(s: State, key: string, at: Time): State {
    if key == "" || IsPending(s, key) then s
    else s.(jobs := s.jobs[s.next := Job(key, 0, at, at, NoError)], next := s.next + 1)
  }

  function QueueAll(s: State, keys: seq<string>, at: Time): State
    decreases keys
  {
    if keys == [] then s else QueueAll(Queue(s, keys[0], at), keys[1..], at)
  }

  function Names(files: seq<string>): set<string> {
    set key | key in files && key != ""
  }

  function Postponed(job: Job, at: Time, error: Error): Job {
    Job(job.key, job.attempts + 1, at + MINUTE * Delay(job.attempts + 1), at, error)
  }

  function AttemptStep(s: State, id: JobId, at: Time, outcome: Outcome): State {
    if id !in s.jobs || s.jobs[id].retryAt > at then s
    else
      var job := s.jobs[id];
      if IsReferenced(s, job.key) then s.(jobs := s.jobs[id := Postponed(job, at, StillReferenced)])
      else
        match outcome
        case Failed => s.(jobs := s.jobs[id := Postponed(job, at, StorageError)])
        case Deleted => s.(stored := s.stored - {job.key}, jobs := s.jobs - {id})
        case CrashedAfterDelete => s.(stored := s.stored - {job.key})
  }

  function Step(s: State, e: Event): State {
    match e
    case Create(row, files) =>
      if row in s.refs then s else s.(refs := s.refs[row := files], stored := s.stored + Names(files))
    case Remove(row, at) =>
      if row !in s.refs then s else QueueAll(s, s.refs[row], at).(refs := s.refs - {row})
    case Attempt(id, at, outcome) => AttemptStep(s, id, at, outcome)
  }

  function After(s: State, events: seq<Event>): State {
    if events == [] then s else Step(After(s, events[..|events| - 1]), events[|events| - 1])
  }

  // ---------------------------------------------------------------- safety

  ghost predicate ReferencedAreStored(s: State) {
    forall row, key | row in s.refs && key in s.refs[row] && key != "" :: key in s.stored
  }

  ghost predicate StoredAreAccountedFor(s: State) {
    forall key | key in s.stored :: IsReferenced(s, key) || IsPending(s, key)
  }

  ghost predicate JobsAreDistinct(s: State) {
    && (forall id | id in s.jobs :: id < s.next && s.jobs[id].key != "")
    && forall a, b | a in s.jobs && b in s.jobs && s.jobs[a].key == s.jobs[b].key :: a == b
  }

  ghost predicate JobsAreSpaced(s: State) {
    forall id | id in s.jobs && s.jobs[id].attempts > 0 ::
      s.jobs[id].retryAt == s.jobs[id].lastAttempt + MINUTE * Delay(s.jobs[id].attempts)
  }

  ghost predicate Safe(s: State) {
    && ReferencedAreStored(s) && StoredAreAccountedFor(s)
    && JobsAreDistinct(s) && JobsAreSpaced(s) && "" !in s.stored
  }

  /** Queueing only adds fresh jobs: one for each name that had none. */
  ghost predicate IsQueued(s: State, later: State, keys: seq<string>) {
    && later.refs == s.refs && later.stored == s.stored && s.next <= later.next
    && (forall id | id in s.jobs :: id in later.jobs && later.jobs[id] == s.jobs[id])
    && (forall key | key in keys && key != "" :: IsPending(later, key))
  }

  lemma QueueKeeps(s: State, key: string, at: Time)
    requires JobsAreDistinct(s) && JobsAreSpaced(s)
    ensures JobsAreDistinct(Queue(s, key, at)) && JobsAreSpaced(Queue(s, key, at))
    ensures IsQueued(s, Queue(s, key, at), [key])
  {
    var later := Queue(s, key, at);
    if later != s {
      assert later.jobs[s.next].key == key;
    }
  }

  lemma {:induction false} QueueAllKeeps(s: State, keys: seq<string>, at: Time)
    requires JobsAreDistinct(s) && JobsAreSpaced(s)
    ensures JobsAreDistinct(QueueAll(s, keys, at)) && JobsAreSpaced(QueueAll(s, keys, at))
    ensures IsQueued(s, QueueAll(s, keys, at), keys)
    decreases keys
  {
    if keys != [] {
      var one := Queue(s, keys[0], at);
      var all := QueueAll(s, keys, at);
      QueueKeeps(s, keys[0], at);
      QueueAllKeeps(one, keys[1..], at);
      forall key | key in keys && key != "" ensures IsPending(all, key) {
        if key == keys[0] {
          assert key in [keys[0]];
          PendingStays(one, all, key);
        }
      }
    }
  }

  lemma PendingStays(s: State, later: State, key: string)
    requires IsPending(s, key)
    requires forall id | id in s.jobs :: id in later.jobs && later.jobs[id] == s.jobs[id]
    ensures IsPending(later, key)
  {
  }

  lemma RemoveIsSafe(s: State, row: RowId, at: Time)
    requires Safe(s) && row in s.refs
    ensures Safe(Step(s, Remove(row, at)))
  {
    var queued := QueueAll(s, s.refs[row], at);
    var later := Step(s, Remove(row, at));
    QueueAllKeeps(s, s.refs[row], at);
    forall key | key in later.stored ensures IsReferenced(later, key) || IsPending(later, key) {
      if IsPending(s, key) {
        PendingStays(s, queued, key);
        PendingStays(queued, later, key);
      } else {
        var owner :| owner in s.refs && key in s.refs[owner];
        if owner == row {
          assert IsPending(queued, key);
          PendingStays(queued, later, key);
        } else {
          assert key in later.refs[owner];
        }
      }
    }
  }

  lemma PostponeIsSafe(s: State, id: JobId, at: Time, error: Error)
    requires Safe(s) && id in s.jobs
    ensures Safe(s.(jobs := s.jobs[id := Postponed(s.jobs[id], at, error)]))
  {
    var later := s.(jobs := s.jobs[id := Postponed(s.jobs[id], at, error)]);
    forall key | key in later.stored ensures IsReferenced(later, key) || IsPending(later, key) {
      if IsReferenced(s, key) {
        var row :| row in s.refs && key in s.refs[row];
        assert row in later.refs && key in later.refs[row];
      } else {
        var other :| other in s.jobs && s.jobs[other].key == key;
        assert later.jobs[other].key == key;
      }
    }
  }

  lemma DeletionIsSafe(s: State, id: JobId, outcome: Outcome, at: Time)
    requires Safe(s) && id in s.jobs && !IsReferenced(s, s.jobs[id].key) && outcome != Failed
    requires s.jobs[id].retryAt <= at
    ensures Safe(AttemptStep(s, id, at, outcome))
  {
    var later := AttemptStep(s, id, at, outcome);
    forall key | key in later.stored ensures IsReferenced(later, key) || IsPending(later, key) {
      if IsReferenced(s, key) {
        var row :| row in s.refs && key in s.refs[row];
        assert row in later.refs && key in later.refs[row];
      } else {
        var other :| other in s.jobs && s.jobs[other].key == key;
        assert other != id;
        assert later.jobs[other].key == key;
      }
    }
    forall row, key | row in later.refs && key in later.refs[row] && key != "" ensures key in later.stored {
      assert row in s.refs && key in s.refs[row];
    }
  }

  lemma CreateIsSafe(s: State, row: RowId, files: seq<string>)
    requires Safe(s) && row !in s.refs
    ensures Safe(Step(s, Create(row, files)))
  {
    var later := Step(s, Create(row, files));
    forall key | key in later.stored ensures IsReferenced(later, key) || IsPending(later, key) {
      if key in Names(files) {
        assert key in later.refs[row];
      } else if IsPending(s, key) {
        PendingStays(s, later, key);
      } else {
        var owner :| owner in s.refs && key in s.refs[owner];
        assert key in later.refs[owner];
      }
    }
  }

  lemma StepIsSafe(s: State, e: Event)
    requires Safe(s)
    ensures Safe(Step(s, e))
  {
    match e
    case Create(row, files) =>
      if row !in s.refs {
        CreateIsSafe(s, row, files);
      }
    case Remove(row, at) =>
      if row in s.refs {
        RemoveIsSafe(s, row, at);
      }
    case Attempt(id, at, outcome) =>
      if id in s.jobs && s.jobs[id].retryAt <= at {
        if IsReferenced(s, s.jobs[id].key) {
          PostponeIsSafe(s, id, at, StillReferenced);
        } else if outcome == Failed {
          PostponeIsSafe(s, id, at, StorageError);
        } else {
          DeletionIsSafe(s, id, outcome, at);
        }
      }
  }

  /** In every run a referenced file is stored, and a stored file is referenced or still pending. */
  lemma {:induction false} EveryRunIsSafe(s: State, events: seq<Event>)
    requires Safe(s)
    ensures Safe(After(s, events))
  {
    if events != [] {
      EveryRunIsSafe(s, events[..|events| - 1]);
      StepIsSafe(After(s, events[..|events| - 1]), events[|events| - 1]);
    }
  }

  /** A file leaves storage only through an attempt on its own due job, when no row refers to it. */
  lemma OnlyUnreferencedFilesLeave(s: State, e: Event, key: string)
    requires key in s.stored && key !in Step(s, e).stored
    ensures !IsReferenced(s, key)
    ensures e.Attempt? && e.job in s.jobs && s.jobs[e.job].key == key && s.jobs[e.job].retryAt <= e.at
    ensures e.outcome == CrashedAfterDelete ==> IsPending(Step(s, e), key)
  {
    match e
    case Create(row, files) =>
    case Remove(row, at) =>
      if row in s.refs {
        QueueKeepsStorage(s, s.refs[row], at);
      }
    case Attempt(id, at, outcome) =>
      if outcome == CrashedAfterDelete {
        assert Step(s, e).jobs[id].key == key;
      }
  }

  lemma {:induction false} QueueKeepsStorage(s: State, keys: seq<string>, at: Time)
    ensures QueueAll(s, keys, at).stored == s.stored
    ensures forall id | id in s.jobs && id < s.next ::
      id in QueueAll(s, keys, at).jobs && QueueAll(s, keys, at).jobs[id] == s.jobs[id]
    ensures s.next <= QueueAll(s, keys, at).next
    decreases keys
  {
    if keys != [] {
      QueueKeepsStorage(Queue(s, keys[0], at), keys[1..], at);
    }
  }

  // ---------------------------------------------------------------- spacing of attempts

  predicate IsTry(s: State, e: Event) {
    e.Attempt? && e.job in s.jobs && s.jobs[e.job].retryAt <= e.at
  }

  /** A job that survives a step is untouched, or was postponed by an attempt that was due. */
  lemma JobChangesOnlyByAttempts(s: State, e: Event, id: JobId)
    requires JobsAreDistinct(s) && id in s.jobs && id in Step(s, e).jobs
    ensures Step(s, e).jobs[id].key == s.jobs[id].key
    ensures Step(s, e).jobs[id] == s.jobs[id]
      || (IsTry(s, e) && e.job == id
          && (Step(s, e).jobs[id] == Postponed(s.jobs[id], e.at, StillReferenced)
              || Step(s, e).jobs[id] == Postponed(s.jobs[id], e.at, StorageError)))
  {
    if e.Remove? && e.row in s.refs {
      QueueKeepsStorage(s, s.refs[e.row], e.at);
    }
  }

  lemma JobIdsAreNotReused(s: State, e: Event, id: JobId)
    requires JobsAreDistinct(s) && id < s.next && id !in s.jobs
    ensures id !in Step(s, e).jobs && s.next <= Step(s, e).next
  {
    if e.Remove? && e.row in s.refs {
      QueueAddsFreshIds(s, s.refs[e.row], e.at, id);
    }
  }

  lemma {:induction false} QueueAddsFreshIds(s: State, keys: seq<string>, at: Time, id: JobId)
    requires id < s.next && id !in s.jobs
    ensures id !in QueueAll(s, keys, at).jobs && s.next <= QueueAll(s, keys, at).next
    decreases keys
  {
    if keys != [] {
      QueueAddsFreshIds(Queue(s, keys[0], at), keys[1..], at, id);
    }
  }

  lemma NextNeverFalls(s: State, e: Event)
    ensures s.next <= Step(s, e).next
  {
    if e.Remove? && e.row in s.refs {
      QueueKeepsStorage(s, s.refs[e.row], e.at);
    }
  }

  /** While a job lives, its attempts never fall and its next attempt time never moves earlier. */
  lemma {:induction false} JobsOnlyMoveLater(s: State, events: seq<Event>, id: JobId)
    requires Safe(s) && id in s.jobs && id in After(s, events).jobs
    ensures s.jobs[id].attempts <= After(s, events).jobs[id].attempts
    ensures s.jobs[id].retryAt <= After(s, events).jobs[id].retryAt
    ensures s.jobs[id].key == After(s, events).jobs[id].key
    ensures s.next <= After(s, events).next
  {
    if events != [] {
      var shorter := events[..|events| - 1];
      var before := After(s, shorter);
      EveryRunIsSafe(s, shorter);
      JobWasAlive(s, events, id);
      JobsOnlyMoveLater(s, shorter, id);
      JobChangesOnlyByAttempts(before, events[|events| - 1], id);
      NextNeverFalls(before, events[|events| - 1]);
    }
  }

  lemma {:induction false} JobWasAlive(s: State, events: seq<Event>, id: JobId)
    requires Safe(s) && id < s.next && |events| > 0 && id in After(s, events).jobs
    ensures id in After(s, events[..|events| - 1]).jobs && id < After(s, events[..|events| - 1]).next
  {
    var shorter := events[..|events| - 1];
    EveryRunIsSafe(s, shorter);
    NextOnlyGrows(s, shorter);
    if id !in After(s, shorter).jobs {
      JobIdsAreNotReused(After(s, shorter), events[|events| - 1], id);
      assert false;
    }
  }

  lemma {:induction false} NextOnlyGrows(s: State, events: seq<Event>)
    ensures s.next <= After(s, events).next
  {
    if events != [] {
      NextOnlyGrows(s, events[..|events| - 1]);
      NextNeverFalls(After(s, events[..|events| - 1]), events[|events| - 1]);
    }
  }

  /**
   * After any attempt that left the job pending, the next attempt on it, however many events later,
   * is at least the delay of that attempt away, and its own delay is no shorter.
   */
  lemma AttemptsAreSpaced(s: State, first: Event, between: seq<Event>, second: Event)
    requires Safe(s) && IsTry(s, first) && first.job in Step(s, first).jobs
    requires Step(s, first).jobs[first.job] != s.jobs[first.job]
    requires second.Attempt? && second.job == first.job && IsTry(After(Step(s, first), between), second)
    ensures second.at >= first.at + MINUTE * Delay(s.jobs[first.job].attempts + 1)
    ensures After(Step(s, first), between).jobs[first.job].attempts >= s.jobs[first.job].attempts + 1
  {
    StepIsSafe(s, first);
    JobChangesOnlyByAttempts(s, first, first.job);
    JobsOnlyMoveLater(Step(s, first), between, first.job);
  }
}
