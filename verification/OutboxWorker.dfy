/** The cleanup worker: one bounded batch over the outbox, job by job. */
module OutboxWorker {
  import opened Collections
  import opened Outbox

  /** What the worker meets at one job: the time spent so far, another worker's lock, the storage answer. */
  datatype Turn = Turn(elapsed: nat, locked: bool, outcome: Outcome)

  datatype Result = Counts(deleted: nat, failed: nat, referenced: nat) | InvalidLimit | InsideTransaction | Crashed

  predicate IsDue(jobs: map<JobId, Job>, id: JobId, at: Time) {
    id in jobs && jobs[id].retryAt <= at
  }

  /** The queue order: retry time, then primary key. */
  predicate Before(jobs: map<JobId, Job>, a: JobId, b: JobId)
    requires a in jobs && b in jobs
  {
    jobs[a].retryAt < jobs[b].retryAt || (jobs[a].retryAt == jobs[b].retryAt && a < b)
  }

  function DueSet(jobs: map<JobId, Job>, at: Time): set<JobId> {
    set id | id in jobs && jobs[id].retryAt <= at
  }

  ghost predicate IsDueBatch(jobs: map<JobId, Job>, at: Time, limit: nat, ids: seq<JobId>) {
    && |ids| <= limit
    && (forall id | id in ids :: IsDue(jobs, id, at))
    && (forall i, j | 0 <= i < j < |ids| :: ids[i] in jobs && ids[j] in jobs && Before(jobs, ids[i], ids[j]))
    && (forall i, other | 0 <= i < |ids| && IsDue(jobs, other, at) && other !in ids ::
          ids[i] in jobs && Before(jobs, ids[i], other))
    && (|ids| < limit ==> forall id | IsDue(jobs, id, at) :: id in ids)
  }

  /** The attempts of a batch that worked through `ids`: one for each that no other worker had locked, in order. */
  function Attempts(ids: seq<JobId>, turns: seq<Turn>, at: Time): seq<Event>
    requires |ids| <= |turns|
  {
    if ids == [] then []
    else
      var n := |ids| - 1;
      Attempts(ids[..n], turns, at) + (if turns[n].locked then [] else [Attempt(ids[n], at, turns[n].outcome)])
  }

  /** The process dies at this job: storage deleted the file, the queue row was not yet gone. */
  predicate Crashes(s: State, id: JobId, at: Time, turn: Turn) {
    && !turn.locked && id in s.jobs && s.jobs[id].retryAt <= at
    && !IsReferenced(s, s.jobs[id].key) && turn.outcome == CrashedAfterDelete
  }

  predicate CrashesAt(start: State, ids: seq<JobId>, turns: seq<Turn>, at: Time, k: nat)
    requires k < |ids| <= |turns|
  {
    Crashes(After(start, Attempts(ids[..k], turns, at)), ids[k], at, turns[k])
  }

  /** How far a batch goes: past every job met in time, up to the first crash. */
  ghost predicate StopsAfter(start: State, ids: seq<JobId>, turns: seq<Turn>, at: Time, worked: nat, crashed: bool)
    requires |ids| <= |turns|
  {
    && worked <= |ids|
    && (forall k | 0 <= k < worked :: turns[k].elapsed < 45)
    && (forall k | 0 <= k < worked :: CrashesAt(start, ids, turns, at, k) <==> crashed && k == worked - 1)
    && (crashed ==> worked > 0)
    && (!crashed ==> worked == |ids| || turns[worked].elapsed >= 45)
  }

  lemma AfterOneMore(s: State, events: seq<Event>, e: Event)
    ensures After(s, events + [e]) == Step(After(s, events), e)
  {
  }

  class Worker {
    var refs: map<RowId, seq<string>>
    var stored: set<string>
    var jobs: map<JobId, Job>
    var next: JobId

    constructor ()
      ensures Rows() == State(map[], {}, map[], 0)
    {
      refs, stored, jobs, next := map[], {}, map[], 0;
    }

    ghost function Rows(): State reads this {
      State(refs, stored, jobs, next)
    }

    /** `get_or_create` for every named file of the deleted row, in its transaction. */
    method RemoveRow(row: RowId, at: Time)
      modifies this
      ensures Rows() == Step(old(Rows()), Remove(row, at))
    {
      if row !in refs {
        return;
      }
      var keys := refs[row];
      for n := 0 to |keys|
        invariant refs == old(refs)
        invariant QueueAll(Rows(), keys[n..], at) == QueueAll(old(Rows()), keys, at)
      {
        var key := keys[n];
        assert keys[n..][1..] == keys[n + 1..];
        if key != "" {
          var pending := FindJob(key);
          if !pending {
            jobs := jobs[next := Job(key, 0, at, at, NoError)];
            next := next + 1;
          }
        }
      }
      QueueKeepsStorage(old(Rows()), keys, at);
      refs := refs - {row};
    }

    method FindJob(key: string) returns (found: bool)
      ensures found == IsPending(Rows(), key)
    {
      var rest := jobs.Keys;
      while rest != {}
        invariant rest <= jobs.Keys
        invariant forall id | id in jobs && id !in rest :: jobs[id].key != key
        decreases |rest|
      {
        var id :| id in rest;
        if jobs[id].key == key {
          return true;
        }
        rest := rest - {id};
      }
      return false;
    }

    /** `_still_referenced`. */
    method StillReferenced(key: string) returns (found: bool)
      ensures found == IsReferenced(Rows(), key)
    {
      var rest := refs.Keys;
      while rest != {}
        invariant rest <= refs.Keys
        invariant forall row | row in refs && row !in rest :: key !in refs[row]
        decreases |rest|
      {
        var row :| row in rest;
        if key in refs[row] {
          return true;
        }
        rest := rest - {row};
      }
      return false;
    }

    method Earliest(rest: set<JobId>) returns (first: JobId)
      requires rest != {} && rest <= jobs.Keys
      ensures first in rest && forall id | id in rest && id != first :: Before(jobs, first, id)
    {
      first :| first in rest;
      var left := rest - {first};
      while left != {}
        invariant left <= rest && first in rest && first !in left
        invariant forall id | id in rest && id !in left && id != first :: Before(jobs, first, id)
        decreases |left|
      {
        var id :| id in left;
        left := left - {id};
        if Before(jobs, id, first) {
          first := id;
        }
      }
    }

    method DueJobs(at: Time, limit: nat) returns (ids: seq<JobId>)
      ensures IsDueBatch(jobs, at, limit, ids)
    {
      ids := [];
      var rest := DueSet(jobs, at);
      while |ids| < limit && rest != {}
        invariant |ids| <= limit && rest <= jobs.Keys
        invariant forall id :: IsDue(jobs, id, at) <==> id in ids || id in rest
        invariant forall id | id in ids :: id !in rest
        invariant forall i, j | 0 <= i < j < |ids| :: Before(jobs, ids[i], ids[j])
        invariant forall i, other | 0 <= i < |ids| && other in rest :: Before(jobs, ids[i], other)
      {
        var first := Earliest(rest);
        ids := ids + [first];
        rest := rest - {first};
      }
    }

    /** One job in its own transaction; a lock held elsewhere skips it. */
    method AttemptJob(id: JobId, at: Time, turn: Turn) returns (result: Result)
      modifies this
      ensures Rows() == if turn.locked then old(Rows()) else Step(old(Rows()), Attempt(id, at, turn.outcome))
      ensures result.Counts? || result == Crashed
      ensures result == Crashed <==> Crashes(old(Rows()), id, at, turn)
      ensures result.Counts? ==> IsEffect(old(jobs), jobs, id, result)
    {
      if turn.locked || id !in jobs || jobs[id].retryAt > at {
        return Counts(0, 0, 0);
      }
      var job := jobs[id];
      var referenced := StillReferenced(job.key);
      if referenced {
        jobs := jobs[id := Postponed(job, at, Error.StillReferenced)];
        result := Counts(0, 0, 1);
      } else if turn.outcome == Failed {
        jobs := jobs[id := Postponed(job, at, StorageError)];
        result := Counts(0, 1, 0);
      } else {
        stored := stored - {job.key};
        if turn.outcome == CrashedAfterDelete {
          return Crashed;
        }
        jobs := jobs - {id};
        result := Counts(1, 0, 0);
      }
    }

    /**
     * A batch attempts its due jobs in queue order, skipping those locked elsewhere, until the deadline or a crash.
     * Its counts say how many jobs were discarded, refused by storage and still referenced; others stay as they were.
     */
    method Process(limit: int, at: Time, inTransaction: bool, turns: seq<Turn>)
      returns (result: Result, ghost ids: seq<JobId>, ghost worked: nat)
      requires |turns| >= 100
      modifies this
      ensures inTransaction ==> result == InsideTransaction
      ensures !inTransaction ==> (result == InvalidLimit <==> !(1 <= limit <= 100))
      ensures inTransaction || result == InvalidLimit ==> Rows() == old(Rows())
      ensures !inTransaction && 1 <= limit <= 100 ==>
        && IsDueBatch(old(jobs), at, limit, ids)
        && StopsAfter(old(Rows()), ids, turns, at, worked, result == Crashed)
        && Rows() == After(old(Rows()), Attempts(ids[..worked], turns, at))
        && (result.Counts? || result == Crashed)
        && (result.Counts? ==> IsTally(old(jobs), jobs, ids[..worked], result))
    {
      ids, worked := [], 0;
      if inTransaction {
        return InsideTransaction, ids, worked;
      }
      if limit < 1 || limit > 100 {
        return InvalidLimit, ids, worked;
      }
      var due := DueJobs(at, limit);
      ids := due;
      BatchHasNoRepeats(jobs, at, limit, due);
      result, worked := AttemptAll(due, at, turns);
    }

    method AttemptAll(due: seq<JobId>, at: Time, turns: seq<Turn>) returns (result: Result, ghost worked: nat)
      requires |due| <= |turns| && AreJobs(jobs, due) && NoRepeats(due)
      modifies this
      ensures StopsAfter(old(Rows()), due, turns, at, worked, result == Crashed)
      ensures IsBatch(old(Rows()), Rows(), result, due[..worked], turns, at)
    {
      result := Counts(0, 0, 0);
      var n := 0;
      NothingAttempted(old(Rows()), due, turns, at);
      while n < |due| && result != Crashed && turns[n].elapsed < 45
        invariant 0 <= n <= |due|
        invariant IsBatch(old(Rows()), Rows(), result, due[..n], turns, at)
        invariant IsUninterrupted(old(Rows()), due, turns, at, n, result == Crashed)
      {
        result := AttemptNext(due, n, at, turns, result, old(Rows()));
        n := n + 1;
      }
      worked := n;
      BatchEnds(old(Rows()), due, turns, at, n, result == Crashed);
    }

    /** The next job of a batch that has worked through the first `n` since `start`. */
    method AttemptNext(due: seq<JobId>, n: nat, at: Time, turns: seq<Turn>, sofar: Result, ghost start: State)
      returns (result: Result)
      requires n < |due| <= |turns| && NoRepeats(due) && due[n] in start.jobs && turns[n].elapsed < 45
      requires sofar.Counts? && IsBatch(start, Rows(), sofar, due[..n], turns, at)
      requires IsUninterrupted(start, due, turns, at, n, false)
      modifies this
      ensures IsBatch(start, Rows(), result, due[..n + 1], turns, at)
      ensures IsUninterrupted(start, due, turns, at, n + 1, result == Crashed)
    {
      var id := due[n];
      ghost var before, done := jobs, due[..n];
      result := AttemptJob(id, at, turns[n]);
      NotSeenYet(due, n);
      OneMoreAttempt(start, due, n, turns, at);
      if result.Counts? {
        TallyOneMore(start.jobs, before, jobs, done, id, sofar, result);
        result := Plus(sofar, result);
      }
    }
  }

  ghost predicate IsUninterrupted(start: State, due: seq<JobId>, turns: seq<Turn>, at: Time, n: nat, crashed: bool)
    requires |due| <= |turns|
  {
    && n <= |due| && (crashed ==> n > 0)
    && (forall k | 0 <= k < n :: turns[k].elapsed < 45)
    && (forall k | 0 <= k < n :: CrashesAt(start, due, turns, at, k) <==> crashed && k == n - 1)
  }

  /** A batch that has worked through `done`: its attempts, and counts that tally unless the worker crashed. */
  ghost predicate IsBatch(start: State, now: State, result: Result, done: seq<JobId>, turns: seq<Turn>, at: Time)
    requires |done| <= |turns|
  {
    && now == After(start, Attempts(done, turns, at))
    && (result.Counts? || result == Crashed)
    && (result.Counts? ==> IsTally(start.jobs, now.jobs, done, result))
  }

  lemma NothingAttempted(start: State, due: seq<JobId>, turns: seq<Turn>, at: Time)
    requires |due| <= |turns|
    ensures IsBatch(start, start, Counts(0, 0, 0), due[..0], turns, at)
    ensures IsUninterrupted(start, due, turns, at, 0, false)
  {
  }

  lemma BatchEnds(start: State, due: seq<JobId>, turns: seq<Turn>, at: Time, n: nat, crashed: bool)
    requires |due| <= |turns| && IsUninterrupted(start, due, turns, at, n, crashed)
    requires crashed || n == |due| || turns[n].elapsed >= 45
    ensures StopsAfter(start, due, turns, at, n, crashed)
  {
  }

  lemma OneMoreAttempt(start: State, due: seq<JobId>, n: nat, turns: seq<Turn>, at: Time)
    requires n < |due| <= |turns|
    ensures due[..n + 1] == due[..n] + [due[n]]
    ensures var before := After(start, Attempts(due[..n], turns, at));
      After(start, Attempts(due[..n + 1], turns, at))
        == if turns[n].locked then before else Step(before, Attempt(due[n], at, turns[n].outcome))
  {
    assert due[..n + 1][..n] == due[..n];
    AfterOneMore(start, Attempts(due[..n], turns, at), Attempt(due[n], at, turns[n].outcome));
    assert Attempts(due[..n], turns, at) + [] == Attempts(due[..n], turns, at);
  }

  function Plus(a: Result, b: Result): Result
    requires a.Counts? && b.Counts?
  {
    Counts(a.deleted + b.deleted, a.failed + b.failed, a.referenced + b.referenced)
  }

  /** What one transaction does to the queue rows. */
  ghost predicate IsEffect(before: map<JobId, Job>, later: map<JobId, Job>, id: JobId, r: Result)
    requires r.Counts?
  {
    && later.Keys <= before.Keys && before.Keys - {id} <= later.Keys
    && (forall other | other in later && other != id :: later[other] == before[other])
    && r.deleted == (if id in before && id !in later then 1 else 0)
    && r.failed == (if IsPostponed(before, later, id, StorageError) then 1 else 0)
    && r.referenced == (if IsPostponed(before, later, id, StillReferenced) then 1 else 0)
    && (id in before && id in later && before[id] != later[id] ==> r.failed + r.referenced == 1)
  }

  predicate IsPostponed(before: map<JobId, Job>, later: map<JobId, Job>, id: JobId, error: Error) {
    id in before && id in later && later[id] != before[id] && later[id].error == error
  }

  function PostponedJobs(before: map<JobId, Job>, later: map<JobId, Job>, error: Error): set<JobId> {
    set id | id in before && IsPostponed(before, later, id, error)
  }

  ghost predicate IsTally(before: map<JobId, Job>, later: map<JobId, Job>, done: seq<JobId>, r: Result)
    requires r.Counts?
  {
    && later.Keys <= before.Keys
    && |before.Keys - later.Keys| == r.deleted
    && |PostponedJobs(before, later, StorageError)| == r.failed
    && |PostponedJobs(before, later, StillReferenced)| == r.referenced
    && AsBefore(before, later, done)
  }

  ghost predicate AsBefore(before: map<JobId, Job>, later: map<JobId, Job>, done: seq<JobId>) {
    forall id | id in before && id !in done :: id in later && later[id] == before[id]
  }

  lemma TallyOneMore(before: map<JobId, Job>, mid: map<JobId, Job>, later: map<JobId, Job>,
                     done: seq<JobId>, id: JobId, r: Result, one: Result)
    requires r.Counts? && one.Counts? && id in before && id !in done
    requires IsTally(before, mid, done, r) && IsEffect(mid, later, id, one)
    ensures IsTally(before, later, done + [id], Plus(r, one))
  {
    DiscardedOneMore(before, mid, later, done, id, r, one);
    PostponedOneMore(before, mid, later, done, id, r, one);
    OthersStand(before, mid, later, done, id, r, one);
  }

  lemma DiscardedOneMore(before: map<JobId, Job>, mid: map<JobId, Job>, later: map<JobId, Job>,
                         done: seq<JobId>, id: JobId, r: Result, one: Result)
    requires r.Counts? && one.Counts? && id in before && id !in done
    requires IsTally(before, mid, done, r) && IsEffect(mid, later, id, one)
    ensures later.Keys <= before.Keys && |before.Keys - later.Keys| == r.deleted + one.deleted
  {
    assert id in mid;
    OneDiscarded(before.Keys, mid.Keys, later.Keys, id);
  }

  lemma OneDiscarded(before: set<JobId>, mid: set<JobId>, later: set<JobId>, id: JobId)
    requires mid <= before && id in mid && later <= mid && mid - {id} <= later
    ensures later <= before && |before - later| == |before - mid| + (if id in later then 0 else 1)
  {
    var gone := before - mid;
    assert before - later == if id in later then gone else gone + {id};
  }

  lemma PostponedOneMore(before: map<JobId, Job>, mid: map<JobId, Job>, later: map<JobId, Job>,
                         done: seq<JobId>, id: JobId, r: Result, one: Result)
    requires r.Counts? && one.Counts? && id in before && id !in done
    requires IsTally(before, mid, done, r) && IsEffect(mid, later, id, one)
    ensures |PostponedJobs(before, later, StorageError)| == r.failed + one.failed
    ensures |PostponedJobs(before, later, StillReferenced)| == r.referenced + one.referenced
  {
    OnePostponed(before, mid, later, id, StorageError);
    OnePostponed(before, mid, later, id, StillReferenced);
  }

  lemma OthersStand(before: map<JobId, Job>, mid: map<JobId, Job>, later: map<JobId, Job>,
                    done: seq<JobId>, id: JobId, r: Result, one: Result)
    requires r.Counts? && one.Counts? && IsTally(before, mid, done, r) && IsEffect(mid, later, id, one)
    ensures AsBefore(before, later, done + [id])
  {
  }

  lemma OnePostponed(before: map<JobId, Job>, mid: map<JobId, Job>, later: map<JobId, Job>, id: JobId, error: Error)
    requires later.Keys <= mid.Keys && id in mid && id in before && mid[id] == before[id]
    requires forall other | other in mid && other != id :: other in later && later[other] == mid[other]
    ensures |PostponedJobs(before, later, error)|
      == |PostponedJobs(before, mid, error)| + (if IsPostponed(mid, later, id, error) then 1 else 0)
  {
    var was, now := PostponedJobs(before, mid, error), PostponedJobs(before, later, error);
    assert id !in was;
    assert now == if IsPostponed(mid, later, id, error) then was + {id} else was;
  }

  ghost predicate AreJobs(jobs: map<JobId, Job>, ids: seq<JobId>) {
    forall id | id in ids :: id in jobs
  }

  lemma NotSeenYet(ids: seq<JobId>, n: nat)
    requires n < |ids| && NoRepeats(ids)
    ensures ids[n] !in ids[..n]
  {
  }

  lemma BatchHasNoRepeats(jobs: map<JobId, Job>, at: Time, limit: nat, ids: seq<JobId>)
    requires IsDueBatch(jobs, at, limit, ids)
    ensures NoRepeats(ids) && AreJobs(jobs, ids)
  {
  }
}
