/** Creations: two rewarded logs a day, and one bonus each. */
module Creations {
  type UserId = nat
  type CreationId = nat
  type Day = nat

  const DAILY_XP_LIMIT: nat := 2
  const BASELINE_XP: nat := 10

  datatype Status = Logged | Pending | Approved | Rejected

  datatype Creation = Creation(user: UserId, day: Day, status: Status, xpAwarded: nat, bonusXp: nat)

  /** The XP grants actually made, oldest first; they outlive the creations. */
  datatype Grant = Baseline(creation: CreationId, user: UserId, day: Day) | Bonus(creation: CreationId, xp: nat)

  /** The daily counter has no row that a deletion removes. */
  datatype Book = Book(
    creations: map<CreationId, Creation>, next: CreationId, counter: map<(UserId, Day), nat>, grants: seq<Grant>)

  const EMPTY_BOOK := Book(map[], 0, map[], [])

  function Count(b: Book, user: UserId, day: Day): nat {
    if (user, day) in b.counter then b.counter[(user, day)] else 0
  }

  datatype Event =
    | Log(user: UserId, day: Day, granted: bool)
    | Submit(id: CreationId, seen: Creation)
    | Withdraw(id: CreationId, seen: Creation)
    | Approve(id: CreationId, seen: Creation, xp: nat, granted: bool)
    | Reject(id: CreationId, seen: Creation)
    | Delete(id: CreationId)

  /** A grant that fails is swallowed: the row still says it was rewarded. */
  function LogStep(b: Book, user: UserId, day: Day, granted: bool): Book {
    var eligible := Count(b, user, day) < DAILY_XP_LIMIT;
    Book(
      b.creations[b.next := Creation(user, day, Logged, if eligible then BASELINE_XP else 0, 0)],
      b.next + 1,
      b.counter[(user, day) := Count(b, user, day) + 1],
      if eligible && granted then b.grants + [Baseline(b.next, user, day)] else b.grants)
  }

  function Moved(b: Book, id: CreationId, status: Status): Book
    requires id in b.creations
  {
    b.(creations := b.creations[id := b.creations[id].(status := status)])
  }

  /** A grant that fails leaves the request pending. */
  function ApproveStep(b: Book, id: CreationId, xp: nat, granted: bool): Book {
    if id !in b.creations || b.creations[id].status != Pending || !granted then b
    else
      b.(creations := b.creations[id := b.creations[id].(status := Approved, bonusXp := xp)],
         grants := b.grants + [Bonus(id, xp)])
  }

  /** `seen` is the caller's copy, read at any earlier time; every operation reloads the row first. */
  function Step(b: Book, e: Event): Book {
    match e
    case Log(user, day, granted) => LogStep(b, user, day, granted)
    case Submit(id, _) =>
      if id in b.creations && b.creations[id].status != Pending && b.creations[id].status != Approved
      then Moved(b, id, Pending) else b
    case Withdraw(id, _) =>
      if id in b.creations && b.creations[id].status == Pending then Moved(b, id, Logged) else b
    case Approve(id, _, xp, granted) => ApproveStep(b, id, xp, granted)
    case Reject(id, _) =>
      if id in b.creations && b.creations[id].status == Pending then Moved(b, id, Rejected) else b
    case Delete(id) => b.(creations := b.creations - {id})
  }

  function After(b: Book, events: seq<Event>): Book {
    if events == [] then b else Step(After(b, events[..|events| - 1]), events[|events| - 1])
  }

  // ---------------------------------------------------------------- invariants

  function Baselines(grants: seq<Grant>, user: UserId, day: Day): nat {
    if grants == [] then 0
    else
      var last := grants[|grants| - 1];
      Baselines(grants[..|grants| - 1], user, day)
      + (if last.Baseline? && last.user == user && last.day == day then 1 else 0)
  }

  function Bonuses(grants: seq<Grant>, id: CreationId): nat {
    if grants == [] then 0
    else
      var last := grants[|grants| - 1];
      Bonuses(grants[..|grants| - 1], id) + (if last.Bonus? && last.creation == id then 1 else 0)
  }

  /** No more logs of a day were rewarded than there were, and no more than two. */
  ghost predicate BaselinesAreCapped(b: Book) {
    forall user, day :: IsCapped(b, user, day)
  }

  predicate IsCapped(b: Book, user: UserId, day: Day) {
    Baselines(b.grants, user, day) <= Count(b, user, day) && Baselines(b.grants, user, day) <= DAILY_XP_LIMIT
  }

  /** A bonus was granted once for an approved creation, never for another that still exists. */
  ghost predicate BonusesAreSingle(b: Book) {
    && (forall id :: Bonuses(b.grants, id) <= 1)
    && (forall id | id in b.creations :: Bonuses(b.grants, id) == if b.creations[id].status == Approved then 1 else 0)
    && (forall id | id >= b.next :: Bonuses(b.grants, id) == 0)
    && (forall id | id in b.creations :: id < b.next)
  }

  ghost predicate Sound(b: Book) {
    BaselinesAreCapped(b) && BonusesAreSingle(b)
  }

  lemma OneMoreGrant(grants: seq<Grant>, g: Grant, user: UserId, day: Day, id: CreationId)
    ensures Baselines(grants + [g], user, day)
      == Baselines(grants, user, day) + (if g.Baseline? && g.user == user && g.day == day then 1 else 0)
    ensures Bonuses(grants + [g], id) == Bonuses(grants, id) + (if g.Bonus? && g.creation == id then 1 else 0)
  {
    assert (grants + [g])[..|grants|] == grants;
  }

  lemma OneMoreCounted(b: Book, user: UserId, day: Day, granted: bool, u: UserId, d: Day)
    ensures Count(LogStep(b, user, day, granted), u, d) == Count(b, u, d) + (if (u, d) == (user, day) then 1 else 0)
    ensures Baselines(LogStep(b, user, day, granted).grants, u, d)
      == Baselines(b.grants, u, d)
         + (if (u, d) == (user, day) && Count(b, user, day) < DAILY_XP_LIMIT && granted then 1 else 0)
  {
    OneMoreGrant(b.grants, Baseline(b.next, user, day), u, d, 0);
  }

  lemma LogIsSound(b: Book, user: UserId, day: Day, granted: bool)
    requires Sound(b)
    ensures Sound(LogStep(b, user, day, granted))
  {
    var later := LogStep(b, user, day, granted);
    forall u, d ensures IsCapped(later, u, d) {
      assert IsCapped(b, u, d);
      OneMoreCounted(b, user, day, granted, u, d);
    }
    forall id ensures Bonuses(later.grants, id) == Bonuses(b.grants, id) {
      OneMoreGrant(b.grants, Baseline(b.next, user, day), user, day, id);
    }
  }

  lemma ApproveIsCapped(b: Book, id: CreationId, xp: nat, granted: bool)
    requires BaselinesAreCapped(b)
    ensures BaselinesAreCapped(ApproveStep(b, id, xp, granted))
  {
    forall u, d ensures IsCapped(ApproveStep(b, id, xp, granted), u, d) {
      OneMoreGrant(b.grants, Bonus(id, xp), u, d, id);
      assert IsCapped(b, u, d);
    }
  }

  lemma ApproveIsSound(b: Book, id: CreationId, xp: nat, granted: bool)
    requires Sound(b)
    ensures Sound(ApproveStep(b, id, xp, granted))
  {
    ApproveIsCapped(b, id, xp, granted);
    var later := ApproveStep(b, id, xp, granted);
    if later != b {
      assert later.grants == b.grants + [Bonus(id, xp)];
      forall other ensures Bonuses(later.grants, other) == Bonuses(b.grants, other) + if other == id then 1 else 0 {
        OneMoreGrant(b.grants, Bonus(id, xp), 0, 0, other);
      }
    }
  }

  lemma MoveIsSound(b: Book, id: CreationId, status: Status)
    requires Sound(b) && id in b.creations && b.creations[id].status != Approved && status != Approved
    ensures Sound(Moved(b, id, status))
  {
    forall u, d ensures IsCapped(Moved(b, id, status), u, d) {
      assert IsCapped(b, u, d);
    }
  }

  lemma DeletionIsSound(b: Book, id: CreationId)
    requires Sound(b)
    ensures Sound(b.(creations := b.creations - {id}))
  {
    forall u, d ensures IsCapped(b.(creations := b.creations - {id}), u, d) {
      assert IsCapped(b, u, d);
    }
  }

  lemma StepIsSound(b: Book, e: Event)
    requires Sound(b)
    ensures Sound(Step(b, e))
  {
    match e
    case Log(user, day, granted) => LogIsSound(b, user, day, granted);
    case Approve(id, _, xp, granted) => ApproveIsSound(b, id, xp, granted);
    case Delete(id) => DeletionIsSound(b, id);
    case Submit(id, _) =>
      if Step(b, e) != b {
        MoveIsSound(b, id, Pending);
      }
    case Withdraw(id, _) =>
      if Step(b, e) != b {
        MoveIsSound(b, id, Logged);
      }
    case Reject(id, _) =>
      if Step(b, e) != b {
        MoveIsSound(b, id, Rejected);
      }
  }

  /**
   * Over every run of logs, deletions, requests and decisions by callers with stale copies, at most two
   * logs of a user and day are rewarded, and no creation gets a second bonus.
   */
  lemma {:induction false} EveryRunIsSound(events: seq<Event>)
    ensures Sound(After(EMPTY_BOOK, events))
  {
    if events != [] {
      EveryRunIsSound(events[..|events| - 1]);
      StepIsSound(After(EMPTY_BOOK, events[..|events| - 1]), events[|events| - 1]);
    }
  }

  lemma RewardsAreCapped(events: seq<Event>, user: UserId, day: Day, id: CreationId)
    ensures Baselines(After(EMPTY_BOOK, events).grants, user, day) <= 2
    ensures Bonuses(After(EMPTY_BOOK, events).grants, id) <= 1
  {
    EveryRunIsSound(events);
    assert IsCapped(After(EMPTY_BOOK, events), user, day);
  }

  /** How many logs of this user and day a run holds. */
  function Logs(events: seq<Event>, user: UserId, day: Day): nat {
    if events == [] then 0
    else
      var last := events[|events| - 1];
      Logs(events[..|events| - 1], user, day) + (if IsLogOf(last, user, day) then 1 else 0)
  }

  predicate IsLogOf(e: Event, user: UserId, day: Day) {
    e.Log? && e.user == user && e.day == day
  }

  /** How many of the first two logs of the day had a grant that succeeded. */
  function Granted(events: seq<Event>, user: UserId, day: Day): nat {
    if events == [] then 0
    else
      var less, last := events[..|events| - 1], events[|events| - 1];
      Granted(less, user, day)
      + (if IsLogOf(last, user, day) && Logs(less, user, day) < DAILY_XP_LIMIT && last.granted then 1 else 0)
  }

  /** The rewarded logs are those among the first two of the day whose grant succeeded, deletions or not. */
  lemma {:induction false} FirstTwoLogsAreRewarded(events: seq<Event>, user: UserId, day: Day)
    ensures Count(After(EMPTY_BOOK, events), user, day) == Logs(events, user, day)
    ensures Baselines(After(EMPTY_BOOK, events).grants, user, day) == Granted(events, user, day)
  {
    if events != [] {
      var less, last := events[..|events| - 1], events[|events| - 1];
      FirstTwoLogsAreRewarded(less, user, day);
      OneMoreEvent(After(EMPTY_BOOK, less), last, user, day);
    }
  }

  lemma OneMoreEvent(b: Book, e: Event, user: UserId, day: Day)
    ensures Count(Step(b, e), user, day) == Count(b, user, day) + (if IsLogOf(e, user, day) then 1 else 0)
    ensures Baselines(Step(b, e).grants, user, day)
      == Baselines(b.grants, user, day)
         + (if IsLogOf(e, user, day) && Count(b, user, day) < DAILY_XP_LIMIT && e.granted then 1 else 0)
  {
    match e
    case Log(u, d, granted) => OneMoreCounted(b, u, d, granted, user, day);
    case Approve(id, _, xp, _) => OneMoreGrant(b.grants, Bonus(id, xp), user, day, id);
    case _ =>
  }

  lemma {:induction false} EveryGrantCounts(events: seq<Event>, user: UserId, day: Day)
    requires forall e | e in events && e.Log? :: e.granted
    ensures Granted(events, user, day)
      == if Logs(events, user, day) < DAILY_XP_LIMIT then Logs(events, user, day) else DAILY_XP_LIMIT
  {
    if events != [] {
      assert events[|events| - 1] in events;
      EveryGrantCounts(events[..|events| - 1], user, day);
    }
  }

  /** When no grant fails, exactly the first two logs of a day are rewarded. */
  lemma UnfailingGrantsRewardTwo(events: seq<Event>, user: UserId, day: Day)
    requires forall e | e in events && e.Log? :: e.granted
    ensures Baselines(After(EMPTY_BOOK, events).grants, user, day)
      == if Logs(events, user, day) < DAILY_XP_LIMIT then Logs(events, user, day) else DAILY_XP_LIMIT
  {
    FirstTwoLogsAreRewarded(events, user, day);
    EveryGrantCounts(events, user, day);
  }

  /** An approved creation stays approved, with its bonus, until it is deleted. */
  lemma {:induction false} ApprovalIsFinal(b: Book, events: seq<Event>, id: CreationId)
    requires id in b.creations && b.creations[id].status == Approved && id < b.next
    requires forall e | e in events && e.Delete? :: e.id != id
    ensures id in After(b, events).creations && After(b, events).creations[id] == b.creations[id]
    ensures b.next <= After(b, events).next
  {
    if events != [] {
      ApprovalIsFinal(b, events[..|events| - 1], id);
      assert events[|events| - 1] in events;
    }
  }

  /** Rejecting and asking again, or withdrawing and asking again, leads back to the same pending request. */
  lemma AskingAgainRestores(b: Book, id: CreationId, seen: Creation)
    requires id in b.creations && b.creations[id].status == Pending
    ensures Step(Step(b, Reject(id, seen)), Submit(id, seen)) == b
    ensures Step(Step(b, Withdraw(id, seen)), Submit(id, seen)) == b
  {
  }

  /** One round of asking: the request is rejected or withdrawn, by any stale copy, and made again. */
  datatype AskedAgain = AskedAgain(rejected: bool, seen: Creation)

  function Rounds(id: CreationId, rounds: seq<AskedAgain>): seq<Event> {
    if rounds == [] then []
    else
      var last := rounds[|rounds| - 1];
      Rounds(id, rounds[..|rounds| - 1])
      + [if last.rejected then Reject(id, last.seen) else Withdraw(id, last.seen), Submit(id, last.seen)]
  }

  lemma AfterTwoMore(b: Book, events: seq<Event>, d: Event, e: Event)
    ensures After(b, events + [d, e]) == Step(Step(After(b, events), d), e)
  {
    assert (events + [d, e])[..|events| + 1] == events + [d];
    assert (events + [d])[..|events|] == events;
  }

  /** Any number of rejections and withdrawals, each asked again, leaves the book as it was, with no bonus granted. */
  lemma {:induction false} RoundsOfAskingRestore(b: Book, id: CreationId, rounds: seq<AskedAgain>)
    requires id in b.creations && b.creations[id].status == Pending
    ensures After(b, Rounds(id, rounds)) == b
  {
    if rounds != [] {
      var less, last := rounds[..|rounds| - 1], rounds[|rounds| - 1];
      RoundsOfAskingRestore(b, id, less);
      AfterTwoMore(b, Rounds(id, less),
                   if last.rejected then Reject(id, last.seen) else Withdraw(id, last.seen), Submit(id, last.seen));
      AskingAgainRestores(b, id, last.seen);
    }
  }

  predicate IsAbout(e: Event, id: CreationId) {
    match e
    case Log(_, _, _) => false
    case Delete(_) => false
    case Submit(x, _) => x == id
    case Withdraw(x, _) => x == id
    case Approve(x, _, _, _) => x == id
    case Reject(x, _) => x == id
  }

  lemma ApprovedIgnoresStep(b: Book, e: Event, id: CreationId)
    requires id in b.creations && b.creations[id].status == Approved && IsAbout(e, id)
    ensures Step(b, e) == b
  {
  }

  /** Once approved, no requests, decisions or withdrawals by stale copies change anything. */
  lemma {:induction false} ApprovedIgnoresEverything(b: Book, events: seq<Event>, id: CreationId)
    requires id in b.creations && b.creations[id].status == Approved && forall e | e in events :: IsAbout(e, id)
    ensures After(b, events) == b
  {
    if events != [] {
      ApprovedIgnoresEverything(b, events[..|events| - 1], id);
      ApprovedIgnoresStep(b, events[|events| - 1], id);
    }
  }

  // ---------------------------------------------------------------- the service

  class Sketchbook {
    var creations: map<CreationId, Creation>
    var next: CreationId
    var counter: map<(UserId, Day), nat>
    var grants: seq<Grant>

    constructor ()
      ensures Contents() == EMPTY_BOOK
    {
      creations, next, counter, grants := map[], 0, map[], [];
    }

    ghost function Contents(): Book reads this {
      Book(creations, next, counter, grants)
    }

    method BumpDailyCounter(user: UserId, day: Day) returns (prior: nat)
      modifies this`counter
      ensures prior == Count(old(Contents()), user, day)
      ensures counter == old(counter)[(user, day) := prior + 1]
    {
      if (user, day) !in counter {
        counter := counter[(user, day) := 0];
      }
      prior := counter[(user, day)];
      counter := counter[(user, day) := prior + 1];
    }

    method LogCreation(user: UserId, day: Day, granted: bool) returns (id: CreationId)
      modifies this
      ensures Contents() == Step(old(Contents()), Log(user, day, granted)) && id == old(next)
    {
      var prior := BumpDailyCounter(user, day);
      var eligible := prior < DAILY_XP_LIMIT;
      id := next;
      creations := creations[id := Creation(user, day, Logged, 0, 0)];
      next := next + 1;
      if eligible {
        if granted {
          grants := grants + [Baseline(id, user, day)];
        }
        creations := creations[id := creations[id].(xpAwarded := BASELINE_XP)];
      }
    }

    method SubmitForBonus(id: CreationId, seen: Creation)
      modifies this`creations
      ensures Contents() == Step(old(Contents()), Submit(id, seen))
    {
      if id !in creations || creations[id].status == Pending || creations[id].status == Approved {
        return;
      }
      creations := creations[id := creations[id].(status := Pending)];
    }

    method WithdrawBonusRequest(id: CreationId, seen: Creation)
      modifies this`creations
      ensures Contents() == Step(old(Contents()), Withdraw(id, seen))
    {
      if id !in creations || creations[id].status != Pending {
        return;
      }
      creations := creations[id := creations[id].(status := Logged)];
    }

    method ApproveBonus(id: CreationId, seen: Creation, xp: nat, granted: bool)
      modifies this`creations, this`grants
      ensures Contents() == Step(old(Contents()), Approve(id, seen, xp, granted))
    {
      if id !in creations || creations[id].status != Pending {
        return;
      }
      if !granted {
        return;
      }
      grants := grants + [Bonus(id, xp)];
      creations := creations[id := creations[id].(bonusXp := xp)];
      creations := creations[id := creations[id].(status := Approved)];
    }

    method RejectBonus(id: CreationId, seen: Creation)
      modifies this`creations
      ensures Contents() == Step(old(Contents()), Reject(id, seen))
    {
      if id !in creations || creations[id].status != Pending {
        return;
      }
      creations := creations[id := creations[id].(status := Rejected)];
    }
  }
}
