/** Chores: schedules, the available list, admission, and approval over whole runs. */
module Chores {
  import opened Options
  import opened IsoWeeks

  type UserId = nat
  type ChoreId = nat
  type CompletionId = nat

  datatype Recurrence = Daily | Weekly | OneTime

  datatype Chore = Chore(
    family: nat, active: bool, proposed: bool, assignedTo: Option<UserId>, recurrence: Recurrence,
    alternating: bool, start: Option<Date>, reward: nat)

  datatype Role = Parent | Child

  datatype User = User(id: UserId, family: nat, role: Role, active: bool)

  datatype Status = Pending | Approved | Rejected

  datatype Completion = Completion(chore: ChoreId, user: UserId, day: Date, status: Status, reward: nat)

  datatype Payment = Payment(completion: CompletionId, user: UserId, amount: nat)

  datatype Board = Board(
    chores: map<ChoreId, Chore>, completions: map<CompletionId, Completion>, next: CompletionId, ledger: seq<Payment>)

  ghost predicate DatesAreReal(b: Board) {
    forall c | c in b.chores && b.chores[c].start.Some? :: b.chores[c].start.value >= 1
  }

  predicate HasRealStart(chore: Chore) {
    chore.start.Some? ==> chore.start.value >= 1
  }

  // ---------------------------------------------------------------- schedules

  predicate IsActiveThisWeek(chore: Chore, today: Date)
    requires today >= 1 && HasRealStart(chore)
  {
    !chore.alternating || chore.start.None? || WeekNumber(today) % 2 == WeekNumber(chore.start.value) % 2
  }

  function PeriodDate(chore: Chore, today: Date): Date
    requires today >= 1
  {
    if chore.recurrence == Weekly then Monday(today) else today
  }

  /** Within one ISO week a weekly chore has one period, and any chore one verdict. */
  lemma OneWeekOnePeriod(chore: Chore, a: Date, b: Date)
    requires a >= 1 && HasRealStart(chore) && Monday(a) <= b < Monday(a) + 7
    ensures chore.recurrence == Weekly ==> PeriodDate(chore, a) == PeriodDate(chore, b)
    ensures IsActiveThisWeek(chore, a) == IsActiveThisWeek(chore, b)
  {
    SameWeekSameMonday(a, b);
    SameWeekSameNumber(a, b);
  }

  /** An alternating chore changes from week to week except exactly when leaving a week 53. */
  lemma AlternatingFlipsExceptAfterWeek53(chore: Chore, today: Date)
    requires today >= 1 && HasRealStart(chore) && chore.alternating && chore.start.Some?
    ensures IsActiveThisWeek(chore, today + 7) != IsActiveThisWeek(chore, today) <==> WeekNumber(today) != 53
  {
    ParityFlipsExceptAfterWeek53(today);
  }

  // ---------------------------------------------------------------- the list and admission

  predicate IsLive(b: Board, id: CompletionId, user: UserId, chore: ChoreId) {
    id in b.completions && b.completions[id].user == user && b.completions[id].chore == chore
    && b.completions[id].status != Rejected
  }

  predicate HasLive(b: Board, user: UserId, chore: ChoreId) {
    exists id | id in b.completions :: IsLive(b, id, user, chore)
  }

  predicate HasLiveOn(b: Board, user: UserId, chore: ChoreId, day: Date) {
    exists id | id in b.completions :: IsLive(b, id, user, chore) && b.completions[id].day == day
  }

  predicate IsVisibleTo(user: User, chore: Chore) {
    && chore.family == user.family && chore.active && !chore.proposed
    && (if user.role == Child then chore.assignedTo in {Some(user.id), None} else chore.assignedTo == Some(user.id))
  }

  predicate IsListed(b: Board, user: User, c: ChoreId, today: Date)
    requires today >= 1 && c in b.chores && HasRealStart(b.chores[c])
  {
    var chore := b.chores[c];
    && IsVisibleTo(user, chore)
    && IsActiveThisWeek(chore, today)
    && !(chore.recurrence == OneTime && HasLive(b, user.id, c))
  }

  predicate IsDone(b: Board, user: User, c: ChoreId, today: Date)
    requires today >= 1 && c in b.chores
  {
    HasLiveOn(b, user.id, c, if b.chores[c].recurrence == Weekly then Monday(today) else today)
  }

  /** The list's `is_available` flag. */
  predicate IsOffered(b: Board, user: User, c: ChoreId, today: Date)
    requires today >= 1 && c in b.chores && HasRealStart(b.chores[c])
  {
    IsListed(b, user, c, today) && !IsDone(b, user, c, today)
  }

  datatype Refusal =
    | NotYours | Inactive | AwaitingReview | OnlyChildren | NotAssigned | OffWeek | AlreadyDone | AlreadyThisPeriod

  function IsOwnParentChore(user: User, chore: Chore, personal: bool): bool {
    personal && user.active && user.role == Parent && chore.assignedTo == Some(user.id)
  }

  /** The first objection `submit_completion` raises. */
  function Objection(b: Board, user: User, c: ChoreId, today: Date, personal: bool): Option<Refusal>
    requires today >= 1 && c in b.chores && HasRealStart(b.chores[c])
  {
    var chore := b.chores[c];
    if chore.family != user.family then Some(NotYours)
    else if !chore.active then Some(Inactive)
    else if chore.proposed then Some(AwaitingReview)
    else if user.role != Child && !IsOwnParentChore(user, chore, personal) then Some(OnlyChildren)
    else if chore.assignedTo.Some? && chore.assignedTo.value != user.id then Some(NotAssigned)
    else if !IsActiveThisWeek(chore, today) then Some(OffWeek)
    else if chore.recurrence == OneTime && HasLive(b, user.id, c) then Some(AlreadyDone)
    else if HasLiveOn(b, user.id, c, PeriodDate(chore, today)) then Some(AlreadyThisPeriod)
    else None
  }

  /**
   * For a child, or a parent in their own space, the list offers a chore exactly when a submission
   * at the same instant is accepted; only a deactivated parent could see one offered and refused.
   */
  lemma ListAgreesWithAdmission(b: Board, user: User, c: ChoreId, today: Date, personal: bool)
    requires today >= 1 && c in b.chores && HasRealStart(b.chores[c])
    requires user.role == Child || personal
    ensures Objection(b, user, c, today, personal).None?
      <==> IsOffered(b, user, c, today) && (user.role == Parent ==> user.active)
  {
  }

  // ---------------------------------------------------------------- steps

  datatype Response = Done(id: CompletionId) | Unchanged | Refused(why: Refusal) | NotFound | NotOwner | NotPending

  function Paid(ledger: seq<Payment>, id: CompletionId, done: Completion): seq<Payment> {
    if done.reward > 0 then ledger + [Payment(id, done.user, done.reward)] else ledger
  }

  /** A handle is a copy read at some earlier time; only its identity is used. */
  datatype Handle = Handle(id: CompletionId, seen: Completion)

  function Approve(b: Board, handle: Handle): (Board, Response) {
    var id := handle.id;
    if id !in b.completions then (b, NotFound)
    else if b.completions[id].status != Pending then (b, Unchanged)
    else
      var done := b.completions[id].(status := Approved);
      (b.(completions := b.completions[id := done], ledger := Paid(b.ledger, id, done)), Done(id))
  }

  function Reject(b: Board, handle: Handle): (Board, Response) {
    var id := handle.id;
    if id !in b.completions then (b, NotFound)
    else if b.completions[id].status != Pending then (b, Unchanged)
    else (b.(completions := b.completions[id := b.completions[id].(status := Rejected)]), Done(id))
  }

  function Withdraw(b: Board, handle: Handle, actor: UserId): (Board, Response) {
    var id := handle.id;
    if id !in b.completions then (b, NotFound)
    else if b.completions[id].user != actor then (b, NotOwner)
    else if b.completions[id].status != Pending then (b, NotPending)
    else (b.(completions := b.completions - {id}), Done(id))
  }

  function Submit(b: Board, user: User, c: ChoreId, today: Date, personal: bool): (Board, Response)
    requires today >= 1 && DatesAreReal(b)
  {
    if c !in b.chores then (b, NotFound)
    else
      match Objection(b, user, c, today, personal)
      case Some(why) => (b, Refused(why))
      case None =>
        var chore := b.chores[c];
        var own := IsOwnParentChore(user, chore, personal);
        var row := Completion(c, user.id, PeriodDate(chore, today), Pending, if own then 0 else chore.reward);
        var saved := b.(completions := b.completions[b.next := row], next := b.next + 1);
        if own then Approve(saved, Handle(b.next, row)) else (saved, Done(b.next))
  }

  datatype Event =
    | Submitting(user: User, chore: ChoreId, today: Date, personal: bool)
    | Approving(handle: Handle)
    | Rejecting(handle: Handle)
    | Withdrawing(handle: Handle, actor: UserId)
    | SavingChore(chore: ChoreId, fields: Chore)
    | DeletingChore(chore: ChoreId)

  predicate IsRealEvent(e: Event) {
    match e
    case Submitting(_, _, today, _) => today >= 1
    case SavingChore(_, fields) => HasRealStart(fields)
    case _ => true
  }

  function Step(b: Board, e: Event): (Board, Response)
    requires DatesAreReal(b) && IsRealEvent(e)
  {
    match e
    case Submitting(user, c, today, personal) => Submit(b, user, c, today, personal)
    case Approving(handle) => Approve(b, handle)
    case Rejecting(handle) => Reject(b, handle)
    case Withdrawing(handle, actor) => Withdraw(b, handle, actor)
    case SavingChore(c, fields) => (b.(chores := b.chores[c := fields]), Unchanged)
    case DeletingChore(c) =>
      (b.(chores := b.chores - {c},
          completions := map id | id in b.completions && b.completions[id].chore != c :: b.completions[id]), Unchanged)
  }

  lemma StepKeepsDates(b: Board, e: Event)
    requires DatesAreReal(b) && IsRealEvent(e)
    ensures DatesAreReal(Step(b, e).0)
  {
  }

  ghost predicate AreReal(events: seq<Event>) {
    forall e | e in events :: IsRealEvent(e)
  }

  function After(b: Board, events: seq<Event>): (r: Board)
    requires DatesAreReal(b) && AreReal(events)
    ensures DatesAreReal(r)
  {
    if events == [] then b
    else
      var before := After(b, events[..|events| - 1]);
      StepKeepsDates(before, events[|events| - 1]);
      Step(before, events[|events| - 1]).0
  }

  // ---------------------------------------------------------------- invariants

  ghost predicate IdsAreKnown(b: Board) {
    && (forall id | id in b.completions :: id < b.next)
    && forall p | p in b.ledger :: p.completion < b.next
  }

  /** At most one completion of a chore, a user and a period is not rejected. */
  ghost predicate PeriodsAreUnique(b: Board) {
    forall x, y | x in b.completions && y in b.completions
      && b.completions[x].status != Rejected && b.completions[y].status != Rejected
      && b.completions[x].chore == b.completions[y].chore && b.completions[x].user == b.completions[y].user
      && b.completions[x].day == b.completions[y].day :: x == y
  }

  ghost predicate PaymentsAreUnique(b: Board) {
    forall i, j | 0 <= i < j < |b.ledger| :: b.ledger[i].completion != b.ledger[j].completion
  }

  /** What was paid for a completion that still exists is its frozen reward, and it is approved. */
  ghost predicate PaymentsAreDue(b: Board) {
    forall p | p in b.ledger && p.completion in b.completions ::
      var done := b.completions[p.completion];
      done.status == Approved && p.user == done.user && p.amount == done.reward
  }

  ghost predicate IsPaid(b: Board, id: CompletionId) {
    exists p | p in b.ledger :: p.completion == id
  }

  ghost predicate ApprovedArePaid(b: Board) {
    forall id | id in b.completions && b.completions[id].status == Approved && b.completions[id].reward > 0 ::
      IsPaid(b, id)
  }

  ghost predicate Sound(b: Board) {
    IdsAreKnown(b) && PeriodsAreUnique(b) && PaymentsAreUnique(b) && PaymentsAreDue(b) && ApprovedArePaid(b)
  }

  lemma StillPaid(b: Board, later: Board, id: CompletionId)
    requires IsPaid(b, id) && b.ledger <= later.ledger
    ensures IsPaid(later, id)
  {
  }

  lemma ApproveIsSound(b: Board, handle: Handle)
    requires Sound(b)
    ensures Sound(Approve(b, handle).0)
  {
    var later := Approve(b, handle).0;
    if later != b {
      var id := handle.id;
      assert !IsPaid(b, id) by {
        assert b.completions[id].status == Pending;
      }
      forall x | x in later.completions && later.completions[x].status == Approved && later.completions[x].reward > 0
        ensures IsPaid(later, x)
      {
        if x == id {
          assert later.ledger[|later.ledger| - 1].completion == id;
        } else {
          StillPaid(b, later, x);
        }
      }
    }
  }

  lemma SubmitIsSound(b: Board, user: User, c: ChoreId, today: Date, personal: bool)
    requires today >= 1 && DatesAreReal(b) && Sound(b)
    ensures Sound(Submit(b, user, c, today, personal).0)
  {
    if c in b.chores && Objection(b, user, c, today, personal).None? {
      var chore := b.chores[c];
      var own := IsOwnParentChore(user, chore, personal);
      var row := Completion(c, user.id, PeriodDate(chore, today), Pending, if own then 0 else chore.reward);
      NewRowIsSound(b, row);
      if own {
        ApproveIsSound(b.(completions := b.completions[b.next := row], next := b.next + 1), Handle(b.next, row));
      }
    }
  }

  lemma NewRowIsSound(b: Board, row: Completion)
    requires Sound(b) && row.status == Pending && !HasLiveOn(b, row.user, row.chore, row.day)
    ensures Sound(b.(completions := b.completions[b.next := row], next := b.next + 1))
  {
  }

  predicate IsKeptOrRejected(b: Board, later: Board, id: CompletionId)
    requires id in later.completions
  {
    && id in b.completions
    && (later.completions[id] == b.completions[id]
        || (b.completions[id].status == Pending && later.completions[id] == b.completions[id].(status := Rejected)))
  }

  lemma FewerRowsAreSound(b: Board, later: Board)
    requires Sound(b) && later.next == b.next && later.ledger == b.ledger
    requires forall id | id in later.completions :: IsKeptOrRejected(b, later, id)
    ensures Sound(later)
  {
  }

  lemma StepIsSound(b: Board, e: Event)
    requires DatesAreReal(b) && IsRealEvent(e) && Sound(b)
    ensures Sound(Step(b, e).0)
  {
    match e
    case Submitting(user, c, today, personal) => SubmitIsSound(b, user, c, today, personal);
    case Approving(handle) => ApproveIsSound(b, handle);
    case _ => FewerRowsAreSound(b, Step(b, e).0);
  }

  /** Over every run by callers with stale copies: one live completion a period, no completion paid twice. */
  lemma {:induction false} EveryRunIsSound(b: Board, events: seq<Event>)
    requires DatesAreReal(b) && AreReal(events) && Sound(b)
    ensures Sound(After(b, events))
  {
    if events != [] {
      EveryRunIsSound(b, events[..|events| - 1]);
      StepIsSound(After(b, events[..|events| - 1]), events[|events| - 1]);
    }
  }

  // ---------------------------------------------------------------- money

  function Total(ledger: seq<Payment>): nat {
    if ledger == [] then 0 else Total(ledger[..|ledger| - 1]) + ledger[|ledger| - 1].amount
  }

  type History = map<CompletionId, nat>

  function ApprovedNow(b: Board): History {
    map id | id in b.completions && b.completions[id].status == Approved :: b.completions[id].reward
  }

  /** Every completion approved at some moment of the run, deleted since or not, with its frozen reward. */
  function EverApproved(b: Board, events: seq<Event>): History
    requires DatesAreReal(b) && AreReal(events)
  {
    if events == [] then ApprovedNow(b)
    else EverApproved(b, events[..|events| - 1]) + ApprovedNow(After(b, events))
  }

  function Sum(h: History, top: nat): nat {
    if top == 0 then 0 else Sum(h, top - 1) + (if top - 1 in h then h[top - 1] else 0)
  }

  lemma {:induction false} SumOfOneMore(h: History, id: CompletionId, amount: nat, top: nat)
    requires id !in h
    ensures Sum(h[id := amount], top) == Sum(h, top) + (if id < top then amount else 0)
  {
    if top > 0 {
      SumOfOneMore(h, id, amount, top - 1);
    }
  }

  ghost predicate Accounts(b: Board, h: History) {
    && (forall id | id in h :: id < b.next)
    && (forall id | id in h && id in b.completions ::
          b.completions[id].status == Approved && h[id] == b.completions[id].reward)
    && (forall id | id in b.completions && b.completions[id].status == Approved :: id in h)
    && (forall id | id in b.completions :: id < b.next)
    && Total(b.ledger) == Sum(h, b.next)
  }

  lemma PaidTotal(ledger: seq<Payment>, id: CompletionId, done: Completion)
    ensures Total(Paid(ledger, id, done)) == Total(ledger) + done.reward
  {
  }

  lemma ApproveKeepsAccounts(b: Board, h: History, handle: Handle)
    requires Accounts(b, h)
    ensures Accounts(Approve(b, handle).0, h + ApprovedNow(Approve(b, handle).0))
  {
    var later := Approve(b, handle).0;
    var id := handle.id;
    if id in b.completions && b.completions[id].status == Pending {
      var done := b.completions[id].(status := Approved);
      OneMoreApproved(b, later, h, id, done);
      SumOfOneMore(h, id, done.reward, b.next);
      PaidTotal(b.ledger, id, done);
    } else {
      NothingApproved(b, later, h);
    }
  }

  lemma OneMoreApproved(b: Board, later: Board, h: History, id: CompletionId, done: Completion)
    requires Accounts(b, h) && id in b.completions && b.completions[id].status == Pending && done.status == Approved
    requires later.completions == b.completions[id := done]
    ensures id !in h && h + ApprovedNow(later) == h[id := done.reward]
  {
  }

  /** A step that approves nothing leaves the history and the money alone. */
  lemma NothingApproved(b: Board, later: Board, h: History)
    requires Accounts(b, h) && later.ledger == b.ledger && later.next == b.next
    requires forall id | id in later.completions :: IsKeptOrRejected(b, later, id)
    ensures Accounts(later, h + ApprovedNow(later))
  {
    assert h + ApprovedNow(later) == h;
  }

  lemma SubmitKeepsAccounts(b: Board, h: History, user: User, c: ChoreId, today: Date, personal: bool)
    requires today >= 1 && DatesAreReal(b) && Accounts(b, h)
    ensures Accounts(Submit(b, user, c, today, personal).0, h + ApprovedNow(Submit(b, user, c, today, personal).0))
  {
    if c in b.chores && Objection(b, user, c, today, personal).None? {
      var chore := b.chores[c];
      var own := IsOwnParentChore(user, chore, personal);
      var row := Completion(c, user.id, PeriodDate(chore, today), Pending, if own then 0 else chore.reward);
      var saved := b.(completions := b.completions[b.next := row], next := b.next + 1);
      assert Sum(h, b.next + 1) == Sum(h, b.next);
      assert Accounts(saved, h);
      if own {
        ApproveKeepsAccounts(saved, h, Handle(b.next, row));
      } else {
        NothingApproved(saved, saved, h);
      }
    } else {
      NothingApproved(b, b, h);
    }
  }

  lemma StepKeepsAccounts(b: Board, h: History, e: Event)
    requires DatesAreReal(b) && IsRealEvent(e) && Accounts(b, h)
    ensures Accounts(Step(b, e).0, h + ApprovedNow(Step(b, e).0))
  {
    match e
    case Submitting(user, c, today, personal) => SubmitKeepsAccounts(b, h, user, c, today, personal);
    case Approving(handle) => ApproveKeepsAccounts(b, h, handle);
    case _ => NothingApproved(b, Step(b, e).0, h);
  }

  lemma {:induction false} RunKeepsAccounts(b: Board, events: seq<Event>)
    requires DatesAreReal(b) && AreReal(events) && Accounts(b, ApprovedNow(b))
    ensures Accounts(After(b, events), EverApproved(b, events))
  {
    if events != [] {
      RunKeepsAccounts(b, events[..|events| - 1]);
      StepKeepsAccounts(After(b, events[..|events| - 1]), EverApproved(b, events[..|events| - 1]),
        events[|events| - 1]);
    }
  }

  /** The money paid over a run is the sum of the frozen rewards of the completions ever approved in it. */
  lemma MoneyIsWhatWasApproved(chores: map<ChoreId, Chore>, events: seq<Event>)
    requires DatesAreReal(Board(chores, map[], 0, [])) && AreReal(events)
    ensures var b := Board(chores, map[], 0, []);
      Total(After(b, events).ledger) == Sum(EverApproved(b, events), After(b, events).next)
  {
    var b := Board(chores, map[], 0, []);
    assert ApprovedNow(b) == map[];
    RunKeepsAccounts(b, events);
  }

  /** An approved completion keeps its status and reward through every later event but the deletion of its chore. */
  lemma {:induction false} ApprovalIsFinal(b: Board, events: seq<Event>, id: CompletionId)
    requires DatesAreReal(b) && AreReal(events) && Sound(b)
    requires id in b.completions && b.completions[id].status == Approved
    requires forall e | e in events && e.DeletingChore? :: e.chore != b.completions[id].chore
    ensures id in After(b, events).completions && After(b, events).completions[id] == b.completions[id]
  {
    if events != [] {
      ApprovalIsFinal(b, events[..|events| - 1], id);
      EveryRunIsSound(b, events[..|events| - 1]);
      StepKeepsApproved(After(b, events[..|events| - 1]), events[|events| - 1], id);
    }
  }

  lemma StepKeepsApproved(b: Board, e: Event, id: CompletionId)
    requires DatesAreReal(b) && IsRealEvent(e) && IdsAreKnown(b)
    requires id in b.completions && b.completions[id].status == Approved
    requires e.DeletingChore? ==> e.chore != b.completions[id].chore
    ensures id in Step(b, e).0.completions && Step(b, e).0.completions[id] == b.completions[id]
  {
  }

  lemma IdsAreNotReused(b: Board, e: Event, id: CompletionId)
    requires DatesAreReal(b) && IsRealEvent(e) && id < b.next
    ensures b.next <= Step(b, e).0.next
    ensures id in Step(b, e).0.completions ==>
      id in b.completions && SameTerms(b.completions[id], Step(b, e).0.completions[id])
  {
  }

  predicate SameTerms(a: Completion, b: Completion) {
    a.(status := b.status) == b
  }

  /** While it exists, a completion keeps its chore, user, day and frozen reward; a deleted one never returns. */
  lemma {:induction false} TermsAreFrozen(b: Board, events: seq<Event>, id: CompletionId)
    requires DatesAreReal(b) && AreReal(events) && id < b.next
    ensures b.next <= After(b, events).next
    ensures id in After(b, events).completions ==>
      id in b.completions && SameTerms(b.completions[id], After(b, events).completions[id])
  {
    if events != [] {
      TermsAreFrozen(b, events[..|events| - 1], id);
      IdsAreNotReused(After(b, events[..|events| - 1]), events[|events| - 1], id);
    }
  }

  /**
   * A child's approval pays the child the reward the chore had at submission, however the chore is edited meanwhile.
   */
  lemma EditsDoNotReprice(b: Board, user: User, c: ChoreId, today: Date, personal: bool, events: seq<Event>,
      handle: Handle)
    requires today >= 1 && DatesAreReal(b) && AreReal(events) && c in b.chores && user.role == Child
    requires Submit(b, user, c, today, personal).1 == Done(handle.id)
    requires var later := After(Submit(b, user, c, today, personal).0, events);
      handle.id in later.completions && later.completions[handle.id].status == Pending
    ensures var later := After(Submit(b, user, c, today, personal).0, events);
      var reward := b.chores[c].reward;
      Approve(later, handle).0.ledger
        == later.ledger + (if reward > 0 then [Payment(handle.id, user.id, reward)] else [])
  {
    TermsAreFrozen(Submit(b, user, c, today, personal).0, events, handle.id);
  }

  /** A parent's own chore is approved at once and pays no money. */
  lemma OwnParentChoreIsFree(b: Board, user: User, c: ChoreId, today: Date)
    requires today >= 1 && DatesAreReal(b) && c in b.chores && user.role == Parent
    requires Submit(b, user, c, today, true).1.Done?
    ensures var later := Submit(b, user, c, today, true);
      && later.0.completions[later.1.id].status == Approved
      && later.0.completions[later.1.id].user == user.id
      && later.0.ledger == b.ledger
  {
  }

  ghost predicate IsSettledUnpaid(b: Board, id: CompletionId) {
    id < b.next && (id in b.completions ==> b.completions[id].status == Approved) && !IsPaid(b, id)
  }

  lemma StepLeavesUnpaid(b: Board, e: Event, id: CompletionId)
    requires DatesAreReal(b) && IsRealEvent(e) && IsSettledUnpaid(b, id)
    ensures IsSettledUnpaid(Step(b, e).0, id)
  {
    var later := Step(b, e).0;
    assert forall p | p in later.ledger && p !in b.ledger :: p.completion != id;
  }

  lemma {:induction false} RunLeavesUnpaid(b: Board, events: seq<Event>, id: CompletionId)
    requires DatesAreReal(b) && AreReal(events) && IsSettledUnpaid(b, id)
    ensures IsSettledUnpaid(After(b, events), id)
  {
    if events != [] {
      RunLeavesUnpaid(b, events[..|events| - 1], id);
      StepLeavesUnpaid(After(b, events[..|events| - 1]), events[|events| - 1], id);
    }
  }

  /** A parent's own chore is approved at once, and no later event ever pays money for it. */
  lemma OwnParentChoreNeverPays(b: Board, user: User, c: ChoreId, today: Date, events: seq<Event>)
    requires today >= 1 && DatesAreReal(b) && AreReal(events) && Sound(b) && c in b.chores && user.role == Parent
    requires Submit(b, user, c, today, true).1.Done?
    ensures var saved := Submit(b, user, c, today, true);
      && saved.0.completions[saved.1.id].status == Approved
      && !IsPaid(After(saved.0, events), saved.1.id)
  {
    var saved := Submit(b, user, c, today, true);
    OwnParentChoreIsFree(b, user, c, today);
    RunLeavesUnpaid(saved.0, events, saved.1.id);
  }

  /** A rejection or a withdrawal frees the period: the same submission is accepted again at once. */
  lemma DecisionFreesThePeriod(b: Board, user: User, c: ChoreId, today: Date, handle: Handle)
    requires today >= 1 && DatesAreReal(b) && Sound(b) && c in b.chores && user.role == Child
    requires Submit(b, user, c, today, false).1 == Done(handle.id)
    ensures var saved := Submit(b, user, c, today, false).0;
      && Submit(Reject(saved, handle).0, user, c, today, false).1.Done?
      && Submit(Withdraw(saved, handle, user.id).0, user, c, today, false).1.Done?
  {
    var saved := Submit(b, user, c, today, false).0;
    SameObjection(b, Reject(saved, handle).0, user, c, today);
    SameObjection(b, Withdraw(saved, handle, user.id).0, user, c, today);
  }

  lemma SameObjection(b: Board, later: Board, user: User, c: ChoreId, today: Date)
    requires today >= 1 && DatesAreReal(b) && c in b.chores && later.chores == b.chores
    requires forall id | id in later.completions && later.completions[id].status != Rejected ::
      id in b.completions && b.completions[id] == later.completions[id]
    requires Objection(b, user, c, today, false).None?
    ensures Objection(later, user, c, today, false).None?
  {
  }
}
