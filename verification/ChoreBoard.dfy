/** The chore rows as the services and the list view read and change them. */
module ChoreBoard {
  import opened Options
  import opened IsoWeeks
  import opened Chores

  /** A chore of the available list with its annotation. */
  datatype Annotated = Annotated(chore: ChoreId, isDoneToday: bool)

  class Rows {
    var chores: map<ChoreId, Chore>
    var completions: map<CompletionId, Completion>
    var next: CompletionId
    var ledger: seq<Payment>

    constructor (chores: map<ChoreId, Chore>)
      ensures Contents() == Board(chores, map[], 0, [])
    {
      this.chores := chores;
      completions, next, ledger := map[], 0, [];
    }

    ghost function Contents(): Board reads this {
      Board(chores, completions, next, ledger)
    }

    /** Whether a completion of the user's chore that is not rejected exists, on `day` if one is given. */
    method Exists(user: UserId, chore: ChoreId, day: Option<Date>) returns (found: bool)
      ensures found == if day.Some? then HasLiveOn(Contents(), user, chore, day.value)
        else HasLive(Contents(), user, chore)
    {
      var rest := completions.Keys;
      while rest != {}
        invariant rest <= completions.Keys
        invariant forall id | id in completions && id !in rest && IsLive(Contents(), id, user, chore) ::
          day.Some? && completions[id].day != day.value
        decreases |rest|
      {
        var id :| id in rest;
        var row := completions[id];
        if row.chore == chore && row.user == user && row.status != Rejected && (day.None? || row.day == day.value) {
          assert IsLive(Contents(), id, user, chore);
          return true;
        }
        rest := rest - {id};
      }
      return false;
    }

    method IsVisible(user: User, chore: Chore) returns (visible: bool)
      ensures visible <==> IsVisibleTo(user, chore)
    {
      if chore.family != user.family || !chore.active || chore.proposed {
        return false;
      }
      if user.role == Child {
        return chore.assignedTo == Some(user.id) || chore.assignedTo == None;
      }
      return chore.assignedTo == Some(user.id);
    }

    ghost predicate IsAvailableList(user: User, today: Date, available: seq<Annotated>, seen: set<ChoreId>)
      requires today >= 1 && DatesAreReal(Contents())
      reads this
    {
      && (forall a | a in available ::
            a.chore in chores && a.chore in seen && IsListed(Contents(), user, a.chore, today)
            && a.isDoneToday == IsDone(Contents(), user, a.chore, today))
      && forall c | c in seen && c in chores && IsListed(Contents(), user, c, today) ::
           exists a | a in available :: a.chore == c
    }

    method GetAvailableChores(user: User, today: Date) returns (available: seq<Annotated>)
      requires today >= 1 && DatesAreReal(Contents())
      ensures IsAvailableList(user, today, available, chores.Keys)
    {
      available := [];
      var monday := Monday(today);
      var rest := chores.Keys;
      while rest != {}
        invariant rest <= chores.Keys
        invariant IsAvailableList(user, today, available, chores.Keys - rest)
        decreases |rest|
      {
        var c :| c in rest;
        var one := Annotate(user, c, today, monday);
        var more := if one.Some? then available + [one.value] else available;
        Extends(user, today, available, chores.Keys - rest, c, one);
        available := more;
        assert chores.Keys - (rest - {c}) == chores.Keys - rest + {c};
        rest := rest - {c};
      }
      assert chores.Keys - rest == chores.Keys;
    }

    lemma Extends(user: User, today: Date, available: seq<Annotated>, seen: set<ChoreId>, c: ChoreId,
        one: Option<Annotated>)
      requires today >= 1 && DatesAreReal(Contents()) && c in chores
      requires IsAvailableList(user, today, available, seen)
      requires one.Some? <==> IsListed(Contents(), user, c, today)
      requires one.Some? ==> one.value == Annotated(c, IsDone(Contents(), user, c, today))
      ensures IsAvailableList(user, today, if one.Some? then available + [one.value] else available, seen + {c})
    {
    }

    method Annotate(user: User, c: ChoreId, today: Date, monday: Date) returns (one: Option<Annotated>)
      requires today >= 1 && DatesAreReal(Contents()) && c in chores && monday == Monday(today)
      ensures one.Some? <==> IsListed(Contents(), user, c, today)
      ensures one.Some? ==> one.value == Annotated(c, IsDone(Contents(), user, c, today))
    {
      var chore := chores[c];
      var visible := IsVisible(user, chore);
      if !visible || !IsActiveThisWeek(chore, today) {
        return None;
      }
      var oneTimeDone := Exists(user.id, c, None);
      if chore.recurrence == OneTime && oneTimeDone {
        return None;
      }
      var daily := Exists(user.id, c, Some(today));
      var weekly := Exists(user.id, c, Some(monday));
      return Some(Annotated(c, if chore.recurrence == Weekly then weekly else daily));
    }

    /** The list view's `is_available` flags: available chores, then the retained ones of a personal space. */
    method List(user: User, today: Date, retained: seq<ChoreId>) returns (flags: map<ChoreId, bool>)
      requires today >= 1 && DatesAreReal(Contents()) && forall c | c in retained :: c in chores
      ensures forall c | c in flags :: c in chores && flags[c] == IsOffered(Contents(), user, c, today)
      ensures forall c | c in chores && (c in retained || IsOffered(Contents(), user, c, today)) :: c in flags
    {
      var available := GetAvailableChores(user, today);
      flags := map[];
      for n := 0 to |available|
        invariant forall c | c in flags :: c in chores && flags[c] == IsOffered(Contents(), user, c, today)
        invariant forall a | a in available[..n] :: a.chore in flags
      {
        flags := flags[available[n].chore := !available[n].isDoneToday];
      }
      for n := 0 to |retained|
        invariant forall c | c in flags :: c in chores && flags[c] == IsOffered(Contents(), user, c, today)
        invariant forall a | a in available :: a.chore in flags
        invariant forall c | c in retained[..n] :: c in flags
      {
        if retained[n] !in flags {
          flags := flags[retained[n] := false];
        }
      }
    }

    method SubmitCompletion(user: User, c: ChoreId, today: Date, personal: bool) returns (response: Response)
      requires today >= 1 && DatesAreReal(Contents())
      modifies this
      ensures (Contents(), response) == Submit(old(Contents()), user, c, today, personal)
    {
      if c !in chores {
        return NotFound;
      }
      var chore := chores[c];
      if chore.family != user.family {
        return Refused(NotYours);
      }
      if !chore.active {
        return Refused(Inactive);
      }
      if chore.proposed {
        return Refused(AwaitingReview);
      }
      var own := IsOwnParentChore(user, chore, personal);
      if user.role != Child && !own {
        return Refused(OnlyChildren);
      }
      if chore.assignedTo.Some? && chore.assignedTo.value != user.id {
        return Refused(NotAssigned);
      }
      if !IsActiveThisWeek(chore, today) {
        return Refused(OffWeek);
      }
      var day := PeriodDate(chore, today);
      if chore.recurrence == OneTime {
        var done := Exists(user.id, c, None);
        if done {
          return Refused(AlreadyDone);
        }
      }
      var duplicate := Exists(user.id, c, Some(day));
      if duplicate {
        return Refused(AlreadyThisPeriod);
      }
      response := CreateCompletion(Completion(c, user.id, day, Pending, if own then 0 else chore.reward), own);
    }

    method CreateCompletion(row: Completion, own: bool) returns (response: Response)
      requires row.status == Pending
      modifies this
      ensures (Contents(), response) ==
        var b := old(Contents());
        var saved := b.(completions := b.completions[b.next := row], next := b.next + 1);
        if own then Approve(saved, Handle(b.next, row)) else (saved, Done(b.next))
    {
      var id := next;
      completions := completions[id := row];
      next := next + 1;
      response := Done(id);
      if own {
        response := ApproveCompletion(Handle(id, row));
      }
    }

    /** The row is read again under its lock; the caller's copy only says which row. */
    method ApproveCompletion(handle: Handle) returns (response: Response)
      modifies this`completions, this`ledger
      ensures (Contents(), response) == Approve(old(Contents()), handle)
    {
      var id := handle.id;
      if id !in completions {
        return NotFound;
      }
      if completions[id].status != Pending {
        return Unchanged;
      }
      var done := completions[id].(status := Approved);
      completions := completions[id := done];
      if done.reward > 0 {
        ledger := ledger + [Payment(id, done.user, done.reward)];
      }
      response := Done(id);
    }

    method RejectCompletion(handle: Handle) returns (response: Response)
      modifies this`completions
      ensures (Contents(), response) == Reject(old(Contents()), handle)
    {
      var id := handle.id;
      if id !in completions {
        return NotFound;
      }
      if completions[id].status != Pending {
        return Unchanged;
      }
      completions := completions[id := completions[id].(status := Rejected)];
      response := Done(id);
    }

    method WithdrawCompletion(handle: Handle, actor: UserId) returns (response: Response)
      modifies this`completions
      ensures (Contents(), response) == Withdraw(old(Contents()), handle, actor)
    {
      var id := handle.id;
      if id !in completions {
        return NotFound;
      }
      if completions[id].user != actor {
        return NotOwner;
      }
      if completions[id].status != Pending {
        return NotPending;
      }
      completions := completions - {id};
      response := Done(id);
    }
  }
}
