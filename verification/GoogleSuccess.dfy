/** When an exchange does succeed: the exact terms, for one request and for a whole undisturbed journey. */
module GoogleSuccess {
  import opened Options
  import opened GoogleReturn
  import opened GoogleInvariant
  import opened GoogleRuns
  import opened GoogleJourneys

  // ---------------------------------------------------------------- what stands until it is fenced

  /** An account without a marker since the flow began is as the flow remembers it. */
  predicate IsKept(s: State, w: Witness, since: int) {
    Fenced(s, w.id, since) || Unchanged(s, w, since)
  }

  predicate TokenIsKept(s: State, row: Flow)
    requires row.initiator.Some?
  {
    var u := row.initiator.value.id;
    Fenced(s, u, row.createdAt) || (u in s.tokens && Some(Digest(s.tokens[u])) == row.initiatorToken)
  }

  /** The initiator was allowed to link for the target. */
  predicate WasAllowed(initiator: Witness, target: Witness) {
    || initiator.id == target.id
    || (initiator.role == Parent && target.role == Child && initiator.family == target.family)
  }

  predicate FlowIsKept(s: State, row: Flow) {
    && (row.initiator.Some? ==> IsKept(s, row.initiator.value, row.createdAt) && TokenIsKept(s, row))
    && (row.target.Some? ==> IsKept(s, row.target.value, row.createdAt))
    && (row.target.Some? ==> row.initiator.Some? && WasAllowed(row.initiator.value, row.target.value))
  }

  ghost predicate FlowsAreKept(s: State) {
    forall f | f in s.flows :: FlowIsKept(s, s.flows[f])
  }

  /** Only a start makes a row, and the row it makes is true of the moment. */
  lemma NewFlowIsKept(s: State, op: Op, f: FlowId)
    requires op.Start? && f in StartStep(s, op).state.flows && f !in s.flows
    ensures FlowIsKept(StartStep(s, op).state, StartStep(s, op).state.flows[f])
  {
  }

  lemma OnlyStartsAdd(s: State, e: Event, f: FlowId)
    requires f in Perform(s, e).state.flows && f !in s.flows
    ensures e.op.Start?
  {
    var c := s.(clock := e.at);
    if e.op.Exchange? && e.op.seen.flow in c.flows {
      RedeemKeepsTheRest(c, e.op, c.flows[e.op.seen.flow]);
    }
  }

  lemma WitnessIsKept(s: State, t: State, w: Witness, since: int)
    requires FencesFollow(s, t, w.id) && w.id in s.users && w.id in t.users && since <= t.clock && IsKept(s, w, since)
    ensures IsKept(t, w, since)
  {
  }

  lemma InitiatorTokenIsKept(s: State, t: State, row: Flow)
    requires row.initiator.Some? && FencesFollow(s, t, row.initiator.value.id)
    requires row.initiator.value.id in s.users && row.initiator.value.id in t.users
    requires row.createdAt <= t.clock && TokenIsKept(s, row)
    ensures TokenIsKept(t, row)
  {
  }

  lemma OldFlowIsKept(s: State, t: State, a: Flow, b: Flow)
    requires SameTerms(a, b) && FlowIsKept(s, a) && PeopleExist(s, a) && PeopleExist(t, b) && a.createdAt <= t.clock
    requires forall u | Names(a, u) :: FencesFollow(s, t, u)
    ensures FlowIsKept(t, b)
  {
    if b.initiator.Some? {
      assert Names(a, b.initiator.value.id);
      WitnessIsKept(s, t, b.initiator.value, b.createdAt);
      InitiatorTokenIsKept(s, t, b);
    }
    if b.target.Some? {
      assert Names(a, b.target.value.id);
      WitnessIsKept(s, t, b.target.value, b.createdAt);
    }
  }

  lemma FlowIsKeptAt(run: seq<State>, events: seq<Event>, i: nat, f: FlowId)
    requires IsRun(run, events) && i < |events| && FlowsAreKept(run[i]) && f in run[i + 1].flows
    ensures FlowIsKept(run[i + 1], run[i + 1].flows[f])
  {
    var s, t := run[i], run[i + 1];
    StepFacts(run, events, i, 0);
    assert StepsAt(run, events, i);
    if f in s.flows {
      assert FlowIsSound(s, f, s.flows[f]) && FlowIsSound(t, f, t.flows[f]);
      forall u | Names(s.flows[f], u) ensures FencesFollow(s, t, u) {
        StepFacts(run, events, i, u);
      }
      TermsAt(run, events, i, f);
      OldFlowIsKept(s, t, s.flows[f], t.flows[f]);
    } else {
      OnlyStartsAdd(s, events[i], f);
      NewFlowIsKept(s.(clock := events[i].at), events[i].op, f);
    }
  }

  lemma {:induction false} EveryFlowIsKept(run: seq<State>, events: seq<Event>, i: nat)
    requires IsRun(run, events) && i <= |events|
    ensures FlowsAreKept(run[i])
  {
    if i > 0 {
      EveryFlowIsKept(run, events, i - 1);
      forall f | f in run[i].flows ensures FlowIsKept(run[i], run[i].flows[f]) {
        FlowIsKeptAt(run, events, i - 1, f);
      }
    }
  }

  // ---------------------------------------------------------------- the exact terms of one exchange

  predicate NobodyIsFenced(s: State, row: Flow) {
    && (row.initiator.Some? ==> !Fenced(s, row.initiator.value.id, row.createdAt))
    && (row.target.Some? ==> !Fenced(s, row.target.value.id, row.createdAt))
  }

  /** The row is still the one the request read, and nothing in the way of the request itself. */
  predicate RequestIsInOrder(s: State, op: Op)
    requires op.Exchange?
  {
    && !op.conflict && !op.collision && op.seen.flow in s.flows && s.flows[op.seen.flow] == op.seen.row
    && !Expired(op.seen.row, s.clock) && CameFrom(op.seen.row, op.auth)
  }

  /** The identity belongs to an active account that was bound before the flow and has no marker since. */
  predicate IsOwner(s: State, since: int, googleId: string, u: UserId) {
    && Holds(s, u, googleId) && u in s.users && s.users[u].active
    && s.accounts[u].createdAt < since && !Fenced(s, u, since)
  }

  /** An owner whose row the request could lock: found when it read the flow, or named by the flow. */
  ghost predicate HasLockedOwner(s: State, row: Flow, googleId: string, owner: Option<UserId>) {
    exists u: UserId :: IsOwner(s, row.createdAt, googleId, u) && (owner == Some(u) || Names(row, u))
  }

  predicate InitiatorIsUnfenced(s: State, row: Flow) {
    row.initiator.Some? ==> !Fenced(s, row.initiator.value.id, row.createdAt)
  }

  ghost predicate MayTakeEffect(s: State, row: Flow, googleId: string, owner: Option<UserId>) {
    if row.mode == Link
    then row.target.Some? && NobodyIsFenced(s, row) && !TakenByAnother(s, googleId, row.target.value.id)
    else HasLockedOwner(s, row, googleId, owner)
  }

  ghost predicate TermsAreMet(s: State, op: Op)
    requires op.Exchange? && op.seen.row.payload.Identity?
  {
    && RequestIsInOrder(s, op) && InitiatorIsUnfenced(s, op.seen.row)
    && MayTakeEffect(s, op.seen.row, op.seen.row.payload.googleId, op.seen.owner)
  }

  lemma LinkSucceedsExactlyWhen(s: State, row: Flow, identity: Payload)
    requires identity.Identity? && FlowIsKept(s, row) && PeopleExist(s, row)
    requires InitiatorIsUnfenced(s, row)
    ensures Succeeds(RedeemLink(s, row, identity).reply) <==>
      row.target.Some? && NobodyIsFenced(s, row) && !TakenByAnother(s, identity.googleId, row.target.value.id)
  {
  }

  lemma LoginSucceedsExactlyWhen(s: State, seen: Snapshot, row: Flow, identity: Payload, freshKey: string)
    requires identity.Identity? && GoogleIdsAreUnique(s) && seen.row == row
    ensures Succeeds(RedeemLogin(s, seen, row, identity, freshKey).reply) <==>
      HasLockedOwner(s, row, identity.googleId, seen.owner)
  {
    var holder := AccountBy(s, identity.googleId);
    if u: UserId :| IsOwner(s, row.createdAt, identity.googleId, u) && (seen.owner == Some(u) || Names(row, u)) {
      assert Holds(s, u, identity.googleId) && holder == Some(u);
    }
  }

  lemma ActorIsValidExactlyWhen(s: State, row: Flow, auth: Auth)
    requires FlowIsKept(s, row)
    ensures ActorIsValid(s, row, auth) <==>
      CameFrom(row, auth) && InitiatorIsUnfenced(s, row)
  {
  }

  lemma RedeemSucceedsExactlyWhen(s: State, op: Op, row: Flow)
    requires op.Exchange? && op.seen.row == row && row.payload.Identity?
    requires FlowIsKept(s, row) && PeopleExist(s, row) && GoogleIdsAreUnique(s)
    ensures Succeeds(Redeem(s, op, row).reply) <==>
      && !op.collision && CameFrom(row, op.auth) && InitiatorIsUnfenced(s, row)
      && MayTakeEffect(s, row, row.payload.googleId, op.seen.owner)
  {
    ActorIsValidExactlyWhen(s, row, op.auth);
    if InitiatorIsUnfenced(s, row) {
      LinkSucceedsExactlyWhen(s, row, row.payload);
    }
    LoginSucceedsExactlyWhen(s, op.seen, row, row.payload, op.freshKey);
  }

  lemma StepSucceedsExactlyWhen(s: State, op: Op)
    requires op.Exchange? && op.seen.row.payload.Identity? && op.seen.row.stage == Ready && GoogleIdsAreUnique(s)
    requires op.seen.flow in s.flows ==>
      && (s.flows[op.seen.flow] == op.seen.row || s.flows[op.seen.flow].stage == Consumed)
      && FlowIsKept(s, s.flows[op.seen.flow]) && PeopleExist(s, s.flows[op.seen.flow])
    ensures Succeeds(ExchangeStep(s, op).reply) <==> TermsAreMet(s, op)
  {
    if op.seen.flow in s.flows && s.flows[op.seen.flow] == op.seen.row {
      RedeemSucceedsExactlyWhen(s, op, op.seen.row);
    }
  }

  /**
   * An exchange succeeds exactly when its row still stands unexpired, the caller is the one who started the flow, and
   * nobody it names has a marker since; a link moreover when the identity is not taken, a login when its owner was
   * bound before and stands unfenced. Roles, families, passwords and tokens need no further check.
   */
  lemma ExchangeSucceedsExactlyWhen(run: seq<State>, events: seq<Event>, i: nat)
    requires IsRun(run, events) && i < |events| && events[i].op.Exchange?
    ensures events[i].op.seen.row.payload.Identity?
    ensures Succeeds(Perform(run[i], events[i]).reply) <==> TermsAreMet(run[i].(clock := events[i].at), events[i].op)
  {
    var seen := events[i].op.seen;
    assert StepsAt(run, events, i);
    RunIsSound(run, events, i);
    EveryFlowIsKept(run, events, i);
    SnapshotsHoldIdentities(run, events, i, seen);
    EventSucceedsExactlyWhen(run[i], events[i]);
  }

  lemma EventSucceedsExactlyWhen(s: State, e: Event)
    requires Sound(s) && FlowsAreKept(s) && e.op.Exchange? && e.op.seen in s.snapshots
    requires e.op.seen.row.payload.Identity?
    ensures Succeeds(Perform(s, e).reply) <==> TermsAreMet(s.(clock := e.at), e.op)
  {
    var c := s.(clock := e.at);
    assert SnapshotIsSound(s, e.op.seen);
    if e.op.seen.flow in s.flows {
      assert FlowIsSound(s, e.op.seen.flow, s.flows[e.op.seen.flow]) && FlowIsKept(s, s.flows[e.op.seen.flow]);
    }
    StepSucceedsExactlyWhen(c, e.op);
  }

  lemma {:induction false} SnapshotsHoldIdentities(run: seq<State>, events: seq<Event>, i: nat, seen: Snapshot)
    requires IsRun(run, events) && i <= |events| && seen in run[i].snapshots
    ensures seen.row.payload.Identity?
  {
    if i > 0 {
      assert StepsAt(run, events, i - 1);
      if seen in run[i - 1].snapshots {
        SnapshotsHoldIdentities(run, events, i - 1, seen);
      } else {
        NewSnapshotHoldsIdentity(run[i - 1], events[i - 1], seen);
      }
    }
  }

  lemma NewSnapshotHoldsIdentity(s: State, e: Event, seen: Snapshot)
    requires seen in Perform(s, e).state.snapshots && seen !in s.snapshots
    ensures seen.row.payload.Identity?
  {
    var c := s.(clock := e.at);
    if e.op.Exchange? {
      if e.op.seen.flow in c.flows {
        RedeemKeepsSnapshots(c, e.op, c.flows[e.op.seen.flow]);
      }
    } else if IsAccountOp(e.op) {
      AccountStepKeepsSnapshots(c, e.op);
    } else if e.op.ReadTicket? {
      ReadNotesIdentity(c, e.op.ticket, e.op.verifier, seen);
    } else {
      FlowStepKeepsSnapshots(c, e.op);
    }
  }

  lemma ReadNotesIdentity(s: State, ticket: string, verifier: string, seen: Snapshot)
    requires seen in ReadStep(s, ticket, verifier).state.snapshots && seen !in s.snapshots
    ensures seen.row.payload.Identity?
  {
  }

  lemma FlowStepKeepsSnapshots(s: State, op: Op)
    requires !op.ReadTicket? && !op.Exchange?
    ensures FlowStep(s, op).state.snapshots == s.snapshots
  {
  }

  lemma AccountStepKeepsSnapshots(s: State, op: Op)
    ensures AccountStep(s, op).state.snapshots == s.snapshots
  {
  }

  lemma RedeemKeepsSnapshots(s: State, op: Op, row: Flow)
    requires op.Exchange?
    ensures Redeem(s, op, row).state.snapshots == s.snapshots
  {
  }

  // ---------------------------------------------------------------- a whole journey

  /** Where a history starts a flow, claims its callback, finishes it, reads its ticket and exchanges it. */
  datatype Journey = Journey(start: nat, claim: nat, finish: nat, read: nat, exchange: nat)

  /** Requests that could move the flow, and the deletion of an account it names. */
  predicate Touches(row: Flow, f: FlowId, op: Op) {
    match op
    case Claim(state) => row.state == Digest(state)
    case Fail(g) => g == f
    case Finish(g, _, _, _, _) => g == f
    case Exchange(seen, _, _, _, _) => seen.flow == f
    case DeleteUser(u) => Names(row, u)
    case _ => false
  }

  lemma UntouchedFlowStands(s: State, e: Event, f: FlowId)
    requires FlowsAreSound(s) && Enabled(s, e) && f in s.flows && !Touches(s.flows[f], f, e.op)
    requires !Expired(s.flows[f], e.at)
    ensures f in Perform(s, e).state.flows && Perform(s, e).state.flows[f] == s.flows[f]
  {
    var c := s.(clock := e.at);
    assert FlowIsSound(s, f, s.flows[f]);
    if e.op.Exchange? {
      if e.op.seen.flow in c.flows {
        RedeemKeepsTheRest(c, e.op, c.flows[e.op.seen.flow]);
      }
    } else if e.op.Prune? {
      assert f !in e.op.chosen;
    } else if IsAccountOp(e.op) {
      AccountStepKeepsOthers(c, e.op, f);
    } else {
      FlowStepKeepsOthers(c, e.op, f);
    }
  }

  lemma AccountStepKeepsOthers(s: State, op: Op, f: FlowId)
    requires f in s.flows && !Touches(s.flows[f], f, op)
    ensures f in AccountStep(s, op).state.flows && AccountStep(s, op).state.flows[f] == s.flows[f]
  {
  }

  lemma FlowStepKeepsOthers(s: State, op: Op, f: FlowId)
    requires f in s.flows && f < s.nextFlow && !Touches(s.flows[f], f, op) && !op.Exchange? && !op.Prune?
    ensures f in FlowStep(s, op).state.flows && FlowStep(s, op).state.flows[f] == s.flows[f]
  {
  }

  lemma ClockIsEventTime(s: State, e: Event)
    ensures Perform(s, e).state.clock == e.at
  {
    var c := s.(clock := e.at);
    if e.op.Exchange? && e.op.seen.flow in c.flows {
      RedeemKeepsTheRest(c, e.op, c.flows[e.op.seen.flow]);
    }
  }

  /** From `i` to `j` nothing touches the flow. */
  ghost predicate IsLeftAlone(run: seq<State>, events: seq<Event>, i: nat, j: nat, f: FlowId) {
    && i <= j <= |events| && |run| == |events| + 1
    && forall k: nat | i <= k < j && f in run[k].flows :: !Touches(run[k].flows[f], f, events[k].op)
  }

  lemma {:induction false} FlowLeftAloneStands(run: seq<State>, events: seq<Event>, i: nat, j: nat, f: FlowId)
    requires IsRun(run, events) && IsLeftAlone(run, events, i, j, f) && f in run[i].flows
    requires i == j || !Expired(run[i].flows[f], run[j].clock)
    ensures f in run[j].flows && run[j].flows[f] == run[i].flows[f]
    decreases j
  {
    if i < j {
      NumbersGrow(run, events, j - 1, j);
      FlowLeftAloneStands(run, events, i, j - 1, f);
      RunIsSound(run, events, j - 1);
      assert StepsAt(run, events, j - 1);
      ClockIsEventTime(run[j - 1], events[j - 1]);
      UntouchedFlowStands(run[j - 1], events[j - 1], f);
    }
  }

  /**
   * The five requests of one flow in their order, each with what the one before handed out, and nothing else that
   * touches the flow in between. The new ticket is not in use.
   */
  ghost predicate IsJourney(run: seq<State>, events: seq<Event>, j: Journey)
    requires |run| == |events| + 1
  {
    && j.start < j.claim < j.finish < j.read < j.exchange < |events|
    && events[j.start].op.Start? && Perform(run[j.start], events[j.start]).reply.Done?
    && var start, f := events[j.start].op, run[j.start].nextFlow;
    && IsLeftAlone(run, events, j.start + 1, j.claim, f)
    && IsLeftAlone(run, events, j.claim + 1, j.finish, f)
    && IsLeftAlone(run, events, j.finish + 1, j.exchange, f)
    && events[j.claim].op == Claim(start.state) && OpaqueText(start.state)
    && events[j.finish].op.Finish? && events[j.finish].op.flow == f
    && var ticket := events[j.finish].op.ticket;
    && (forall g :: !HasTicket(run[j.finish], g, Digest(ticket)))
    && OpaqueText(ticket) && events[j.read].op.ReadTicket? && events[j.read].op.ticket == ticket
    && VerifierText(events[j.read].op.verifier) && start.challenge == S256(events[j.read].op.verifier)
    && events[j.exchange].op.Exchange?
    && IsSeenBy(run[j.read].(clock := events[j.read].at), events[j.exchange].op.seen, f, ticket,
      events[j.read].op.verifier)
  }

  /** What a read of this flow notes down. */
  ghost predicate IsSeenBy(s: State, seen: Snapshot, f: FlowId, ticket: string, verifier: string) {
    && f in s.flows && seen.flow == f && seen.row == s.flows[f] && seen.ticket == ticket && seen.verifier == verifier
    && (seen.row.payload.Identity? ==>
          seen.owner == if seen.row.mode == Login then AccountBy(s, seen.row.payload.googleId) else None)
  }

  predicate IsClaimed(row: Flow, claimed: Flow) {
    claimed == row.(stage := Processing, payload := Erased)
  }

  lemma ClaimTakes(s: State, e: Event, f: FlowId)
    requires FlowKeysAreUnique(s) && e.op.Claim? && OpaqueText(e.op.state) && f in s.flows
    requires s.flows[f].state == Digest(e.op.state) && s.flows[f].stage == Pending && e.at < s.flows[f].expiresAt
    ensures f in Perform(s, e).state.flows && IsClaimed(s.flows[f], Perform(s, e).state.flows[f])
  {
    assert HasState(s.(clock := e.at), f, Digest(e.op.state));
  }

  predicate IsFinished(row: Flow, done: Flow, op: Op, at: int)
    requires op.Finish?
  {
    done == row.(stage := Ready, ticket := Some(Digest(op.ticket)), ticketExpiresAt := Some(at + TICKET_SECONDS),
                 payload := Identity(op.googleId, op.email, op.credentials))
  }

  lemma FinishTakes(s: State, e: Event)
    requires e.op.Finish? && e.op.flow in s.flows && s.flows[e.op.flow].stage == Processing
    requires e.at < s.flows[e.op.flow].expiresAt && forall g :: !HasTicket(s, g, Digest(e.op.ticket))
    ensures Perform(s, e).reply.Done? && e.op.flow in Perform(s, e).state.flows
    ensures IsFinished(s.flows[e.op.flow], Perform(s, e).state.flows[e.op.flow], e.op, e.at)
  {
    var c := s.(clock := e.at);
    assert forall g :: HasTicket(c, g, Digest(e.op.ticket)) <==> HasTicket(s, g, Digest(e.op.ticket));
  }

  lemma ClaimTakesAt(run: seq<State>, events: seq<Event>, i: nat, f: FlowId)
    requires IsRun(run, events) && i < |events| && events[i].op.Claim? && OpaqueText(events[i].op.state)
    requires f in run[i].flows && run[i].flows[f].state == Digest(events[i].op.state)
    requires run[i].flows[f].stage == Pending && events[i].at < run[i].flows[f].expiresAt
    ensures f in run[i + 1].flows && IsClaimed(run[i].flows[f], run[i + 1].flows[f])
  {
    RunIsSound(run, events, i);
    assert StepsAt(run, events, i);
    ClaimTakes(run[i], events[i], f);
  }

  lemma FinishTakesAt(run: seq<State>, events: seq<Event>, i: nat, f: FlowId)
    requires IsRun(run, events) && i < |events| && events[i].op.Finish? && events[i].op.flow == f && f in run[i].flows
    requires run[i].flows[f].stage == Processing && events[i].at < run[i].flows[f].expiresAt
    requires forall g :: !HasTicket(run[i], g, Digest(events[i].op.ticket))
    ensures Perform(run[i], events[i]).reply.Done?
    ensures f in run[i + 1].flows && IsFinished(run[i].flows[f], run[i + 1].flows[f], events[i].op, events[i].at)
  {
    assert StepsAt(run, events, i);
    FinishTakes(run[i], events[i]);
  }

  /** Within ten minutes the claim and the finish of a journey take. */
  lemma JourneyIsClaimed(run: seq<State>, events: seq<Event>, j: Journey)
    requires IsRun(run, events) && IsJourney(run, events, j)
    requires events[j.finish].at < events[j.start].at + FLOW_SECONDS
    ensures run[j.start].nextFlow in run[j.start + 1].flows && run[j.start].nextFlow in run[j.finish].flows
    ensures IsStartedBy(run[j.start + 1].flows[run[j.start].nextFlow], events[j.start].op, events[j.start].at)
    ensures run[j.start + 1].flows[run[j.start].nextFlow].ticketExpiresAt.None?
    ensures IsClaimed(run[j.start + 1].flows[run[j.start].nextFlow], run[j.finish].flows[run[j.start].nextFlow])
  {
    var f := run[j.start].nextFlow;
    TimesRise(run, events, j.claim, j.finish);
    StartedFlowStands(run, events, j.start, j.claim);
    ClaimedFlowStands(run, events, j.claim, j.finish, f);
  }

  lemma StartedFlowStands(run: seq<State>, events: seq<Event>, k: nat, i: nat)
    requires IsRun(run, events) && k < i < |events| && events[k].op.Start? && Perform(run[k], events[k]).reply.Done?
    requires IsLeftAlone(run, events, k + 1, i, run[k].nextFlow) && events[i].at < events[k].at + FLOW_SECONDS
    ensures var f := run[k].nextFlow;
      && f in run[k + 1].flows && f in run[i].flows && run[i].flows[f] == run[k + 1].flows[f]
      && IsStartedBy(run[i].flows[f], events[k].op, events[k].at)
      && run[i].flows[f].stage == Pending && run[i].flows[f].ticketExpiresAt.None?
  {
    StartRecords(run, events, k);
    StartSetsNoTicket(run, events, k);
    TimesRise(run, events, k, i);
    FlowLeftAloneStands(run, events, k + 1, i, run[k].nextFlow);
  }

  lemma ClaimedFlowStands(run: seq<State>, events: seq<Event>, i: nat, k: nat, f: FlowId)
    requires IsRun(run, events) && i < k < |events| && f in run[i].flows && IsLeftAlone(run, events, i + 1, k, f)
    requires events[i].op.Claim? && OpaqueText(events[i].op.state)
    requires run[i].flows[f].state == Digest(events[i].op.state)
    requires run[i].flows[f].stage == Pending && run[i].flows[f].ticketExpiresAt.None?
    requires events[k].at < run[i].flows[f].expiresAt
    ensures f in run[k].flows && IsClaimed(run[i].flows[f], run[k].flows[f])
  {
    TimesRise(run, events, i, k);
    ClaimTakesAt(run, events, i, f);
    FlowLeftAloneStands(run, events, i + 1, k, f);
  }

  lemma StartSetsNoTicket(run: seq<State>, events: seq<Event>, k: nat)
    requires IsRun(run, events) && k < |events| && events[k].op.Start? && Perform(run[k], events[k]).reply.Done?
    ensures run[k].nextFlow in run[k + 1].flows && run[k + 1].flows[run[k].nextFlow].ticketExpiresAt.None?
  {
    assert StepsAt(run, events, k);
  }

  /** The clock before an event is no later than the event, and events come in time order. */
  lemma TimesRise(run: seq<State>, events: seq<Event>, i: nat, k: nat)
    requires IsRun(run, events) && i < k < |events|
    ensures run[i].clock <= events[i].at <= run[k].clock <= events[k].at
  {
    assert StepsAt(run, events, i) && StepsAt(run, events, k);
    ClockIsEventTime(run[i], events[i]);
    NumbersGrow(run, events, i + 1, k);
  }

  lemma JourneyIsFinished(run: seq<State>, events: seq<Event>, j: Journey)
    requires IsRun(run, events) && IsJourney(run, events, j)
    requires events[j.finish].at < events[j.start].at + FLOW_SECONDS
    ensures var f := run[j.start].nextFlow;
      && f in run[j.start + 1].flows && f in run[j.finish + 1].flows
      && IsStartedBy(run[j.start + 1].flows[f], events[j.start].op, events[j.start].at)
      && IsFinished(run[j.start + 1].flows[f], run[j.finish + 1].flows[f], events[j.finish].op, events[j.finish].at)
    ensures Perform(run[j.finish], events[j.finish]).reply.Done?
  {
    JourneyIsClaimed(run, events, j);
    FinishTakesAt(run, events, j.finish, run[j.start].nextFlow);
  }

  /** The row stands unchanged from the finish to an exchange in time. */
  lemma JourneyStands(run: seq<State>, events: seq<Event>, j: Journey)
    requires IsRun(run, events) && IsJourney(run, events, j)
    requires events[j.exchange].at < events[j.start].at + FLOW_SECONDS
    requires events[j.exchange].at < events[j.finish].at + TICKET_SECONDS
    ensures var f := run[j.start].nextFlow;
      && f in run[j.exchange].flows && run[j.exchange].flows[f] == events[j.exchange].op.seen.row
      && f in run[j.start + 1].flows
      && IsStartedBy(run[j.start + 1].flows[f], events[j.start].op, events[j.start].at)
      && IsFinished(run[j.start + 1].flows[f], run[j.exchange].flows[f], events[j.finish].op, events[j.finish].at)
  {
    var f := run[j.start].nextFlow;
    TimesRise(run, events, j.finish, j.exchange);
    JourneyIsFinished(run, events, j);
    FinishedFlowStands(run, events, j.finish, j.read, j.exchange, f);
  }

  lemma FinishedFlowStands(run: seq<State>, events: seq<Event>, n: nat, i: nat, k: nat, f: FlowId)
    requires IsRun(run, events) && n < i < k < |events| && f in run[n + 1].flows
    requires IsLeftAlone(run, events, n + 1, k, f) && !Expired(run[n + 1].flows[f], events[k].at)
    ensures f in run[i].flows && f in run[k].flows && run[i].flows[f] == run[k].flows[f] == run[n + 1].flows[f]
  {
    TimesRise(run, events, i, k);
    TimesRise(run, events, n, i);
    FlowLeftAloneStands(run, events, n + 1, k, f);
    FlowLeftAloneStands(run, events, n + 1, i, f);
  }

  /** The caller, the deadlines and the marks a journey owes, in the terms of its start and its finish. */
  ghost predicate JourneyIsInOrder(s: State, start: Event, finish: Event, op: Op)
    requires start.op.Start? && finish.op.Finish? && op.Exchange?
  {
    var user, target := start.op.auth, start.op.target;
    && s.clock < start.at + FLOW_SECONDS && s.clock < finish.at + TICKET_SECONDS
    && !op.conflict && !op.collision && op.auth == user
    && (user.TokenAuth? ==> !Fenced(s, user.user, start.at))
    && if start.op.mode == Link
       then target.Some? && !Fenced(s, target.value, start.at) && !TakenByAnother(s, finish.op.googleId, target.value)
       else exists u: UserId :: IsOwner(s, start.at, finish.op.googleId, u)
  }

  /** For a row as the journey left it, the terms of the exchange are those of the journey. */
  lemma TermsOfJourney(s: State, start: Event, finish: Event, row: Flow, op: Op)
    requires start.op.Start? && finish.op.Finish? && op.Exchange?
    requires IsStartedBy(row, start.op, start.at) && IsFinished(row, op.seen.row, finish.op, finish.at)
    requires op.seen.flow in s.flows && s.flows[op.seen.flow] == op.seen.row
    requires start.op.mode == Login ==>
      forall u: UserId | IsOwner(s, start.at, finish.op.googleId, u) :: op.seen.owner == Some(u)
    ensures TermsAreMet(s, op) <==> JourneyIsInOrder(s, start, finish, op)
  {
  }

  /** An owner unfenced since the start was found by the read. */
  lemma OwnerWasSeen(run: seq<State>, events: seq<Event>, j: Journey, u: UserId)
    requires IsRun(run, events) && IsJourney(run, events, j) && events[j.start].op.mode == Login
    requires events[j.exchange].op.seen.row.mode == Login
    requires events[j.exchange].op.seen.row.payload.Identity?
    requires IsOwner(run[j.exchange].(clock := events[j.exchange].at), events[j.start].at,
                     events[j.exchange].op.seen.row.payload.googleId, u)
    ensures events[j.exchange].op.seen.owner == Some(u)
  {
    var googleId := events[j.exchange].op.seen.row.payload.googleId;
    TimesRise(run, events, j.start, j.read);
    RunIsSound(run, events, j.read);
    if !Holds(run[j.read], u, googleId) {
      LostBindingStaysFenced(run, events, j.read, j.exchange, u, googleId);
    }
    assert Holds(run[j.read].(clock := events[j.read].at), u, googleId);
  }

  /**
   * A journey that nothing else disturbs ends in a login or a link exactly when the exchange comes in time, from the
   * caller who began, with nobody named and no owner marked since the start, and the identity free or bound before.
   */
  lemma JourneySucceedsExactlyWhen(run: seq<State>, events: seq<Event>, j: Journey)
    requires IsRun(run, events) && IsJourney(run, events, j)
    ensures Succeeds(Perform(run[j.exchange], events[j.exchange]).reply) <==>
      JourneyIsInOrder(run[j.exchange].(clock := events[j.exchange].at), events[j.start], events[j.finish],
                       events[j.exchange].op)
  {
    if Succeeds(Perform(run[j.exchange], events[j.exchange]).reply) {
      SuccessMatchesItsStart(run, events, j.start, j.exchange);
      TimesRise(run, events, j.finish, j.exchange);
      JourneyIsFinished(run, events, j);
      SuccessMatchesItsFinish(run, events, j.finish, j.exchange);
    }
    if events[j.exchange].at < events[j.start].at + FLOW_SECONDS
       && events[j.exchange].at < events[j.finish].at + TICKET_SECONDS {
      TimelyJourneySucceedsExactlyWhen(run, events, j);
    }
  }

  lemma TimelyJourneySucceedsExactlyWhen(run: seq<State>, events: seq<Event>, j: Journey)
    requires IsRun(run, events) && IsJourney(run, events, j)
    requires events[j.exchange].at < events[j.start].at + FLOW_SECONDS
    requires events[j.exchange].at < events[j.finish].at + TICKET_SECONDS
    ensures Succeeds(Perform(run[j.exchange], events[j.exchange]).reply) <==>
      JourneyIsInOrder(run[j.exchange].(clock := events[j.exchange].at), events[j.start], events[j.finish],
                       events[j.exchange].op)
  {
    var f, op, s := run[j.start].nextFlow, events[j.exchange].op, run[j.exchange].(clock := events[j.exchange].at);
    JourneyStands(run, events, j);
    ExchangeSucceedsExactlyWhen(run, events, j.exchange);
    if events[j.start].op.mode == Login {
      forall u: UserId | IsOwner(s, events[j.start].at, events[j.finish].op.googleId, u)
        ensures op.seen.owner == Some(u)
      {
        OwnerWasSeen(run, events, j, u);
      }
    }
    TermsOfJourney(s, events[j.start], events[j.finish], run[j.start + 1].flows[f], op);
  }
}
