/** What no run of the Google return protocol can do: theorems about whole histories. */
module GoogleRuns {
  import opened Options
  import opened GoogleReturn
  import opened GoogleInvariant

  /** A history: `run[i]` is the database before `events[i]`. */
  ghost predicate IsRun(run: seq<State>, events: seq<Event>) {
    && |run| == |events| + 1
    && run[0] == EMPTY
    && forall i: nat | i < |events| :: StepsAt(run, events, i)
  }

  ghost predicate StepsAt(run: seq<State>, events: seq<Event>, i: nat)
    requires i < |events| && |run| == |events| + 1
  {
    Enabled(run[i], events[i]) && run[i + 1] == Perform(run[i], events[i]).state
  }

  lemma {:induction false} RunIsSound(run: seq<State>, events: seq<Event>, i: nat)
    requires IsRun(run, events) && i <= |events|
    ensures Sound(run[i])
  {
    if i == 0 {
      EmptyIsSound();
    } else {
      RunIsSound(run, events, i - 1);
      NextIsSound(run, events, i - 1);
    }
  }

  lemma EmptyIsSound()
    ensures Sound(EMPTY)
  {
    assert forall client :: LiveOf(EMPTY, client) == {};
  }

  lemma NextIsSound(run: seq<State>, events: seq<Event>, i: nat)
    requires IsRun(run, events) && i < |events| && Sound(run[i])
    ensures Sound(run[i + 1])
  {
    assert StepsAt(run, events, i);
    StepIsSound(run[i], events[i]);
  }

  // ---------------------------------------------------------------- what one step may do to a flow

  /** A flow that is still there keeps its terms and its stage, or moves forward; a new one takes the next number. */
  ghost predicate FlowsFollow(s: State, t: State) {
    && s.clock <= t.clock
    && s.nextFlow <= t.nextFlow
    && forall f | f in t.flows ::
         (f in s.flows && (t.flows[f] == s.flows[f] || Advances(s.flows[f], t.flows[f]))) || f >= s.nextFlow
  }

  lemma RedeemKeepsTheRest(s: State, op: Op, row: Flow)
    requires op.Exchange?
    ensures var t := Redeem(s, op, row).state;
            t.flows == s.flows && t.nextFlow == s.nextFlow && t.clock == s.clock && t.users == s.users
  {
  }

  lemma ExchangeFollows(s: State, op: Op)
    requires op.Exchange?
    ensures FlowsFollow(s, ExchangeStep(s, op).state)
  {
    var f := op.seen.flow;
    if f in s.flows {
      RedeemKeepsTheRest(s, op, s.flows[f]);
    }
  }

  lemma AccountStepFollows(s: State, op: Op)
    ensures FlowsFollow(s, AccountStep(s, op).state)
  {
  }

  lemma StartAndClaimFollow(s: State, op: Op)
    requires op.Start? || op.Claim?
    ensures FlowsFollow(s, FlowStep(s, op).state)
  {
  }

  lemma FailAndFinishFollow(s: State, op: Op)
    requires op.Fail? || op.Finish?
    ensures FlowsFollow(s, FlowStep(s, op).state)
  {
  }

  lemma OtherFlowStepFollows(s: State, op: Op)
    requires !op.Start? && !op.Claim? && !op.Fail? && !op.Finish? && !op.Exchange?
    ensures FlowsFollow(s, FlowStep(s, op).state)
  {
  }

  lemma StepFollows(s: State, e: Event)
    requires Enabled(s, e)
    ensures FlowsFollow(s, Perform(s, e).state)
  {
    var c := s.(clock := e.at);
    if IsAccountOp(e.op) {
      AccountStepFollows(c, e.op);
    } else if e.op.Exchange? {
      ExchangeFollows(c, e.op);
    } else if e.op.Start? || e.op.Claim? {
      StartAndClaimFollow(c, e.op);
    } else if e.op.Fail? || e.op.Finish? {
      FailAndFinishFollow(c, e.op);
    } else {
      OtherFlowStepFollows(c, e.op);
    }
  }

  // ---------------------------------------------------------------- what one step may do to a fence

  /** A marker is never lowered while its account exists. */
  predicate FenceStands(s: State, t: State, u: UserId) {
    u in s.fences ==> Fenced(t, u, s.fences[u]) || u !in t.users
  }

  /** A changed Google binding leaves a marker from that very step, unless the whole account went. */
  predicate BindingIsFenced(s: State, t: State, u: UserId) {
    Binding(s, u) == Binding(t, u) || Fenced(t, u, t.clock) || u !in t.users
  }

  /** A security-sensitive change of an account that exists before and after. */
  predicate SensitiveChange(s: State, t: State, u: UserId) {
    && u in s.users && u in t.users
    && (|| s.users[u] != t.users[u]
        || (u in s.tokens && (u !in t.tokens || s.tokens[u] != t.tokens[u]))
        || Binding(s, u) != Binding(t, u))
  }

  ghost predicate FencesFollow(s: State, t: State, u: UserId) {
    FenceStands(s, t, u) && BindingIsFenced(s, t, u) && (SensitiveChange(s, t, u) ==> Fenced(t, u, t.clock))
  }

  lemma RedeemIsFenced(s: State, op: Op, row: Flow, u: UserId)
    requires OwnersExist(s) && op.Exchange?
    ensures FencesFollow(s, Redeem(s, op, row).state, u)
  {
  }

  lemma ExchangeIsFenced(s: State, op: Op, u: UserId)
    requires OwnersExist(s) && op.Exchange?
    ensures FencesFollow(s, ExchangeStep(s, op).state, u)
  {
    if op.seen.flow in s.flows {
      RedeemIsFenced(s, op, s.flows[op.seen.flow], u);
    }
  }

  lemma AccountStepIsFenced(s: State, op: Op, u: UserId)
    requires OwnersExist(s)
    ensures FencesFollow(s, AccountStep(s, op).state, u)
  {
    if op.LinkAccount? || op.Unlink? {
      BindingStepIsFenced(s, op, u);
    } else {
      UserStepIsFenced(s, op, u);
    }
  }

  lemma BindingStepIsFenced(s: State, op: Op, u: UserId)
    requires OwnersExist(s) && (op.LinkAccount? || op.Unlink?)
    ensures FencesFollow(s, AccountStep(s, op).state, u)
  {
  }

  lemma UserStepIsFenced(s: State, op: Op, u: UserId)
    requires OwnersExist(s) && !op.LinkAccount? && !op.Unlink?
    ensures FencesFollow(s, AccountStep(s, op).state, u)
  {
  }

  /** Steps of the flow table before a redemption touch no account. */
  ghost predicate PeopleStand(s: State, t: State) {
    t == s.(flows := t.flows, nextFlow := t.nextFlow, snapshots := t.snapshots)
  }

  lemma StartLeavesPeople(s: State, op: Op)
    requires op.Start?
    ensures PeopleStand(s, FlowStep(s, op).state)
  {
  }

  lemma OtherFlowStepLeavesPeople(s: State, op: Op)
    requires !op.Start? && !op.Exchange?
    ensures PeopleStand(s, FlowStep(s, op).state)
  {
  }

  lemma StandingPeopleAreFenced(s: State, t: State, u: UserId)
    requires PeopleStand(s, t)
    ensures FencesFollow(s, t, u)
  {
  }

  /** Whatever the operation, a sensitive change of `u` leaves a marker dated at that operation. */
  lemma EveryChangeIsFenced(s: State, e: Event, u: UserId)
    requires Sound(s) && Enabled(s, e)
    ensures FencesFollow(s, Perform(s, e).state, u)
  {
    var c := s.(clock := e.at);
    if IsAccountOp(e.op) {
      AccountStepIsFenced(c, e.op, u);
    } else if e.op.Exchange? {
      ExchangeIsFenced(c, e.op, u);
    } else {
      if e.op.Start? { StartLeavesPeople(c, e.op); } else { OtherFlowStepLeavesPeople(c, e.op); }
      StandingPeopleAreFenced(c, FlowStep(c, e.op).state, u);
    }
  }

  // ---------------------------------------------------------------- success of an exchange

  predicate Succeeds(r: Reply) {
    r.LoggedIn? || r.Linked?
  }

  predicate CouldHaveProof(row: Flow, seen: Snapshot) {
    row == seen.row && row.challenge == S256(seen.verifier) && row.ticket == Some(Digest(seen.ticket))
  }

  /** What a success says about the state it happened in. */
  ghost predicate WasPermitted(s: State, op: Op, r: Reply)
    requires op.Exchange?
  {
    && op.seen.flow in s.flows
    && var row := s.flows[op.seen.flow];
    && row.stage == Ready
    && CouldHaveProof(row, op.seen)
    && (row.initiator.Some? ==> Unchanged(s, row.initiator.value, row.createdAt))
    && (r.LoggedIn? <==> row.mode == Login)
    && (r.LoggedIn? ==> Holds(s, r.user, r.googleId) && !Fenced(s, r.user, row.createdAt))
    && (r.LoggedIn? ==> r.user in s.users && s.users[r.user].active)
    && (r.Linked? ==>
      row.target.Some? && row.target.value.id == r.user && Unchanged(s, row.target.value, row.createdAt))
  }

  lemma RedeemWasPermitted(s: State, op: Op, row: Flow)
    requires op.Exchange? && Succeeds(Redeem(s, op, row).reply)
    ensures var r := Redeem(s, op, row).reply;
            && (row.initiator.Some? ==> Unchanged(s, row.initiator.value, row.createdAt))
            && (r.LoggedIn? <==> row.mode == Login)
            && (r.LoggedIn? ==> Holds(s, r.user, r.googleId) && !Fenced(s, r.user, row.createdAt))
            && (r.LoggedIn? ==> r.user in s.users && s.users[r.user].active)
            && (r.Linked? ==>
              row.target.Some? && row.target.value.id == r.user && Unchanged(s, row.target.value, row.createdAt))
  {
  }

  lemma SuccessWasPermitted(s: State, e: Event)
    requires SnapshotsAreSound(s) && Enabled(s, e) && e.op.Exchange? && Succeeds(Perform(s, e).reply)
    ensures WasPermitted(s, e.op, Perform(s, e).reply)
  {
    assert SnapshotIsSound(s, e.op.seen);
    RedeemWasPermitted(s.(clock := e.at), e.op, s.flows[e.op.seen.flow]);
  }

  /** Everything the history proofs need to know about one step. */
  lemma StepFacts(run: seq<State>, events: seq<Event>, i: nat, u: UserId)
    requires IsRun(run, events) && i < |events|
    ensures Sound(run[i]) && Sound(run[i + 1])
    ensures FlowsFollow(run[i], run[i + 1]) && FencesFollow(run[i], run[i + 1], u)
  {
    RunIsSound(run, events, i);
    RunIsSound(run, events, i + 1);
    assert StepsAt(run, events, i);
    StepFollows(run[i], events[i]);
    EveryChangeIsFenced(run[i], events[i], u);
  }

  // ---------------------------------------------------------------- consumed once

  /** How far a flow has come: not created, its stage, or erased. */
  function Phase(s: State, f: FlowId): nat {
    if f in s.flows then Rank(s.flows[f].stage) else if f < s.nextFlow then 5 else 0
  }

  lemma PhaseAt(run: seq<State>, events: seq<Event>, i: nat, f: FlowId)
    requires IsRun(run, events) && i < |events|
    ensures Phase(run[i], f) <= Phase(run[i + 1], f)
  {
    StepFacts(run, events, i, 0);
    PhaseRises(run[i], run[i + 1], f);
  }

  lemma PhaseRises(s: State, t: State, f: FlowId)
    requires FlowsAreSound(s) && FlowsFollow(s, t)
    ensures Phase(s, f) <= Phase(t, f)
  {
  }

  /** Along a run a flow's phase never falls. */
  lemma {:induction false} PhaseNeverFalls(run: seq<State>, events: seq<Event>, i: nat, j: nat, f: FlowId)
    requires IsRun(run, events) && i <= j <= |events|
    ensures Phase(run[i], f) <= Phase(run[j], f)
    decreases j - i
  {
    if i < j {
      PhaseNeverFalls(run, events, i, j - 1, f);
      PhaseAt(run, events, j - 1, f);
    }
  }

  lemma ClaimIsPending(s: State, e: Event)
    requires e.op.Claim? && Perform(s, e).reply.Claimed?
    ensures var f := Perform(s, e).reply.flow;
            Phase(s, f) == 1 && Phase(Perform(s, e).state, f) == 2
  {
  }

  /** The provider's verifier of one flow is handed out at most once in any history. */
  lemma ClaimedAtMostOnce(run: seq<State>, events: seq<Event>, i: nat, j: nat)
    requires IsRun(run, events) && i < j < |events| && events[i].op.Claim? && events[j].op.Claim?
    requires Perform(run[i], events[i]).reply.Claimed? && Perform(run[j], events[j]).reply.Claimed?
    ensures Perform(run[i], events[i]).reply.flow != Perform(run[j], events[j]).reply.flow
  {
    assert StepsAt(run, events, i);
    ClaimIsPending(run[i], events[i]);
    ClaimIsPending(run[j], events[j]);
    PhaseNeverFalls(run, events, i + 1, j, Perform(run[i], events[i]).reply.flow);
  }

  predicate Consumes(s: State, f: FlowId, t: State) {
    Phase(s, f) == 3 && Phase(t, f) == 4
  }

  lemma SuccessConsumes(s: State, op: Op)
    requires op.Exchange? && Succeeds(ExchangeStep(s, op).reply)
    ensures Consumes(s, op.seen.flow, ExchangeStep(s, op).state)
  {
  }

  /** However many requests hold a snapshot of the same ready flow, at most one of them ever succeeds. */
  lemma RedeemedAtMostOnce(run: seq<State>, events: seq<Event>, i: nat, j: nat)
    requires IsRun(run, events) && i < j < |events| && events[i].op.Exchange? && events[j].op.Exchange?
    requires Succeeds(Perform(run[i], events[i]).reply) && Succeeds(Perform(run[j], events[j]).reply)
    ensures events[i].op.seen.flow != events[j].op.seen.flow
  {
    assert StepsAt(run, events, i);
    SuccessConsumes(run[i].(clock := events[i].at), events[i].op);
    SuccessConsumes(run[j].(clock := events[j].at), events[j].op);
    PhaseNeverFalls(run, events, i + 1, j, events[i].op.seen.flow);
  }

  /** A lock conflict, an unproven browser or a row that is not ready. */
  ghost predicate IsRefusedEarly(s: State, e: Event) {
    match e.op
    case Exchange(seen, _, _, conflict, _) => conflict || Phase(s, seen.flow) != 3 || Expired(s.flows[seen.flow], e.at)
    case ReadTicket(ticket, verifier) =>
      forall f | f in s.flows && s.flows[f].stage == Ready && s.flows[f].ticket == Some(Digest(ticket)) ::
        s.flows[f].challenge != S256(verifier)
    case _ => false
  }

  lemma RefusalChangesNothing(s: State, e: Event)
    requires IsRefusedEarly(s, e)
    ensures Perform(s, e).state == s.(clock := e.at) && !Succeeds(Perform(s, e).reply)
  {
  }

  /** However many such requests come in a row, every table is as it was and the ready flow is still there to redeem. */
  lemma {:induction false} RefusedRequestsChangeNothing(run: seq<State>, events: seq<Event>, i: nat, j: nat)
    requires IsRun(run, events) && i <= j <= |events|
    requires forall k: nat | i <= k < j :: IsRefusedEarly(run[k], events[k])
    ensures run[j] == run[i].(clock := run[j].clock)
    decreases j
  {
    if i < j {
      RefusedRequestsChangeNothing(run, events, i, j - 1);
      assert StepsAt(run, events, j - 1);
      RefusalChangesNothing(run[j - 1], events[j - 1]);
    }
  }

  /** In any history, a success spends the very row it read, with that row's ticket and a verifier of its challenge. */
  lemma RedemptionIsProven(run: seq<State>, events: seq<Event>, i: nat)
    requires IsRun(run, events) && i < |events| && events[i].op.Exchange? && Succeeds(Perform(run[i], events[i]).reply)
    ensures WasPermitted(run[i], events[i].op, Perform(run[i], events[i]).reply)
  {
    RunIsSound(run, events, i);
    assert StepsAt(run, events, i);
    SuccessWasPermitted(run[i], events[i]);
  }

  // ---------------------------------------------------------------- revocation is final

  /** Either the marker stands, or the account lost its binding and every older flow that names it. */
  ghost predicate Revoked(s: State, u: UserId, since: int, before: FlowId) {
    || Fenced(s, u, since)
    || (u !in s.accounts && forall f | f in s.flows && f < before :: !Names(s.flows[f], u))
  }

  lemma RevocationStands(s: State, t: State, u: UserId, since: int, before: FlowId)
    requires OwnersExist(t) && FlowsAreSound(t) && FlowsFollow(s, t) && FencesFollow(s, t, u)
    requires since <= s.clock && before <= s.nextFlow && Revoked(s, u, since, before)
    ensures Revoked(t, u, since, before)
  {
  }

  lemma RevokedAt(run: seq<State>, events: seq<Event>, i: nat, u: UserId, since: int, before: FlowId)
    requires IsRun(run, events) && i < |events|
    requires since <= run[i].clock && before <= run[i].nextFlow && Revoked(run[i], u, since, before)
    ensures since <= run[i + 1].clock && before <= run[i + 1].nextFlow && Revoked(run[i + 1], u, since, before)
  {
    StepFacts(run, events, i, u);
    RevocationStands(run[i], run[i + 1], u, since, before);
  }

  lemma {:induction false} RevocationLasts(run: seq<State>, events: seq<Event>, m: nat, i: nat, u: UserId)
    requires IsRun(run, events) && m <= i <= |events| && Fenced(run[m], u, run[m].clock)
    ensures Revoked(run[i], u, run[m].clock, run[m].nextFlow)
    ensures run[m].clock <= run[i].clock && run[m].nextFlow <= run[i].nextFlow
    decreases i
  {
    if m < i {
      RevocationLasts(run, events, m, i - 1, u);
      RevokedAt(run, events, i - 1, u, run[m].clock, run[m].nextFlow);
    }
  }

  lemma TermsAt(run: seq<State>, events: seq<Event>, i: nat, f: FlowId)
    requires IsRun(run, events) && i < |events| && f in run[i].flows && f in run[i + 1].flows
    ensures SameTerms(run[i].flows[f], run[i + 1].flows[f])
  {
    StepFacts(run, events, i, 0);
    assert FlowIsSound(run[i], f, run[i].flows[f]);
  }

  /** A surviving flow keeps its terms. */
  lemma {:induction false} TermsLast(run: seq<State>, events: seq<Event>, k: nat, i: nat, f: FlowId)
    requires IsRun(run, events) && k <= i <= |events| && f in run[k].flows && f in run[i].flows
    ensures SameTerms(run[k].flows[f], run[i].flows[f])
    decreases i
  {
    if k < i {
      SurvivorWasThere(run, events, k, i - 1, i, f);
      TermsAt(run, events, i - 1, f);
      TermsLast(run, events, k, i - 1, f);
    }
  }

  lemma GrowsAt(run: seq<State>, events: seq<Event>, i: nat)
    requires IsRun(run, events) && i < |events|
    ensures run[i].nextFlow <= run[i + 1].nextFlow && run[i].clock <= run[i + 1].clock
  {
    assert StepsAt(run, events, i);
    StepFollows(run[i], events[i]);
  }

  lemma {:induction false} NumbersGrow(run: seq<State>, events: seq<Event>, i: nat, j: nat)
    requires IsRun(run, events) && i <= j <= |events|
    ensures run[i].nextFlow <= run[j].nextFlow && run[i].clock <= run[j].clock
    decreases j
  {
    if i < j {
      NumbersGrow(run, events, i, j - 1);
      GrowsAt(run, events, j - 1);
    }
  }

  lemma FencedAt(run: seq<State>, events: seq<Event>, i: nat, u: UserId)
    requires IsRun(run, events) && i < |events| && SensitiveChange(run[i], run[i + 1], u)
    ensures Fenced(run[i + 1], u, run[i + 1].clock)
  {
    StepFacts(run, events, i, u);
  }

  /** The flow was there at point `m`, or was started no later than its clock reading while the account stood. */
  ghost predicate WasOpenAt(run: seq<State>, m: nat, i: nat, f: FlowId, u: UserId)
    requires m <= i < |run|
  {
    || f in run[m].flows
    || (f in run[i].flows && run[i].flows[f].createdAt <= run[m].clock && forall k | m <= k <= i :: u in run[k].users)
  }

  /**
   * After a sensitive change of `u`, a flow open at that moment never redeems for `u`: not if it names `u`, and not
   * if the login resolves to `u`, whatever is restored in between. A flow started later at the same clock reading
   * is refused like one started before.
   */
  lemma RevokedFlowNeverRedeems(run: seq<State>, events: seq<Event>, m: nat, i: nat, f: FlowId, u: UserId)
    requires IsRun(run, events) && m < i < |events|
    requires SensitiveChange(run[m], run[m + 1], u) && WasOpenAt(run, m + 1, i, f, u)
    requires events[i].op.Exchange? && events[i].op.seen.flow == f && Succeeds(Perform(run[i], events[i]).reply)
    ensures f in run[i].flows && !Names(run[i].flows[f], u) && Perform(run[i], events[i]).reply.user != u
  {
    FencedAt(run, events, m, u);
    FencedFlowNeverRedeems(run, events, m + 1, i, f, u);
  }

  lemma FencedFlowNeverRedeems(run: seq<State>, events: seq<Event>, m: nat, i: nat, f: FlowId, u: UserId)
    requires IsRun(run, events) && m <= i < |events|
    requires Fenced(run[m], u, run[m].clock) && WasOpenAt(run, m, i, f, u)
    requires events[i].op.Exchange? && events[i].op.seen.flow == f && Succeeds(Perform(run[i], events[i]).reply)
    ensures f in run[i].flows && !Names(run[i].flows[f], u) && Perform(run[i], events[i]).reply.user != u
  {
    RedemptionIsProven(run, events, i);
    RunIsSound(run, events, m);
    RunIsSound(run, events, i);
    assert FlowIsSound(run[i], f, run[i].flows[f]);
    if f in run[m].flows {
      RevocationLasts(run, events, m, i, u);
      TermsLast(run, events, m, i, f);
      assert FlowIsSound(run[m], f, run[m].flows[f]);
      PermissionRefutesRevocation(run[i], events[i].op, Perform(run[i], events[i]).reply, u, run[m].clock,
        run[m].nextFlow);
    } else {
      FenceLasts(run, events, m, i, u);
      PermissionRefutesFence(run[i], events[i].op, Perform(run[i], events[i]).reply, u);
    }
  }

  /** While its account stands, a marker stands. */
  lemma {:induction false} FenceLasts(run: seq<State>, events: seq<Event>, m: nat, i: nat, u: UserId)
    requires IsRun(run, events) && m <= i <= |events| && Fenced(run[m], u, run[m].clock)
    requires forall k | m <= k <= i :: u in run[k].users
    ensures Fenced(run[i], u, run[m].clock)
    decreases i
  {
    if m < i {
      FenceLasts(run, events, m, i - 1, u);
      FenceStandsAt(run, events, i - 1, u, run[m].clock);
    }
  }

  lemma FenceStandsAt(run: seq<State>, events: seq<Event>, i: nat, u: UserId, since: int)
    requires IsRun(run, events) && i < |events| && Fenced(run[i], u, since) && u in run[i + 1].users
    ensures Fenced(run[i + 1], u, since)
  {
    StepFacts(run, events, i, u);
  }

  lemma PermissionRefutesFence(s: State, op: Op, r: Reply, u: UserId)
    requires op.Exchange? && Succeeds(r) && WasPermitted(s, op, r) && Fenced(s, u, s.flows[op.seen.flow].createdAt)
    requires FlowIsSound(s, op.seen.flow, s.flows[op.seen.flow])
    ensures !Names(s.flows[op.seen.flow], u) && r.user != u
  {
  }

  lemma PermissionRefutesRevocation(s: State, op: Op, r: Reply, u: UserId, since: int, before: FlowId)
    requires op.Exchange? && Succeeds(r) && WasPermitted(s, op, r) && Revoked(s, u, since, before)
    requires op.seen.flow < before && s.flows[op.seen.flow].createdAt <= since
    requires FlowIsSound(s, op.seen.flow, s.flows[op.seen.flow])
    ensures !Names(s.flows[op.seen.flow], u) && r.user != u
  {
  }

  lemma LinkIsFenced(s: State, e: Event)
    requires e.op.Exchange? && Perform(s, e).reply.Linked?
    ensures Fenced(Perform(s, e).state, Perform(s, e).reply.user, Perform(s, e).state.clock)
  {
  }

  /** Of the link flows open for one account when a link succeeds, no other ever links that account. */
  lemma OneOpenLinkSucceeds(run: seq<State>, events: seq<Event>, i: nat, j: nat)
    requires IsRun(run, events) && i < j < |events| && events[i].op.Exchange? && events[j].op.Exchange?
    requires Perform(run[i], events[i]).reply.Linked? && events[j].op.seen.flow in run[i].flows
    requires Succeeds(Perform(run[j], events[j]).reply)
    ensures Perform(run[i], events[i]).reply.user != Perform(run[j], events[j]).reply.user
  {
    var f, u := events[j].op.seen.flow, Perform(run[i], events[i]).reply.user;
    assert StepsAt(run, events, i);
    LinkIsFenced(run[i], events[i]);
    RedemptionIsProven(run, events, j);
    SurvivorWasThere(run, events, i, i + 1, j, f);
    FencedFlowNeverRedeems(run, events, i + 1, j, f, u);
  }

  /** A row present at two instants was present in between. */
  lemma SurvivorWasThere(run: seq<State>, events: seq<Event>, i: nat, k: nat, j: nat, f: FlowId)
    requires IsRun(run, events) && i <= k <= j <= |events| && f in run[i].flows && f in run[j].flows
    ensures f in run[k].flows
  {
    RunIsSound(run, events, i);
    assert FlowIsSound(run[i], f, run[i].flows[f]);
    NumbersGrow(run, events, i, k);
    PhaseNeverFalls(run, events, k, j, f);
  }

  // ---------------------------------------------------------------- a login was bound throughout

  lemma UnboundAt(run: seq<State>, events: seq<Event>, i: nat, u: UserId, googleId: string, since: int)
    requires IsRun(run, events) && i < |events| && since <= run[i].clock
    requires Fenced(run[i], u, since) || !Holds(run[i], u, googleId)
    ensures since <= run[i + 1].clock && (Fenced(run[i + 1], u, since) || !Holds(run[i + 1], u, googleId))
  {
    StepFacts(run, events, i, u);
    FenceOrNoBinding(run[i], run[i + 1], u, googleId, since);
  }

  lemma {:induction false} LostBindingStaysFenced(
      run: seq<State>, events: seq<Event>, k: nat, i: nat, u: UserId, googleId: string)
    requires IsRun(run, events) && k <= i <= |events| && !Holds(run[k], u, googleId)
    ensures run[k].clock <= run[i].clock
    ensures Fenced(run[i], u, run[k].clock) || !Holds(run[i], u, googleId)
    decreases i
  {
    if k < i {
      LostBindingStaysFenced(run, events, k, i - 1, u, googleId);
      UnboundAt(run, events, i - 1, u, googleId, run[k].clock);
    }
  }

  lemma FenceOrNoBinding(s: State, t: State, u: UserId, googleId: string, since: int)
    requires OwnersExist(t) && FencesFollow(s, t, u) && since <= t.clock
    requires Fenced(s, u, since) || !Holds(s, u, googleId)
    ensures Fenced(t, u, since) || !Holds(t, u, googleId)
  {
  }

  /** A login for `u` with `googleId` means the two were bound at every instant since the flow was created. */
  lemma LoginWasBoundThroughout(run: seq<State>, events: seq<Event>, k: nat, i: nat)
    requires IsRun(run, events) && k <= i < |events| && events[i].op.Exchange?
    requires Perform(run[i], events[i]).reply.LoggedIn? && events[i].op.seen.flow in run[k].flows
    ensures Holds(run[k], Perform(run[i], events[i]).reply.user, Perform(run[i], events[i]).reply.googleId)
  {
    var f, r := events[i].op.seen.flow, Perform(run[i], events[i]).reply;
    RunIsSound(run, events, k);
    RedemptionIsProven(run, events, i);
    TermsLast(run, events, k, i, f);
    assert FlowIsSound(run[k], f, run[k].flows[f]);
    if !Holds(run[k], r.user, r.googleId) {
      LostBindingStaysFenced(run, events, k, i, r.user, r.googleId);
    }
  }
}
