/** One flow from its start to its redemption: what a success owes to the requests that led to it. */
module GoogleJourneys {
  import opened Options
  import opened GoogleReturn
  import opened GoogleInvariant
  import opened GoogleRuns

  /** The caller is the flow's initiator with the same token, or both are anonymous. */
  predicate CameFrom(row: Flow, auth: Auth) {
    match auth
    case TokenAuth(user, key) =>
      row.initiator.Some? && row.initiator.value.id == user && row.initiatorToken == Some(Digest(key))
    case Anonymous => row.initiator.None?
    case OtherAuth(_) => false
  }

  /** What the transacted checks leave true of the row, the caller and the answer. */
  ghost predicate WasChecked(s: State, op: Op, at: int, r: Reply)
    requires op.Exchange? && op.seen.flow in s.flows && Succeeds(r)
  {
    var row := s.flows[op.seen.flow];
    && !Expired(row, at)
    && CameFrom(row, op.auth)
    && (r.Linked? ==> row.initiator.Some? && row.target.Some?)
    && op.seen.row.payload.Identity? && r.googleId == op.seen.row.payload.googleId
  }

  lemma RedeemWasChecked(s: State, op: Op, row: Flow)
    requires op.Exchange? && Succeeds(Redeem(s, op, row).reply)
    ensures ActorIsValid(s, row, op.auth) && op.seen.row.payload.Identity?
    ensures Redeem(s, op, row).reply.googleId == op.seen.row.payload.googleId
    ensures Redeem(s, op, row).reply.Linked? ==> row.initiator.Some? && row.target.Some?
  {
  }

  lemma SuccessWasChecked(s: State, e: Event)
    requires e.op.Exchange? && Succeeds(Perform(s, e).reply)
    ensures e.op.seen.flow in s.flows && WasChecked(s, e.op, e.at, Perform(s, e).reply)
  {
    RedeemWasChecked(s.(clock := e.at), e.op, s.flows[e.op.seen.flow]);
  }

  /** The terms a successful start records. */
  ghost predicate IsStartedBy(row: Flow, op: Op, at: int)
    requires op.Start?
  {
    && row.mode == op.mode && row.challenge == op.challenge && row.state == Digest(op.state)
    && row.createdAt == at && row.expiresAt == at + FLOW_SECONDS
    && CameFrom(row, op.auth)
    && (op.target.Some? <==> row.target.Some?) && (op.target.Some? ==> row.target.value.id == op.target.value)
  }

  lemma StartRecords(run: seq<State>, events: seq<Event>, k: nat)
    requires IsRun(run, events) && k < |events| && events[k].op.Start? && Perform(run[k], events[k]).reply.Done?
    ensures run[k].nextFlow in run[k + 1].flows
    ensures IsStartedBy(run[k + 1].flows[run[k].nextFlow], events[k].op, events[k].at)
    ensures run[k + 1].flows[run[k].nextFlow].payload == Verifier(events[k].op.code)
    ensures run[k + 1].flows[run[k].nextFlow].stage == Pending
  {
    assert StepsAt(run, events, k);
  }

  /**
   * A successful exchange is made by the caller who started the flow, with the verifier of the challenge
   * given then, within ten minutes; it logs in exactly a login flow and links exactly the chosen target.
   */
  lemma SuccessMatchesItsStart(run: seq<State>, events: seq<Event>, k: nat, i: nat)
    requires IsRun(run, events) && k < i < |events|
    requires events[k].op.Start? && Perform(run[k], events[k]).reply.Done?
    requires events[i].op.Exchange? && events[i].op.seen.flow == run[k].nextFlow
    requires Succeeds(Perform(run[i], events[i]).reply)
    ensures var start, exchange, r := events[k].op, events[i].op, Perform(run[i], events[i]).reply;
      && start.challenge == S256(exchange.seen.verifier)
      && exchange.auth == start.auth
      && events[i].at < events[k].at + FLOW_SECONDS
      && (r.LoggedIn? <==> start.mode == Login)
      && (r.Linked? ==> start.auth.TokenAuth? && start.target == Some(r.user))
  {
    StartRecords(run, events, k);
    RedemptionIsProven(run, events, i);
    SuccessWasChecked(run[i], events[i]);
    TermsLast(run, events, k + 1, i, run[k].nextFlow);
    SameStart(run[k + 1].flows[run[k].nextFlow], run[i].flows[run[k].nextFlow], events[k].op, events[k].at);
  }

  lemma SameStart(a: Flow, b: Flow, op: Op, at: int)
    requires op.Start? && SameTerms(a, b) && IsStartedBy(a, op, at)
    ensures IsStartedBy(b, op, at)
  {
  }

  /** While a flow stays ready its row does not change at all. */
  lemma {:induction false} ReadyRowStays(run: seq<State>, events: seq<Event>, j: nat, i: nat, f: FlowId)
    requires IsRun(run, events) && j <= i <= |events| && f in run[j].flows && f in run[i].flows
    requires run[j].flows[f].stage == run[i].flows[f].stage
    requires run[j].flows[f].stage != Consumed && run[j].flows[f].stage != Failed
    ensures run[i].flows[f] == run[j].flows[f]
    decreases i
  {
    if j < i {
      SurvivorWasThere(run, events, j, i - 1, i, f);
      PhaseNeverFalls(run, events, j, i - 1, f);
      PhaseNeverFalls(run, events, i - 1, i, f);
      StageIsRank(run[j].flows[f].stage, run[i - 1].flows[f].stage);
      ReadyRowStays(run, events, j, i - 1, f);
      RowStaysAt(run, events, i - 1, f);
    }
  }

  lemma StageIsRank(a: Stage, b: Stage)
    requires Rank(a) == Rank(b) && a != Consumed && a != Failed
    ensures a == b
  {
  }

  lemma RowStaysAt(run: seq<State>, events: seq<Event>, i: nat, f: FlowId)
    requires IsRun(run, events) && i < |events| && f in run[i].flows && f in run[i + 1].flows
    requires run[i].flows[f].stage == run[i + 1].flows[f].stage
    ensures run[i].flows[f] == run[i + 1].flows[f]
  {
    StepFacts(run, events, i, 0);
    assert FlowIsSound(run[i], f, run[i].flows[f]);
  }

  /** A successful exchange uses the ticket and the Google identity the callback stored, within 90 seconds of it. */
  lemma SuccessMatchesItsFinish(run: seq<State>, events: seq<Event>, j: nat, i: nat)
    requires IsRun(run, events) && j < i < |events|
    requires events[j].op.Finish? && Perform(run[j], events[j]).reply.Done?
    requires events[i].op.Exchange? && events[i].op.seen.flow == events[j].op.flow
    requires Succeeds(Perform(run[i], events[i]).reply)
    ensures var finish, r := events[j].op, Perform(run[i], events[i]).reply;
      && r.googleId == finish.googleId
      && events[i].op.seen.ticket == finish.ticket
      && events[i].at < events[j].at + TICKET_SECONDS
  {
    var f := events[j].op.flow;
    FinishRecords(run, events, j);
    RedemptionIsProven(run, events, i);
    SuccessWasChecked(run[i], events[i]);
    ReadyRowStays(run, events, j + 1, i, f);
  }

  lemma FinishRecords(run: seq<State>, events: seq<Event>, j: nat)
    requires IsRun(run, events) && j < |events| && events[j].op.Finish? && Perform(run[j], events[j]).reply.Done?
    ensures var f, op := events[j].op.flow, events[j].op;
      && f in run[j + 1].flows
      && var row := run[j + 1].flows[f];
      && row.stage == Ready && row.ticket == Some(Digest(op.ticket))
        && row.ticketExpiresAt == Some(events[j].at + TICKET_SECONDS)
      && row.payload == Identity(op.googleId, op.email, op.credentials)
  {
    assert StepsAt(run, events, j);
  }

  /** The provider verifier handed to a callback is the one sealed by the start with that state. */
  lemma ClaimMatchesItsStart(run: seq<State>, events: seq<Event>, k: nat, i: nat)
    requires IsRun(run, events) && k < i < |events|
    requires events[k].op.Start? && Perform(run[k], events[k]).reply.Done?
    requires events[i].op.Claim? && Perform(run[i], events[i]).reply.Claimed?
    requires Perform(run[i], events[i]).reply.flow == run[k].nextFlow
    ensures events[i].op.state == events[k].op.state && Perform(run[i], events[i]).reply.code == events[k].op.code
    ensures events[i].at < events[k].at + FLOW_SECONDS
  {
    StartRecords(run, events, k);
    ClaimReads(run[i], events[i]);
    ReadyRowStays(run, events, k + 1, i, run[k].nextFlow);
  }

  lemma ClaimReads(s: State, e: Event)
    requires e.op.Claim? && Perform(s, e).reply.Claimed?
    ensures var r := Perform(s, e).reply;
      && r.flow in s.flows
      && var row := s.flows[r.flow];
      && row.stage == Pending && row.expiresAt > e.at && row.state == Digest(e.op.state)
      && (row.payload.Verifier? ==> r.code == row.payload.code)
  {
  }

  predicate HandsOutOwnToken(s: State, t: State, u: UserId, key: string) {
    u in t.tokens && t.tokens[u] == key && (u in s.tokens ==> key == s.tokens[u])
  }

  lemma RedeemTakesEffect(s: State, op: Op, row: Flow, other: UserId)
    requires op.Exchange? && Succeeds(Redeem(s, op, row).reply)
    ensures var t, r := Redeem(s, op, row).state, Redeem(s, op, row).reply;
      && Binding(t, r.user) == Some(r.googleId)
      && (other != r.user ==> Binding(t, other) == Binding(s, other))
      && (r.LoggedIn? ==> Binding(s, r.user) == Some(r.googleId) && HandsOutOwnToken(s, t, r.user, r.key))
  {
  }

  /** A link binds the target to the proven identity and nobody else; a login hands out the owner's own token. */
  lemma SuccessTakesEffect(s: State, e: Event, other: UserId)
    requires e.op.Exchange? && Succeeds(Perform(s, e).reply)
    ensures var t, r := Perform(s, e).state, Perform(s, e).reply;
      && Binding(t, r.user) == Some(r.googleId)
      && (other != r.user ==> Binding(t, other) == Binding(s, other))
      && (r.LoggedIn? ==> Binding(s, r.user) == Some(r.googleId) && HandsOutOwnToken(s, t, r.user, r.key))
      && t.users == s.users
  {
    var c := s.(clock := e.at);
    RedeemTakesEffect(c, e.op, c.flows[e.op.seen.flow], other);
    RedeemKeepsTheRest(c, e.op, c.flows[e.op.seen.flow]);
  }
}
