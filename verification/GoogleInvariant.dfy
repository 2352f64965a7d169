/** What every step of the Google return protocol keeps. */
module GoogleInvariant {
  import opened Collections
  import opened Options
  import opened GoogleReturn

  // ---------------------------------------------------------------- the state invariant

  predicate ShapeIsSound(row: Flow) {
    && (row.stage == Pending <==> row.payload.Verifier?)
    && (row.stage == Ready <==> row.payload.Identity?)
    && (row.stage == Ready <==> row.ticket.Some?)
    && (row.stage == Ready ==> row.ticketExpiresAt.Some?)
    && (row.target.Some? ==> row.mode == Link)
  }

  predicate PeopleExist(s: State, row: Flow) {
    && (row.initiator.Some? ==> row.initiator.value.id in s.users)
    && (row.target.Some? ==> row.target.value.id in s.users)
  }

  predicate FlowIsSound(s: State, f: FlowId, row: Flow) {
    f < s.nextFlow && row.createdAt <= s.clock && ShapeIsSound(row) && PeopleExist(s, row)
  }

  /** A running exchange proved its browser; its row is still the current one, or is already consumed or gone. */
  predicate SnapshotIsSound(s: State, seen: Snapshot) {
    && seen.flow < s.nextFlow
    && seen.row.stage == Ready
    && seen.row.ticket == Some(Digest(seen.ticket))
    && seen.row.challenge == S256(seen.verifier)
    && (seen.flow in s.flows ==> s.flows[seen.flow] == seen.row || s.flows[seen.flow].stage == Consumed)
  }

  ghost predicate OwnersExist(s: State) {
    && s.accounts.Keys <= s.users.Keys
    && s.tokens.Keys <= s.users.Keys
    && s.fences.Keys <= s.users.Keys
    && (forall u | u in s.fences :: s.fences[u] <= s.clock)
  }

  ghost predicate GoogleIdsAreUnique(s: State) {
    forall u, v | u in s.accounts && v in s.accounts && s.accounts[u].googleId == s.accounts[v].googleId :: u == v
  }

  ghost predicate FlowsAreSound(s: State) {
    forall f | f in s.flows :: FlowIsSound(s, f, s.flows[f])
  }

  ghost predicate FlowKeysAreUnique(s: State) {
    && (forall f, g | f in s.flows && g in s.flows && s.flows[f].state == s.flows[g].state :: f == g)
    && (forall f, g | f in s.flows && g in s.flows ::
          s.flows[f].ticket.Some? && s.flows[f].ticket == s.flows[g].ticket ==> f == g)
  }

  ghost predicate SnapshotsAreSound(s: State) {
    forall seen | seen in s.snapshots :: SnapshotIsSound(s, seen)
  }

  ghost predicate CapacityHolds(s: State) {
    && |s.flows| <= MAX_TRANSACTIONS
    && forall client :: |LiveOf(s, client)| <= MAX_LIVE
  }

  ghost predicate Sound(s: State) {
    && OwnersExist(s) && GoogleIdsAreUnique(s) && FlowsAreSound(s)
    && FlowKeysAreUnique(s) && SnapshotsAreSound(s) && CapacityHolds(s)
  }

  // ---------------------------------------------------------------- kinds of change

  /** Fewer live flows of every client, and no more rows, stay within capacity. */
  lemma CapacityShrinks(s: State, t: State)
    requires CapacityHolds(s) && t.flows.Keys <= s.flows.Keys
    requires forall client :: LiveOf(t, client) <= LiveOf(s, client)
    ensures CapacityHolds(t)
  {
    SubsetIsNoLarger(t.flows.Keys, s.flows.Keys);
    forall client ensures |LiveOf(t, client)| <= MAX_LIVE {
      SubsetIsNoLarger(LiveOf(t, client), LiveOf(s, client));
    }
  }

  lemma TimePasses(s: State, at: int)
    requires Sound(s) && s.clock <= at
    ensures Sound(s.(clock := at))
  {
    CapacityShrinks(s, s.(clock := at));
  }

  predicate SameTerms(a: Flow, b: Flow) {
    a.(stage := b.stage, payload := b.payload, ticket := b.ticket, ticketExpiresAt := b.ticketExpiresAt) == b
  }

  function Rank(stage: Stage): nat {
    match stage
    case Pending => 1
    case Processing => 2
    case Ready => 3
    case Consumed => 4
    case Failed => 4
  }

  /** A row keeps its terms and moves forward along pending, processing, ready, consumed or failed. */
  predicate Advances(a: Flow, b: Flow) {
    SameTerms(a, b) && Rank(a.stage) < Rank(b.stage) && (a.stage == Ready ==> b.stage == Consumed)
  }

  lemma RowAdvances(s: State, f: FlowId, row: Flow)
    requires Sound(s) && f in s.flows && Advances(s.flows[f], row) && ShapeIsSound(row)
    requires row.ticket.Some? ==> forall g | g in s.flows :: s.flows[g].ticket != row.ticket
    ensures Sound(s.(flows := s.flows[f := row]))
  {
    var t := s.(flows := s.flows[f := row]);
    TicketsStayUnique(s, f, row);
    SnapshotsStaySound(s, f, row);
    assert t.flows.Keys == s.flows.Keys;
    CapacityShrinks(s, t);
  }

  lemma SnapshotsStaySound(s: State, f: FlowId, row: Flow)
    requires SnapshotsAreSound(s) && f in s.flows && Advances(s.flows[f], row)
    ensures SnapshotsAreSound(s.(flows := s.flows[f := row]))
  {
  }

  lemma TicketsStayUnique(s: State, f: FlowId, row: Flow)
    requires FlowKeysAreUnique(s) && f in s.flows && s.flows[f].state == row.state
    requires row.ticket.Some? ==> forall g | g in s.flows :: s.flows[g].ticket != row.ticket
    ensures FlowKeysAreUnique(s.(flows := s.flows[f := row]))
  {
  }

  lemma OwnersChange(s: State, t: State)
    requires Sound(s) && OwnersExist(t) && GoogleIdsAreUnique(t) && s.users.Keys <= t.users.Keys
    requires t == s.(users := t.users, tokens := t.tokens, accounts := t.accounts, fences := t.fences)
    ensures Sound(t)
  {
    assert forall seen | seen in t.snapshots :: SnapshotIsSound(s, seen);
    assert FlowsAreSound(t) by {
      forall f | f in t.flows ensures FlowIsSound(t, f, t.flows[f]) {
        assert FlowIsSound(s, f, s.flows[f]);
      }
    }
    CapacityShrinks(s, t);
  }

  lemma FlowsLeave(s: State, t: State)
    requires Sound(s) && t.flows.Keys <= s.flows.Keys && (forall f | f in t.flows :: t.flows[f] == s.flows[f])
    requires t.clock == s.clock && t.nextFlow == s.nextFlow && t.snapshots == s.snapshots
    ensures FlowKeysAreUnique(t) && SnapshotsAreSound(t) && CapacityHolds(t)
  {
    assert SnapshotsAreSound(t) by {
      forall seen | seen in t.snapshots ensures SnapshotIsSound(t, seen) {
        assert SnapshotIsSound(s, seen);
      }
    }
    CapacityShrinks(s, t);
  }

  // ---------------------------------------------------------------- one lemma per operation

  lemma StartIsSound(s: State, op: Op)
    requires Sound(s) && op.Start? && (op.target.Some? ==> op.mode == Link)
    ensures Sound(StartStep(s, op).state)
  {
    var t := StartStep(s, op).state;
    if t != s {
      var f := s.nextFlow;
      assert forall g | g in s.flows :: FlowIsSound(s, g, s.flows[g]);
      assert t == s.(flows := t.flows, nextFlow := f + 1) && t.flows == s.flows[f := t.flows[f]];
      forall g | g in s.flows ensures s.flows[g].state != t.flows[f].state {
        assert !HasState(s, g, Digest(op.state));
      }
      NewRowIsSound(s, t, f);
    }
  }

  lemma NewRowIsSound(s: State, t: State, f: FlowId)
    requires Sound(s) && f !in s.flows && f == s.nextFlow
    requires f in t.flows && t == s.(flows := s.flows[f := t.flows[f]], nextFlow := f + 1)
    requires t.flows[f].stage == Pending && FlowIsSound(t, f, t.flows[f])
    requires forall g | g in s.flows :: s.flows[g].state != t.flows[f].state
    requires |s.flows| < MAX_TRANSACTIONS && |LiveOf(s, t.flows[f].client)| < MAX_LIVE
    ensures Sound(t)
  {
    NewRowKeepsRows(s, t, f);
    NewRowKeepsCapacity(s, t, f);
  }

  lemma NewRowKeepsCapacity(s: State, t: State, f: FlowId)
    requires CapacityHolds(s) && f !in s.flows && s.clock == t.clock
    requires f in t.flows && t.flows == s.flows[f := t.flows[f]]
    requires |s.flows| < MAX_TRANSACTIONS && |LiveOf(s, t.flows[f].client)| < MAX_LIVE
    ensures CapacityHolds(t)
  {
    OneMore(t.flows.Keys, s.flows.Keys, f, MAX_TRANSACTIONS);
    forall client ensures |LiveOf(t, client)| <= MAX_LIVE {
      assert forall g :: g in LiveOf(t, client) ==> g in LiveOf(s, client) || (g == f && client == t.flows[f].client);
      if client == t.flows[f].client {
        OneMore(LiveOf(t, client), LiveOf(s, client), f, MAX_LIVE);
      } else {
        SubsetIsNoLarger(LiveOf(t, client), LiveOf(s, client));
      }
    }
  }

  lemma OneMore<T>(grown: set<T>, original: set<T>, x: T, limit: nat)
    requires grown <= original + {x} && |original| < limit
    ensures |grown| <= limit
  {
    SubsetIsNoLarger(grown, original + {x});
  }

  lemma NewRowKeepsRows(s: State, t: State, f: FlowId)
    requires Sound(s) && f !in s.flows && f == s.nextFlow
    requires f in t.flows && t == s.(flows := s.flows[f := t.flows[f]], nextFlow := f + 1)
    requires t.flows[f].stage == Pending && FlowIsSound(t, f, t.flows[f])
    requires forall g | g in s.flows :: s.flows[g].state != t.flows[f].state
    ensures FlowsAreSound(t) && SnapshotsAreSound(t) && FlowKeysAreUnique(t)
  {
    forall g | g in t.flows ensures FlowIsSound(t, g, t.flows[g]) {
      if g != f { assert FlowIsSound(s, g, s.flows[g]); }
    }
    forall seen | seen in t.snapshots ensures SnapshotIsSound(t, seen) {
      assert SnapshotIsSound(s, seen);
    }
  }

  lemma ClaimIsSound(s: State, state: string)
    requires Sound(s)
    ensures Sound(ClaimStep(s, state).state)
  {
    var found := FlowByState(s, Digest(state));
    if found.Some? && s.flows[found.value].stage == Pending {
      assert FlowIsSound(s, found.value, s.flows[found.value]);
      RowAdvances(s, found.value, s.flows[found.value].(stage := Processing, payload := Erased));
    }
  }

  lemma FailIsSound(s: State, f: FlowId)
    requires Sound(s)
    ensures Sound(FailStep(s, f).state)
  {
    if f in s.flows && s.flows[f].stage == Processing {
      assert FlowIsSound(s, f, s.flows[f]);
      RowAdvances(s, f, s.flows[f].(stage := Failed, payload := Erased));
    }
  }

  lemma FinishIsSound(s: State, op: Op)
    requires Sound(s) && op.Finish?
    ensures Sound(FinishStep(s, op).state)
  {
    var t := FinishStep(s, op).state;
    if t != s {
      forall g | g in s.flows ensures s.flows[g].ticket != t.flows[op.flow].ticket {
        assert FlowIsSound(s, g, s.flows[g]) && !HasTicket(s, g, Digest(op.ticket));
      }
      RowAdvances(s, op.flow, t.flows[op.flow]);
    }
  }

  lemma ReadIsSound(s: State, ticket: string, verifier: string)
    requires Sound(s)
    ensures Sound(ReadStep(s, ticket, verifier).state)
  {
    var t := ReadStep(s, ticket, verifier).state;
    if t != s {
      assert t == s.(snapshots := t.snapshots);
      assert SnapshotsAreSound(t) by {
        forall seen | seen in t.snapshots ensures SnapshotIsSound(t, seen) {
          if seen in s.snapshots {
            assert SnapshotIsSound(s, seen);
          } else {
            assert FlowIsSound(s, seen.flow, s.flows[seen.flow]);
          }
        }
      }
      CapacityShrinks(s, t);
    }
  }

  lemma BindIsSound(s: State, u: UserId, googleId: string, email: string, credentials: string, linker: Option<UserId>)
    requires Sound(s) && u in s.users && !TakenByAnother(s, googleId, u)
    ensures Sound(Bind(s, u, googleId, email, credentials, linker))
  {
    var t := Bind(s, u, googleId, email, credentials, linker);
    assert GoogleIdsAreUnique(t) by {
      forall v, w | v in t.accounts && w in t.accounts && t.accounts[v].googleId == t.accounts[w].googleId
        ensures v == w
      {
        assert v != u ==> !Holds(s, v, googleId) || v !in s.accounts;
        assert w != u ==> !Holds(s, w, googleId) || w !in s.accounts;
      }
    }
    OwnersChange(s, t);
  }

  lemma LoginIsSound(s: State, seen: Snapshot, row: Flow, identity: Payload, freshKey: string)
    requires Sound(s) && identity.Identity?
    ensures Sound(RedeemLogin(s, seen, row, identity, freshKey).state)
  {
    var t := RedeemLogin(s, seen, row, identity, freshKey).state;
    if t != s {
      OwnersChange(s, t);
    }
  }

  lemma RedeemLinkIsSound(s: State, row: Flow, identity: Payload)
    requires Sound(s) && identity.Identity?
    ensures Sound(RedeemLink(s, row, identity).state)
  {
    if RedeemLink(s, row, identity).reply.Linked? {
      var actor, target := row.initiator.value.id, row.target.value.id;
      BindIsSound(s, target, identity.googleId, identity.email, identity.credentials,
                  if actor != target then Some(actor) else None);
    }
  }

  lemma RedeemIsSound(s: State, op: Op, row: Flow)
    requires Sound(s) && op.Exchange?
    ensures Sound(Redeem(s, op, row).state)
  {
    if op.seen.row.payload.Identity? {
      LoginIsSound(s, op.seen, row, op.seen.row.payload, op.freshKey);
      RedeemLinkIsSound(s, row, op.seen.row.payload);
    }
  }

  lemma RedeemKeepsFlows(s: State, op: Op, row: Flow)
    requires op.Exchange?
    ensures Redeem(s, op, row).state.flows == s.flows
  {
  }

  lemma SpendIsSound(s: State, f: FlowId)
    requires Sound(s) && f in s.flows && s.flows[f].stage == Ready
    ensures Sound(s.(flows := s.flows[f := Spent(s.flows[f])]))
  {
    RowAdvances(s, f, Spent(s.flows[f]));
  }

  lemma ExchangeIsSound(s: State, op: Op)
    requires Sound(s) && op.Exchange?
    ensures Sound(ExchangeStep(s, op).state)
  {
    var f := op.seen.flow;
    if f in s.flows && s.flows[f].stage == Ready {
      var tried := Redeem(s, op, s.flows[f]).state;
      RedeemIsSound(s, op, s.flows[f]);
      RedeemKeepsFlows(s, op, s.flows[f]);
      SpendIsSound(tried, f);
    }
  }

  lemma SaveIsSound(s: State, op: Op)
    requires Sound(s) && op.SaveUser?
    ensures Sound(SaveStep(s, op).state)
  {
    OwnersChange(s, SaveStep(s, op).state);
  }

  lemma UnlinkKeepsOwners(s: State, t: State, u: UserId)
    requires OwnersExist(s) && GoogleIdsAreUnique(s) && u in s.users
    requires t == s.(accounts := s.accounts - {u}, fences := s.fences[u := s.clock])
    ensures OwnersExist(t) && GoogleIdsAreUnique(t)
  {
  }

  lemma UnlinkIsSound(s: State, op: Op)
    requires Sound(s) && op.Unlink?
    ensures Sound(UnlinkStep(s, op).state)
  {
    var t := UnlinkStep(s, op).state;
    if t != s {
      UnlinkKeepsOwners(s, t, op.user);
      OwnersChange(s, t);
    }
  }

  lemma LogoutIsSound(s: State, op: Op)
    requires Sound(s) && op.DeleteToken?
    ensures Sound(DeleteTokenStep(s, op).state)
  {
    OwnersChange(s, DeleteTokenStep(s, op).state);
  }

  lemma PasswordIsSound(s: State, op: Op)
    requires Sound(s) && op.PasswordLogin?
    ensures Sound(PasswordLoginStep(s, op).state)
  {
    OwnersChange(s, PasswordLoginStep(s, op).state);
  }

  lemma DeleteKeepsOwners(s: State, u: UserId)
    requires OwnersExist(s) && GoogleIdsAreUnique(s)
    ensures OwnersExist(DeleteUserStep(s, u).state) && GoogleIdsAreUnique(DeleteUserStep(s, u).state)
  {
  }

  lemma DeleteUserIsSound(s: State, u: UserId)
    requires Sound(s)
    ensures Sound(DeleteUserStep(s, u).state)
  {
    var t := DeleteUserStep(s, u).state;
    if t != s {
      DeleteKeepsOwners(s, u);
      FlowsLeave(s, t);
      forall f | f in t.flows ensures FlowIsSound(t, f, t.flows[f]) {
        assert FlowIsSound(s, f, s.flows[f]);
      }
    }
  }

  lemma PruneIsSound(s: State, chosen: set<FlowId>)
    requires Sound(s)
    ensures Sound(PruneStep(s, chosen).state)
  {
    var t := PruneStep(s, chosen).state;
    FlowsLeave(s, t);
    forall f | f in t.flows ensures FlowIsSound(t, f, t.flows[f]) {
      assert FlowIsSound(s, f, s.flows[f]);
    }
  }

  lemma FlowStepIsSound(s: State, op: Op)
    requires Sound(s) && (op.Start? && op.target.Some? ==> op.mode == Link)
    ensures Sound(FlowStep(s, op).state)
  {
    match op
    case Start(_, _, _, _, _, _, _, _) => StartIsSound(s, op);
    case Exchange(_, _, _, _, _) => ExchangeIsSound(s, op);
    case _ => RowStepIsSound(s, op);
  }

  lemma RowStepIsSound(s: State, op: Op)
    requires Sound(s) && !op.Start? && !op.Exchange?
    ensures Sound(FlowStep(s, op).state)
  {
    match op
    case Claim(state) => ClaimIsSound(s, state);
    case Fail(f) => FailIsSound(s, f);
    case Finish(_, _, _, _, _) => FinishIsSound(s, op);
    case ReadTicket(ticket, verifier) => ReadIsSound(s, ticket, verifier);
    case Prune(_, chosen) => PruneIsSound(s, chosen);
    case _ =>
  }

  lemma LinkIsSound(s: State, op: Op)
    requires Sound(s) && op.LinkAccount?
    ensures Sound(LinkStep(s, op).state)
  {
    if LinkStep(s, op).reply.Done? {
      BindIsSound(s, op.user, op.googleId, op.email, op.credentials, op.linker);
    }
  }

  lemma AccountStepIsSound(s: State, op: Op)
    requires Sound(s)
    ensures Sound(AccountStep(s, op).state)
  {
    match op
    case LinkAccount(_, _, _, _, _, _) => LinkIsSound(s, op);
    case Unlink(_, _) => UnlinkIsSound(s, op);
    case _ => UserStepIsSound(s, op);
  }

  lemma UserStepIsSound(s: State, op: Op)
    requires Sound(s) && !op.LinkAccount? && !op.Unlink?
    ensures Sound(AccountStep(s, op).state)
  {
    match op
    case SaveUser(_, _, _, _) => SaveIsSound(s, op);
    case DeleteUser(u) => DeleteUserIsSound(s, u);
    case _ => TokenStepIsSound(s, op);
  }

  lemma TokenStepIsSound(s: State, op: Op)
    requires Sound(s) && !op.LinkAccount? && !op.Unlink? && !op.SaveUser? && !op.DeleteUser?
    ensures Sound(AccountStep(s, op).state)
  {
    match op
    case DeleteToken(_, _) => LogoutIsSound(s, op);
    case PasswordLogin(_, _, _) => PasswordIsSound(s, op);
    case _ =>
  }

  /** Every event, at any time and in any order, keeps the invariant. */
  lemma StepIsSound(before: State, e: Event)
    requires Sound(before) && Enabled(before, e)
    ensures Sound(Perform(before, e).state)
  {
    var s := before.(clock := e.at);
    TimePasses(before, e.at);
    if IsAccountOp(e.op) { AccountStepIsSound(s, e.op); } else { FlowStepIsSound(s, e.op); }
  }
}
