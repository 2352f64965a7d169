/**
 * The tables as the service rewrites them, one method per transaction.
 * Each method performs exactly its step; `PerformEvent` composes them and keeps the invariant.
 */
module GoogleStore {
  import opened Collections
  import opened Options
  import opened GoogleReturn
  import opened GoogleInvariant

  class Store {
    var clock: int
    var users: map<UserId, User>
    var tokens: map<UserId, string>
    var accounts: map<UserId, Account>
    var fences: map<UserId, int>
    var flows: map<FlowId, Flow>
    var nextFlow: FlowId
    var snapshots: set<Snapshot>

    function Rows(): State
      reads this
    {
      State(clock, users, tokens, accounts, fences, flows, nextFlow, snapshots)
    }

    constructor ()
      ensures Rows() == EMPTY
    {
      clock, users, tokens, accounts, fences, flows, nextFlow, snapshots := 0, map[], map[], map[], map[], map[], 0, {};
    }

    method Tick(at: int)
      requires Sound(Rows()) && clock <= at
      modifies this`clock
      ensures Rows() == old(Rows()).(clock := at) && Sound(Rows())
    {
      TimePasses(Rows(), at);
      clock := at;
    }

    /** `invalidate_google_flows`: the caller holds the account's row lock. */
    method Invalidate(u: UserId)
      modifies this`fences
      ensures Rows() == Revoke(old(Rows()), u)
    {
      fences := fences[u := clock];
    }

    method ClaimCallback(state: string) returns (r: Reply)
      requires FlowKeysAreUnique(Rows())
      modifies this`flows
      ensures Step(Rows(), r) == ClaimStep(old(Rows()), state)
    {
      if !OpaqueText(state) || !exists f | f in flows :: flows[f].state == Digest(state) {
        return Nothing;
      }
      var f :| f in flows && flows[f].state == Digest(state);
      assert HasState(Rows(), f, Digest(state));
      var flow := flows[f];
      if flow.stage != Pending || flow.expiresAt <= clock {
        return Nothing;
      }
      r := Claimed(f, if flow.payload.Verifier? then flow.payload.code else "");
      flow := flow.(stage := Processing);
      flow := flow.(payload := Erased);
      flows := flows[f := flow];
    }

    method FailCallback(f: FlowId) returns (r: Reply)
      modifies this`flows
      ensures Step(Rows(), r) == FailStep(old(Rows()), f)
    {
      r := Nothing;
      if f in flows && flows[f].stage == Processing {
        flows := flows[f := flows[f].(stage := Failed, payload := Erased)];
        r := Done;
      }
    }

    method FinishCallback(f: FlowId, ticket: string, googleId: string, email: string, credentials: string)
      returns (r: Reply)
      modifies this`flows
      ensures Step(Rows(), r) == FinishStep(old(Rows()), Finish(f, ticket, googleId, email, credentials))
    {
      r := Nothing;
      if f in flows && flows[f].stage == Processing && flows[f].expiresAt > clock {
        if exists g | g in flows :: HasTicket(Rows(), g, Digest(ticket)) {
          return;
        }
        var identity := Identity(googleId, email, credentials);
        flows := flows[f := flows[f].(stage := Ready, ticket := Some(Digest(ticket)),
                                      ticketExpiresAt := Some(clock + TICKET_SECONDS), payload := identity)];
        r := Done;
      }
    }

    method StartFlow(auth: Auth, mode: Mode, target: Option<UserId>, challenge: Challenge, s256: bool,
                     state: string, code: string, client: string) returns (r: Reply)
      modifies this`flows, this`nextFlow
      ensures Step(Rows(), r) == StartStep(old(Rows()), Start(auth, mode, target, challenge, s256, state, code, client))
    {
      if !ChallengeText(challenge) || !s256 {
        return Refused(InvalidExchange);
      }
      if auth.OtherAuth? {
        return Refused(AuthorizationChanged);
      }
      var initiator, initiatorToken, targetRow := None, None, None;
      if auth.TokenAuth? {
        if auth.user !in users || !users[auth.user].active || auth.user !in tokens || tokens[auth.user] != auth.key {
          return Refused(AuthorizationChanged);
        }
        initiator := Some(WitnessOf(auth.user, users[auth.user]));
        initiatorToken := Some(Digest(auth.key));
      }
      if target.Some? {
        if target.value !in users || !users[target.value].active || !auth.TokenAuth?
           || !MayLink(Rows(), auth.user, target.value) {
          return Refused(AuthorizationChanged);
        }
        targetRow := Some(WitnessOf(target.value, users[target.value]));
      }
      if |flows| >= MAX_TRANSACTIONS {
        return Refused(AuthorizationBusy);
      }
      var live := set f | f in flows && flows[f].client == client && Live(flows[f], clock);
      assert live == LiveOf(Rows(), client);
      if |live| >= MAX_LIVE {
        return Refused(InvalidExchange);
      }
      if exists f | f in flows :: HasState(Rows(), f, Digest(state)) {
        return Nothing;
      }
      flows := flows[nextFlow := Flow(mode, Digest(state), challenge, client, initiator, initiatorToken, targetRow,
                                      clock, clock + FLOW_SECONDS, Pending, Verifier(code), None, None)];
      nextFlow := nextFlow + 1;
      r := Done;
    }

    method ReadSnapshot(ticket: string, verifier: string) returns (r: Reply)
      requires FlowKeysAreUnique(Rows()) && GoogleIdsAreUnique(Rows())
      modifies this`snapshots
      ensures Step(Rows(), r) == ReadStep(old(Rows()), ticket, verifier)
    {
      r := Refused(InvalidExchange);
      if !OpaqueText(ticket) || !VerifierText(verifier)
         || !exists f | f in flows :: HasTicket(Rows(), f, Digest(ticket)) {
        return;
      }
      var f :| f in flows && HasTicket(Rows(), f, Digest(ticket));
      var row := flows[f];
      if row.challenge != S256(verifier) || !row.payload.Identity? {
        return;
      }
      var owner := None;
      if row.mode == Login {
        owner := FindAccount(row.payload.googleId);
      }
      snapshots := snapshots + {Snapshot(f, row, ticket, verifier, owner)};
      r := Done;
    }

    method FindAccount(googleId: string) returns (r: Option<UserId>)
      requires GoogleIdsAreUnique(Rows())
      ensures r == AccountBy(Rows(), googleId)
    {
      if exists u | u in accounts :: Holds(Rows(), u, googleId) {
        var u :| u in accounts && Holds(Rows(), u, googleId);
        r := Some(u);
      } else {
        r := None;
      }
    }

    /** Create or update the account row, keeping its creation time, and fence its owner. */
    method BindAccount(u: UserId, googleId: string, email: string, credentials: string, linker: Option<UserId>)
      modifies this`accounts, this`fences
      ensures Rows() == Bind(old(Rows()), u, googleId, email, credentials, linker)
    {
      var since := clock;
      if u in accounts {
        since := accounts[u].createdAt;
      }
      accounts := accounts[u := Account(googleId, email, credentials, linker, since)];
      Invalidate(u);
    }

    method RedeemLinkRow(row: Flow, identity: Payload) returns (r: Reply)
      requires identity.Identity?
      modifies this`accounts, this`fences
      ensures Step(Rows(), r) == RedeemLink(old(Rows()), row, identity)
    {
      if row.target.None? || !Unchanged(Rows(), row.target.value, row.createdAt) || row.initiator.None?
         || row.initiator.value.id !in users || !MayLink(Rows(), row.initiator.value.id, row.target.value.id) {
        return Refused(AuthorizationChanged);
      }
      var actor, target := row.initiator.value.id, row.target.value.id;
      if exists v | v in accounts :: v != target && Holds(Rows(), v, identity.googleId) {
        return Refused(AlreadyLinkedOther);
      }
      BindAccount(target, identity.googleId, identity.email, identity.credentials,
                  if actor != target then Some(actor) else None);
      r := Linked(target, identity.googleId);
    }

    method RedeemLoginRow(seen: Snapshot, row: Flow, identity: Payload, freshKey: string) returns (r: Reply)
      requires identity.Identity? && GoogleIdsAreUnique(Rows())
      modifies this`accounts, this`tokens
      ensures Step(Rows(), r) == RedeemLogin(old(Rows()), seen, row, identity, freshKey)
    {
      var holder := FindAccount(identity.googleId);
      if holder.None? {
        return Refused(NoAccount);
      }
      var u := holder.value;
      if u !in users || !(Some(u) == seen.owner || Names(seen.row, u)) {
        return Refused(AuthorizationChanged);
      }
      if !users[u].active {
        return Refused(InactiveAccount);
      }
      if accounts[u].createdAt >= row.createdAt || Fenced(Rows(), u, row.createdAt) {
        return Refused(AuthorizationChanged);
      }
      accounts := accounts[u := accounts[u].(credentials := identity.credentials)];
      if u !in tokens {
        tokens := tokens[u := freshKey];
      } else {
        assert tokens == tokens[u := tokens[u]];
      }
      r := LoggedIn(u, identity.googleId, tokens[u]);
    }

    /** The transacted half of `exchange`: whatever the redemption answers, the flow is spent. */
    method ExchangeTicket(seen: Snapshot, auth: Auth, freshKey: string, conflict: bool, collision: bool)
      returns (r: Reply)
      requires GoogleIdsAreUnique(Rows())
      modifies this`accounts, this`fences, this`tokens, this`flows
      ensures Step(Rows(), r) == ExchangeStep(old(Rows()), Exchange(seen, auth, freshKey, conflict, collision))
    {
      if conflict {
        return Nothing;
      }
      if seen.flow !in flows || flows[seen.flow].stage != Ready || Expired(flows[seen.flow], clock) {
        return Refused(InvalidExchange);
      }
      var flow := flows[seen.flow];
      if !ActorIsValid(Rows(), flow, auth) || collision || !seen.row.payload.Identity? {
        r := Refused(AuthorizationChanged);
      } else if flow.mode == Link {
        r := RedeemLinkRow(flow, seen.row.payload);
      } else {
        r := RedeemLoginRow(seen, flow, seen.row.payload, freshKey);
      }
      flow := flow.(stage := Consumed);
      flow := flow.(payload := Erased);
      flow := flow.(ticket := None);
      flows := flows[seen.flow := flow];
    }

    method LinkOwner(u: UserId, googleId: string, email: string, credentials: string, linker: Option<UserId>,
        conflict: bool)
      returns (r: Reply)
      modifies this`accounts, this`fences
      ensures Step(Rows(), r) == LinkStep(old(Rows()), LinkAccount(u, googleId, email, credentials, linker, conflict))
    {
      r := Nothing;
      if !conflict && u in users && !exists v | v in accounts :: v != u && Holds(Rows(), v, googleId) {
        BindAccount(u, googleId, email, credentials, linker);
        r := Done;
      }
    }

    method UnlinkOwner(u: UserId, conflict: bool) returns (r: Reply)
      modifies this`accounts, this`fences
      ensures Step(Rows(), r) == UnlinkStep(old(Rows()), Unlink(u, conflict))
    {
      r := Nothing;
      if !conflict && u in users {
        accounts := accounts - {u};
        Invalidate(u);
        r := Done;
      }
    }

    /** `User.save`: write the chosen columns and fence the account exactly when a sensitive one changed. */
    method Save(u: UserId, value: User, fields: Option<set<Field>>, conflict: bool) returns (r: Reply)
      modifies this`users, this`fences
      ensures Step(Rows(), r) == SaveStep(old(Rows()), SaveUser(u, value, fields, conflict))
    {
      if u !in users {
        if fields.Some? {
          return Nothing;
        }
        users := users[u := value];
        return Done;
      }
      var row := users[u];
      if fields.None? || Password in fields.value { row := row.(password := value.password); }
      if fields.None? || IsActive in fields.value { row := row.(active := value.active); }
      if fields.None? || Family in fields.value { row := row.(family := value.family); }
      if fields.None? || RoleName in fields.value { row := row.(role := value.role); }
      var changed := row != users[u];
      if changed && conflict {
        return Nothing;
      }
      users := users[u := row];
      if changed {
        Invalidate(u);
      } else {
        assert users == old(users);
      }
      r := Done;
    }

    method Logout(u: UserId, conflict: bool) returns (r: Reply)
      modifies this`tokens, this`fences
      ensures Step(Rows(), r) == DeleteTokenStep(old(Rows()), DeleteToken(u, conflict))
    {
      r := Nothing;
      if !conflict && u in tokens {
        if u in users {
          Invalidate(u);
        }
        tokens := tokens - {u};
        r := Done;
      }
    }

    /** Erase up to `limit` expired rows, those that expired first before the others. */
    method PruneExpired(limit: nat) returns (chosen: set<FlowId>)
      modifies this`flows
      ensures IsOldestBatch(old(Rows()), limit, chosen)
      ensures Rows() == PruneStep(old(Rows()), chosen).state
    {
      var expired := set f | f in flows && Expired(flows[f], clock);
      assert expired == ExpiredFlows(Rows());
      chosen := OldestBatch(expired, limit);
      flows := flows - chosen;
    }

    /** `DELETE` of an account and of every row that goes with it. */
    method RemoveUser(u: UserId) returns (r: Reply)
      modifies this`users, this`tokens, this`fences, this`accounts, this`flows
      ensures Step(Rows(), r) == DeleteUserStep(old(Rows()), u)
    {
      r := Nothing;
      if u in users {
        flows := map f | f in flows && !Names(flows[f], u) :: flows[f];
        accounts := map v | v in accounts && v != u :: ForgetUser(accounts[v], u);
        tokens := tokens - {u};
        fences := fences - {u};
        users := users - {u};
        r := Done;
      }
    }

    /** A password login replaces the token and fences the account. */
    method LoginWithPassword(u: UserId, password: string, key: string) returns (r: Reply)
      modifies this`tokens, this`fences
      ensures Step(Rows(), r) == PasswordLoginStep(old(Rows()), PasswordLogin(u, password, key))
    {
      r := Nothing;
      if u in users && users[u].active && users[u].password == password {
        Invalidate(u);
        tokens := tokens[u := key];
        r := Done;
      }
    }

    /** What the world must grant for an event; which expired rows a prune takes is the store's choice. */
    ghost predicate MayHappen(e: Event)
      reads this
    {
      && clock <= e.at
      && (e.op.Start? && e.op.target.Some? ==> e.op.mode == Link)
      && (e.op.Exchange? ==> e.op.seen in snapshots)
    }

    /** `done` is the operation asked for, a prune with the rows it took. */
    ghost predicate IsDone(op: Op, done: Op) {
      done == op || (op.Prune? && done.Prune? && done.limit == op.limit)
    }

    /** Any event, at its time: the tables stay sound, and change as the protocol says. */
    method PerformEvent(e: Event) returns (r: Reply, ghost done: Op)
      requires Sound(Rows()) && MayHappen(e)
      modifies this
      ensures Sound(Rows()) && IsDone(e.op, done)
      ensures Enabled(old(Rows()), Event(e.at, done)) && Step(Rows(), r) == Perform(old(Rows()), Event(e.at, done))
    {
      Tick(e.at);
      r, done := PerformOp(e.op);
      StepIsSound(old(Rows()), Event(e.at, done));
    }

    method PerformOp(op: Op) returns (r: Reply, ghost done: Op)
      requires FlowKeysAreUnique(Rows()) && GoogleIdsAreUnique(Rows())
      modifies this
      ensures IsDone(op, done) && (done.Prune? ==> IsOldestBatch(old(Rows()), done.limit, done.chosen))
      ensures Step(Rows(), r) == if IsAccountOp(done) then AccountStep(old(Rows()), done)
        else FlowStep(old(Rows()), done)
    {
      done := op;
      if op.Prune? {
        var chosen := PruneExpired(op.limit);
        r := Done;
        done := Prune(op.limit, chosen);
      } else if IsAccountOp(op) {
        r := PerformAccountOp(op);
      } else {
        r := PerformFlowOp(op);
      }
    }

    method PerformAccountOp(op: Op) returns (r: Reply)
      requires IsAccountOp(op)
      modifies this
      ensures Step(Rows(), r) == AccountStep(old(Rows()), op)
    {
      match op
      case LinkAccount(u, googleId, email, credentials, linker, conflict) =>
        r := LinkOwner(u, googleId, email, credentials, linker, conflict);
      case Unlink(u, conflict) => r := UnlinkOwner(u, conflict);
      case SaveUser(u, value, fields, conflict) => r := Save(u, value, fields, conflict);
      case DeleteUser(u) => r := RemoveUser(u);
      case DeleteToken(u, conflict) => r := Logout(u, conflict);
      case PasswordLogin(u, password, key) => r := LoginWithPassword(u, password, key);
    }

    method PerformFlowOp(op: Op) returns (r: Reply)
      requires FlowKeysAreUnique(Rows()) && GoogleIdsAreUnique(Rows()) && !IsAccountOp(op) && !op.Prune?
      modifies this
      ensures Step(Rows(), r) == FlowStep(old(Rows()), op)
    {
      match op
      case Start(auth, mode, target, challenge, s256, state, code, client) =>
        r := StartFlow(auth, mode, target, challenge, s256, state, code, client);
      case Claim(state) => r := ClaimCallback(state);
      case Fail(f) => r := FailCallback(f);
      case Finish(f, ticket, googleId, email, credentials) =>
        r := FinishCallback(f, ticket, googleId, email, credentials);
      case ReadTicket(ticket, verifier) => r := ReadSnapshot(ticket, verifier);
      case Exchange(seen, auth, freshKey, conflict, collision) =>
        r := ExchangeTicket(seen, auth, freshKey, conflict, collision);
    }

    method OldestBatch(expired: set<FlowId>, limit: nat) returns (chosen: set<FlowId>)
      requires expired <= flows.Keys
      ensures chosen <= expired && |chosen| == (if |expired| < limit then |expired| else limit)
      ensures forall c, e | c in chosen && e in expired - chosen :: flows[c].expiresAt <= flows[e].expiresAt
    {
      chosen := {};
      var rest := expired;
      while |chosen| < limit && rest != {}
        invariant chosen <= expired && rest == expired - chosen && |chosen| <= limit
        invariant forall c, e | c in chosen && e in rest :: flows[c].expiresAt <= flows[e].expiresAt
        decreases rest
      {
        var f := Oldest(rest);
        chosen, rest := chosen + {f}, rest - {f};
      }
      SubsetIsNoLarger(chosen, expired);
      assert rest == {} ==> chosen == expired;
    }

    method Oldest(rest: set<FlowId>) returns (f: FlowId)
      requires rest != {} && rest <= flows.Keys
      ensures f in rest && forall e | e in rest :: flows[f].expiresAt <= flows[e].expiresAt
    {
      f :| f in rest;
      var unseen := rest - {f};
      while unseen != {}
        invariant f in rest && unseen <= rest
        invariant forall e | e in rest - unseen :: flows[f].expiresAt <= flows[e].expiresAt
        decreases unseen
      {
        var e :| e in unseen;
        unseen := unseen - {e};
        if flows[e].expiresAt < flows[f].expiresAt {
          f := e;
        }
      }
    }
  }
}
