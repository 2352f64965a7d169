/**
 * The Google return protocol: one shared database state, one atomic step per transaction.
 *
 * Clock readings never decrease and may repeat. A hash is modelled by its preimage, so it is injective.
 * What the server cannot choose (random tokens, the provider's answer, a lock conflict) is an input of the step.
 */
module GoogleReturn {
  import opened Options

  type UserId = nat
  type FlowId = nat

  datatype Digest = Digest(preimage: string)

  /** A browser challenge: the S256 image of some verifier, or text that is the image of none. */
  datatype Challenge = S256(verifier: string) | Unmatched(text: string)

  datatype Role = Parent | Child
  datatype Field = Password | IsActive | Family | RoleName
  datatype User = User(active: bool, family: int, role: Role, password: string)

  /** What a flow remembers about its initiator or its target. */
  datatype Witness = Witness(id: UserId, family: int, role: Role, password: Digest)

  datatype Mode = Link | Login
  datatype Stage = Pending | Processing | Ready | Consumed | Failed
  datatype Payload =
    | Erased
    | Verifier(code: string)
    | Identity(googleId: string, email: string, credentials: string)

  datatype Flow = Flow(
    mode: Mode,
    state: Digest,
    challenge: Challenge,
    client: string,
    initiator: Option<Witness>,
    initiatorToken: Option<Digest>,
    target: Option<Witness>,
    createdAt: int,
    expiresAt: int,
    stage: Stage,
    payload: Payload,
    ticket: Option<Digest>,
    ticketExpiresAt: Option<int>)

  datatype Account =
    Account(googleId: string, email: string, credentials: string, linkedBy: Option<UserId>, createdAt: int)

  /** What one running exchange request has read before its transaction begins. */
  datatype Snapshot = Snapshot(flow: FlowId, row: Flow, ticket: string, verifier: string, owner: Option<UserId>)

  /** The rows; `tokens`, `accounts` and `fences` (the invalidation markers) are one-to-one with users. */
  datatype State = State(
    clock: int,
    users: map<UserId, User>,
    tokens: map<UserId, string>,
    accounts: map<UserId, Account>,
    fences: map<UserId, int>,
    flows: map<FlowId, Flow>,
    nextFlow: FlowId,
    snapshots: set<Snapshot>)

  datatype Auth = Anonymous | TokenAuth(user: UserId, key: string) | OtherAuth(user: UserId)

  datatype Error =
    InvalidExchange | AuthorizationChanged | NoAccount | InactiveAccount | AlreadyLinkedOther | AuthorizationBusy

  datatype Reply =
    | Nothing
    | Done
    | Refused(error: Error)
    | Claimed(flow: FlowId, code: string)
    | LoggedIn(user: UserId, googleId: string, key: string)
    | Linked(user: UserId, googleId: string)

  datatype Step = Step(state: State, reply: Reply)

  datatype Op =
    | Start(auth: Auth, mode: Mode, target: Option<UserId>, challenge: Challenge, s256: bool,
            state: string, code: string, client: string)
    | Claim(state: string)
    | Fail(flow: FlowId)
    | Finish(flow: FlowId, ticket: string, googleId: string, email: string, credentials: string)
    | ReadTicket(ticket: string, verifier: string)
    | Exchange(seen: Snapshot, auth: Auth, freshKey: string, conflict: bool, collision: bool)
    | LinkAccount(user: UserId, googleId: string, email: string, credentials: string, linker: Option<UserId>,
      conflict: bool)
    | Unlink(user: UserId, conflict: bool)
    | SaveUser(user: UserId, value: User, fields: Option<set<Field>>, conflict: bool)
    | DeleteUser(user: UserId)
    | DeleteToken(user: UserId, conflict: bool)
    | PasswordLogin(user: UserId, password: string, key: string)
    | Prune(limit: nat, chosen: set<FlowId>)

  datatype Event = Event(at: int, op: Op)

  const MAX_TRANSACTIONS := 1000
  const MAX_LIVE := 10
  const FLOW_SECONDS := 600
  const TICKET_SECONDS := 90

  const EMPTY := State(0, map[], map[], map[], map[], map[], 0, {})

  // ---------------------------------------------------------------- token shapes

  predicate UrlSafe(c: char) {
    'A' <= c <= 'Z' || 'a' <= c <= 'z' || '0' <= c <= '9' || c == '_' || c == '-'
  }

  predicate OpaqueText(s: string) {
    |s| == 43 && forall c | c in s :: UrlSafe(c)
  }

  predicate VerifierText(s: string) {
    43 <= |s| <= 128 && forall c | c in s :: UrlSafe(c) || c == '.' || c == '~'
  }

  /** The unpadded base64url image of a 32-byte hash always has the opaque shape. */
  predicate ChallengeText(c: Challenge) {
    c.S256? || OpaqueText(c.text)
  }

  // ---------------------------------------------------------------- lookups

  predicate Live(f: Flow, now: int) {
    f.expiresAt > now && f.stage in {Pending, Processing, Ready}
  }

  ghost function LiveOf(s: State, client: string): set<FlowId> {
    set f | f in s.flows && s.flows[f].client == client && Live(s.flows[f], s.clock)
  }

  predicate Expired(f: Flow, now: int) {
    f.expiresAt <= now || (f.ticketExpiresAt.Some? && f.ticketExpiresAt.value <= now)
  }

  ghost function ExpiredFlows(s: State): set<FlowId> {
    set f | f in s.flows && Expired(s.flows[f], s.clock)
  }

  predicate HasState(s: State, f: FlowId, d: Digest) {
    f in s.flows && s.flows[f].state == d
  }

  ghost function FlowByState(s: State, d: Digest): (r: Option<FlowId>)
    ensures r.Some? ==> HasState(s, r.value, d)
    ensures r.None? ==> forall f :: !HasState(s, f, d)
  {
    if exists f :: HasState(s, f, d) then var f :| HasState(s, f, d); Some(f) else None
  }

  predicate HasTicket(s: State, f: FlowId, d: Digest) {
    f in s.flows && s.flows[f].ticket == Some(d) && s.flows[f].stage == Ready
  }

  predicate Holds(s: State, u: UserId, googleId: string) {
    u in s.accounts && s.accounts[u].googleId == googleId
  }

  predicate Fenced(s: State, u: UserId, since: int) {
    u in s.fences && s.fences[u] >= since
  }

  predicate Names(f: Flow, u: UserId) {
    (f.initiator.Some? && f.initiator.value.id == u) || (f.target.Some? && f.target.value.id == u)
  }

  function Binding(s: State, u: UserId): Option<string> {
    if u in s.accounts then Some(s.accounts[u].googleId) else None
  }

  // ---------------------------------------------------------------- steps

  function WitnessOf(u: UserId, row: User): Witness {
    Witness(u, row.family, row.role, Digest(row.password))
  }

  function Revoke(s: State, u: UserId): State {
    s.(fences := s.fences[u := s.clock])
  }

  /** May this actor link a Google account for this target? */
  predicate MayLink(s: State, actor: UserId, target: UserId)
    requires actor in s.users && target in s.users
  {
    actor == target
    || (s.users[actor].role == Parent && s.users[target].role == Child
      && s.users[actor].family == s.users[target].family)
  }

  ghost function StartStep(s: State, op: Op): Step
    requires op.Start?
  {
    var actor := op.auth;
    if !ChallengeText(op.challenge) || !op.s256 then Step(s, Refused(InvalidExchange))
    else if actor.OtherAuth? then Step(s, Refused(AuthorizationChanged))
    else if actor.TokenAuth? && !(actor.user in s.users && s.users[actor.user].active
                                  && actor.user in s.tokens && s.tokens[actor.user] == actor.key) then
      Step(s, Refused(AuthorizationChanged))
    else if op.target.Some? && !(op.target.value in s.users && s.users[op.target.value].active
                                 && actor.TokenAuth? && MayLink(s, actor.user, op.target.value)) then
      Step(s, Refused(AuthorizationChanged))
    else if |s.flows| >= MAX_TRANSACTIONS then Step(s, Refused(AuthorizationBusy))
    else if |LiveOf(s, op.client)| >= MAX_LIVE then Step(s, Refused(InvalidExchange))
    else if exists f :: HasState(s, f, Digest(op.state)) then Step(s, Nothing)
    else
      var row := Flow(
        op.mode, Digest(op.state), op.challenge, op.client,
        if actor.TokenAuth? then Some(WitnessOf(actor.user, s.users[actor.user])) else None,
        if actor.TokenAuth? then Some(Digest(actor.key)) else None,
        if op.target.Some? then Some(WitnessOf(op.target.value, s.users[op.target.value])) else None,
        s.clock, s.clock + FLOW_SECONDS, Pending, Verifier(op.code), None, None);
      Step(s.(flows := s.flows[s.nextFlow := row], nextFlow := s.nextFlow + 1), Done)
  }

  ghost function ClaimStep(s: State, state: string): Step {
    var found := FlowByState(s, Digest(state));
    if !OpaqueText(state) || found.None? then Step(s, Nothing)
    else
      var row := s.flows[found.value];
      if row.stage != Pending || row.expiresAt <= s.clock then Step(s, Nothing)
      else
        Step(s.(flows := s.flows[found.value := row.(stage := Processing, payload := Erased)]),
             Claimed(found.value, if row.payload.Verifier? then row.payload.code else ""))
  }

  function FailStep(s: State, f: FlowId): Step {
    if f !in s.flows || s.flows[f].stage != Processing then Step(s, Nothing)
    else Step(s.(flows := s.flows[f := s.flows[f].(stage := Failed, payload := Erased)]), Done)
  }

  ghost function FinishStep(s: State, op: Op): Step
    requires op.Finish?
  {
    var f := op.flow;
    if f !in s.flows || s.flows[f].stage != Processing || s.flows[f].expiresAt <= s.clock then Step(s, Nothing)
    else if exists g :: HasTicket(s, g, Digest(op.ticket)) then Step(s, Nothing)
    else
      Step(s.(flows := s.flows[f := s.flows[f].(
        stage := Ready, ticket := Some(Digest(op.ticket)), ticketExpiresAt := Some(s.clock + TICKET_SECONDS),
        payload := Identity(op.googleId, op.email, op.credentials))]), Done)
  }

  /** The untransacted half of an exchange: find the ready row, check the browser proof, note who may be locked. */
  ghost function ReadStep(s: State, ticket: string, verifier: string): Step {
    if !OpaqueText(ticket) || !VerifierText(verifier) || !(exists f :: HasTicket(s, f, Digest(ticket))) then
      Step(s, Refused(InvalidExchange))
    else
      var f :| HasTicket(s, f, Digest(ticket));
      var row := s.flows[f];
      if row.challenge != S256(verifier) || !row.payload.Identity? then Step(s, Refused(InvalidExchange))
      else
        var owner := if row.mode == Login then AccountBy(s, row.payload.googleId) else None;
        Step(s.(snapshots := s.snapshots + {Snapshot(f, row, ticket, verifier, owner)}), Done)
  }

  ghost function AccountBy(s: State, googleId: string): (r: Option<UserId>)
    ensures r.Some? ==> Holds(s, r.value, googleId)
    ensures r.None? ==> forall u :: !Holds(s, u, googleId)
  {
    if exists u :: Holds(s, u, googleId) then var u :| Holds(s, u, googleId); Some(u) else None
  }

  predicate Unchanged(s: State, w: Witness, since: int) {
    && w.id in s.users
    && s.users[w.id].active
    && WitnessOf(w.id, s.users[w.id]) == w
    && !Fenced(s, w.id, since)
  }

  predicate ActorIsValid(s: State, row: Flow, auth: Auth) {
    match row.initiator
    case Some(w) =>
      && Unchanged(s, w, row.createdAt)
      && auth.TokenAuth? && auth.user == w.id
      && Some(Digest(auth.key)) == row.initiatorToken
      && w.id in s.tokens && s.tokens[w.id] == auth.key
    case None => auth.Anonymous?
  }

  function Bind(s: State, u: UserId, googleId: string, email: string, credentials: string,
      linker: Option<UserId>): State
  {
    var since := if u in s.accounts then s.accounts[u].createdAt else s.clock;
    Revoke(s.(accounts := s.accounts[u := Account(googleId, email, credentials, linker, since)]), u)
  }

  ghost predicate TakenByAnother(s: State, googleId: string, u: UserId) {
    exists v :: v != u && Holds(s, v, googleId)
  }

  ghost function RedeemLink(s: State, row: Flow, identity: Payload): Step
    requires identity.Identity?
  {
    if row.target.None? || !Unchanged(s, row.target.value, row.createdAt) || row.initiator.None?
       || row.initiator.value.id !in s.users || !MayLink(s, row.initiator.value.id, row.target.value.id) then
      Step(s, Refused(AuthorizationChanged))
    else
      var actor, target := row.initiator.value.id, row.target.value.id;
      if TakenByAnother(s, identity.googleId, target) then Step(s, Refused(AlreadyLinkedOther))
      else
        var linker := if actor != target then Some(actor) else None;
        Step(Bind(s, target, identity.googleId, identity.email, identity.credentials, linker),
          Linked(target, identity.googleId))
  }

  ghost function RedeemLogin(s: State, seen: Snapshot, row: Flow, identity: Payload, freshKey: string): Step
    requires identity.Identity?
  {
    var holder := AccountBy(s, identity.googleId);
    if holder.None? then Step(s, Refused(NoAccount))
    else
      var u := holder.value;
      var locked := Some(u) == seen.owner || Names(seen.row, u);
      if u !in s.users || !locked then Step(s, Refused(AuthorizationChanged))
      else if !s.users[u].active then Step(s, Refused(InactiveAccount))
      else if s.accounts[u].createdAt >= row.createdAt || Fenced(s, u, row.createdAt) then
        Step(s, Refused(AuthorizationChanged))
      else
        var key := if u in s.tokens then s.tokens[u] else freshKey;
        Step(s.(accounts := s.accounts[u := s.accounts[u].(credentials := identity.credentials)],
                tokens := s.tokens[u := key]),
             LoggedIn(u, identity.googleId, key))
  }

  /** The savepoint inside an exchange: validate the actor, then link or log in, or leave the state alone. */
  ghost function Redeem(s: State, op: Op, row: Flow): Step
    requires op.Exchange?
  {
    var identity := op.seen.row.payload;
    if !ActorIsValid(s, row, op.auth) || op.collision || !identity.Identity? then Step(s, Refused(AuthorizationChanged))
    else if row.mode == Link then RedeemLink(s, row, identity)
    else RedeemLogin(s, op.seen, row, identity, op.freshKey)
  }

  function Spent(row: Flow): Flow {
    row.(stage := Consumed, payload := Erased, ticket := None)
  }

  /** The transacted half: a refusal still consumes the flow, a lock conflict or a stale row changes nothing. */
  ghost function ExchangeStep(s: State, op: Op): Step
    requires op.Exchange?
  {
    var f := op.seen.flow;
    if op.conflict then Step(s, Nothing)
    else if f !in s.flows || s.flows[f].stage != Ready || Expired(s.flows[f], s.clock) then
      Step(s, Refused(InvalidExchange))
    else
      var tried := Redeem(s, op, s.flows[f]);
      Step(tried.state.(flows := s.flows[f := Spent(s.flows[f])]), tried.reply)
  }

  ghost function LinkStep(s: State, op: Op): Step
    requires op.LinkAccount?
  {
    if op.conflict || op.user !in s.users || TakenByAnother(s, op.googleId, op.user) then Step(s, Nothing)
    else Step(Bind(s, op.user, op.googleId, op.email, op.credentials, op.linker), Done)
  }

  function UnlinkStep(s: State, op: Op): Step
    requires op.Unlink?
  {
    if op.conflict || op.user !in s.users then Step(s, Nothing)
    else Step(Revoke(s.(accounts := s.accounts - {op.user}), op.user), Done)
  }

  function Written(previous: User, value: User, fields: Option<set<Field>>): User {
    match fields
    case None => value
    case Some(names) =>
      User(if IsActive in names then value.active else previous.active,
           if Family in names then value.family else previous.family,
           if RoleName in names then value.role else previous.role,
           if Password in names then value.password else previous.password)
  }

  /** A full save of an absent row inserts it; a partial save of one fails. */
  function SaveStep(s: State, op: Op): Step
    requires op.SaveUser?
  {
    if op.user !in s.users then
      if op.fields.Some? then Step(s, Nothing) else Step(s.(users := s.users[op.user := op.value]), Done)
    else
      var previous := s.users[op.user];
      var row := Written(previous, op.value, op.fields);
      if row == previous then Step(s, Done)
      else if op.conflict then Step(s, Nothing)
      else Step(Revoke(s.(users := s.users[op.user := row]), op.user), Done)
  }

  function ForgetUser(a: Account, u: UserId): Account {
    if a.linkedBy == Some(u) then a.(linkedBy := None) else a
  }

  /** Every row that references the account goes with it; another account's `linkedBy` is cleared. */
  function DeleteUserStep(s: State, u: UserId): Step {
    if u !in s.users then Step(s, Nothing)
    else
      Step(s.(users := s.users - {u}, tokens := s.tokens - {u}, fences := s.fences - {u},
              accounts := map v | v in s.accounts && v != u :: ForgetUser(s.accounts[v], u),
              flows := map f | f in s.flows && !Names(s.flows[f], u) :: s.flows[f]), Done)
  }

  function DeleteTokenStep(s: State, op: Op): Step
    requires op.DeleteToken?
  {
    if op.conflict || op.user !in s.tokens then Step(s, Nothing)
    else
      var deleted := s.(tokens := s.tokens - {op.user});
      Step(if op.user in s.users then Revoke(deleted, op.user) else deleted, Done)
  }

  function PasswordLoginStep(s: State, op: Op): Step
    requires op.PasswordLogin?
  {
    if op.user !in s.users || !s.users[op.user].active || s.users[op.user].password != op.password then Step(s, Nothing)
    else Step(Revoke(s.(tokens := s.tokens[op.user := op.key]), op.user), Done)
  }

  /** The oldest `limit` expired rows; rows that expire together may be taken in any order. */
  ghost predicate IsOldestBatch(s: State, limit: nat, chosen: set<FlowId>) {
    && chosen <= ExpiredFlows(s)
    && |chosen| == (if |ExpiredFlows(s)| < limit then |ExpiredFlows(s)| else limit)
    && forall c, e | c in chosen && e in ExpiredFlows(s) - chosen :: s.flows[c].expiresAt <= s.flows[e].expiresAt
  }

  function PruneStep(s: State, chosen: set<FlowId>): Step {
    Step(s.(flows := s.flows - chosen), Done)
  }

  /**
   * An event may happen: time has not gone back, only a link request carries a target,
   * an exchange follows its own read, and a prune takes an oldest batch.
   */
  ghost predicate Enabled(s: State, e: Event) {
    && s.clock <= e.at
    && (e.op.Start? && e.op.target.Some? ==> e.op.mode == Link)
    && (e.op.Exchange? ==> e.op.seen in s.snapshots)
    && (e.op.Prune? ==> IsOldestBatch(s.(clock := e.at), e.op.limit, e.op.chosen))
  }

  ghost function FlowStep(s: State, op: Op): Step {
    match op
    case Start(_, _, _, _, _, _, _, _) => StartStep(s, op)
    case Claim(state) => ClaimStep(s, state)
    case Fail(f) => FailStep(s, f)
    case Finish(_, _, _, _, _) => FinishStep(s, op)
    case ReadTicket(ticket, verifier) => ReadStep(s, ticket, verifier)
    case Exchange(_, _, _, _, _) => ExchangeStep(s, op)
    case Prune(_, chosen) => PruneStep(s, chosen)
    case _ => Step(s, Nothing)
  }

  ghost function AccountStep(s: State, op: Op): Step {
    match op
    case LinkAccount(_, _, _, _, _, _) => LinkStep(s, op)
    case Unlink(_, _) => UnlinkStep(s, op)
    case SaveUser(_, _, _, _) => SaveStep(s, op)
    case DeleteUser(u) => DeleteUserStep(s, u)
    case DeleteToken(_, _) => DeleteTokenStep(s, op)
    case PasswordLogin(_, _, _) => PasswordLoginStep(s, op)
    case _ => Step(s, Nothing)
  }

  predicate IsAccountOp(op: Op) {
    op.LinkAccount? || op.Unlink? || op.SaveUser? || op.DeleteUser? || op.DeleteToken? || op.PasswordLogin?
  }

  ghost function Perform(before: State, e: Event): Step {
    var s := before.(clock := e.at);
    if IsAccountOp(e.op) then AccountStep(s, e.op) else FlowStep(s, e.op)
  }
}
