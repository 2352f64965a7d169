/** Badge evaluation: a scoped pass, a queue that coalesces re-entrant requests, and the drain that empties it. */
module Badges {
  import opened Options

  type Scope = string

  /** The scopes that just changed; `None` asks for every unearned badge. */
  type Request = Option<set<Scope>>

  datatype Badge = Badge(id: nat, kind: string, legendary: bool)

  /**
   * `scopesOf` registers a checker for each known kind, with its declared scopes if it declares any.
   * `pay` is everything an award does to the account; `asks` are the evaluations its payouts request on the way,
   * and `moves` the subsystems they change.
   */
  datatype Engine<!World> = Engine(
    catalog: seq<Badge>,
    scopesOf: map<string, Option<set<Scope>>>,
    qualifies: (World, Badge) -> bool,
    pay: (World, Badge) -> World,
    asks: (World, Badge) -> seq<Request>,
    moves: (World, Badge) -> set<Scope>,
    saveFirst: World -> World)
  {
    predicate Check(w: World, b: Badge) {
      b.kind in scopesOf && qualifies(w, b)
    }

    /** `criteria_types_for_scopes` for one kind: an untagged criterion is relevant to every nonempty request. */
    predicate Relevant(kind: string, scopes: set<Scope>) {
      scopes != {} && kind in scopesOf && (scopesOf[kind].None? || scopesOf[kind].value * scopes != {})
    }

    predicate Covers(r: Request, b: Badge) {
      r.None? || r.value == {} || Relevant(b.kind, r.value)
    }

    predicate Covered(pending: seq<Request>, b: Badge) {
      exists r | r in pending :: Covers(r, b)
    }

    ghost predicate Wider(r: Request, narrow: Request) {
      forall b :: Covers(narrow, b) ==> Covers(r, b)
    }

    ghost predicate DistinctIds() {
      DiffersById(catalog)
    }
  }

  ghost predicate DiffersById(badges: seq<Badge>) {
    forall i, j | 0 <= i < |badges| && 0 <= j < |badges| && badges[i].id == badges[j].id :: i == j
  }

  /** An empty scope set is treated like no scopes at all. */
  function Normal(r: Request): Request {
    if r.Some? && r.value == {} then None else r
  }

  function Coalesce(pending: seq<Request>, r: Request): seq<Request> {
    if r.None? then [None]
    else if None in pending then pending
    else if pending != [] then pending[0 := Some(pending[0].value + r.value)]
    else [r]
  }

  /** Coalescing forgets nothing and adds nothing: it asks for exactly what the queue and the request asked for. */
  lemma CoalesceIsUnion<World>(e: Engine<World>, pending: seq<Request>, r: Request, b: Badge)
    requires |pending| <= 1 && Normal(r) == r && forall p | p in pending :: Normal(p) == p
    ensures |Coalesce(pending, r)| == 1 && Normal(Coalesce(pending, r)[0]) == Coalesce(pending, r)[0]
    ensures e.Covered(Coalesce(pending, r), b) <==> e.Covered(pending, b) || e.Covers(r, b)
  {
    var merged := Coalesce(pending, r);
    assert e.Covered(merged, b) <==> e.Covers(merged[0], b) by { assert merged == [merged[0]]; }
    if pending != [] {
      assert pending == [pending[0]];
      assert e.Covered(pending, b) <==> e.Covers(pending[0], b);
    }
  }

  /** The queue after a payout's requests were folded in, first to last. */
  function Folded(pending: seq<Request>, asks: seq<Request>): seq<Request> {
    if asks == [] then pending else Coalesce(Folded(pending, asks[..|asks| - 1]), Normal(asks[|asks| - 1]))
  }

  /** A user's account, its earned badges and the queue. */
  datatype Account<World> = Account(world: World, earned: set<nat>, pending: seq<Request>)

  function Turn<World>(e: Engine<World>, a: Account<World>, b: Badge): Account<World> {
    if e.Check(a.world, b) && b.id !in a.earned
    then Account(e.pay(a.world, b), a.earned + {b.id}, Folded(a.pending, e.asks(a.world, b)))
    else a
  }

  function PassOver<World>(e: Engine<World>, a: Account<World>, badges: seq<Badge>): Account<World>
    decreases |badges|
  {
    if badges == [] then a else PassOver(e, Turn(e, a, badges[0]), badges[1..])
  }

  /** The unearned badges a request selects, in catalog order. */
  function Selected<World>(e: Engine<World>, earned: set<nat>, request: Request): seq<Badge> {
    Filter(e, e.catalog, earned, request)
  }

  function Filter<World>(e: Engine<World>, badges: seq<Badge>, earned: set<nat>, request: Request): (r: seq<Badge>)
    ensures forall b :: b in r <==> b in badges && b.id !in earned && e.Covers(request, b)
  {
    if badges == [] then []
    else
      (if badges[0].id !in earned && e.Covers(request, badges[0]) then [badges[0]] else [])
      + Filter(e, badges[1..], earned, request)
  }

  // ---------------------------------------------------------------- assumptions about payouts

  /** A checker turns true only when a payout moves one of its scopes, or anything if it declares none. */
  ghost predicate ScopesAreSound<World(!new)>(e: Engine<World>) {
    forall w, b, c | !e.Check(w, c) && e.Check(e.pay(w, b), c) ::
      if e.scopesOf[c.kind].None? then e.moves(w, b) != {} else e.scopesOf[c.kind].value * e.moves(w, b) != {}
  }

  /** Every scope a payout moves is named by an evaluation it requests. */
  ghost predicate PayoutsAnnounce<World(!new)>(e: Engine<World>) {
    forall w, b, s | s in e.moves(w, b) :: exists r | r in e.asks(w, b) :: r.None? || r.value == {} || s in r.value
  }

  const FIRST_SCOPES: set<Scope> := {"chronicle", "badges"}

  ghost predicate FirstsAnnounce<World(!new)>(e: Engine<World>) {
    forall w, c | !e.Check(w, c) && e.Check(e.saveFirst(w), c) :: e.Covers(Some(FIRST_SCOPES), c)
  }

  lemma NewlyQualifiedIsAnnounced<World(!new)>(e: Engine<World>, w: World, b: Badge, c: Badge)
    requires ScopesAreSound(e) && PayoutsAnnounce(e) && !e.Check(w, c) && e.Check(e.pay(w, b), c)
    ensures exists r | r in e.asks(w, b) :: e.Covers(Normal(r), c)
  {
  }

  /** Every unearned badge that qualifies is covered by a pending request or is still ahead in this pass. */
  ghost predicate NothingIsLost<World>(e: Engine<World>, w: World, earned: set<nat>, pending: seq<Request>,
      ahead: seq<Badge>)
  {
    forall c | c in e.catalog && c.id !in earned && e.Check(w, c) :: e.Covered(pending, c) || c in ahead
  }

  ghost predicate Saturated<World>(e: Engine<World>, w: World, earned: set<nat>) {
    forall c | c in e.catalog && c.id !in earned :: !e.Check(w, c)
  }

  // ---------------------------------------------------------------- the drain

  function CatalogIds<World>(e: Engine<World>): set<nat> {
    set b | b in e.catalog :: b.id
  }

  /** A pass that awards nothing changes nothing; otherwise it marks badges of the catalog. */
  lemma {:induction false} PassGains<World>(e: Engine<World>, a: Account<World>, badges: seq<Badge>)
    requires forall b | b in badges :: b in e.catalog
    ensures var after := PassOver(e, a, badges);
      && a.earned <= after.earned <= a.earned + CatalogIds(e)
      && (after.earned == a.earned ==> after == a)
    decreases |badges|
  {
    if badges != [] {
      PassGains(e, Turn(e, a, badges[0]), badges[1..]);
    }
  }

  /** Passes until no request is pending. */
  ghost function Drained<World>(e: Engine<World>, a: Account<World>): Account<World>
    decreases CatalogIds(e) - a.earned, |a.pending|
  {
    if a.pending == [] then a
    else
      var popped := Account(a.world, a.earned, a.pending[1..]);
      var selected := Selected(e, a.earned, a.pending[0]);
      PassGains(e, popped, selected);
      Drained(e, PassOver(e, popped, selected))
  }

  /** From every start that hides nothing, the drain leaves no qualified badge unearned. */
  ghost predicate AlwaysSaturates<World(!new)>(e: Engine<World>) {
    forall w, earned, request | NothingIsLost(e, w, earned, [Normal(request)], []) ::
      var end := Drained(e, Account(w, earned, [Normal(request)]));
      Saturated(e, end.world, end.earned)
  }

  ghost predicate ComesAfter<World>(e: Engine<World>, b: Badge, c: Badge) {
    IsLater(e.catalog, b, c)
  }

  ghost predicate IsLater(badges: seq<Badge>, b: Badge, c: Badge) {
    exists i, j | 0 <= i < j < |badges| :: badges[i] == b && badges[j] == c
  }

  /** Every request that selects `b` selects `c` too. */
  predicate RidesAlong<World>(e: Engine<World>, b: Badge, c: Badge) {
    && c.kind in e.scopesOf
    && (e.scopesOf[c.kind].None?
        || (b.kind in e.scopesOf && e.scopesOf[b.kind].Some? && e.scopesOf[b.kind].value <= e.scopesOf[c.kind].value))
  }

  /**
   * Paying `b` either asks for an evaluation that covers `c`, or `c` is still to be visited by any pass that pays
   * `b`.
   */
  ghost predicate IsSeen<World>(e: Engine<World>, w: World, b: Badge, c: Badge) {
    (exists r | r in e.asks(w, b) :: e.Covers(Normal(r), c)) || (ComesAfter(e, b, c) && RidesAlong(e, b, c))
  }

  ghost predicate Gains<World>(e: Engine<World>, w: World, b: Badge, c: Badge) {
    && b in e.catalog && c in e.catalog && b != c
    && e.Check(w, b) && !e.Check(w, c) && e.Check(e.pay(w, b), c)
  }

  /** Whenever a payout qualifies another badge, that badge is seen. */
  ghost predicate GainsAreSeen<World(!new)>(e: Engine<World>) {
    forall w, b, c | Gains(e, w, b, c) :: IsSeen(e, w, b, c)
  }

  // ---------------------------------------------------------------- seen gains suffice

  ghost predicate IsQueue(pending: seq<Request>) {
    |pending| <= 1 && forall r | r in pending :: Normal(r) == r
  }

  lemma {:induction false} FoldedCovers<World>(e: Engine<World>, pending: seq<Request>, asks: seq<Request>, c: Badge)
    requires IsQueue(pending)
    ensures IsQueue(Folded(pending, asks))
    ensures e.Covered(Folded(pending, asks), c) <==>
      e.Covered(pending, c) || exists r | r in asks :: e.Covers(Normal(r), c)
  {
    if asks != [] {
      var less, last := asks[..|asks| - 1], asks[|asks| - 1];
      FoldedCovers(e, pending, less, c);
      CoalesceIsUnion(e, Folded(pending, less), Normal(last), c);
      assert asks == less + [last];
    }
  }

  lemma TurnLosesNothing<World(!new)>(e: Engine<World>, a: Account<World>, request: Request, b: Badge,
      ahead: seq<Badge>)
    requires GainsAreSeen(e) && IsQueue(a.pending) && b in e.catalog && e.Covers(request, b)
    requires NothingIsLost(e, a.world, a.earned, a.pending, [b] + ahead)
    requires forall c: Badge | c.id !in a.earned && c.id != b.id && e.Covers(request, c) && ComesAfter(e, b, c) ::
      c in ahead
    ensures IsQueue(Turn(e, a, b).pending)
    ensures NothingIsLost(e, Turn(e, a, b).world, Turn(e, a, b).earned, Turn(e, a, b).pending, ahead)
  {
    var after := Turn(e, a, b);
    forall c | c in e.catalog && c.id !in after.earned && e.Check(after.world, c)
      ensures IsQueue(after.pending) && (e.Covered(after.pending, c) || c in ahead)
    {
      if after != a {
        GainIsKept(e, a, request, b, c, ahead);
      }
    }
    FoldedCovers(e, a.pending, e.asks(a.world, b), b);
  }

  lemma GainIsKept<World(!new)>(e: Engine<World>, a: Account<World>, request: Request, b: Badge, c: Badge,
      ahead: seq<Badge>)
    requires GainsAreSeen(e) && IsQueue(a.pending) && b in e.catalog && e.Covers(request, b)
    requires e.Check(a.world, b) && b.id !in a.earned
    requires NothingIsLost(e, a.world, a.earned, a.pending, [b] + ahead)
    requires c.id !in a.earned && c.id != b.id && e.Covers(request, c) && ComesAfter(e, b, c) ==> c in ahead
    requires c in e.catalog && c.id !in a.earned && c.id != b.id && e.Check(e.pay(a.world, b), c)
    ensures IsQueue(Folded(a.pending, e.asks(a.world, b)))
    ensures e.Covered(Folded(a.pending, e.asks(a.world, b)), c) || c in ahead
  {
    FoldedCovers(e, a.pending, e.asks(a.world, b), c);
    if !e.Check(a.world, c) {
      assert Gains(e, a.world, b, c);
      assert IsSeen(e, a.world, b, c);
    }
  }

  lemma PassOverOneMore<World>(e: Engine<World>, a: Account<World>, b: Badge, rest: seq<Badge>)
    ensures PassOver(e, a, [b] + rest) == PassOver(e, Turn(e, a, b), rest)
  {
    assert ([b] + rest)[1..] == rest;
  }

  lemma FilterFrom<World>(e: Engine<World>, badges: seq<Badge>, k: nat, earned: set<nat>, request: Request)
    requires k < |badges|
    ensures Filter(e, badges[k..], earned, request)
      == (if badges[k].id !in earned && e.Covers(request, badges[k]) then [badges[k]] else [])
         + Filter(e, badges[k + 1..], earned, request)
  {
    assert badges[k..][1..] == badges[k + 1..];
  }

  lemma LaterIsStillToCome(badges: seq<Badge>, k: nat, c: Badge)
    requires DiffersById(badges) && k < |badges| && IsLater(badges, badges[k], c)
    ensures c in badges[k + 1..]
  {
    var i, j :| 0 <= i < j < |badges| && badges[i] == badges[k] && badges[j] == c;
    assert i == k && badges[k + 1..][j - k - 1] == c;
  }

  lemma LaterSelectedAreAhead<World>(e: Engine<World>, now: set<nat>, earned: set<nat>, request: Request, k: nat)
    requires e.DistinctIds() && earned <= now && k < |e.catalog|
    ensures forall c: Badge | c.id !in now && e.Covers(request, c) && ComesAfter(e, e.catalog[k], c) ::
      c in Filter(e, e.catalog[k + 1..], earned, request)
  {
    forall c: Badge | c.id !in now && e.Covers(request, c) && ComesAfter(e, e.catalog[k], c)
      ensures c in Filter(e, e.catalog[k + 1..], earned, request)
    {
      LaterIsStillToCome(e.catalog, k, c);
    }
  }

  /** A pass over the rest of the catalog, with the selection made at its beginning. */
  lemma {:induction false} PassLosesNothing<World(!new)>(e: Engine<World>, a: Account<World>, earned: set<nat>,
      request: Request, k: nat)
    requires GainsAreSeen(e) && e.DistinctIds() && IsQueue(a.pending) && earned <= a.earned && k <= |e.catalog|
    requires NothingIsLost(e, a.world, a.earned, a.pending, Filter(e, e.catalog[k..], earned, request))
    ensures var after := PassOver(e, a, Filter(e, e.catalog[k..], earned, request));
      IsQueue(after.pending) && NothingIsLost(e, after.world, after.earned, after.pending, [])
    decreases |e.catalog| - k
  {
    if k < |e.catalog| {
      var b, rest := e.catalog[k], Filter(e, e.catalog[k + 1..], earned, request);
      FilterFrom(e, e.catalog, k, earned, request);
      if b.id !in earned && e.Covers(request, b) {
        LaterSelectedAreAhead(e, a.earned, earned, request, k);
        TurnLosesNothing(e, a, request, b, rest);
        PassOverOneMore(e, a, b, rest);
        PassLosesNothing(e, Turn(e, a, b), earned, request, k + 1);
      } else {
        assert [] + rest == rest;
        PassLosesNothing(e, a, earned, request, k + 1);
      }
    } else {
      assert e.catalog[k..] == [];
    }
  }

  lemma RoundLosesNothing<World(!new)>(e: Engine<World>, a: Account<World>, request: Request)
    requires GainsAreSeen(e) && e.DistinctIds() && a.pending == [] && NothingIsLost(e, a.world, a.earned, [request], [])
    ensures var after := PassOver(e, a, Selected(e, a.earned, request));
      IsQueue(after.pending) && NothingIsLost(e, after.world, after.earned, after.pending, [])
  {
    assert e.catalog[0..] == e.catalog;
    assert forall c :: e.Covered([request], c) ==> e.Covers(request, c);
    PassLosesNothing(e, a, a.earned, request, 0);
  }

  /** If every gain is seen, a drain that starts with nothing lost ends saturated. */
  lemma {:induction false} SeenGainsSaturate<World(!new)>(e: Engine<World>, a: Account<World>)
    requires GainsAreSeen(e) && e.DistinctIds() && IsQueue(a.pending)
    requires NothingIsLost(e, a.world, a.earned, a.pending, [])
    ensures Saturated(e, Drained(e, a).world, Drained(e, a).earned)
    decreases CatalogIds(e) - a.earned, |a.pending|
  {
    if a.pending == [] {
      assert forall c :: !e.Covered([], c);
    } else {
      var popped, request := Account(a.world, a.earned, []), a.pending[0];
      assert a.pending == [request] && a.pending[1..] == [];
      RoundLosesNothing(e, popped, request);
      PassGains(e, popped, Selected(e, a.earned, request));
      SeenGainsSaturate(e, PassOver(e, popped, Selected(e, a.earned, request)));
    }
  }

  /** Sound scopes and announcing payouts are one way to have every gain seen. */
  lemma AnnouncedGainsAreSeen<World(!new)>(e: Engine<World>)
    requires ScopesAreSound(e) && PayoutsAnnounce(e)
    ensures GainsAreSeen(e)
  {
    forall w, b, c | Gains(e, w, b, c) ensures IsSeen(e, w, b, c) {
      NewlyQualifiedIsAnnounced(e, w, b, c);
    }
  }

  // ---------------------------------------------------------------- seen gains are needed

  lemma {:induction false} LongerThanAll(scopes: set<Scope>) returns (other: Scope)
    ensures other !in scopes && forall s | s in scopes :: |s| < |other|
  {
    if scopes == {} {
      other := "x";
    } else {
      var s :| s in scopes;
      var longer := LongerThanAll(scopes - {s});
      other := longer + s + "x";
      assert forall t | t in scopes && t != s :: t in scopes - {s};
    }
  }

  /** A request that selects `b` and not `c`, where `c` does not ride along. */
  lemma SeparatingRequest<World>(e: Engine<World>, b: Badge, c: Badge) returns (request: Request)
    requires b.kind in e.scopesOf && c.kind in e.scopesOf && !RidesAlong(e, b, c)
    ensures Normal(request) == request && e.Covers(request, b) && !e.Covers(request, c)
  {
    var scope: Scope;
    if e.scopesOf[b.kind].None? {
      scope := LongerThanAll(e.scopesOf[c.kind].value);
    } else {
      scope :| scope in e.scopesOf[b.kind].value && scope !in e.scopesOf[c.kind].value;
      assert scope in e.scopesOf[b.kind].value * {scope};
    }
    request := Some({scope});
    assert scope in {scope};
    assert e.scopesOf[c.kind].value * {scope} == {};
  }

  /** What is left to visit when only `b` and `c` are unearned and `c` will not be visited after `b`. */
  ghost predicate IsLastChance<World>(e: Engine<World>, badges: seq<Badge>, earned: set<nat>, request: Request,
      b: Badge, c: Badge)
  {
    && DiffersById(badges) && b in badges && b.id !in earned && b != c && e.Covers(request, b)
    && (forall x | x in badges && x.id !in earned :: x == b || x == c)
    && (e.Covers(request, c) ==> !IsLater(badges, b, c))
  }

  lemma {:induction false} NothingSelected<World>(e: Engine<World>, badges: seq<Badge>, earned: set<nat>,
      request: Request)
    requires forall x | x in badges && x.id !in earned :: !e.Covers(request, x)
    ensures Filter(e, badges, earned, request) == []
  {
    if badges != [] {
      NothingSelected(e, badges[1..], earned, request);
    }
  }

  /** Such a pass pays `b` and stops there. */
  lemma {:induction false} LastChancePays<World>(e: Engine<World>, badges: seq<Badge>, earned: set<nat>,
      request: Request, w: World, b: Badge, c: Badge)
    requires IsLastChance(e, badges, earned, request, b, c) && e.Check(w, b) && !e.Check(w, c)
    ensures PassOver(e, Account(w, earned, []), Filter(e, badges, earned, request))
      == Account(e.pay(w, b), earned + {b.id}, Folded([], e.asks(w, b)))
    decreases |badges|
  {
    var first, rest := badges[0], Filter(e, badges[1..], earned, request);
    assert badges[0..] == badges;
    FilterFrom(e, badges, 0, earned, request);
    if first == b {
      NothingComesAfter(e, badges, earned, request, b, c);
      PassOverOneMore(e, Account(w, earned, []), b, []);
    } else {
      assert first in badges;
      RestIsLastChance(e, badges, earned, request, b, c);
      LastChancePays(e, badges[1..], earned, request, w, b, c);
      PassOverOneMore(e, Account(w, earned, []), first, rest);
      assert [] + rest == rest;
    }
  }

  lemma NothingComesAfter<World>(e: Engine<World>, badges: seq<Badge>, earned: set<nat>, request: Request, b: Badge,
      c: Badge)
    requires IsLastChance(e, badges, earned, request, b, c) && badges[0] == b
    ensures Filter(e, badges[1..], earned, request) == []
  {
    forall x | x in badges[1..] && x.id !in earned ensures !e.Covers(request, x) {
      NotLater(badges, b, x);
    }
    NothingSelected(e, badges[1..], earned, request);
  }

  lemma NotLater(badges: seq<Badge>, b: Badge, x: Badge)
    requires badges != [] && badges[0] == b && x in badges[1..]
    ensures IsLater(badges, b, x) && (DiffersById(badges) ==> x != b)
  {
    var k :| 0 <= k < |badges[1..]| && badges[1..][k] == x;
    assert badges[k + 1] == x;
  }

  lemma RestIsLastChance<World>(e: Engine<World>, badges: seq<Badge>, earned: set<nat>, request: Request, b: Badge,
      c: Badge)
    requires IsLastChance(e, badges, earned, request, b, c) && badges[0] != b
    ensures IsLastChance(e, badges[1..], earned, request, b, c)
  {
    var rest := badges[1..];
    assert forall k | 0 <= k < |rest| :: rest[k] == badges[k + 1];
    if IsLater(rest, b, c) {
      var i, j :| 0 <= i < j < |rest| && rest[i] == b && rest[j] == c;
      assert badges[i + 1] == b && badges[j + 1] == c;
    }
  }

  /** One gain that is not seen: a drain that starts with nothing lost ends with it qualified and unearned. */
  lemma UnseenGainIsLost<World(!new)>(e: Engine<World>, w: World, b: Badge, c: Badge)
    returns (earned: set<nat>, request: Request)
    requires e.DistinctIds() && Gains(e, w, b, c) && !IsSeen(e, w, b, c)
    ensures NothingIsLost(e, w, earned, [Normal(request)], [])
    ensures var end := Drained(e, Account(w, earned, [Normal(request)]));
      end == Account(e.pay(w, b), earned + {b.id}, []) && c.id !in end.earned && !Saturated(e, end.world, end.earned)
  {
    earned := CatalogIds(e) - {b.id, c.id};
    request := None;
    if ComesAfter(e, b, c) {
      request := SeparatingRequest(e, b, c);
    }
    OnlyTwoAreOpen(e, b, c, earned);
    assert request in [request];
    LastChancePays(e, e.catalog, earned, request, w, b, c);
    var start := Account(w, earned, [request]);
    var after := Account(e.pay(w, b), earned + {b.id}, Folded([], e.asks(w, b)));
    assert start.pending[1..] == [] && Drained(e, start) == Drained(e, after);
    FoldedCovers(e, [], e.asks(w, b), c);
    QuietRoundEndsIt(e, after, c);
  }

  lemma OnlyTwoAreOpen<World>(e: Engine<World>, b: Badge, c: Badge, earned: set<nat>)
    requires e.DistinctIds() && b in e.catalog && c in e.catalog && b != c && earned == CatalogIds(e) - {b.id, c.id}
    ensures b.id != c.id && forall x | x in e.catalog && x.id !in earned :: x == b || x == c
  {
  }

  lemma QuietRoundEndsIt<World>(e: Engine<World>, a: Account<World>, c: Badge)
    requires IsQueue(a.pending) && !e.Covered(a.pending, c)
    requires forall x | x in e.catalog && x.id !in a.earned :: x == c
    ensures Drained(e, a) == Account(a.world, a.earned, [])
  {
    if a.pending != [] {
      assert a.pending == [a.pending[0]] && a.pending[1..] == [] && a.pending[0] in a.pending;
      NothingSelected(e, e.catalog, a.earned, a.pending[0]);
    }
  }

  /** The drain always saturates exactly when every gain of a payout is asked for, or still ahead in the same pass. */
  lemma AlwaysSaturatesExactlyWhen<World(!new)>(e: Engine<World>)
    requires e.DistinctIds()
    ensures AlwaysSaturates(e) <==> GainsAreSeen(e)
  {
    if GainsAreSeen(e) {
      forall w, earned, request | NothingIsLost(e, w, earned, [Normal(request)], [])
        ensures var end := Drained(e, Account(w, earned, [Normal(request)])); Saturated(e, end.world, end.earned)
      {
        SeenGainsSaturate(e, Account(w, earned, [Normal(request)]));
      }
    } else {
      var w, b, c :| Gains(e, w, b, c) && !IsSeen(e, w, b, c);
      var earned, request := UnseenGainIsLost(e, w, b, c);
    }
  }

  /** Riding along is what every request says of the two badges. */
  lemma RidesAlongExactlyWhen<World>(e: Engine<World>, b: Badge, c: Badge)
    requires b.kind in e.scopesOf && c.kind in e.scopesOf
    ensures RidesAlong(e, b, c) <==> forall request :: e.Covers(request, b) ==> e.Covers(request, c)
  {
    if RidesAlong(e, b, c) {
      forall request | e.Covers(request, b) ensures e.Covers(request, c) {
        if request.Some? && request.value != {} && e.scopesOf[c.kind].Some? {
          var s :| s in e.scopesOf[b.kind].value * request.value;
          assert s in e.scopesOf[c.kind].value * request.value;
        }
      }
    } else {
      var request := SeparatingRequest(e, b, c);
    }
  }
}
