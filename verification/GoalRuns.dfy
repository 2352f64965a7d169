/** What a user can reach from here over the fixed catalog, step by step, and what every such run keeps. */
module GoalRuns {
  import Awards
  import opened CategoryBatches
  import opened CategoryNames
  import opened Collections
  import opened Goals
  import opened Json
  import opened Options
  import Skills

  const FULL_GROWTH := 100
  const DAILY_GROWTH := 2

  /**
   * One change of a user's account. New offers follow the catalog; what was accepted before, an incubation or a
   * promised item, is delivered whatever has been retired since.
   */
  datatype Step =
    | Award(award: Awards.Award)
    | SetProjects(projects: seq<Option<Pk>>)
    | Incubate(egg: Pk, brew: Pk)
    | Hatch
    | Feed(item: Pk, pet: Pair, doubled: bool)
    | GrowAlone
    | Acquire(item: Pk)
    | Accept(item: Pk)
    | Deliver(item: Pk)
    | Forfeit(item: Pk)
    | Spend(item: Pk)
    | Equip(item: Pk)
    | Unequip(slot: Slot)

  function Offered(w: World): set<Pk> {
    set i | i in w.items && w.items[i].available
  }

  function Promised(w: World, u: User): set<Pk> {
    set i | i in u.promised && i in w.items
  }

  /** Everything the user holds, may still get, or was promised. */
  function WithinReach(w: World, u: User): set<Pk> {
    Held(w, u) + Offered(w) + Promised(w, u)
  }

  predicate IsEggOf(w: World, i: Pk, species: Pk) {
    i in w.items && w.items[i].use == Egg(Some(species))
  }

  function Variant(item: Item): Option<Pk>
    requires item.use.Brew?
  {
    if item.potion.Some? then item.potion else item.use.legacy
  }

  predicate IsBrewOf(w: World, i: Pk, pair: Pair) {
    && i in w.items && w.items[i].use.Brew? && Variant(w.items[i]) == Some(pair.1)
    && (pair in w.registered ==> w.items[i].use.prepared)
  }

  /** The pair an owned egg and potion start, if the catalog approves it and the user has not hatched it. */
  predicate MayIncubate(w: World, u: User, egg: Pk, brew: Pk) {
    && egg in Held(w, u) && brew in Held(w, u) && w.items[egg].use.Egg? && w.items[brew].use.Brew?
    && w.items[egg].use.species.Some? && Variant(w.items[brew]).Some?
    && var pair := PairOf(w, egg, brew);
    && pair in w.pairs && IsBrewOf(w, brew, pair) && egg in Offered(w) && brew in Offered(w)
    && u.incubating.None? && pair !in u.pets
  }

  function PairOf(w: World, egg: Pk, brew: Pk): Pair
    requires egg in w.items && w.items[egg].use.Egg? && w.items[egg].use.species.Some?
    requires brew in w.items && w.items[brew].use.Brew? && Variant(w.items[brew]).Some?
  {
    (w.items[egg].use.species.value, Variant(w.items[brew]).value)
  }

  predicate IsAllowed(w: World, u: User, step: Step) {
    match step
    case Incubate(egg, brew) => MayIncubate(w, u, egg, brew)
    case Hatch => u.incubating.Some?
    case Feed(i, pet, _) => i in Held(w, u) && w.portion(i, pet.0) > 0 && pet in u.pets && pet !in u.mounts
    case Acquire(i) => i in Offered(w)
    case Accept(i) => i in Offered(w)
    case Deliver(i) => i in Promised(w, u)
    case Equip(i) => i in Held(w, u) && i in Offered(w) && w.items[i].use.Cosmetic? && w.items[i].use.wearable
    case _ => true
  }

  function OneMore(bag: map<Pk, nat>, i: Pk): map<Pk, nat> {
    bag[i := (if i in bag then bag[i] else 0) + 1]
  }

  function OneLess(bag: map<Pk, nat>, i: Pk): map<Pk, nat> {
    if i in bag && bag[i] > 0 then bag[i := bag[i] - 1] else bag
  }

  function GrowthOf(u: User, pet: Pair): nat {
    if pet in u.growth then u.growth[pet] else 0
  }

  function Grown(growth: nat, amount: nat): nat {
    if growth + amount < FULL_GROWTH then growth + amount else FULL_GROWTH
  }

  function Fed(w: World, u: User, pet: Pair, amount: nat): User {
    var growth := Grown(GrowthOf(u, pet), amount);
    u.(growth := u.growth[pet := growth], mounts := if growth >= w.grownAt(pet) then u.mounts + {pet} else u.mounts)
  }

  /** The pets that grow on an active day. */
  function GrowingAlone(w: World, u: User): set<Pair> {
    set pet | pet in u.pets && pet.0 in w.selfGrowing && pet !in u.mounts
  }

  function DayOlder(w: World, u: User): User {
    var older := map pet | pet in GrowingAlone(w, u) :: Grown(GrowthOf(u, pet), DAILY_GROWTH);
    u.(growth := u.growth + older,
       mounts := u.mounts + set pet | pet in GrowingAlone(w, u) && older[pet] >= w.grownAt(pet))
  }

  function Do(w: World, u: User, step: Step): User
    requires IsAllowed(w, u, step)
  {
    match step
    case Award(award) => u.(book := Awards.Apply(w.gates, u.book, award))
    case SetProjects(projects) => u.(projects := projects)
    case Incubate(egg, brew) =>
      u.(bag := OneLess(OneLess(u.bag, egg), brew), incubating := Some(PairOf(w, egg, brew)))
    case Hatch => u.(pets := u.pets + {u.incubating.value}, incubating := None)
    case Feed(i, pet, doubled) =>
      Fed(w, u.(bag := OneLess(u.bag, i)), pet, if doubled then 2 * w.portion(i, pet.0) else w.portion(i, pet.0))
    case GrowAlone => DayOlder(w, u)
    case Acquire(i) => u.(bag := OneMore(u.bag, i))
    case Accept(i) => u.(promised := u.promised + multiset{i})
    case Deliver(i) => u.(bag := OneMore(u.bag, i), promised := u.promised - multiset{i})
    case Forfeit(i) => u.(promised := u.promised - multiset{i})
    case Spend(i) => u.(bag := OneLess(u.bag, i))
    case Equip(i) => u.(worn := u.worn + {w.items[i].use.slot})
    case Unequip(slot) => u.(worn := u.worn - {slot})
  }

  /** `later` is reached from `u` by some steps, each allowed where it happens. */
  ghost predicate Reaches(w: World, u: User, later: User) {
    exists run: seq<User> :: IsRun(w, run) && run[0] == u && run[|run| - 1] == later
  }

  ghost predicate IsRun(w: World, run: seq<User>) {
    run != [] && forall k: nat | k + 1 < |run| :: StepsAt(w, run, k)
  }

  ghost predicate StepsAt(w: World, run: seq<User>, k: nat)
    requires k + 1 < |run|
  {
    exists step :: IsAllowed(w, run[k], step) && Do(w, run[k], step) == run[k + 1]
  }

  ghost predicate CanEarn(w: World, u: User, badge: Badge)
    requires !badge.kind.OtherKind?
  {
    exists later | Reaches(w, u, later) :: Check(w, later, badge) == Yes
  }

  lemma ReachesItself(w: World, u: User)
    ensures Reaches(w, u, u)
  {
    assert IsRun(w, [u]);
  }

  lemma OneMoreStep(w: World, u: User, later: User, step: Step)
    requires Reaches(w, u, later) && IsAllowed(w, later, step)
    ensures Reaches(w, u, Do(w, later, step))
  {
    var run :| IsRun(w, run) && run[0] == u && run[|run| - 1] == later;
    var longer := run + [Do(w, later, step)];
    forall k: nat | k + 1 < |longer| ensures StepsAt(w, longer, k) {
      if k + 1 < |run| {
        assert StepsAt(w, run, k) && longer[k] == run[k] && longer[k + 1] == run[k + 1];
      } else {
        assert IsAllowed(w, longer[k], step) && Do(w, longer[k], step) == longer[k + 1];
      }
    }
    assert IsRun(w, longer);
  }

  // ---------------------------------------------------------------- what every reachable state keeps

  /** An egg and a potion for this pet are both offered. */
  predicate IsBrewable(w: World, pair: Pair) {
    && pair in w.pairs
    && (exists egg | egg in Offered(w) :: IsEggOf(w, egg, pair.0))
    && exists brew | brew in Offered(w) :: IsBrewOf(w, brew, pair)
  }

  function Brewable(w: World): set<Pair> {
    set pair | pair in w.pairs && IsBrewable(w, pair)
  }

  function Incubating(u: User): set<Pair> {
    if u.incubating.Some? then {u.incubating.value} else {}
  }

  function ReachablePets(w: World, u: User): set<Pair> {
    u.pets + Incubating(u) + Brewable(w)
  }

  /** Something within reach could feed this pet, or it grows on its own. */
  predicate MayGrow(w: World, u: User, pet: Pair) {
    && w.grownAt(pet) <= FULL_GROWTH
    && (pet.0 in w.selfGrowing || exists i | i in WithinReach(w, u) :: w.portion(i, pet.0) > 0)
  }

  function ReachableMounts(w: World, u: User): set<Pair> {
    u.mounts + set pet | pet in ReachablePets(w, u) && MayGrow(w, u, pet)
  }

  function Wearable(w: World): set<Slot> {
    set i | i in Offered(w) && w.items[i].use.Cosmetic? && w.items[i].use.wearable :: w.items[i].use.slot
  }

  ghost predicate Within(w: World, u: User, later: User) {
    && PetsAreWithin(w, u, later)
    && ItemsAreWithin(w, u, later)
    && later.worn <= u.worn + Wearable(w)
  }

  ghost predicate PetsAreWithin(w: World, u: User, later: User) {
    && later.pets <= ReachablePets(w, u)
    && Incubating(later) <= ReachablePets(w, u)
    && later.mounts <= ReachableMounts(w, u)
  }

  ghost predicate ItemsAreWithin(w: World, u: User, later: User) {
    Held(w, later) <= WithinReach(w, u) && Promised(w, later) <= Promised(w, u) + Offered(w)
  }

  lemma StepKeepsPetsWithin(w: World, u: User, before: User, step: Step)
    requires Within(w, u, before) && IsAllowed(w, before, step)
    ensures PetsAreWithin(w, u, Do(w, before, step))
  {
    match step
    case Incubate(egg, brew) =>
      var pair := PairOf(w, egg, brew);
      assert IsEggOf(w, egg, pair.0) && IsBrewOf(w, brew, pair);
      assert pair in Brewable(w);
    case Feed(i, pet, doubled) =>
      assert w.portion(i, pet.0) > 0 && i in WithinReach(w, u);
    case _ =>
  }

  lemma StepKeepsItemsWithin(w: World, u: User, before: User, step: Step)
    requires ItemsAreWithin(w, u, before) && IsAllowed(w, before, step)
    ensures ItemsAreWithin(w, u, Do(w, before, step))
  {
  }

  lemma StepStaysWithin(w: World, u: User, before: User, step: Step)
    requires Within(w, u, before) && IsAllowed(w, before, step)
    ensures Within(w, u, Do(w, before, step))
  {
    StepKeepsPetsWithin(w, u, before, step);
    StepKeepsItemsWithin(w, u, before, step);
  }

  lemma {:induction false} RunStaysWithin(w: World, run: seq<User>)
    requires IsRun(w, run)
    ensures Within(w, run[0], run[|run| - 1])
    decreases |run|
  {
    if |run| > 1 {
      var step := LastStep(w, run);
      RunStaysWithin(w, run[..|run| - 1]);
      StepStaysWithin(w, run[0], run[|run| - 2], step);
    }
  }

  /** A run without its last state is a run, and one step leads to that state. */
  lemma LastStep(w: World, run: seq<User>) returns (step: Step)
    requires IsRun(w, run) && |run| > 1
    ensures IsRun(w, run[..|run| - 1])
    ensures IsAllowed(w, run[|run| - 2], step) && Do(w, run[|run| - 2], step) == run[|run| - 1]
  {
    var front := run[..|run| - 1];
    forall k: nat | k + 1 < |front| ensures StepsAt(w, front, k) {
      assert StepsAt(w, run, k) && front[k] == run[k] && front[k + 1] == run[k + 1];
    }
    assert StepsAt(w, run, |run| - 2);
    step :| IsAllowed(w, run[|run| - 2], step) && Do(w, run[|run| - 2], step) == run[|run| - 1];
  }

  /** Pets, mounts, items and worn slots come from what was owned, accepted or offered. */
  lemma EveryReachableUserIsWithin(w: World, u: User, later: User)
    requires Reaches(w, u, later)
    ensures Within(w, u, later)
  {
    var run :| IsRun(w, run) && run[0] == u && run[|run| - 1] == later;
    RunStaysWithin(w, run);
  }

  lemma StepStaysHonest(w: World, before: User, step: Step)
    requires NoRepeats(w.gates.gated) && Awards.Honest(w.gates, before.book) && IsAllowed(w, before, step)
    ensures Awards.Honest(w.gates, Do(w, before, step).book)
  {
    if step.Award? {
      Awards.AwardKeepsTheBook(w.gates, before.book, step.award);
    } else {
      OnlyAwardsChangeTheBook(w, before, step);
    }
  }

  lemma OnlyAwardsChangeTheBook(w: World, before: User, step: Step)
    requires IsAllowed(w, before, step) && !step.Award?
    ensures Do(w, before, step).book == before.book
  {
  }

  lemma {:induction false} RunStaysHonest(w: World, run: seq<User>)
    requires IsRun(w, run) && NoRepeats(w.gates.gated) && Awards.Honest(w.gates, run[0].book)
    ensures Awards.Honest(w.gates, run[|run| - 1].book)
    decreases |run|
  {
    if |run| > 1 {
      var step := LastStep(w, run);
      RunStaysHonest(w, run[..|run| - 1]);
      StepStaysHonest(w, run[|run| - 2], step);
    }
  }

  lemma EveryReachableUserIsHonest(w: World, u: User, later: User)
    requires Reaches(w, u, later) && NoRepeats(w.gates.gated) && Awards.Honest(w.gates, u.book)
    ensures Awards.Honest(w.gates, later.book)
  {
    var run :| IsRun(w, run) && run[0] == u && run[|run| - 1] == later;
    RunStaysHonest(w, run);
  }

  // ---------------------------------------------------------------- everything within reach can be held

  lemma {:induction false} EveryOfferIsAcquired(w: World, u: User, wanted: set<Pk>)
    requires wanted <= Offered(w)
    ensures exists later | Reaches(w, u, later) ::
      Held(w, u) + wanted <= Held(w, later) && u.worn == later.worn && u.promised == later.promised
  {
    if wanted == {} {
      ReachesItself(w, u);
      assert Held(w, u) + wanted <= Held(w, u);
    } else {
      var i :| i in wanted;
      EveryOfferIsAcquired(w, u, wanted - {i});
      var later :| Reaches(w, u, later) && Held(w, u) + (wanted - {i}) <= Held(w, later)
        && u.worn == later.worn && u.promised == later.promised;
      OneMoreStep(w, u, later, Acquire(i));
      assert Held(w, later) + {i} <= Held(w, Do(w, later, Acquire(i)));
    }
  }

  lemma {:induction false} EveryPromiseIsDelivered(w: World, u: User, base: User, wanted: set<Pk>)
    requires Reaches(w, u, base) && wanted <= Promised(w, base)
    ensures exists later | Reaches(w, u, later) ::
      && Held(w, base) + wanted <= Held(w, later) && base.worn == later.worn
      && Promised(w, base) - wanted <= Promised(w, later)
  {
    if wanted == {} {
      assert Held(w, base) + wanted <= Held(w, base);
    } else {
      var i :| i in wanted;
      EveryPromiseIsDelivered(w, u, base, wanted - {i});
      var later :| Reaches(w, u, later) && Held(w, base) + (wanted - {i}) <= Held(w, later)
        && base.worn == later.worn && Promised(w, base) - (wanted - {i}) <= Promised(w, later);
      OneMoreStep(w, u, later, Deliver(i));
      OneIsDelivered(w, later, i);
      var next := Do(w, later, Deliver(i));
      assert Held(w, base) + wanted <= Held(w, next);
    }
  }

  lemma OneIsDelivered(w: World, u: User, i: Pk)
    requires i in Promised(w, u)
    ensures Held(w, u) + {i} <= Held(w, Do(w, u, Deliver(i)))
    ensures Promised(w, u) - {i} <= Promised(w, Do(w, u, Deliver(i)))
  {
  }

  /** Some run holds everything held now, offered or promised. */
  lemma EverythingIsCollected(w: World, u: User)
    ensures exists later | Reaches(w, u, later) :: WithinReach(w, u) <= Held(w, later) && u.worn == later.worn
  {
    EveryOfferIsAcquired(w, u, Offered(w));
    var base :| Reaches(w, u, base) && Held(w, u) + Offered(w) <= Held(w, base)
      && u.worn == base.worn && u.promised == base.promised;
    EveryPromiseIsDelivered(w, u, base, Promised(w, base));
  }
}
