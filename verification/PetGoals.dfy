/** Hatching, species and mount goals: what some run earns, and when the goals on show are those. */
module PetGoals {
  import opened CategoryBatches
  import opened CategoryNames
  import opened Collections
  import opened GoalRuns
  import opened Goals
  import opened Json
  import opened Options

  // ---------------------------------------------------------------- every pet can be hatched

  /** With its egg and potion offered, a pet can be hatched whenever nothing else incubates. */
  lemma PairIsHatched(w: World, u: User, base: User, pair: Pair)
    requires Reaches(w, u, base) && base.incubating.None? && pair in Brewable(w)
    ensures exists later | Reaches(w, u, later) ::
      later.incubating.None? && later.pets == base.pets + {pair} && later.mounts == base.mounts
  {
    if pair in base.pets {
      assert base.pets == base.pets + {pair};
    } else {
      var egg :| egg in Offered(w) && IsEggOf(w, egg, pair.0);
      var brew :| brew in Offered(w) && IsBrewOf(w, brew, pair);
      OneMoreStep(w, u, base, Acquire(egg));
      var one := Do(w, base, Acquire(egg));
      OneMoreStep(w, u, one, Acquire(brew));
      var both := Do(w, one, Acquire(brew));
      assert egg in Held(w, both) && brew in Held(w, both) && PairOf(w, egg, brew) == pair;
      OneMoreStep(w, u, both, Incubate(egg, brew));
      var started := Do(w, both, Incubate(egg, brew));
      OneMoreStep(w, u, started, Hatch);
      assert Do(w, started, Hatch).pets == base.pets + {pair};
    }
  }

  lemma {:induction false} EveryPairIsHatched(w: World, u: User, base: User, wanted: set<Pair>)
    requires Reaches(w, u, base) && base.incubating.None? && wanted <= Brewable(w)
    ensures exists later | Reaches(w, u, later) ::
      later.incubating.None? && later.pets == base.pets + wanted && later.mounts == base.mounts
  {
    if wanted == {} {
      assert base.pets == base.pets + wanted;
    } else {
      var pair :| pair in wanted;
      EveryPairIsHatched(w, u, base, wanted - {pair});
      var less :| Reaches(w, u, less) && less.incubating.None? && less.pets == base.pets + (wanted - {pair})
        && less.mounts == base.mounts;
      PairIsHatched(w, u, less, pair);
      assert less.pets + {pair} == base.pets + wanted;
    }
  }

  /** Some run owns every pet within reach. */
  lemma EverythingIsHatched(w: World, u: User)
    ensures exists later | Reaches(w, u, later) :: later.pets == ReachablePets(w, u) && later.mounts == u.mounts
  {
    ReachesItself(w, u);
    var base := u;
    if u.incubating.Some? {
      OneMoreStep(w, u, u, Hatch);
      base := Do(w, u, Hatch);
    }
    assert base.pets == u.pets + Incubating(u);
    EveryPairIsHatched(w, u, base, Brewable(w));
  }

  // ---------------------------------------------------------------- every pet can be raised

  /** Food for this pet is offered, or it grows on its own. */
  predicate CanGrow(w: World, pet: Pair) {
    && w.grownAt(pet) <= FULL_GROWTH
    && (pet.0 in w.selfGrowing || exists i | i in Offered(w) :: w.portion(i, pet.0) > 0)
  }

  /** One more meal, or one more day: the pet has evolved, or has grown. */
  lemma PetGrows(w: World, u: User, base: User, pet: Pair)
    requires Reaches(w, u, base) && pet in base.pets && pet !in base.mounts && CanGrow(w, pet)
    ensures exists later | Reaches(w, u, later) ::
      && later.pets == base.pets && base.mounts <= later.mounts
      && (pet in later.mounts || GrowthOf(base, pet) < GrowthOf(later, pet) < FULL_GROWTH)
  {
    if pet.0 in w.selfGrowing {
      OneMoreStep(w, u, base, GrowAlone);
      var later := Do(w, base, GrowAlone);
      assert pet in GrowingAlone(w, base);
      assert pet in later.mounts || GrowthOf(base, pet) < GrowthOf(later, pet) < FULL_GROWTH;
    } else {
      var food :| food in Offered(w) && w.portion(food, pet.0) > 0;
      OneMoreStep(w, u, base, Acquire(food));
      var fed := Do(w, base, Acquire(food));
      assert food in Held(w, fed);
      OneMoreStep(w, u, fed, Feed(food, pet, false));
      var later := Do(w, fed, Feed(food, pet, false));
      assert pet in later.mounts || GrowthOf(base, pet) < GrowthOf(later, pet) < FULL_GROWTH;
    }
  }

  lemma {:induction false} PetIsRidden(w: World, u: User, base: User, pet: Pair)
    requires Reaches(w, u, base) && pet in base.pets && CanGrow(w, pet)
    ensures exists later | Reaches(w, u, later) :: later.pets == base.pets && base.mounts + {pet} <= later.mounts
    decreases FULL_GROWTH - GrowthOf(base, pet)
  {
    if pet !in base.mounts {
      PetGrows(w, u, base, pet);
      var later :| Reaches(w, u, later) && later.pets == base.pets && base.mounts <= later.mounts
        && (pet in later.mounts || GrowthOf(base, pet) < GrowthOf(later, pet) < FULL_GROWTH);
      if pet !in later.mounts {
        PetIsRidden(w, u, later, pet);
      }
    }
  }

  lemma {:induction false} EveryPetIsRidden(w: World, u: User, base: User, wanted: set<Pair>)
    requires Reaches(w, u, base) && wanted <= base.pets && forall pet | pet in wanted :: CanGrow(w, pet)
    ensures exists later | Reaches(w, u, later) :: later.pets == base.pets && base.mounts + wanted <= later.mounts
  {
    if wanted == {} {
      assert base.mounts + wanted <= base.mounts;
    } else {
      var pet :| pet in wanted;
      EveryPetIsRidden(w, u, base, wanted - {pet});
      var less :| Reaches(w, u, less) && less.pets == base.pets && base.mounts + (wanted - {pet}) <= less.mounts;
      PetIsRidden(w, u, less, pet);
      var later :| Reaches(w, u, later) && later.pets == less.pets && less.mounts + {pet} <= later.mounts;
      assert base.mounts + wanted <= later.mounts;
    }
  }

  /** No pet depends on food that is only held or promised and cannot be had again. */
  predicate FoodIsOffered(w: World, u: User) {
    forall pet | pet in ReachableMounts(w, u) - u.mounts :: CanGrow(w, pet)
  }

  lemma EverythingIsRaised(w: World, u: User)
    requires FoodIsOffered(w, u)
    ensures exists later | Reaches(w, u, later) ::
      later.pets == ReachablePets(w, u) && ReachableMounts(w, u) <= later.mounts
  {
    EverythingIsHatched(w, u);
    var base :| Reaches(w, u, base) && base.pets == ReachablePets(w, u) && base.mounts == u.mounts;
    EveryPetIsRidden(w, u, base, ReachableMounts(w, u) - u.mounts);
  }

  // ---------------------------------------------------------------- what can be earned

  lemma FewerPets(kind: GoalKind, pets: set<Pair>, mounts: set<Pair>, allPets: set<Pair>, allMounts: set<Pair>)
    requires pets <= allPets && mounts <= allMounts
    ensures PetCount(kind, pets, mounts) <= PetCount(kind, allPets, allMounts)
  {
    SubsetIsNoLarger(pets, allPets);
    SubsetIsNoLarger(mounts, allMounts);
    SubsetIsNoLarger(Species(pets), Species(allPets));
  }

  /** The most a user can ever own of what this goal counts. */
  function Capacity(w: World, u: User, kind: GoalKind): nat {
    PetCount(kind, ReachablePets(w, u), ReachableMounts(w, u))
  }

  /** What the catalog says the user could own. */
  function ShownCapacity(w: World, u: User, kind: GoalKind): nat {
    var pairs := w.pairs + u.pets;
    PetCount(kind, pairs, pairs + u.mounts)
  }

  predicate CountFits(w: World, capacity: nat, badge: Badge) {
    badge.Criteria().JObject? && CheckPets(w, capacity, badge.Criteria()) == Yes
  }

  lemma PetGoalIsMetExactlyWhen(w: World, u: User, badge: Badge)
    requires badge.kind.IsPet()
    ensures Check(w, u, badge) == Yes <==> CountFits(w, PetCount(badge.kind, u.pets, u.mounts), badge)
  {
  }

  lemma LargerCountFits(w: World, less: nat, more: nat, badge: Badge)
    requires less <= more && CountFits(w, less, badge)
    ensures CountFits(w, more, badge)
  {
  }

  lemma PetGoalIsShownExactlyWhen(w: World, u: User, badge: Badge)
    requires badge.kind.IsPet()
    ensures Availability(w, u, badge) == Yes <==> CountFits(w, ShownCapacity(w, u, badge.kind), badge)
  {
  }

  lemma EarnedPetGoalFits(w: World, u: User, badge: Badge)
    requires badge.kind.IsPet() && CanEarn(w, u, badge)
    ensures CountFits(w, Capacity(w, u, badge.kind), badge)
  {
    var later :| Reaches(w, u, later) && Check(w, later, badge) == Yes;
    EveryReachableUserIsWithin(w, u, later);
    FewerPets(badge.kind, later.pets, later.mounts, ReachablePets(w, u), ReachableMounts(w, u));
    PetGoalIsMetExactlyWhen(w, later, badge);
    LargerCountFits(w, PetCount(badge.kind, later.pets, later.mounts), Capacity(w, u, badge.kind), badge);
  }

  lemma FittingPetGoalIsEarned(w: World, u: User, badge: Badge)
    requires badge.kind.IsPet() && (badge.kind == MountsEvolved ==> FoodIsOffered(w, u))
    requires CountFits(w, Capacity(w, u, badge.kind), badge)
    ensures CanEarn(w, u, badge)
  {
    var later;
    if badge.kind == MountsEvolved {
      EverythingIsRaised(w, u);
      later :| Reaches(w, u, later) && later.pets == ReachablePets(w, u) && ReachableMounts(w, u) <= later.mounts;
      SubsetIsNoLarger(ReachableMounts(w, u), later.mounts);
    } else {
      EverythingIsHatched(w, u);
      later :| Reaches(w, u, later) && later.pets == ReachablePets(w, u) && later.mounts == u.mounts;
    }
    LargerCountFits(w, Capacity(w, u, badge.kind), PetCount(badge.kind, later.pets, later.mounts), badge);
    PetGoalIsMetExactlyWhen(w, later, badge);
  }

  /**
   * A hatching, species or mount goal can be earned exactly when its count fits what is owned, incubating, or has its
   * egg and potion on offer, and, for mounts, can be raised. For mounts this supposes food that can be had again.
   */
  lemma PetGoalIsEarnableExactlyWhen(w: World, u: User, badge: Badge)
    requires badge.kind.IsPet()
    ensures CanEarn(w, u, badge) ==> CountFits(w, Capacity(w, u, badge.kind), badge)
    ensures (badge.kind == MountsEvolved ==> FoodIsOffered(w, u)) ==>
              (CanEarn(w, u, badge) <==> CountFits(w, Capacity(w, u, badge.kind), badge))
  {
    if CanEarn(w, u, badge) {
      EarnedPetGoalFits(w, u, badge);
    } else if (badge.kind == MountsEvolved ==> FoodIsOffered(w, u)) && CountFits(w, Capacity(w, u, badge.kind), badge) {
      FittingPetGoalIsEarned(w, u, badge);
    }
  }

  // ---------------------------------------------------------------- what is on show

  ghost predicate IsShownRightly(w: World, u: User, badge: Badge)
    requires badge.kind.IsPet()
  {
    Availability(w, u, badge) == Yes <==> CanEarn(w, u, badge)
  }

  /** The goal that asks for `count` of its kind. */
  function Asking(kind: GoalKind, count: nat): Badge {
    Badge(kind, JObject(map["count" := JInt(count)]))
  }

  lemma AskingFits(w: World, capacity: nat, kind: GoalKind, count: nat)
    ensures CountFits(w, capacity, Asking(kind, count)) <==> count <= capacity
  {
    var c := Asking(kind, count).Criteria();
    assert Get(c, "count", JInt(1)) == JInt(count);
  }

  /**
   * The goals of one kind are shown exactly when earnable, whatever they ask, exactly when the two capacities agree.
   */
  lemma PetGoalsAreShownRightlyExactlyWhen(w: World, u: User, kind: GoalKind)
    requires kind.IsPet() && (kind == MountsEvolved ==> FoodIsOffered(w, u))
    ensures (forall c :: IsShownRightly(w, u, Badge(kind, c))) <==> Capacity(w, u, kind) == ShownCapacity(w, u, kind)
  {
    forall c ensures IsShownRightly(w, u, Badge(kind, c)) <==>
      (CountFits(w, ShownCapacity(w, u, kind), Badge(kind, c)) <==> CountFits(w, Capacity(w, u, kind), Badge(kind, c)))
    {
      PetGoalIsEarnableExactlyWhen(w, u, Badge(kind, c));
      PetGoalIsShownExactlyWhen(w, u, Badge(kind, c));
    }
    var a, b := Capacity(w, u, kind), ShownCapacity(w, u, kind);
    if a != b {
      var most := if a < b then b else a;
      AskingFits(w, a, kind, most);
      AskingFits(w, b, kind, most);
      assert !IsShownRightly(w, u, Badge(kind, Asking(kind, most).value));
    }
  }

  /** Any accepted incubation is of a pair still approved, or already owned. */
  predicate NothingRetiredIncubates(w: World, u: User) {
    Incubating(u) <= w.pairs + u.pets
  }

  /** Every approved pet is owned, incubating, or has its egg and potion on offer. */
  predicate EveryPetIsOffered(w: World, u: User) {
    w.pairs <= ReachablePets(w, u)
  }

  /** Every pet within reach is a mount or can be raised. */
  predicate EveryPetCanGrow(w: World, u: User) {
    forall pet | pet in ReachablePets(w, u) - u.mounts :: CanGrow(w, pet)
  }

  /**
   * Where ingredients and food are offered a shown goal is earnable; where nothing retired incubates so is no other.
   */
  lemma PetGoalIsShownExactlyWhenEarnable(w: World, u: User, badge: Badge)
    requires badge.kind.IsPet()
    ensures EveryPetIsOffered(w, u) && (badge.kind == MountsEvolved ==> EveryPetCanGrow(w, u)) ==>
              (Availability(w, u, badge) == Yes ==> CanEarn(w, u, badge))
    ensures NothingRetiredIncubates(w, u) ==> (CanEarn(w, u, badge) ==> Availability(w, u, badge) == Yes)
  {
    PetGoalIsShownExactlyWhen(w, u, badge);
    if EveryPetIsOffered(w, u) && (badge.kind == MountsEvolved ==> EveryPetCanGrow(w, u)) {
      ShownFitsCapacity(w, u, badge.kind);
      if Availability(w, u, badge) == Yes {
        LargerCountFits(w, ShownCapacity(w, u, badge.kind), Capacity(w, u, badge.kind), badge);
        FittingPetGoalIsEarned(w, u, badge);
      }
    }
    if NothingRetiredIncubates(w, u) && CanEarn(w, u, badge) {
      CapacityFitsShown(w, u, badge.kind);
      EarnedPetGoalFits(w, u, badge);
      LargerCountFits(w, Capacity(w, u, badge.kind), ShownCapacity(w, u, badge.kind), badge);
    }
  }

  lemma CapacityFitsShown(w: World, u: User, kind: GoalKind)
    requires NothingRetiredIncubates(w, u)
    ensures Capacity(w, u, kind) <= ShownCapacity(w, u, kind)
  {
    var pairs := w.pairs + u.pets;
    FewerPets(kind, ReachablePets(w, u), ReachableMounts(w, u), pairs, pairs + u.mounts);
  }

  lemma ShownFitsCapacity(w: World, u: User, kind: GoalKind)
    requires EveryPetIsOffered(w, u) && (kind == MountsEvolved ==> EveryPetCanGrow(w, u))
    ensures ShownCapacity(w, u, kind) <= Capacity(w, u, kind) && (kind == MountsEvolved ==> FoodIsOffered(w, u))
  {
    var pairs := w.pairs + u.pets;
    SubsetIsNoLarger(pairs, ReachablePets(w, u));
    SubsetIsNoLarger(Species(pairs), Species(ReachablePets(w, u)));
    if kind == MountsEvolved {
      forall pet | pet in pairs ensures pet in ReachableMounts(w, u) {
        if pet !in u.mounts {
          assert CanGrow(w, pet) && MayGrow(w, u, pet);
        }
      }
      SubsetIsNoLarger(pairs + u.mounts, ReachableMounts(w, u));
    }
  }

  // ---------------------------------------------------------------- where the two part

  /** An egg accepted before its pair was retired: hidden as a goal, and earned by hatching it. */
  lemma RetiredEggEarnsAHiddenGoal(w: World, u: User, badge: Badge)
    requires w.pairs == {} && u.pets == {} && u.incubating == Some((1, 2))
    requires badge == Badge(PetsHatched, JNull)
    ensures Availability(w, u, badge) == No && CanEarn(w, u, badge)
  {
    ReachesItself(w, u);
    OneMoreStep(w, u, u, Hatch);
    assert Do(w, u, Hatch).pets == {(1, 2)};
    PetGoalIsMetExactlyWhen(w, Do(w, u, Hatch), badge);
    PetGoalIsShownExactlyWhen(w, u, badge);
  }

  /** An approved pet whose egg no item is: shown as a goal, and earned by no run. */
  lemma EgglessPetIsShownInVain(w: World, u: User, badge: Badge)
    requires w.pairs == {(1, 2)} && (forall i | i in w.items :: w.items[i].use != Egg(Some(1)))
    requires u.pets == {} && u.incubating.None? && badge == Badge(PetsHatched, JNull)
    ensures Availability(w, u, badge) == Yes && !CanEarn(w, u, badge)
  {
    assert Brewable(w) == {} && ReachablePets(w, u) == {} && w.pairs + u.pets == {(1, 2)};
    OneIsWanted(w, u, badge, 0, 1);
  }

  /** A pet that nothing on offer feeds: shown as a goal to ride, and never ridden. */
  lemma UnfedPetIsShownInVain(w: World, u: User, badge: Badge)
    requires w.pairs == {(1, 2)} && w.selfGrowing == {} && forall i | i in w.items :: w.portion(i, 1) == 0
    requires u.pets == {(1, 2)} && u.mounts == {} && u.incubating.None? && badge == Badge(MountsEvolved, JNull)
    ensures Availability(w, u, badge) == Yes && !CanEarn(w, u, badge)
  {
    forall pet | pet in ReachablePets(w, u) ensures !MayGrow(w, u, pet) {
      OnlyOfferedPets(w, u, pet);
    }
    NothingIsRidden(w, u);
    assert w.pairs + u.pets + u.mounts == {(1, 2)};
    OneIsWanted(w, u, badge, 0, 1);
  }

  lemma OnlyOfferedPets(w: World, u: User, pet: Pair)
    requires u.incubating.None? && u.pets <= w.pairs && pet in ReachablePets(w, u)
    ensures pet in w.pairs
  {
  }

  lemma NothingIsRidden(w: World, u: User)
    requires u.mounts == {} && forall pet | pet in ReachablePets(w, u) :: !MayGrow(w, u, pet)
    ensures ReachableMounts(w, u) == {}
  {
  }

  /** A goal without criteria asks for one. */
  lemma OneIsWanted(w: World, u: User, badge: Badge, capacity: nat, shown: nat)
    requires badge.kind.IsPet() && badge.value == JNull
    requires Capacity(w, u, badge.kind) == capacity && ShownCapacity(w, u, badge.kind) == shown
    ensures Availability(w, u, badge) == Yes <==> shown >= 1
    ensures capacity == 0 ==> !CanEarn(w, u, badge)
  {
    PetGoalIsShownExactlyWhen(w, u, badge);
    if CanEarn(w, u, badge) {
      EarnedPetGoalFits(w, u, badge);
    }
  }
}
