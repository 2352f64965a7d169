/** Goals about skills, categories, cosmetics and potions: when a hidden one is earned all the same. */
module ItemGoals {
  import Awards
  import opened CategoryBatches
  import opened CategoryNames
  import opened Collections
  import opened GoalRuns
  import opened Goals
  import opened Json
  import opened Options
  import Skills

  // ---------------------------------------------------------------- levels and categories

  lemma NobodyIsAboveTheTop(w: World, u: User, level: int)
    requires Awards.Honest(w.gates, u.book) && level > Skills.MAX_LEVEL
    ensures AtLevel(w, u, level) == {} && Subjects(w, u, level) == {} && Breadth(w, u, level) == {}
  {
  }

  lemma HiddenLevelIsNotReached(w: World, later: User, badge: Badge)
    requires badge.kind.IsLevel() && Awards.Honest(w.gates, later.book)
    requires !SkillLevelIsReachable(w, badge.kind, badge.Criteria())
    ensures Check(w, later, badge) != Yes
  {
    var c := badge.Criteria();
    if c.JObject? && NativeLevel(w, badge.kind, c).Some? {
      NobodyIsAboveTheTop(w, later, NativeLevel(w, badge.kind, c).value);
    }
  }

  lemma {:induction false} NothingTallied(projects: seq<Option<Pk>>, ids: set<Pk>)
    requires ids == {}
    ensures Tally(projects, (p: Option<Pk>) => p.Some? && p.value in ids) == 0
  {
    if projects != [] {
      NothingTallied(projects[1..], ids);
    }
  }

  lemma TiedCategoryIsNotReached(w: World, later: User, badge: Badge)
    requires badge.kind.CategoryProjects? || badge.kind.CategoryMastery?
    requires !NamedCategoryIsReachable(w.categories, badge.kind, badge.Criteria())
    ensures Check(w, later, badge) != Yes
  {
    var c := badge.Criteria();
    var name := Get(c, "category", JNull).text;
    if badge.kind == CategoryProjects {
      NothingTallied(later.projects, ProjectResolution(w.categories, name).ids);
    }
  }

  predicate IsTraining(kind: GoalKind) {
    kind.IsLevel() || kind.CategoryProjects?
  }

  /** A hidden level or category goal is not earned now, nor in any run. */
  lemma HiddenTrainingIsNeverEarned(w: World, u: User, badge: Badge)
    requires NoRepeats(w.gates.gated) && Awards.Honest(w.gates, u.book)
    requires IsTraining(badge.kind) && Availability(w, u, badge) == No
    ensures !CanEarn(w, u, badge)
  {
    forall later | Reaches(w, u, later) ensures Check(w, later, badge) != Yes {
      EveryReachableUserIsHonest(w, u, later);
      if badge.kind.IsLevel() && !SkillLevelIsReachable(w, badge.kind, badge.Criteria()) {
        HiddenLevelIsNotReached(w, later, badge);
      } else {
        TiedCategoryIsNotReached(w, later, badge);
      }
    }
  }

  /** A shown level goal that asks for one skill is met by training any skill that is open by default. */
  lemma ShownLevelIsEarnable(w: World, u: User, badge: Badge, s: SkillId)
    requires NoRepeats(w.gates.gated) && Awards.Honest(w.gates, u.book)
    requires badge.kind == SkillLevelReached && Availability(w, u, badge) == Yes
    requires var count := Number(Get(badge.Criteria(), "count", JInt(1))); count.Some? && count.value <= 1.0
    requires s in w.skills && s !in w.gates.gated
    ensures CanEarn(w, u, badge)
  {
    var training := Award(Awards.ToSkill(s, 2500));
    ReachesItself(w, u);
    OneMoreStep(w, u, u, training);
    TrainingMeetsTheLevel(w, u, Do(w, u, training), badge, s);
  }

  lemma TrainingMeetsTheLevel(w: World, u: User, later: User, badge: Badge, s: SkillId)
    requires NoRepeats(w.gates.gated) && Awards.Honest(w.gates, u.book)
    requires badge.kind == SkillLevelReached && Availability(w, u, badge) == Yes
    requires var count := Number(Get(badge.Criteria(), "count", JInt(1))); count.Some? && count.value <= 1.0
    requires s in w.skills && s !in w.gates.gated && later.book == Awards.AwardXp(w.gates, u.book, s, 2500)
    ensures Check(w, later, badge) == Yes
  {
    TrainingReachesTheTop(w, u.book, s);
    var level := NativeLevel(w, badge.kind, badge.Criteria()).value;
    if level <= Skills.MAX_LEVEL {
      assert s in AtLevel(w, later, level);
      SubsetIsNoLarger({s}, AtLevel(w, later, level));
    }
  }

  lemma TrainingReachesTheTop(w: World, book: Skills.Book, s: SkillId)
    requires NoRepeats(w.gates.gated) && Awards.Honest(w.gates, book) && s !in w.gates.gated
    ensures var later := Awards.AwardXp(w.gates, book, s, 2500); s in later && later[s].level == Skills.MAX_LEVEL
  {
    var row := Awards.Opened(w.gates, book, s);
    assert s in book ==> Awards.RowIsHonest(w.gates, s, book[s]);
    var credited := Awards.Credit(row, 2500);
    assert Skills.IsLevelOf(credited.level, credited.xp);
    assert Skills.THRESHOLDS[6] == 2500;
    Skills.PassResult(w.gates, w.gates.gated, book[s := credited]);
  }

  // ---------------------------------------------------------------- cosmetic sets

  /** The slugs a set asks for, if it names any and names nothing else. */
  function Wanted(badge: Badge): Option<set<string>> {
    var c := badge.Criteria();
    var slugs := if c.JObject? then Get(c, "slugs", JNull) else JNull;
    if !Truthy(slugs) || Elements(slugs).None? then None
    else if exists x | x in Elements(slugs).value :: !x.JString? then None
    else Some(set x | x in Elements(slugs).value && x.JString? :: x.text)
  }

  predicate IsNamedBy(w: World, i: Pk, slug: string) {
    i in w.items && w.items[i].slug == Some(slug)
  }

  predicate IsPromised(w: World, u: User, slug: string) {
    exists i | i in Promised(w, u) :: IsNamedBy(w, i, slug)
  }

  predicate IsHeldOrOffered(w: World, u: User, slug: string) {
    exists i | i in Held(w, u) + Offered(w) :: IsNamedBy(w, i, slug)
  }

  lemma SetIsOwnedExactlyWhen(w: World, u: User, badge: Badge)
    requires badge.kind == CosmeticSetOwned
    ensures Check(w, u, badge) == Yes <==> Wanted(badge).Some? && Wanted(badge).value <= OwnedSlugs(w, u)
  {
  }

  lemma SetIsShownExactlyWhen(w: World, u: User, badge: Badge)
    requires badge.kind == CosmeticSetOwned && Wanted(badge).Some?
    ensures Availability(w, u, badge) == Yes <==>
      forall slug | slug in Wanted(badge).value :: IsHeldOrOffered(w, u, slug)
    ensures Availability(w, u, badge) != Raises
  {
    var wanted := Elements(Get(badge.Criteria(), "slugs", JNull)).value;
    forall x | x in wanted ensures x.JString? && (SlugIsObtainable(w, u, x) <==> IsHeldOrOffered(w, u, x.text)) {
      SlugIsObtainableExactlyWhen(w, u, x.text);
    }
    assert forall slug | slug in Wanted(badge).value :: JString(slug) in wanted;
  }

  lemma SlugIsObtainableExactlyWhen(w: World, u: User, slug: string)
    ensures SlugIsObtainable(w, u, JString(slug)) <==> IsHeldOrOffered(w, u, slug)
  {
    if i :| i in w.items && w.items[i].slug == Some(slug) && (i in Held(w, u) || w.items[i].available) {
      assert i in Held(w, u) + Offered(w) && IsNamedBy(w, i, slug);
    }
    if i :| i in Held(w, u) + Offered(w) && IsNamedBy(w, i, slug) {
      assert i in w.items && w.items[i].slug == Some(slug);
    }
  }

  /** A set can be earned exactly when it names only slugs, each of an item that is held, offered or promised. */
  lemma CosmeticSetIsEarnableExactlyWhen(w: World, u: User, badge: Badge)
    requires badge.kind == CosmeticSetOwned
    ensures CanEarn(w, u, badge) <==>
      && Wanted(badge).Some?
      && forall slug | slug in Wanted(badge).value :: IsHeldOrOffered(w, u, slug) || IsPromised(w, u, slug)
  {
    forall later | Reaches(w, u, later) && Check(w, later, badge) == Yes
      ensures Wanted(badge).Some?
      ensures forall slug | slug in Wanted(badge).value :: IsHeldOrOffered(w, u, slug) || IsPromised(w, u, slug)
    {
      EveryReachableUserIsWithin(w, u, later);
      OwnedSetWasWithinReach(w, u, later, badge);
    }
    if Wanted(badge).Some?
       && forall slug | slug in Wanted(badge).value :: IsHeldOrOffered(w, u, slug) || IsPromised(w, u, slug) {
      EverythingIsCollected(w, u);
      var later :| Reaches(w, u, later) && WithinReach(w, u) <= Held(w, later) && u.worn == later.worn;
      CollectionOwnsTheSet(w, u, later, badge);
      assert Check(w, later, badge) == Yes;
    }
  }

  lemma OwnedSetWasWithinReach(w: World, u: User, later: User, badge: Badge)
    requires Within(w, u, later) && badge.kind == CosmeticSetOwned && Check(w, later, badge) == Yes
    ensures Wanted(badge).Some?
    ensures forall slug | slug in Wanted(badge).value :: IsHeldOrOffered(w, u, slug) || IsPromised(w, u, slug)
  {
    SetIsOwnedExactlyWhen(w, later, badge);
    forall slug | slug in Wanted(badge).value ensures IsHeldOrOffered(w, u, slug) || IsPromised(w, u, slug) {
      assert slug in OwnedSlugs(w, later);
      var i :| i in Held(w, later) && w.items[i].slug == Some(slug);
      assert IsNamedBy(w, i, slug) && i in WithinReach(w, u);
    }
  }

  lemma CollectionOwnsTheSet(w: World, u: User, later: User, badge: Badge)
    requires badge.kind == CosmeticSetOwned && WithinReach(w, u) <= Held(w, later) && Wanted(badge).Some?
    requires forall slug | slug in Wanted(badge).value :: IsHeldOrOffered(w, u, slug) || IsPromised(w, u, slug)
    ensures Check(w, later, badge) == Yes
  {
    forall slug | slug in Wanted(badge).value ensures slug in OwnedSlugs(w, later) {
      var i :| i in WithinReach(w, u) && IsNamedBy(w, i, slug);
      assert i in Held(w, later);
    }
    SetIsOwnedExactlyWhen(w, later, badge);
  }

  /** A hidden set is earned after all exactly when every item it misses is promised. */
  lemma HiddenSetIsEarnedExactlyWhen(w: World, u: User, badge: Badge)
    requires badge.kind == CosmeticSetOwned && Availability(w, u, badge) == No
    ensures CanEarn(w, u, badge) <==>
      && Wanted(badge).Some?
      && forall slug | slug in Wanted(badge).value && !IsHeldOrOffered(w, u, slug) :: IsPromised(w, u, slug)
    ensures CanEarn(w, u, badge) ==> exists slug :: !IsHeldOrOffered(w, u, slug) && IsPromised(w, u, slug)
  {
    CosmeticSetIsEarnableExactlyWhen(w, u, badge);
    if Wanted(badge).Some? {
      SetIsShownExactlyWhen(w, u, badge);
    }
  }

  /** A retired bow, requested before: hidden as a goal, and owned when the redemption is approved. */
  lemma PromisedBowEarnsAHiddenSet(w: World, u: User, badge: Badge)
    requires w.items == map[7 := Item(Some("bow"), None, Cosmetic(Accessory, true), false)]
    requires u.bag == map[] && u.promised == multiset{7}
    requires badge == Badge(CosmeticSetOwned, JObject(map["slugs" := JList([JString("bow")])]))
    ensures Availability(w, u, badge) == No && CanEarn(w, u, badge)
  {
    OnlyTheBowIsWanted(badge);
    assert Held(w, u) + Offered(w) == {};
    SetIsShownExactlyWhen(w, u, badge);
    assert !IsHeldOrOffered(w, u, "bow");
    assert 7 in Promised(w, u) && IsNamedBy(w, 7, "bow");
    CosmeticSetIsEarnableExactlyWhen(w, u, badge);
  }

  lemma OnlyTheBowIsWanted(badge: Badge)
    requires badge == Badge(CosmeticSetOwned, JObject(map["slugs" := JList([JString("bow")])]))
    ensures Wanted(badge) == Some({"bow"})
  {
    var slugs := JList([JString("bow")]);
    assert badge.Criteria() == badge.value && Get(badge.value, "slugs", JNull) == slugs;
    assert (set x | x in slugs.items) == {JString("bow")};
    assert Elements(slugs) == Some({JString("bow")});
    assert Truthy(slugs) && Wanted(badge).Some?;
    forall slug ensures slug in Wanted(badge).value <==> slug == "bow" {
      assert JString("bow") in Elements(slugs).value && JString("bow").text == "bow";
    }
    assert Wanted(badge).value == {"bow"};
  }

  // ---------------------------------------------------------------- full sets

  lemma {:induction false} EverySlotIsFilled(w: World, u: User, base: User, wanted: set<Slot>)
    requires Reaches(w, u, base) && Offered(w) <= Held(w, base) && wanted <= Wearable(w)
    ensures exists later | Reaches(w, u, later) :: later.worn == base.worn + wanted && later.bag == base.bag
  {
    if wanted == {} {
      assert base.worn == base.worn + wanted;
    } else {
      var slot :| slot in wanted;
      EverySlotIsFilled(w, u, base, wanted - {slot});
      var later :| Reaches(w, u, later) && later.worn == base.worn + (wanted - {slot}) && later.bag == base.bag;
      var i :| i in Offered(w) && w.items[i].use.Cosmetic? && w.items[i].use.slot == slot && w.items[i].use.wearable;
      assert i in Held(w, later);
      OneMoreStep(w, u, later, Equip(i));
      assert Do(w, later, Equip(i)).worn == base.worn + wanted;
    }
  }

  /** A full-set goal can be earned exactly when every slot is filled or has an offered item that fits it. */
  lemma FullSetIsEarnableExactlyWhen(w: World, u: User, badge: Badge)
    requires badge.kind == CosmeticFullSet
    ensures CanEarn(w, u, badge) <==> ALL_SLOTS <= u.worn + Wearable(w)
  {
    forall later | Reaches(w, u, later) && Check(w, later, badge) == Yes ensures ALL_SLOTS <= u.worn + Wearable(w) {
      EveryReachableUserIsWithin(w, u, later);
    }
    EverythingIsCollected(w, u);
    var base :| Reaches(w, u, base) && WithinReach(w, u) <= Held(w, base) && u.worn == base.worn;
    EverySlotIsFilled(w, u, base, Wearable(w));
    var later :| Reaches(w, u, later) && later.worn == base.worn + Wearable(w);
    assert Check(w, later, badge) == Yes <==> ALL_SLOTS <= u.worn + Wearable(w);
  }

  /** An offered accessory that the reader does not see, because it has no slug and another item took that place. */
  predicate IsOverlooked(w: World, i: Pk) {
    i in Offered(w) && !IsListed(w, i) && IsAccessory(w.items[i]) && w.items[i].use.wearable
  }

  /** A hidden full set is earned after all exactly when an overlooked accessory completes it. */
  lemma HiddenFullSetIsEarnedExactlyWhen(w: World, u: User, badge: Badge)
    requires badge.kind == CosmeticFullSet && Availability(w, u, badge) == No
    ensures CanEarn(w, u, badge) <==>
      (exists i | i in w.items :: IsOverlooked(w, i)) && {Frame, Title, Theme} <= u.worn + Wearable(w)
  {
    FullSetIsEarnableExactlyWhen(w, u, badge);
    assert Accessory !in u.worn && !OffersAccessory(w);
    if Accessory in Wearable(w) {
      var i :| i in Offered(w) && w.items[i].use.Cosmetic? && w.items[i].use.wearable
        && w.items[i].use.slot == Accessory;
      assert IsAccessory(w.items[i]) && IsOverlooked(w, i);
    }
    if i :| i in w.items && IsOverlooked(w, i) {
      assert w.items[i].use.slot == Accessory && Accessory in Wearable(w);
    }
  }

  /** Two items without a slug, the accessory among them overlooked: hidden as a goal, and earned by wearing it. */
  lemma OverlookedAccessoryEarnsAHiddenSet(w: World, u: User, badge: Badge)
    requires w.items == map[7 := Item(None, None, Cosmetic(Accessory, true), true), 8 := Item(None, None, Plain, true)]
    requires w.unnamed == Some(8) && u.worn == {Frame, Title, Theme} && badge == Badge(CosmeticFullSet, JNull)
    ensures Availability(w, u, badge) == No && CanEarn(w, u, badge)
  {
    assert 7 in w.items && IsOverlooked(w, 7);
    HiddenFullSetIsEarnedExactlyWhen(w, u, badge);
  }

  // ---------------------------------------------------------------- the potion shelf

  predicate HasSlug(w: World, p: Pk) {
    p in w.potions && w.potions[p].slug.Some?
  }

  predicate LacksSlug(w: World, p: Pk) {
    p in w.potions && w.potions[p].slug.None?
  }

  ghost predicate PotionSlugsAreUnique(w: World) {
    forall p, q | HasSlug(w, p) && HasSlug(w, q) && w.potions[p].slug == w.potions[q].slug :: p == q
  }

  /** Some offered or promised item carries this potion, whatever the item's own type. */
  predicate IsCarried(w: World, u: User, p: Pk) {
    p in w.potions && exists i | i in Offered(w) + Promised(w, u) :: w.items[i].potion == Some(p)
  }

  predicate IsObtainable(w: World, u: User, p: Pk) {
    p in OwnedPotions(w, u) || IsCarried(w, u, p)
  }

  /** Every potion with a slug is owned or carried; of those without one, some single one is enough. */
  predicate ShelfIsObtainable(w: World, u: User) {
    && w.potions != map[]
    && (forall p | p in w.potions && HasSlug(w, p) :: IsObtainable(w, u, p))
    && ((exists p | p in w.potions :: LacksSlug(w, p)) ==>
          exists p | p in w.potions :: LacksSlug(w, p) && IsObtainable(w, u, p))
  }

  lemma OwnedLaterIsObtainable(w: World, u: User, later: User, q: Pk)
    requires Within(w, u, later) && q in OwnedPotions(w, later)
    ensures IsObtainable(w, u, q)
  {
    var i :| i in Held(w, later) && w.items[i].potion == Some(q);
    assert i in Held(w, u) || i in Offered(w) + Promised(w, u);
  }

  lemma ShelvedSlugWasObtainable(w: World, u: User, later: User, p: Pk)
    requires Within(w, u, later) && CheckShelf(w, later) == Yes && p in w.potions
    ensures exists q | q in w.potions :: w.potions[q].slug == w.potions[p].slug && IsObtainable(w, u, q)
  {
    assert w.potions[p].slug in ShelfSlugs(w);
    var q :| q in OwnedPotions(w, later) && w.potions[q].slug == w.potions[p].slug;
    OwnedLaterIsObtainable(w, u, later, q);
  }

  lemma FilledShelfWasObtainable(w: World, u: User, later: User)
    requires PotionSlugsAreUnique(w) && Within(w, u, later) && CheckShelf(w, later) == Yes
    ensures ShelfIsObtainable(w, u)
  {
    assert w.potions == map[] ==> ShelfSlugs(w) == {};
    forall p | p in w.potions && HasSlug(w, p) ensures IsObtainable(w, u, p) {
      ShelvedSlugWasObtainable(w, u, later, p);
      var q :| q in w.potions && w.potions[q].slug == w.potions[p].slug && IsObtainable(w, u, q);
      assert HasSlug(w, q);
    }
    if p :| p in w.potions && LacksSlug(w, p) {
      ShelvedSlugWasObtainable(w, u, later, p);
      var q :| q in w.potions && w.potions[q].slug == w.potions[p].slug && IsObtainable(w, u, q);
      assert LacksSlug(w, q);
    }
  }

  lemma ObtainedPotionIsOwned(w: World, u: User, later: User, p: Pk)
    requires WithinReach(w, u) <= Held(w, later) && IsObtainable(w, u, p)
    ensures p in OwnedPotions(w, later)
  {
  }

  lemma CollectionHasTheSlug(w: World, u: User, later: User, r: Pk)
    requires ShelfIsObtainable(w, u) && WithinReach(w, u) <= Held(w, later) && r in w.potions
    ensures exists o | o in OwnedPotions(w, later) :: w.potions[o].slug == w.potions[r].slug
  {
    if HasSlug(w, r) {
      ObtainedPotionIsOwned(w, u, later, r);
    } else {
      assert LacksSlug(w, r);
      var p :| p in w.potions && LacksSlug(w, p) && IsObtainable(w, u, p);
      ObtainedPotionIsOwned(w, u, later, p);
    }
  }

  lemma CollectionFillsTheShelf(w: World, u: User, later: User)
    requires ShelfIsObtainable(w, u) && WithinReach(w, u) <= Held(w, later)
    ensures CheckShelf(w, later) == Yes
  {
    var some :| some in w.potions;
    assert w.potions[some].slug in ShelfSlugs(w);
    forall slug | slug in ShelfSlugs(w) ensures exists o | o in OwnedPotions(w, later) :: w.potions[o].slug == slug {
      var r :| r in w.potions && w.potions[r].slug == slug;
      CollectionHasTheSlug(w, u, later, r);
    }
  }

  /** Whether or not the goal is hidden, some run fills the shelf exactly when the shelf is obtainable. */
  lemma ShelfIsFilledExactlyWhen(w: World, u: User, badge: Badge)
    requires PotionSlugsAreUnique(w) && badge.kind == FullPotionShelf
    ensures CanEarn(w, u, badge) <==> ShelfIsObtainable(w, u)
  {
    forall later | Reaches(w, u, later) && Check(w, later, badge) == Yes ensures ShelfIsObtainable(w, u) {
      EveryReachableUserIsWithin(w, u, later);
      FilledShelfWasObtainable(w, u, later);
    }
    if ShelfIsObtainable(w, u) {
      EverythingIsCollected(w, u);
      var later :| Reaches(w, u, later) && WithinReach(w, u) <= Held(w, later) && u.worn == later.worn;
      CollectionFillsTheShelf(w, u, later);
      assert Check(w, later, badge) == Yes;
    }
  }

  /** The checker does not miss this potion: it is carried, or another one without a slug stands in for it. */
  predicate IsNotMissed(w: World, u: User, p: Pk)
    requires p in w.potions
  {
    || IsCarried(w, u, p)
    || (LacksSlug(w, p) && exists q | q in w.potions :: q != p && LacksSlug(w, q) && IsObtainable(w, u, q))
  }

  predicate HidesTheShelf(w: World, u: User, p: Pk) {
    p in w.potions && !w.potions[p].available && p !in OwnedPotions(w, u)
  }

  /**
   * A hidden shelf can be filled after all exactly when no potion that hides it is missed by the checker
   * and every other potion is obtainable too.
   */
  lemma HiddenShelfIsFilledExactlyWhen(w: World, u: User, badge: Badge)
    requires PotionSlugsAreUnique(w) && badge.kind == FullPotionShelf && Availability(w, u, badge) == No
    ensures CanEarn(w, u, badge) <==>
      && w.potions != map[]
      && (forall p | p in w.potions && HidesTheShelf(w, u, p) :: IsNotMissed(w, u, p))
      && (forall p | p in w.potions && !HidesTheShelf(w, u, p) :: IsObtainable(w, u, p) || IsNotMissed(w, u, p))
  {
    ShelfIsFilledExactlyWhen(w, u, badge);
  }

  /** Offered and promised items carry only approved potions. */
  predicate OffersFollowApproval(w: World, u: User) {
    forall i | i in Offered(w) + Promised(w, u) && w.items[i].potion.Some? && w.items[i].potion.value in w.potions ::
      w.potions[w.items[i].potion.value].available
  }

  predicate AtMostOneLacksSlug(w: World) {
    forall p, q | p in w.potions && q in w.potions && LacksSlug(w, p) && LacksSlug(w, q) :: p == q
  }

  /** Where offers and promises follow approval and slugs are given, a hidden shelf is never filled. */
  lemma HiddenShelfIsNeverFilled(w: World, u: User, badge: Badge)
    requires PotionSlugsAreUnique(w) && badge.kind == FullPotionShelf && Availability(w, u, badge) == No
    ensures OffersFollowApproval(w, u) && AtMostOneLacksSlug(w) ==> !CanEarn(w, u, badge)
  {
    HiddenShelfIsFilledExactlyWhen(w, u, badge);
    if w.potions != map[] {
      var p :| p in w.potions && HidesTheShelf(w, u, p);
    }
  }

  /** Two potions without a slug and one of them owned: hidden as a goal, yet already met. */
  lemma HiddenShelfCanBeFull(w: World, u: User, badge: Badge)
    requires w.potions == map[1 := Potion(None, false), 2 := Potion(None, false)]
    requires w.items == map[7 := Item(Some("old-flask"), Some(1), Plain, false)] && u.bag == map[7 := 1]
    requires badge == Badge(FullPotionShelf, JNull)
    ensures Availability(w, u, badge) == No && Check(w, u, badge) == Yes
  {
    assert 7 in Held(w, u) && OwnedPotions(w, u) == {1};
    assert 1 in OwnedPotions(w, u) && w.potions[1].slug == None;
    assert 1 in w.potions && w.potions[1].slug in ShelfSlugs(w);
    assert 2 in w.potions && !w.potions[2].available;
  }

  /** An item that carries an unapproved potion, offered or promised: hidden as a goal, and filled by getting it. */
  lemma TonicFillsAHiddenShelf(w: World, u: User, badge: Badge)
    requires w.potions == map[1 := Potion(Some("storm"), false)] && u.bag == map[]
    requires w.items.Keys == {7} && w.items[7].potion == Some(1) && (w.items[7].available || 7 in u.promised)
    requires badge == Badge(FullPotionShelf, JNull)
    ensures Availability(w, u, badge) == No && CanEarn(w, u, badge)
  {
    assert 1 in w.potions && 7 in Offered(w) + Promised(w, u) && Held(w, u) == {};
    assert IsCarried(w, u, 1);
    ShelfIsFilledExactlyWhen(w, u, badge);
  }
}
