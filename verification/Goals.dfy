/** Badge goals: what the checkers accept, and what the catalog can still offer a user. */
module Goals {
  import opened Options
  import opened Json
  import opened CategoryNames
  import opened CategoryBatches
  import Awards
  import Skills

  type SkillId = Skills.SkillId
  type Pair = (Pk, Pk)

  datatype Slot = Frame | Title | Theme | Accessory

  const ALL_SLOTS := {Frame, Title, Theme, Accessory}

  /**
   * `species` is the binding of an egg, `legacy` the variant an untyped potion item names, `prepared` tells a
   * canonical global potion; `wearable` is false of a theme that names no known palette.
   */
  datatype Use =
    | Egg(species: Option<Pk>)
    | Brew(legacy: Option<Pk>, prepared: bool)
    | Cosmetic(slot: Slot, wearable: bool)
    | Plain

  datatype Item = Item(slug: Option<string>, potion: Option<Pk>, use: Use, available: bool)
  datatype Potion = Potion(slug: Option<string>, available: bool)
  datatype Skill = Skill(category: Pk, subject: Option<Pk>)

  /**
   * The fixed catalog. `pairs` are the approved pets, of which those `registered` need a prepared potion;
   * `portion` is what one use of an item grows a pet of a species, `selfGrowing` species also grow on their own,
   * and a pet is a mount from `grownAt` on. `unnamed` is the item the reader keeps under the missing slug,
   * `parse` reads numeric strings.
   */
  datatype World = World(
    categories: Catalog,
    gates: Skills.Catalog,
    skills: map<SkillId, Skill>,
    items: map<Pk, Item>,
    unnamed: Option<Pk>,
    potions: map<Pk, Potion>,
    pairs: set<Pair>,
    registered: set<Pair>,
    portion: (Pk, Pk) -> nat,
    selfGrowing: set<Pk>,
    grownAt: Pair -> nat,
    parse: string -> Option<int>,
    oldProjectNames: Json -> set<Pk>,
    oldMasteryNames: Json -> Option<Pk>)

  /**
   * `projects` holds the category of each completed project, `incubating` the accepted pair that has not hatched,
   * `promised` the items of accepted redemptions, quests, challenges and expeditions still to be delivered, and
   * `worn` the filled cosmetic slots.
   */
  datatype User = User(
    book: Skills.Book, projects: seq<Option<Pk>>,
    pets: set<Pair>, growth: map<Pair, nat>, mounts: set<Pair>, incubating: Option<Pair>,
    bag: map<Pk, nat>, promised: multiset<Pk>, worn: set<Slot>)

  function Held(w: World, u: User): set<Pk> {
    set i | i in u.bag && u.bag[i] >= 1 && i in w.items
  }

  // ---------------------------------------------------------------- the checkers

  datatype Outcome = Yes | No | Raises

  function Decide(b: bool): Outcome {
    if b then Yes else No
  }

  /** `count >= required`: only numbers compare. */
  function AtLeast(count: nat, required: Json): Outcome {
    match required
    case JNan => No
    case JInfinite(negative) => Decide(negative)
    case _ =>
      match Number(required)
      case None => Raises
      case Some(r) => Decide(count as real >= r)
  }

  /** An integer lookup's reading of a saved level: floats round up, anything else goes through int(). */
  function LookupLevel(w: World, level: Json): Option<int> {
    if level.JReal? then Some(Ceiling(level.number)) else AsInt(level, w.parse)
  }

  function AtLevel(w: World, u: User, level: int): set<SkillId> {
    set s | s in u.book && s in w.skills && u.book[s].level >= level
  }

  function Subjects(w: World, u: User, level: int): set<Pk> {
    set s | s in AtLevel(w, u, level) && w.skills[s].subject.Some? :: w.skills[s].subject.value
  }

  function Breadth(w: World, u: User, level: int): set<Pk> {
    set s | s in AtLevel(w, u, level) :: w.skills[s].category
  }

  function CheckLevels(w: World, u: User, kind: GoalKind, c: Json): Outcome
    requires c.JObject?
  {
    if kind == SkillLevelReached then
      match LookupLevel(w, Get(c, "level", JInt(2)))
      case None => Raises
      case Some(level) => AtLeast(|AtLevel(w, u, level)|, Get(c, "count", JInt(1)))
    else if kind == SubjectsCompleted then
      match LookupLevel(w, Get(c, "min_level", JInt(2)))
      case None => Raises
      case Some(level) => AtLeast(|Subjects(w, u, level)|, Get(c, "count", JInt(1)))
    else
      match LookupLevel(w, Get(c, "min_level", JInt(1)))
      case None => Raises
      case Some(level) => AtLeast(|Breadth(w, u, level)|, Get(c, "categories", JInt(4)))
  }

  function Required(w: World, category: Pk): set<SkillId> {
    set s | s in w.skills && w.skills[s].category == category && s !in w.gates.gated
  }

  function CheckMastery(w: World, u: User, c: Json): Outcome
    requires c.JObject?
  {
    var name := Get(c, "category", JNull);
    if !Truthy(name) then No
    else
      var category := if name.JString? then MasteryCategory(w.categories, name.text) else w.oldMasteryNames(name);
      if category.None? then No
      else
        match AsInt(Get(c, "min_level", JInt(3)), w.parse)
        case None => Raises
        case Some(level) =>
          var required := Required(w, category.value);
          Decide(required != {} && required <= AtLevel(w, u, level))
  }

  function Tally(projects: seq<Option<Pk>>, wanted: Option<Pk> -> bool): nat {
    if projects == [] then 0 else (if wanted(projects[0]) then 1 else 0) + Tally(projects[1..], wanted)
  }

  function CheckProjects(w: World, u: User, c: Json): Outcome
    requires c.JObject?
  {
    var count := Get(c, "count", JInt(3));
    var categories := Get(c, "categories", JNull);
    var name := Get(c, "category", JNull);
    if Truthy(categories) then AtLeast(|set p | p in u.projects && p.Some?|, categories)
    else if name.JNull? then AtLeast(Tally(u.projects, p => p == None), count)
    else
      var ids := if name.JString? then ProjectResolution(w.categories, name.text).ids else w.oldProjectNames(name);
      AtLeast(Tally(u.projects, (p: Option<Pk>) => p.Some? && p.value in ids), count)
  }

  function Species(pairs: set<Pair>): set<Pk> {
    set pair | pair in pairs :: pair.0
  }

  function PetCount(kind: GoalKind, pets: set<Pair>, mounts: set<Pair>): nat {
    if kind == PetSpeciesOwned then |Species(pets)| else if kind == MountsEvolved then |mounts| else |pets|
  }

  /** What `int(criteria.get("count", 1))` asks of a number of pets. */
  function CheckPets(w: World, owned: nat, c: Json): Outcome
    requires c.JObject?
  {
    match AsInt(Get(c, "count", JInt(1)), w.parse)
    case None => Raises
    case Some(count) => Decide(owned >= count)
  }

  function ShelfSlugs(w: World): set<Option<string>> {
    set p | p in w.potions :: w.potions[p].slug
  }

  function OwnedPotions(w: World, u: User): set<Pk> {
    set i | i in Held(w, u) && w.items[i].potion.Some? && w.items[i].potion.value in w.potions ::
      w.items[i].potion.value
  }

  function CheckShelf(w: World, u: User): Outcome {
    var owned := set p | p in OwnedPotions(w, u) :: w.potions[p].slug;
    Decide(ShelfSlugs(w) != {} && ShelfSlugs(w) <= owned)
  }

  /** `set(value)`; None where building the set raises. */
  function Elements(j: Json): Option<set<Json>> {
    match j
    case JString(s) => Some(set ch | ch in s :: JString([ch]))
    case JList(items) =>
      if exists x | x in items :: x.JList? || x.JObject? then None else Some(set x | x in items)
    case JObject(fields) => Some(set k | k in fields :: JString(k))
    case _ => None
  }

  function OwnedSlugs(w: World, u: User): set<string> {
    set i | i in Held(w, u) && w.items[i].slug.Some? :: w.items[i].slug.value
  }

  function CheckCosmetics(w: World, u: User, c: Json): Outcome
    requires c.JObject?
  {
    var slugs := Get(c, "slugs", JNull);
    if !Truthy(slugs) then No
    else
      match Elements(slugs)
      case None => Raises
      case Some(wanted) => Decide(forall x | x in wanted :: x.JString? && x.text in OwnedSlugs(w, u))
  }

  /** `check(user, badge)` for the modelled kinds. */
  function Check(w: World, u: User, badge: Badge): Outcome
    requires !badge.kind.OtherKind?
  {
    var c := badge.Criteria();
    if badge.kind == FullPotionShelf then CheckShelf(w, u)
    else if badge.kind == CosmeticFullSet then Decide(ALL_SLOTS <= u.worn)
    else if !c.JObject? then Raises
    else if badge.kind == CategoryMastery then CheckMastery(w, u, c)
    else if badge.kind == CategoryProjects then CheckProjects(w, u, c)
    else if badge.kind.IsPet() then CheckPets(w, PetCount(badge.kind, u.pets, u.mounts), c)
    else if badge.kind == CosmeticSetOwned then CheckCosmetics(w, u, c)
    else CheckLevels(w, u, badge.kind, c)
  }

  // ---------------------------------------------------------------- availability

  function LevelField(kind: GoalKind): (string, Json) {
    if kind == SkillLevelReached then ("level", JInt(2))
    else if kind == SubjectsCompleted then ("min_level", JInt(2))
    else if kind == SkillCategoriesBreadth then ("min_level", JInt(1))
    else ("min_level", JInt(3))
  }

  function NativeLevel(w: World, kind: GoalKind, c: Json): Option<int> {
    if !kind.IsLevel() || !c.JObject? then None
    else
      var value := Get(c, LevelField(kind).0, LevelField(kind).1);
      if value.JReal? && kind != CategoryMastery then Some(Ceiling(value.number)) else AsInt(value, w.parse)
  }

  predicate SkillLevelIsReachable(w: World, kind: GoalKind, c: Json) {
    if !kind.IsLevel() then true
    else
      match NativeLevel(w, kind, c)
      case None => false
      case Some(level) =>
        if kind != CategoryMastery && c.JObject? && IsNonPositive(
          if kind == SkillCategoriesBreadth then Get(c, "categories", JInt(4)) else Get(c, "count", JInt(1)))
        then true
        else level <= Skills.MAX_LEVEL
  }

  /** Whether the catalog names this slug and its item is held or offered. */
  predicate SlugIsObtainable(w: World, u: User, slug: Json) {
    match slug
    case JString(text) =>
      exists i | i in w.items :: w.items[i].slug == Some(text) && (i in Held(w, u) || w.items[i].available)
    case JNull =>
      || (exists i | i in Held(w, u) :: w.items[i].slug.None?)
      || (w.unnamed.Some? && w.unnamed.value in w.items && w.items[w.unnamed.value].available)
    case _ => false
  }

  /** The reader keys items by slug, so of those without one it sees the last only. */
  predicate IsListed(w: World, i: Pk) {
    i in w.items && (w.items[i].slug.Some? || w.unnamed == Some(i))
  }

  predicate IsAccessory(item: Item) {
    item.use.Cosmetic? && item.use.slot == Accessory
  }

  predicate OffersAccessory(w: World) {
    exists i | i in w.items :: IsListed(w, i) && IsAccessory(w.items[i]) && w.items[i].available
  }

  /** `is_available` for the modelled kinds: Yes is shown, No is hidden. */
  function Availability(w: World, u: User, badge: Badge): Outcome
    requires !badge.kind.OtherKind?
  {
    var c := badge.Criteria();
    if !SkillLevelIsReachable(w, badge.kind, c) then No
    else if !NamedCategoryIsReachable(w.categories, badge.kind, c) then No
    else if badge.kind.IsPet() then
      var pairs := w.pairs + u.pets;
      if c.JObject? then CheckPets(w, PetCount(badge.kind, pairs, pairs + u.mounts), c) else Raises
    else if badge.kind == FullPotionShelf then
      Decide(w.potions != map[] && forall p | p in w.potions :: w.potions[p].available || p in OwnedPotions(w, u))
    else if badge.kind == CosmeticFullSet then
      Decide(Accessory in u.worn || OffersAccessory(w))
    else if badge.kind == CosmeticSetOwned then
      if !c.JObject? then Raises
      else
        var slugs := Get(c, "slugs", JNull);
        if !Truthy(slugs) then No
        else
          match Elements(slugs)
          case None => Raises
          case Some(wanted) => Decide(forall x | x in wanted :: SlugIsObtainable(w, u, x))
    else Yes
  }

  /** The read of one badge, its category verdicts shared through the reader. */
  method IsAvailable(w: World, u: User, reader: Reader, badge: Badge) returns (outcome: Outcome)
    requires !badge.kind.OtherKind? && reader.Valid() && reader.catalog == w.categories
    modifies reader
    ensures reader.Valid() && outcome == Availability(w, u, badge)
  {
    var c := badge.Criteria();
    if !SkillLevelIsReachable(w, badge.kind, c) {
      return No;
    }
    var reachable := reader.NamedCategoryGoalIsReachable(badge.kind, c);
    if !reachable {
      return No;
    }
    if badge.kind.IsPet() {
      if !c.JObject? {
        return Raises;
      }
      var pairs := w.pairs + u.pets;
      var capacity := |pairs|;
      if badge.kind == PetSpeciesOwned {
        capacity := |Species(pairs)|;
      } else if badge.kind == MountsEvolved {
        capacity := |pairs + u.mounts|;
      }
      return CheckPets(w, capacity, c);
    }
    if badge.kind == FullPotionShelf {
      var owned := OwnedPotions(w, u);
      return Decide(w.potions != map[] && forall p | p in w.potions :: w.potions[p].available || p in owned);
    }
    if badge.kind == CosmeticFullSet {
      return Decide(Accessory in u.worn || OffersAccessory(w));
    }
    if badge.kind == CosmeticSetOwned {
      if !c.JObject? {
        return Raises;
      }
      var slugs := Get(c, "slugs", JNull);
      if !Truthy(slugs) {
        return No;
      }
      var wanted := Elements(slugs);
      if wanted.None? {
        return Raises;
      }
      return Decide(forall x | x in wanted.value :: SlugIsObtainable(w, u, x));
    }
    outcome := Yes;
  }
}
