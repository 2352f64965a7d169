/** A badge whose XP bonus qualifies another: the award engine's own payout, which requests no evaluation. */
module BadgePayouts {
  import Awards
  import opened Badges
  import opened Options
  import Skills

  const LEVELLED := Badge(1, "skill_level_reached", false)
  const FINISHED := Badge(2, "first_project", false)
  const BONUS: nat := 50
  const OPEN_CATALOG := Skills.Catalog([], map[])

  /** The checker of LEVELLED with its default level of 2 and count of 1. */
  predicate HasLevelTwo(book: Skills.Book) {
    exists s | s in book :: book[s].level >= 2
  }

  /** FINISHED is met and pays its bonus to the skills; LEVELLED pays nothing. */
  function Pay(book: Skills.Book, b: Badge): Skills.Book {
    if b == FINISHED then Awards.AwardBadgeXp(OPEN_CATALOG, book, BONUS) else book
  }

  ghost function SkillEngine(): Engine<Skills.Book> {
    Engine([LEVELLED, FINISHED],
           map[LEVELLED.kind := Some({"skill_xp"}), FINISHED.kind := Some({"project"})],
           (book: Skills.Book, b: Badge) => b.kind == FINISHED.kind || HasLevelTwo(book),
           (book: Skills.Book, b: Badge) => Pay(book, b),
           (book: Skills.Book, b: Badge) => [],
           (book: Skills.Book, b: Badge) => if b == FINISHED then {"skill_xp"} else {},
           (book: Skills.Book) => book)
  }

  /** One skill at 250 XP. */
  const BEFORE: Skills.Book := map[7 := Skills.Progress(250, 1, true)]
  const AFTER: Skills.Book := map[7 := Skills.Progress(300, 2, true)]

  lemma BonusReachesLevelTwo()
    ensures Awards.AwardBadgeXp(OPEN_CATALOG, BEFORE, BONUS) == AFTER
  {
    assert Awards.Active(BEFORE) == {7};
    assert Skills.IsLevelOf(Skills.LevelOf(300), 300);
    assert Awards.Spread(BEFORE, 50) == AFTER;
  }

  lemma SelectsBoth()
    ensures Selected(SkillEngine(), {}, None) == [LEVELLED] + [FINISHED]
  {
    var e := SkillEngine();
    FilterFrom(e, e.catalog, 0, {}, None);
    FilterFrom(e, e.catalog, 1, {}, None);
    assert e.catalog[0..] == e.catalog && e.catalog[2..] == [];
  }

  lemma TurnOfLevelled()
    ensures Turn(SkillEngine(), Account(BEFORE, {}, []), LEVELLED) == Account(BEFORE, {}, [])
  {
    assert forall s | s in BEFORE :: BEFORE[s].level < 2;
  }

  lemma TurnOfFinished()
    ensures Turn(SkillEngine(), Account(BEFORE, {}, []), FINISHED) == Account(AFTER, {2}, [])
  {
    BonusReachesLevelTwo();
  }

  lemma DrainOfBoth()
    ensures Drained(SkillEngine(), Account(BEFORE, {}, [None])) == Account(AFTER, {2}, [])
  {
    var e := SkillEngine();
    var a: Account<Skills.Book> := Account(BEFORE, {}, []);
    SelectsBoth();
    TurnOfLevelled();
    TurnOfFinished();
    PassOverOneMore(e, a, LEVELLED, [FINISHED]);
    PassOverOneMore(e, a, FINISHED, []);
    assert [FINISHED] + [] == [FINISHED];
  }

  lemma GainIsNotSeen()
    ensures Gains(SkillEngine(), BEFORE, FINISHED, LEVELLED) && !IsSeen(SkillEngine(), BEFORE, FINISHED, LEVELLED)
  {
    BonusReachesLevelTwo();
    assert AFTER[7].level >= 2 && forall s | s in BEFORE :: BEFORE[s].level < 2;
    assert LEVELLED in SkillEngine().catalog && FINISHED in SkillEngine().catalog;
    assert !IsLater([LEVELLED, FINISHED], FINISHED, LEVELLED);
  }

  /**
   * Bonus XP that levels a skill requests nothing. Asked to look at every badge, the drain pays FINISHED,
   * ends, and leaves LEVELLED qualified and unearned: the gain was not seen.
   */
  lemma SilentPayoutLosesABadge()
    ensures var e := SkillEngine();
      && NothingIsLost(e, BEFORE, {}, [None], [])
      && Drained(e, Account(BEFORE, {}, [None])) == Account(AFTER, {2}, [])
      && e.Check(AFTER, LEVELLED) && !Saturated(e, AFTER, {2})
      && Gains(e, BEFORE, FINISHED, LEVELLED) && !IsSeen(e, BEFORE, FINISHED, LEVELLED)
  {
    DrainOfBoth();
    GainIsNotSeen();
    BonusReachesLevelTwo();
    var every: Request := None;
    assert every in [every] && AFTER[7].level >= 2;
  }
}
