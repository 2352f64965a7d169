/** XP awards over a fixed catalog: the invariant of every reachable book, and what an award log adds up to. */
module Awards {
  import opened Collections
  import opened Skills
  import opened XpSplit

  function Credit(row: Progress, amount: int): Progress {
    Progress(row.xp + amount, LevelOf(row.xp + amount), row.unlocked)
  }

  function Opened(cat: Catalog, book: Book, s: SkillId): Progress {
    if s in book then book[s] else Progress(0, 0, s !in cat.gated)
  }

  function AwardXp(cat: Catalog, book: Book, s: SkillId, amount: int): Book {
    var row := Opened(cat, book, s);
    if !row.unlocked then book[s := row] else Pass(cat, cat.gated, book[s := Credit(row, amount)])
  }

  function Active(book: Book): set<SkillId> {
    set s | s in book && book[s].unlocked && book[s].level > 0
  }

  function Each(bonus: nat, n: nat): (x: int)
    requires n > 0
  {
    if bonus / n > 1 then bonus / n else 1
  }

  function Spread(book: Book, amount: int): Book {
    map s | s in book :: if s in Active(book) then Credit(book[s], amount) else book[s]
  }

  function AwardBadgeXp(cat: Catalog, book: Book, bonus: nat): Book {
    if Active(book) == {} then book
    else Pass(cat, cat.gated, Spread(book, Each(bonus, |Active(book)|)))
  }

  datatype Award = ToSkill(skill: SkillId, amount: nat) | FromBadge(bonus: nat) | Unlocks

  function Apply(cat: Catalog, book: Book, award: Award): Book {
    match award
    case ToSkill(s, amount) => AwardXp(cat, book, s, amount)
    case FromBadge(bonus) => AwardBadgeXp(cat, book, bonus)
    case Unlocks => Pass(cat, cat.gated, book)
  }

  function After(cat: Catalog, book: Book, awards: seq<Award>): Book {
    if awards == [] then book else Apply(cat, After(cat, book, awards[..|awards| - 1]), awards[|awards| - 1])
  }

  // ---------------------------------------------------------------- the invariant

  /** The level is the one its XP earns; only a gated skill is locked, and a locked skill has no XP. */
  predicate RowIsHonest(cat: Catalog, s: SkillId, row: Progress) {
    row.xp >= 0 && row.level == LevelOf(row.xp) && (!row.unlocked ==> s in cat.gated && row.xp == 0)
  }

  ghost predicate RowsAreHonest(cat: Catalog, book: Book) {
    forall s | s in book :: RowIsHonest(cat, s, book[s])
  }

  ghost predicate GatesHold(cat: Catalog, book: Book) {
    forall s | s in book && book[s].unlocked && s in cat.gated :: AllMet(book, cat.Needs(s))
  }

  ghost predicate Honest(cat: Catalog, book: Book) {
    RowsAreHonest(cat, book) && GatesHold(cat, book)
  }

  predicate RowRises(a: Progress, b: Progress) {
    a.xp <= b.xp && a.level <= b.level && (a.unlocked ==> b.unlocked)
  }

  /** No row is lost, no XP or level falls, no skill locks again. */
  ghost predicate Rises(book: Book, later: Book) {
    forall s | s in book :: s in later && RowRises(book[s], later[s])
  }

  lemma MetStaysMet(book: Book, later: Book, needs: seq<Prerequisite>)
    requires Rises(book, later) && AllMet(book, needs)
    ensures AllMet(later, needs)
  {
  }

  lemma PassRises(cat: Catalog, book: Book)
    requires NoRepeats(cat.gated)
    ensures Rises(book, Pass(cat, cat.gated, book))
    ensures forall s | s in Pass(cat, cat.gated, book) :: Pass(cat, cat.gated, book)[s].xp == RowOf(book, s).xp
  {
    var later := Pass(cat, cat.gated, book);
    PassResult(cat, cat.gated, book);
    forall s | s in later ensures later[s].xp == RowOf(book, s).xp && (s in book ==> RowRises(book[s], later[s])) {
      if s in cat.gated {
        var k :| 0 <= k < |cat.gated| && cat.gated[k] == s;
        assert later[cat.gated[k]] == RowAfterTurn(cat, cat.gated, book, k);
      }
    }
  }

  lemma PassIsHonest(cat: Catalog, book: Book)
    requires NoRepeats(cat.gated) && Honest(cat, book)
    ensures Honest(cat, Pass(cat, cat.gated, book))
  {
    var later := Pass(cat, cat.gated, book);
    PassResult(cat, cat.gated, book);
    PassRises(cat, book);
    forall s | s in later
      ensures RowIsHonest(cat, s, later[s])
      ensures later[s].unlocked && s in cat.gated ==> AllMet(later, cat.Needs(s))
    {
      if s in cat.gated {
        var k :| 0 <= k < |cat.gated| && cat.gated[k] == s;
        GatedRowIsHonest(cat, book, later, k);
      }
    }
  }

  lemma GatedRowIsHonest(cat: Catalog, book: Book, later: Book, k: nat)
    requires Honest(cat, book) && IsPassResult(cat, cat.gated, book, later) && Rises(book, later) && k < |cat.gated|
    ensures RowIsHonest(cat, cat.gated[k], later[cat.gated[k]])
    ensures later[cat.gated[k]].unlocked ==> AllMet(later, cat.Needs(cat.gated[k]))
  {
    var s := cat.gated[k];
    assert later[s] == RowAfterTurn(cat, cat.gated, book, k);
    if s in book && book[s].unlocked {
      MetStaysMet(book, later, cat.Needs(s));
    } else if later[s].unlocked {
      forall p | p in cat.Needs(s) ensures Met(later, p) {
        assert MetAtTurn(cat.gated, book, k, p);
        if p.skill !in book {
          var j :| 0 <= j < |cat.gated| && cat.gated[j] == p.skill;
          assert later[p.skill] == RowAfterTurn(cat, cat.gated, book, j);
        }
      }
    }
  }

  lemma CreditIsHonest(cat: Catalog, book: Book, later: Book)
    requires Honest(cat, book) && book.Keys <= later.Keys
    requires forall s | s in later :: RowIsHonest(cat, s, later[s]) && (s in book ==> RowRises(book[s], later[s]))
    requires forall s | s in later && s in cat.gated && later[s].unlocked :: s in book && book[s].unlocked
    ensures Honest(cat, later) && Rises(book, later)
  {
    forall s | s in later && later[s].unlocked && s in cat.gated ensures AllMet(later, cat.Needs(s)) {
      MetStaysMet(book, later, cat.Needs(s));
    }
  }

  lemma AwardXpIsHonest(cat: Catalog, book: Book, s: SkillId, amount: nat)
    requires NoRepeats(cat.gated) && Honest(cat, book)
    ensures Honest(cat, AwardXp(cat, book, s, amount)) && Rises(book, AwardXp(cat, book, s, amount))
  {
    var row := Opened(cat, book, s);
    assert RowIsHonest(cat, s, row);
    LevelIsMonotone(row.xp, row.xp + amount);
    var credited := book[s := if row.unlocked then Credit(row, amount) else row];
    CreditIsHonest(cat, book, credited);
    PassIsHonest(cat, credited);
    PassRises(cat, credited);
  }

  lemma BadgeXpIsHonest(cat: Catalog, book: Book, bonus: nat)
    requires NoRepeats(cat.gated) && Honest(cat, book)
    ensures Honest(cat, AwardBadgeXp(cat, book, bonus)) && Rises(book, AwardBadgeXp(cat, book, bonus))
  {
    if Active(book) != {} {
      var amount := Each(bonus, |Active(book)|);
      var credited := Spread(book, amount);
      forall s | s in book ensures RowRises(book[s], credited[s]) && RowIsHonest(cat, s, credited[s]) {
        assert RowIsHonest(cat, s, book[s]);
        LevelIsMonotone(book[s].xp, book[s].xp + amount);
      }
      CreditIsHonest(cat, book, credited);
      PassIsHonest(cat, credited);
      PassRises(cat, credited);
    }
  }

  lemma AwardKeepsTheBook(cat: Catalog, book: Book, award: Award)
    requires NoRepeats(cat.gated) && Honest(cat, book)
    ensures Honest(cat, Apply(cat, book, award)) && Rises(book, Apply(cat, book, award))
  {
    match award
    case ToSkill(s, amount) => AwardXpIsHonest(cat, book, s, amount);
    case FromBadge(bonus) => BadgeXpIsHonest(cat, book, bonus);
    case Unlocks =>
      PassIsHonest(cat, book);
      PassRises(cat, book);
  }

  /** After any awards, from an honest book such as the empty one, the book is honest and nothing in it has fallen. */
  lemma {:induction false} EveryReachableBookIsHonest(cat: Catalog, book: Book, awards: seq<Award>)
    requires NoRepeats(cat.gated) && Honest(cat, book)
    ensures Honest(cat, After(cat, book, awards)) && Rises(book, After(cat, book, awards))
  {
    if awards != [] {
      EveryReachableBookIsHonest(cat, book, awards[..|awards| - 1]);
      AwardKeepsTheBook(cat, After(cat, book, awards[..|awards| - 1]), awards[|awards| - 1]);
    }
  }

  // ---------------------------------------------------------------- the award log

  function XpOf(book: Book, s: SkillId): int {
    if s in book then book[s].xp else 0
  }

  /** What a log credits to one skill. */
  function Logged(rows: seq<Share>, s: SkillId): int {
    if rows == [] then 0
    else Logged(rows[..|rows| - 1], s) + (if rows[|rows| - 1].skill == s then rows[|rows| - 1].xp else 0)
  }

  lemma AwardChangesOneSkill(cat: Catalog, book: Book, s: SkillId, amount: nat)
    requires NoRepeats(cat.gated)
    ensures forall t :: XpOf(AwardXp(cat, book, s, amount), t)
                        == XpOf(book, t) + (if t == s && Opened(cat, book, s).unlocked then amount else 0)
  {
    var row := Opened(cat, book, s);
    PassRises(cat, book[s := Credit(row, amount)]);
    PassResult(cat, cat.gated, book[s := Credit(row, amount)]);
  }

  /** Every share awarded in turn. */
  function AwardAll(cat: Catalog, book: Book, shares: seq<Share>): Book {
    if shares == [] then book
    else
      var last := shares[|shares| - 1];
      AwardXp(cat, AwardAll(cat, book, shares[..|shares| - 1]), last.skill, last.xp)
  }

  /** The skill tables of one user as the award services rewrite them. */
  class Ledger {
    const catalog: Catalog
    var book: Book

    constructor (catalog: Catalog)
      ensures this.catalog == catalog && book == map[]
    {
      this.catalog := catalog;
      book := map[];
    }

    method EvaluateUnlocks() returns (newly: seq<SkillId>)
      requires NoRepeats(catalog.gated)
      modifies this
      ensures book == Pass(catalog, catalog.gated, old(book))
      ensures forall s :: s in newly <==> s in book && book[s].unlocked && !RowOf(old(book), s).unlocked
    {
      newly := [];
      var order := catalog.gated;
      for k := 0 to |order|
        invariant book == Pass(catalog, order[..k], old(book))
        invariant forall s :: s in newly <==> s in book && book[s].unlocked && !RowOf(old(book), s).unlocked
      {
        assert order[..k + 1][..k] == order[..k] && order[..k + 1][k] == order[k];
        var s := order[k];
        assert RowOf(book, s) == RowOf(old(book), s) by { UnvisitedIsUntouched(catalog, order, old(book), k); }
        if s !in book {
          book := book[s := UNTOUCHED];
        } else {
          assert book == book[s := book[s]];
        }
        if !book[s].unlocked && AllMet(book, catalog.Needs(s)) {
          book := book[s := book[s].(unlocked := true)];
          newly := newly + [s];
        }
      }
      assert order[..|order|] == order;
    }

    method AwardXpTo(s: SkillId, amount: nat)
      requires NoRepeats(catalog.gated)
      modifies this
      ensures book == AwardXp(catalog, old(book), s, amount)
    {
      var row := Opened(catalog, book, s);
      book := book[s := row];
      if !row.unlocked {
        return;
      }
      var level := LevelForXp(row.xp + amount);
      book := book[s := Progress(row.xp + amount, level, true)];
      assert book == old(book)[s := Credit(row, amount)];
      var newly := EvaluateUnlocks();
    }

    method AwardBadgeBonus(bonus: nat)
      requires NoRepeats(catalog.gated)
      modifies this
      ensures book == AwardBadgeXp(catalog, old(book), bonus)
    {
      var rest := Active(book);
      if rest == {} {
        return;
      }
      var each := Each(bonus, |rest|);
      while rest != {}
        invariant rest <= Active(old(book)) && book.Keys == old(book).Keys
        invariant forall s | s in book ::
          book[s] == if s in Active(old(book)) - rest then Credit(old(book)[s], each) else old(book)[s]
        decreases rest
      {
        var s :| s in rest;
        var level := LevelForXp(book[s].xp + each);
        book := book[s := book[s].(xp := book[s].xp + each, level := level)];
        rest := rest - {s};
      }
      assert book == Spread(old(book), each);
      var newly := EvaluateUnlocks();
    }

    /**
     * Award every share of the pool in turn; the log is exactly the XP each skill gained, and a locked skill gains
     * none.
     */
    method DistributeLogged(fl: real -> real, tags: seq<Tag>, pool: int) returns (rows: seq<Share>)
      requires NoRepeats(catalog.gated)
      modifies this
      ensures book == AwardAll(catalog, old(book), Shares(fl, tags, pool))
      ensures forall s :: Logged(rows, s) == XpOf(book, s) - XpOf(old(book), s)
      ensures forall row | row in rows :: row in Shares(fl, tags, pool)
    {
      var shares := Shares(fl, tags, pool);
      if shares != [] {
        SharesArePositive(ByWeight(fl, pool, Total(tags)), tags);
      }
      rows := [];
      for i := 0 to |shares|
        invariant book == AwardAll(catalog, old(book), shares[..i])
        invariant forall s :: Logged(rows, s) == XpOf(book, s) - XpOf(old(book), s)
        invariant forall row | row in rows :: row in shares
      {
        var skill, xp := shares[i].skill, shares[i].xp;
        assert shares[i] in shares && shares[..i + 1][..i] == shares[..i];
        AwardChangesOneSkill(catalog, book, skill, xp);
        var before := XpOf(book, skill);
        AwardXpTo(skill, xp);
        var after := XpOf(book, skill);
        if after > before {
          var row := Share(skill, after - before);
          assert row == shares[i];
          assert forall s :: Logged(rows + [row], s) == Logged(rows, s) + (if skill == s then row.xp else 0) by {
            assert (rows + [row])[..|rows|] == rows;
          }
          rows := rows + [row];
        }
      }
      assert shares[..|shares|] == shares;
    }
  }

  lemma UnvisitedIsUntouched(cat: Catalog, order: seq<SkillId>, book: Book, k: nat)
    requires NoRepeats(order) && k < |order|
    ensures RowOf(Pass(cat, order[..k], book), order[k]) == RowOf(book, order[k])
  {
    PassResult(cat, order[..k], book);
    assert order[k] !in order[..k];
  }
}
