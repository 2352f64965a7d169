/** Skill progress: levels from thresholds, gated skills, and what every award keeps. */
module Skills {
  import opened Collections

  type SkillId = nat

  /** `THRESHOLDS[level]` is the XP at which a level begins. */
  const THRESHOLDS: seq<int> := [0, 100, 300, 600, 1000, 1500, 2500]
  const MAX_LEVEL: nat := 6

  datatype Progress = Progress(xp: int, level: int, unlocked: bool)
  datatype Prerequisite = Prerequisite(skill: SkillId, level: int)

  /** `gated` lists the skills locked by default, in primary-key order. */
  datatype Catalog = Catalog(gated: seq<SkillId>, prerequisites: map<SkillId, seq<Prerequisite>>) {
    function Needs(s: SkillId): seq<Prerequisite> {
      if s in prerequisites then prerequisites[s] else []
    }
  }

  type Book = map<SkillId, Progress>

  // ---------------------------------------------------------------- levels

  predicate IsLevelOf(level: nat, xp: int) {
    && level <= MAX_LEVEL
    && (level > 0 ==> THRESHOLDS[level] <= xp)
    && forall l | level < l <= MAX_LEVEL :: xp < THRESHOLDS[l]
  }

  function LevelOf(xp: int): (level: nat)
    ensures IsLevelOf(level, xp)
  {
    HighestReached(xp, MAX_LEVEL)
  }

  function HighestReached(xp: int, top: nat): (level: nat)
    requires top <= MAX_LEVEL && forall l | top < l <= MAX_LEVEL :: xp < THRESHOLDS[l]
    ensures IsLevelOf(level, xp)
  {
    if top == 0 || xp >= THRESHOLDS[top] then top else HighestReached(xp, top - 1)
  }

  lemma LevelIsMonotone(xp: int, more: int)
    requires xp <= more
    ensures LevelOf(xp) <= LevelOf(more)
  {
  }

  /** The upward scan that stops at the first threshold not reached. */
  method LevelForXp(xp: int) returns (level: nat)
    ensures level == LevelOf(xp)
  {
    level := 0;
    var i := 0;
    while i < |THRESHOLDS|
      invariant 0 <= i <= |THRESHOLDS|
      invariant level == (if i == 0 then 0 else i - 1)
      invariant i > 0 ==> THRESHOLDS[i - 1] <= xp
    {
      if xp < THRESHOLDS[i] {
        break;
      }
      level := i;
      i := i + 1;
    }
    LevelIsUnique(xp, level, LevelOf(xp));
  }

  lemma LevelIsUnique(xp: int, a: nat, b: nat)
    requires IsLevelOf(a, xp) && IsLevelOf(b, xp)
    ensures a == b
  {
  }

  // ---------------------------------------------------------------- one unlocking pass

  predicate Met(book: Book, p: Prerequisite) {
    p.skill in book && book[p.skill].level >= p.level
  }

  predicate AllMet(book: Book, needs: seq<Prerequisite>) {
    needs != [] && forall p | p in needs :: Met(book, p)
  }

  const UNTOUCHED := Progress(0, 0, false)

  function RowOf(book: Book, s: SkillId): Progress {
    if s in book then book[s] else UNTOUCHED
  }

  function VisitSkill(cat: Catalog, book: Book, s: SkillId): Book {
    var created := book[s := RowOf(book, s)];
    if created[s].unlocked || !AllMet(created, cat.Needs(s)) then created
    else created[s := created[s].(unlocked := true)]
  }

  function Pass(cat: Catalog, order: seq<SkillId>, book: Book): Book {
    if order == [] then book
    else VisitSkill(cat, Pass(cat, order[..|order| - 1], book), order[|order| - 1])
  }

  /** Met at the turn of the skill in place `k`: rows of gated skills exist only from their own turn on. */
  predicate MetAtTurn(order: seq<SkillId>, book: Book, k: nat, p: Prerequisite)
    requires k < |order|
  {
    if p.skill in book then book[p.skill].level >= p.level else p.skill in order[..k + 1] && p.level <= 0
  }

  predicate OpensAtTurn(cat: Catalog, order: seq<SkillId>, book: Book, k: nat)
    requires k < |order|
  {
    cat.Needs(order[k]) != [] && forall p | p in cat.Needs(order[k]) :: MetAtTurn(order, book, k, p)
  }

  function RowAfterTurn(cat: Catalog, order: seq<SkillId>, book: Book, k: nat): Progress
    requires k < |order|
  {
    var row := RowOf(book, order[k]);
    row.(unlocked := row.unlocked || OpensAtTurn(cat, order, book, k))
  }

  ghost predicate IsPassResult(cat: Catalog, order: seq<SkillId>, book: Book, result: Book) {
    && result.Keys == book.Keys + (set s | s in order)
    && (forall s | s in book && s !in order :: result[s] == book[s])
    && (forall k | 0 <= k < |order| :: result[order[k]] == RowAfterTurn(cat, order, book, k))
  }

  /** What a pass does, skill by skill: the recursion through changing rows has this closed form. */
  lemma {:induction false} PassResult(cat: Catalog, order: seq<SkillId>, book: Book)
    requires NoRepeats(order)
    ensures IsPassResult(cat, order, book, Pass(cat, order, book))
  {
    if order != [] {
      var n := |order| - 1;
      PassResult(cat, order[..n], book);
      LastTurn(cat, order, book, Pass(cat, order[..n], book));
      ResultGrows(cat, order, book, Pass(cat, order[..n], book));
    }
  }

  lemma ResultGrows(cat: Catalog, order: seq<SkillId>, book: Book, before: Book)
    requires order != [] && NoRepeats(order) && IsPassResult(cat, order[..|order| - 1], book, before)
    ensures IsPassResult(cat, order, book, before[order[|order| - 1] := RowAfterTurn(cat, order, book, |order| - 1)])
  {
    var n := |order| - 1;
    var row := RowAfterTurn(cat, order, book, n);
    OneMoreElement(order[..n], order[n]);
    assert order == order[..n] + [order[n]];
    forall k | 0 <= k < n ensures before[order[n] := row][order[k]] == RowAfterTurn(cat, order, book, k) {
      EarlierRowStands(cat, order, book, before, k, row);
    }
  }

  lemma OneMoreElement(front: seq<SkillId>, last: SkillId)
    ensures (set s | s in front + [last]) == (set s | s in front) + {last}
  {
  }

  lemma EarlierRowStands(cat: Catalog, order: seq<SkillId>, book: Book, before: Book, k: nat, row: Progress)
    requires k < |order| - 1 && NoRepeats(order) && IsPassResult(cat, order[..|order| - 1], book, before)
    ensures order[k] in before && before[order[|order| - 1] := row][order[k]] == RowAfterTurn(cat, order, book, k)
  {
  }

  lemma LastTurn(cat: Catalog, order: seq<SkillId>, book: Book, before: Book)
    requires order != [] && NoRepeats(order) && IsPassResult(cat, order[..|order| - 1], book, before)
    ensures var s := order[|order| - 1];
            VisitSkill(cat, before, s) == before[s := RowAfterTurn(cat, order, book, |order| - 1)]
  {
  }

  // ---------------------------------------------------------------- when one pass is enough

  /** Met once every gated skill has its row. */
  predicate MetAtEnd(order: seq<SkillId>, book: Book, p: Prerequisite) {
    if p.skill in book then book[p.skill].level >= p.level else p.skill in order && p.level <= 0
  }

  /** A still locked skill whose prerequisites all hold, but one of them only through a row created after its turn. */
  predicate ComesTooEarly(cat: Catalog, order: seq<SkillId>, book: Book, k: nat)
    requires k < |order|
  {
    var needs := cat.Needs(order[k]);
    && !RowOf(book, order[k]).unlocked
    && needs != []
    && (forall p | p in needs :: MetAtEnd(order, book, p))
    && (exists p | p in needs :: p.skill !in book && p.skill !in order[..k + 1])
  }

  lemma RowsAfterPass(cat: Catalog, order: seq<SkillId>, book: Book, p: Prerequisite)
    requires NoRepeats(order)
    ensures Met(Pass(cat, order, book), p) == MetAtEnd(order, book, p)
  {
    PassResult(cat, order, book);
    if p.skill in order {
      var k :| 0 <= k < |order| && order[k] == p.skill;
      assert Pass(cat, order, book)[order[k]] == RowAfterTurn(cat, order, book, k);
    }
  }

  lemma SecondTurn(cat: Catalog, order: seq<SkillId>, book: Book, k: nat)
    requires NoRepeats(order) && k < |order|
    ensures var once := Pass(cat, order, book);
            order[k] in once
              && (RowAfterTurn(cat, order, once, k) == once[order[k]] <==> !ComesTooEarly(cat, order, book, k))
  {
    var once := Pass(cat, order, book);
    PassResult(cat, order, book);
    forall p ensures MetAtTurn(order, once, k, p) == MetAtEnd(order, book, p) {
      RowsAfterPass(cat, order, book, p);
    }
    assert once[order[k]] == RowAfterTurn(cat, order, book, k);
    assert forall p :: MetAtTurn(order, book, k, p)
                       <==> MetAtEnd(order, book, p) && !(p.skill !in book && p.skill !in order[..k + 1]);
  }

  /** One pass is a fixpoint exactly when no locked skill comes too early. */
  lemma OnePassIsEnoughExactlyWhen(cat: Catalog, order: seq<SkillId>, book: Book)
    requires NoRepeats(order)
    ensures var once := Pass(cat, order, book);
            Pass(cat, order, once) == once <==> forall k | 0 <= k < |order| :: !ComesTooEarly(cat, order, book, k)
  {
    var once := Pass(cat, order, book);
    var twice := Pass(cat, order, once);
    PassResult(cat, order, book);
    PassResult(cat, order, once);
    forall k | 0 <= k < |order| ensures twice[order[k]] == once[order[k]] <==> !ComesTooEarly(cat, order, book, k) {
      SecondTurn(cat, order, book, k);
    }
    assert twice.Keys == once.Keys;
  }

  predicate LevelsArePositive(cat: Catalog) {
    forall s | s in cat.prerequisites :: forall p | p in cat.prerequisites[s] :: p.level >= 1
  }

  /** With required levels of at least one, one pass is a fixpoint. */
  lemma PositiveLevelsNeedOnePass(cat: Catalog, order: seq<SkillId>, book: Book)
    requires LevelsArePositive(cat) && NoRepeats(order)
    ensures Pass(cat, order, Pass(cat, order, book)) == Pass(cat, order, book)
  {
    OnePassIsEnoughExactlyWhen(cat, order, book);
  }

  lemma SameTurn(cat: Catalog, order: seq<SkillId>, other: seq<SkillId>, book: Book, i: nat, j: nat)
    requires LevelsArePositive(cat) && i < |order| && j < |other| && order[i] == other[j]
    ensures RowAfterTurn(cat, order, book, i) == RowAfterTurn(cat, other, book, j)
  {
  }

  /** With required levels of at least one, the order of the pass does not matter. */
  lemma OrderOfPassIsIrrelevant(cat: Catalog, order: seq<SkillId>, other: seq<SkillId>, book: Book)
    requires LevelsArePositive(cat) && NoRepeats(order) && NoRepeats(other)
    requires forall s :: s in order <==> s in other
    ensures Pass(cat, order, book) == Pass(cat, other, book)
  {
    var a, b := Pass(cat, order, book), Pass(cat, other, book);
    PassResult(cat, order, book);
    PassResult(cat, other, book);
    forall s | s in order ensures a[s] == b[s] {
      var i :| 0 <= i < |order| && order[i] == s;
      var j :| 0 <= j < |other| && other[j] == s;
      SameTurn(cat, order, other, book, i, j);
    }
    assert a.Keys == b.Keys;
  }

  /** A required level of zero can need a second pass: skill 1 waits for the row of skill 2. */
  lemma ZeroLevelCanNeedTwoPasses()
    ensures var cat := Catalog([1, 2], map[1 := [Prerequisite(2, 0)]]);
            Pass(cat, cat.gated, Pass(cat, cat.gated, map[])) != Pass(cat, cat.gated, map[])
  {
    var cat := Catalog([1, 2], map[1 := [Prerequisite(2, 0)]]);
    assert ComesTooEarly(cat, cat.gated, map[], 0) by {
      assert Prerequisite(2, 0) in cat.Needs(1) && cat.gated[..1] == [1];
    }
    OnePassIsEnoughExactlyWhen(cat, cat.gated, map[]);
  }
}
