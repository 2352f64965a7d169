/** Grade and journal saving for one author: replay by save ID, corrections, and rewards, over whole runs. */
module Saves {
  import opened Options
  import opened GradeMarks

  type EntryId = nat
  type SaveId = nat
  type Day = nat

  datatype Kind = Grade | Journal | Other

  /** What the fingerprint is taken of; distinct submissions have distinct fingerprints. */
  datatype Digest =
    | GradeDigest(result: PlainResult, reflection: string, day: Day, private: bool)
    | JournalDigest(title: string, summary: string, private: bool)

  datatype Content = GradeContent(result: PlainResult) | TextContent(title: string)

  datatype Reward = NoReward | DailyLimit(day: Day) | Rewarded(day: Day)

  /** `digest` and `firstDay` belong to the save request; the fields after them can be corrected. */
  datatype Entry = Entry(
    kind: Kind, saveId: Option<SaveId>, digest: Option<Digest>, firstDay: Option<Day>, reward: Reward,
    content: Content, text: string, day: Day, private: bool)

  /** `paid` holds the days whose writing coins were paid. */
  datatype Book = Book(
    entries: map<EntryId, Entry>, next: EntryId, counter: map<Day, nat>, paid: set<Day>, coins: nat)

  const EMPTY_BOOK := Book(map[], 0, map[], {}, 0)

  datatype GradeSave = GradeSave(saveId: SaveId, result: Result, reflection: string, day: Option<Day>, private: bool)

  datatype JournalSave = JournalSave(saveId: Option<SaveId>, title: string, summary: string, day: Option<Day>,
      private: bool)

  datatype Response =
    | Created(id: EntryId)
    | Replayed(id: EntryId)
    | Updated(id: EntryId)
    | Denied
    | Invalid
    | Conflict
    | AlreadyExists(id: EntryId)
    | Missing

  datatype Rules = Rules(
    fold: string -> string, space: char -> bool, dateTitle: Day -> string, isChild: bool, coinAmount: nat)

  // ---------------------------------------------------------------- text

  function DropSpaces(rules: Rules, s: string): string {
    if s != "" && rules.space(s[0]) then DropSpaces(rules, s[1..]) else s
  }

  function DropLastSpaces(rules: Rules, s: string): string {
    if s != "" && rules.space(s[|s| - 1]) then DropLastSpaces(rules, s[..|s| - 1]) else s
  }

  function Strip(rules: Rules, s: string): string {
    DropLastSpaces(rules, DropSpaces(rules, s))
  }

  predicate IsBlank(rules: Rules, title: string, summary: string) {
    Strip(rules, title) == "" && Strip(rules, summary) == ""
  }

  const TITLE_LIMIT := 160
  const BODY_TITLE_LIMIT := 60

  function First(s: string, n: nat): (r: string)
    ensures |r| <= n && r <= s
  {
    if |s| <= n then s else s[..n]
  }

  /** The title as given, or else the beginning of the text, or else the date. */
  function Titled(rules: Rules, title: string, text: string, day: Day): string {
    var given, body := Strip(rules, title), Strip(rules, text);
    if given != "" then First(given, TITLE_LIMIT)
    else if body == "" then rules.dateTitle(day)
    else if |body| <= BODY_TITLE_LIMIT then body
    else DropLastSpaces(rules, First(body, BODY_TITLE_LIMIT)) + "\U{2026}"
  }

  /** An entry with anything to say has a title that shows: its own, or one made of its text. */
  lemma TitleShows(rules: Rules, title: string, text: string, day: Day)
    requires !IsBlank(rules, title, text)
    ensures 0 < |Titled(rules, title, text, day)| <= TITLE_LIMIT
    ensures Strip(rules, title) != "" ==> Titled(rules, title, text, day) <= Strip(rules, title)
  {
    var body := Strip(rules, text);
    DroppingShortens(rules, First(body, BODY_TITLE_LIMIT));
  }

  lemma {:induction false} DroppingShortens(rules: Rules, s: string)
    ensures |DropLastSpaces(rules, s)| <= |s|
  {
    if s != "" {
      DroppingShortens(rules, s[..|s| - 1]);
    }
  }

  // ---------------------------------------------------------------- lookups

  predicate IsSavedAs(b: Book, saveId: SaveId, id: EntryId) {
    id in b.entries && b.entries[id].saveId == Some(saveId)
  }

  function FindSave(b: Book, saveId: SaveId): Option<EntryId> {
    FindSaveBelow(b, saveId, b.next)
  }

  function FindSaveBelow(b: Book, saveId: SaveId, top: nat): (found: Option<EntryId>)
    ensures found.Some? ==> found.value < top && IsSavedAs(b, saveId, found.value)
    ensures found.None? ==> forall id: nat | id < top :: !IsSavedAs(b, saveId, id)
  {
    if top == 0 then None
    else if IsSavedAs(b, saveId, top - 1) then Some(top - 1)
    else FindSaveBelow(b, saveId, top - 1)
  }

  predicate IsJournalOf(b: Book, day: Day, id: EntryId) {
    id in b.entries && b.entries[id].kind == Journal && b.entries[id].day == day
  }

  function FindJournalBelow(b: Book, day: Day, top: nat): (found: Option<EntryId>)
    ensures found.Some? ==> found.value < top && IsJournalOf(b, day, found.value)
    ensures found.None? ==> forall id: nat | id < top :: !IsJournalOf(b, day, id)
  {
    if top == 0 then None
    else if IsJournalOf(b, day, top - 1) then Some(top - 1)
    else FindJournalBelow(b, day, top - 1)
  }

  function Count(b: Book, day: Day): nat {
    if day in b.counter then b.counter[day] else 0
  }

  function Added(b: Book, entry: Entry): Book {
    b.(entries := b.entries[b.next := entry], next := b.next + 1)
  }

  // ---------------------------------------------------------------- grades

  predicate IsAcceptable(rules: Rules, save: GradeSave, today: Day) {
    (save.day.Some? ==> save.day.value <= today) && Normalized(save.result, rules.fold).Some?
  }

  /** An omitted date on a known save ID means the date of the original request. */
  function GradeDay(b: Book, save: GradeSave, today: Day): Day {
    var found := FindSave(b, save.saveId);
    if save.day.Some? then save.day.value
    else if found.Some? && b.entries[found.value].firstDay.Some? then b.entries[found.value].firstDay.value
    else today
  }

  function DigestOfGrade(rules: Rules, save: GradeSave, day: Day): Digest
    requires Normalized(save.result, rules.fold).Some?
  {
    GradeDigest(Normalized(save.result, rules.fold).value, save.reflection, day, save.private)
  }

  function WriteGrade(rules: Rules, b: Book, save: GradeSave, today: Day): (Book, Response) {
    if !rules.isChild then (b, Denied)
    else if !IsAcceptable(rules, save, today) then (b, Invalid)
    else
      var day := GradeDay(b, save, today);
      var digest := DigestOfGrade(rules, save, day);
      match FindSave(b, save.saveId)
      case Some(id) =>
        if b.entries[id].kind == Grade && b.entries[id].digest == Some(digest) then (b, Replayed(id)) else (b, Conflict)
      case None =>
        var reward := if Count(b, today) == 0 then Rewarded(today) else DailyLimit(today);
        var entry := Entry(Grade, Some(save.saveId), Some(digest), Some(day), reward,
                           GradeContent(digest.result), save.reflection, day, save.private);
        (Added(b, entry).(counter := b.counter[today := Count(b, today) + 1]), Created(b.next))
  }

  /** A correction names only what it changes; `namesSave` tells that it carries a save ID. */
  datatype Correction = Correction(
    mark: MarkFix, report: Option<ReportFix>, namesSave: bool,
    reflection: Option<string>, day: Option<Day>, private: Option<bool>)

  function Or<T>(o: Option<T>, default: T): T {
    if o.Some? then o.value else default
  }

  /** The stored result after the correction; None where the serializer refuses it. */
  function Corrected(rules: Rules, content: Content, fix: Correction): Option<PlainResult> {
    if content.TextContent? then None
    else
      var previous := content.result;
      if previous.PlainIndividual? then
        if fix.report.Some? then None else CorrectedIndividual(previous, fix.mark)
      else if fix.mark != NO_MARK_FIX then None
      else if fix.report.None? then Some(previous)
      else CorrectedReport(previous, fix.report.value, rules.fold)
  }

  function UpdateGrade(rules: Rules, b: Book, id: EntryId, fix: Correction, today: Day): (Book, Response) {
    if !rules.isChild then (b, Denied)
    else if id !in b.entries || b.entries[id].kind != Grade then (b, Missing)
    else
      var e := b.entries[id];
      var result := Corrected(rules, e.content, fix);
      if (fix.day.Some? && fix.day.value > today) || fix.namesSave || result.None? then (b, Invalid)
      else
        var later := e.(content := GradeContent(result.value), text := Or(fix.reflection, e.text),
                        day := Or(fix.day, e.day), private := Or(fix.private, e.private));
        (b.(entries := b.entries[id := later]), Updated(id))
  }

  // ---------------------------------------------------------------- journals

  function DigestOfJournal(rules: Rules, save: JournalSave): Digest {
    JournalDigest(Strip(rules, save.title), Strip(rules, save.summary), save.private)
  }

  function WriteJournal(rules: Rules, b: Book, save: JournalSave, today: Day): (Book, Response) {
    if IsBlank(rules, save.title, save.summary) then (b, Invalid)
    else
      var day := Or(save.day, today);
      var digest := DigestOfJournal(rules, save);
      var found := if save.saveId.Some? then FindSave(b, save.saveId.value) else None;
      if found.Some? then
        if b.entries[found.value].kind == Journal && b.entries[found.value].digest == Some(digest)
        then (b, Replayed(found.value)) else (b, Conflict)
      else
        match FindJournalBelow(b, day, b.next)
        case Some(id) => (b, AlreadyExists(id))
        case None =>
          var entry := Entry(Journal, save.saveId, Some(digest), None, Rewarded(day),
                             TextContent(Titled(rules, save.title, save.summary, day)), save.summary, day,
                               save.private);
          (Paid(rules, Added(b, entry), day), Created(b.next))
  }

  /** The flat writing coins of a day, shared with other clients. */
  function Paid(rules: Rules, b: Book, day: Day): Book {
    if day in b.paid then b else b.(paid := b.paid + {day}, coins := b.coins + rules.coinAmount)
  }

  datatype TextEdit = TextEdit(title: Option<string>, summary: Option<string>, private: Option<bool>)

  function UpdateJournal(rules: Rules, b: Book, id: EntryId, edit: TextEdit, today: Day): (Book, Response) {
    if id !in b.entries || b.entries[id].kind != Journal then (b, Denied)
    else
      var e := b.entries[id];
      var changesText := edit.title.Some? || edit.summary.Some?;
      var title := Or(edit.title, if e.content.TextContent? then e.content.title else "");
      var summary := Or(edit.summary, e.text);
      if changesText && e.day != today then (b, Denied)
      else if changesText && IsBlank(rules, title, summary) then (b, Invalid)
      else
        var retold :=
          if changesText then e.(content := TextContent(Titled(rules, title, summary, e.day)), text := summary) else e;
        (b.(entries := b.entries[id := retold.(private := Or(edit.private, e.private))]), Updated(id))
  }

  // ---------------------------------------------------------------- runs

  datatype Request =
    | SaveGrade(grade: GradeSave)
    | CorrectGrade(id: EntryId, fix: Correction)
    | SaveJournal(journal: JournalSave)
    | EditJournal(id: EntryId, edit: TextEdit)
    | AddOther(saveId: Option<SaveId>, day: Day)
    | DeleteOther(id: EntryId)
    | PayWriting(day: Day)

  datatype Event = Event(request: Request, today: Day)

  function Do(rules: Rules, b: Book, e: Event): (Book, Response) {
    match e.request
    case SaveGrade(save) => WriteGrade(rules, b, save, e.today)
    case CorrectGrade(id, fix) => UpdateGrade(rules, b, id, fix, e.today)
    case SaveJournal(save) => WriteJournal(rules, b, save, e.today)
    case EditJournal(id, edit) => UpdateJournal(rules, b, id, edit, e.today)
    case AddOther(saveId, day) =>
      if saveId.Some? && FindSave(b, saveId.value).Some? then (b, Conflict)
      else (Added(b, Entry(Other, saveId, None, None, NoReward, TextContent(""), "", day, true)), Created(b.next))
    case DeleteOther(id) =>
      if id in b.entries && b.entries[id].kind == Other then (b.(entries := b.entries - {id}), Updated(id))
        else (b, Denied)
    case PayWriting(day) => (Paid(rules, b, day), Missing)
  }

  function After(rules: Rules, b: Book, events: seq<Event>): Book {
    if events == [] then b else Do(rules, After(rules, b, events[..|events| - 1]), events[|events| - 1]).0
  }

  // ---------------------------------------------------------------- invariants

  ghost predicate IdsAreKnown(b: Book) {
    forall id | id in b.entries :: id < b.next
  }

  ghost predicate SaveIdsAreUnique(b: Book) {
    forall x, y | x in b.entries && y in b.entries && b.entries[x].saveId.Some?
      && b.entries[x].saveId == b.entries[y].saveId :: x == y
  }

  ghost predicate JournalDaysAreUnique(b: Book) {
    forall x, y | x in b.entries && y in b.entries && b.entries[x].kind == Journal && b.entries[y].kind == Journal
      && b.entries[x].day == b.entries[y].day :: x == y
  }

  ghost predicate OneRewardPerDay(b: Book) {
    && (forall x, y | x in b.entries && y in b.entries && b.entries[x].kind == Grade && b.entries[y].kind == Grade
        && b.entries[x].reward.Rewarded? && b.entries[x].reward == b.entries[y].reward :: x == y)
    && (forall x | x in b.entries && b.entries[x].kind == Grade && b.entries[x].reward.Rewarded? ::
      Count(b, b.entries[x].reward.day) > 0)
  }

  ghost predicate CoinsAreFlat(rules: Rules, b: Book) {
    b.coins == |b.paid| * rules.coinAmount
  }

  ghost predicate Sound(rules: Rules, b: Book) {
    IdsAreKnown(b) && SaveIdsAreUnique(b) && JournalDaysAreUnique(b) && OneRewardPerDay(b) && CoinsAreFlat(rules, b)
  }

  lemma PayIsSound(rules: Rules, b: Book, day: Day)
    requires Sound(rules, b)
    ensures Sound(rules, Paid(rules, b, day))
  {
    if day !in b.paid {
      OneMore(|b.paid|, rules.coinAmount);
      assert |b.paid + {day}| == |b.paid| + 1;
    }
  }

  lemma OneMore(n: nat, amount: nat)
    ensures (n + 1) * amount == n * amount + amount
  {
  }

  lemma NewSaveIsUnique(b: Book, entry: Entry)
    requires IdsAreKnown(b) && SaveIdsAreUnique(b)
    requires entry.saveId.Some? ==> FindSave(b, entry.saveId.value).None?
    ensures SaveIdsAreUnique(Added(b, entry))
  {
    if entry.saveId.Some? {
      forall id | id in b.entries ensures b.entries[id].saveId != entry.saveId {
        assert !IsSavedAs(b, entry.saveId.value, id);
      }
    }
  }

  lemma NewDayIsUnique(b: Book, entry: Entry)
    requires IdsAreKnown(b) && JournalDaysAreUnique(b)
    requires entry.kind == Journal ==> FindJournalBelow(b, entry.day, b.next).None?
    ensures JournalDaysAreUnique(Added(b, entry))
  {
    if entry.kind == Journal {
      forall id | id in b.entries ensures !IsJournalOf(b, entry.day, id) {
        assert id < b.next;
      }
    }
  }

  lemma PlainEntryIsSound(rules: Rules, b: Book, entry: Entry)
    requires Sound(rules, b) && entry.kind != Grade
    requires entry.saveId.Some? ==> FindSave(b, entry.saveId.value).None?
    requires entry.kind == Journal ==> FindJournalBelow(b, entry.day, b.next).None?
    ensures Sound(rules, Added(b, entry))
  {
    NewSaveIsUnique(b, entry);
    NewDayIsUnique(b, entry);
  }

  lemma NewRewardIsFirst(b: Book, entry: Entry, today: Day)
    requires IdsAreKnown(b) && OneRewardPerDay(b) && entry.kind == Grade
    requires entry.reward == if Count(b, today) == 0 then Rewarded(today) else DailyLimit(today)
    ensures OneRewardPerDay(Added(b, entry).(counter := b.counter[today := Count(b, today) + 1]))
  {
  }

  lemma WriteGradeIsSound(rules: Rules, b: Book, save: GradeSave, today: Day)
    requires Sound(rules, b)
    ensures Sound(rules, WriteGrade(rules, b, save, today).0)
  {
    var later := WriteGrade(rules, b, save, today);
    if later.1.Created? {
      var entry := later.0.entries[b.next];
      NewSaveIsUnique(b, entry);
      NewDayIsUnique(b, entry);
      NewRewardIsFirst(b, entry, today);
    }
  }

  lemma WriteJournalIsSound(rules: Rules, b: Book, save: JournalSave, today: Day)
    requires Sound(rules, b)
    ensures Sound(rules, WriteJournal(rules, b, save, today).0)
  {
    var later := WriteJournal(rules, b, save, today);
    if later.1.Created? {
      var entry := later.0.entries[b.next];
      PlainEntryIsSound(rules, b, entry);
      PayIsSound(rules, Added(b, entry), entry.day);
    }
  }

  lemma EditIsSound(rules: Rules, b: Book, id: EntryId, entry: Entry)
    requires Sound(rules, b) && id in b.entries && SameSave(b.entries[id], entry)
    requires entry.kind == Journal ==> entry.day == b.entries[id].day
    ensures Sound(rules, b.(entries := b.entries[id := entry]))
  {
  }

  lemma DropIsSound(rules: Rules, b: Book, id: EntryId)
    requires Sound(rules, b)
    ensures Sound(rules, b.(entries := b.entries - {id}))
  {
  }

  lemma StepIsSound(rules: Rules, b: Book, e: Event)
    requires Sound(rules, b)
    ensures Sound(rules, Do(rules, b, e).0)
  {
    var later := Do(rules, b, e).0;
    match e.request
    case SaveGrade(save) => WriteGradeIsSound(rules, b, save, e.today);
    case SaveJournal(save) => WriteJournalIsSound(rules, b, save, e.today);
    case CorrectGrade(id, fix) =>
      if later != b {
        EditIsSound(rules, b, id, later.entries[id]);
      }
    case EditJournal(id, edit) =>
      if later != b {
        EditIsSound(rules, b, id, later.entries[id]);
      }
    case AddOther(saveId, day) =>
      if later != b {
        PlainEntryIsSound(rules, b, later.entries[b.next]);
      }
    case DeleteOther(id) => DropIsSound(rules, b, id);
    case PayWriting(day) => PayIsSound(rules, b, day);
  }

  /**
   * Over every run: save IDs name one entry, a day has one journal, at most one grade of a save-day
   * is rewarded, and writing coins are the flat amount times the days paid.
   */
  lemma {:induction false} EveryRunIsSound(rules: Rules, b: Book, events: seq<Event>)
    requires Sound(rules, b)
    ensures Sound(rules, After(rules, b, events))
  {
    if events != [] {
      EveryRunIsSound(rules, b, events[..|events| - 1]);
      StepIsSound(rules, After(rules, b, events[..|events| - 1]), events[|events| - 1]);
    }
  }

  // ---------------------------------------------------------------- what corrections keep

  predicate IsSaved(e: Entry) {
    e.kind != Other
  }

  /** The part of an entry that belongs to its save request. */
  predicate SameSave(a: Entry, b: Entry) {
    a.kind == b.kind && a.saveId == b.saveId && a.digest == b.digest && a.firstDay == b.firstDay && a.reward == b.reward
  }

  lemma StepKeepsSaves(rules: Rules, b: Book, e: Event, id: EntryId)
    requires IdsAreKnown(b) && id in b.entries && IsSaved(b.entries[id])
    ensures id in Do(rules, b, e).0.entries && SameSave(b.entries[id], Do(rules, b, e).0.entries[id])
  {
  }

  lemma {:induction false} RunKeepsSaves(rules: Rules, b: Book, events: seq<Event>, id: EntryId)
    requires Sound(rules, b) && id in b.entries && IsSaved(b.entries[id])
    ensures id in After(rules, b, events).entries && SameSave(b.entries[id], After(rules, b, events).entries[id])
  {
    if events != [] {
      EveryRunIsSound(rules, b, events[..|events| - 1]);
      RunKeepsSaves(rules, b, events[..|events| - 1], id);
      StepKeepsSaves(rules, After(rules, b, events[..|events| - 1]), events[|events| - 1], id);
    }
  }

  lemma FoundAgain(rules: Rules, b: Book, saveId: SaveId, id: EntryId)
    requires Sound(rules, b) && IsSavedAs(b, saveId, id)
    ensures FindSave(b, saveId) == Some(id)
  {
  }

  // ---------------------------------------------------------------- retries

  /** The retry says what the original said: the same result however spelled, and the same day or none. */
  predicate SameGradeSave(first: GradeSave, day: Day, retry: GradeSave) {
    && SameResult(first.result, retry.result) && first.reflection == retry.reflection && first.private == retry.private
    && (retry.day.Some? ==> retry.day.value == day)
  }

  /**
   * A save under an ID already used for a grade never changes anything: it returns the original
   * entry exactly when it is the same submission, whatever was corrected or added meanwhile.
   */
  lemma GradeRetry(rules: Rules, b: Book, first: GradeSave, today: Day, events: seq<Event>, retry: GradeSave,
      later: Day)
    requires Sound(rules, b) && WriteGrade(rules, b, first, today).1.Created?
    requires retry.saveId == first.saveId && IsAcceptable(rules, retry, later)
    ensures var saved := WriteGrade(rules, b, first, today);
      var book := After(rules, saved.0, events);
      WriteGrade(rules, book, retry, later)
        == (book, if SameGradeSave(first, GradeDay(b, first, today), retry) then Replayed(saved.1.id) else Conflict)
  {
    var saved := WriteGrade(rules, b, first, today);
    var id := saved.1.id;
    var book := After(rules, saved.0, events);
    WriteGradeIsSound(rules, b, first, today);
    RunKeepsSaves(rules, saved.0, events, id);
    EveryRunIsSound(rules, saved.0, events);
    FoundAgain(rules, book, first.saveId, id);
    ResultsAlikeExactlyWhen(first.result, retry.result, rules.fold);
  }

  /**
   * In particular a retry at any later time, midnight or not, with its numbers respelled or not: it returns the
   * original entry exactly when its own digits fit the fields, as those of an exact retry do.
   */
  lemma ExactGradeRetry(rules: Rules, b: Book, first: GradeSave, today: Day, events: seq<Event>, retry: GradeSave,
      later: Day)
    requires Sound(rules, b) && WriteGrade(rules, b, first, today).1.Created? && today <= later
    requires retry.saveId == first.saveId && retry.day == first.day
    requires SameResult(first.result, retry.result) && first.reflection == retry.reflection
    requires first.private == retry.private
    ensures var saved := WriteGrade(rules, b, first, today);
      var book := After(rules, saved.0, events);
      WriteGrade(rules, book, retry, later)
        == (book, if NumbersFit(retry.result) then Replayed(saved.1.id) else Invalid)
    ensures retry.result == first.result ==> NumbersFit(retry.result)
  {
    RespellingIsAcceptedExactlyWhen(first.result, retry.result, rules.fold);
    if NumbersFit(retry.result) {
      GradeRetry(rules, b, first, today, events, retry, later);
    }
  }

  predicate SameJournalSave(rules: Rules, first: JournalSave, retry: JournalSave) {
    && Strip(rules, first.title) == Strip(rules, retry.title)
      && Strip(rules, first.summary) == Strip(rules, retry.summary)
    && first.private == retry.private
  }

  /** The same for a journal save, on the same day or a later one; its date takes no part. */
  lemma JournalRetry(rules: Rules, b: Book, first: JournalSave, today: Day, events: seq<Event>, retry: JournalSave,
      later: Day)
    requires Sound(rules, b) && WriteJournal(rules, b, first, today).1.Created? && first.saveId.Some?
    requires retry.saveId == first.saveId && !IsBlank(rules, retry.title, retry.summary)
    ensures var saved := WriteJournal(rules, b, first, today);
      var book := After(rules, saved.0, events);
      WriteJournal(rules, book, retry, later)
        == (book, if SameJournalSave(rules, first, retry) then Replayed(saved.1.id) else Conflict)
  {
    var saved := WriteJournal(rules, b, first, today);
    var id := saved.1.id;
    WriteJournalIsSound(rules, b, first, today);
    RunKeepsSaves(rules, saved.0, events, id);
    EveryRunIsSound(rules, saved.0, events);
    FoundAgain(rules, After(rules, saved.0, events), first.saveId.value, id);
  }

  /** A save ID used by a grade is refused to a journal, from then on. */
  lemma GradeIdRefusesJournals(rules: Rules, b: Book, grade: GradeSave, journal: JournalSave, today: Day,
                               events: seq<Event>, later: Day)
    requires Sound(rules, b) && WriteGrade(rules, b, grade, today).1.Created?
    requires journal.saveId == Some(grade.saveId) && !IsBlank(rules, journal.title, journal.summary)
    ensures var book := After(rules, WriteGrade(rules, b, grade, today).0, events);
      WriteJournal(rules, book, journal, later) == (book, Conflict)
  {
    var saved := WriteGrade(rules, b, grade, today);
    WriteGradeIsSound(rules, b, grade, today);
    RunKeepsSaves(rules, saved.0, events, saved.1.id);
    EveryRunIsSound(rules, saved.0, events);
    FoundAgain(rules, After(rules, saved.0, events), grade.saveId, saved.1.id);
  }

  lemma JournalIdRefusesGrades(rules: Rules, b: Book, journal: JournalSave, grade: GradeSave, today: Day,
                               events: seq<Event>, later: Day)
    requires Sound(rules, b) && WriteJournal(rules, b, journal, today).1.Created? && rules.isChild
    requires journal.saveId == Some(grade.saveId) && IsAcceptable(rules, grade, later)
    ensures var book := After(rules, WriteJournal(rules, b, journal, today).0, events);
      WriteGrade(rules, book, grade, later) == (book, Conflict)
  {
    var saved := WriteJournal(rules, b, journal, today);
    WriteJournalIsSound(rules, b, journal, today);
    RunKeepsSaves(rules, saved.0, events, saved.1.id);
    EveryRunIsSound(rules, saved.0, events);
    FoundAgain(rules, After(rules, saved.0, events), grade.saveId, saved.1.id);
  }
}
